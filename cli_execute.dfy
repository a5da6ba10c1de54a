/** Command dispatch and validation of the sysdef command line: the parsed
    flags, options and positionals are checked against the declared
    command and turned into the values its action receives. */
module CliExecute {
  import opened Wrappers
  import opened Strings
  import opened Records
  import opened CliParse

  /** A value, or the message of the error that stopped the command line. */
  type Checked<T> = Result<T, string>

  datatype FlagConfig = FlagConfig(name: string, alternatives: seq<string>)
  datatype OptionConfig = OptionConfig(name: string, required: bool, alternatives: seq<string>)
  datatype PositionalConfig = PositionalConfig(name: string, required: bool)

  /** A declared command; `subcommands` is a command map of its own. */
  datatype Command = Command(
    flags: seq<FlagConfig>,
    options: seq<OptionConfig>,
    positional: seq<PositionalConfig>,
    subcommands: Option<Entries<Command>>)

  /** What `executeArgs` ends in: the help text for a command, or a call of
      the command's action with the validated values. */
  datatype Execution =
    | ShowHelp(commandName: string)
    | Invoke(command: Command, options: Entries<Option<string>>, flags: Entries<bool>, positional: Entries<Option<string>>)

  /** `errorOut` throws an `Error` whose message carries this prefix. */
  function ErrorOut<T>(message: string): Checked<T> {
    Err("Error: " + message)
  }

  /** Every name a flag or option answers to, the main name first. */
  function Aliases(name: string, alternatives: seq<string>): seq<string> {
    [name] + alternatives
  }

  /** `args.flags[n]` is truthy. */
  function IsTrue(b: bool): bool { b }

  /** `args.options[n] !== undefined` */
  function Defined(s: string): bool { true }

  /** `n` was given, by the test `present` applies to its value. */
  predicate Given<V>(given: Entries<V>, present: V -> bool, n: string) {
    Get(given, n).Some? && present(Get(given, n).value)
  }

  /** The state of the alias scan for one declaration: the alias found so
      far with its value, and every name used by earlier declarations. */
  datatype Scan<V> = Scan(found: Option<(string, V)>, used: set<string>)

  /** The scan over the aliases of declaration `cname`; `kind` is "Flag" or
      "Option". */
  function ScanAliases<V>(kind: string, given: Entries<V>, present: V -> bool, cname: string, names: seq<string>, st: Scan<V>): Checked<Scan<V>>
    decreases |names|
  {
    if names == [] then Ok(st)
    else
      var n := names[0];
      if !Given(given, present, n) then ScanAliases(kind, given, present, cname, names[1..], st)
      else if st.found.Some? then
        ErrorOut(kind + " '" + cname + "' specified multiple times using different names: '" + st.found.value.0 + "' and '" + n + "'")
      else if n in st.used then ErrorOut(kind + " '" + n + "' specified multiple times")
      else ScanAliases(kind, given, present, cname, names[1..], Scan(Some((n, Get(given, n).value)), st.used + {n}))
  }

  method ScanNames<V>(kind: string, given: Entries<V>, present: V -> bool, cname: string, names: seq<string>, used: set<string>)
    returns (r: Checked<Scan<V>>)
    ensures r == ScanAliases(kind, given, present, cname, names, Scan(None, used))
  {
    var st := Scan(None, used);
    for j := 0 to |names|
      invariant ScanAliases(kind, given, present, cname, names, Scan(None, used)) == ScanAliases(kind, given, present, cname, names[j..], st)
    {
      var n := names[j];
      assert names[j..][0] == n && names[j..][1..] == names[j + 1..];
      if Given(given, present, n) {
        if st.found.Some? {
          return ErrorOut(kind + " '" + cname + "' specified multiple times using different names: '" + st.found.value.0 + "' and '" + n + "'");
        }
        if n in st.used {
          return ErrorOut(kind + " '" + n + "' specified multiple times");
        }
        st := Scan(Some((n, Get(given, n).value)), st.used + {n});
      }
    }
    assert names[|names|..] == [];
    r := Ok(st);
  }

  /** The flag declarations of a command, in order: each one's value is
      whether any of its aliases was given. */
  function CheckFlags(given: Entries<bool>, configs: seq<FlagConfig>, validated: Entries<bool>, used: set<string>)
    : Checked<(Entries<bool>, set<string>)>
    decreases |configs|
  {
    if configs == [] then Ok((validated, used))
    else
      var c := configs[0];
      match ScanAliases("Flag", given, IsTrue, c.name, Aliases(c.name, c.alternatives), Scan(None, used))
      case Err(e) => Err(e)
      case Ok(st) => CheckFlags(given, configs[1..], Put(validated, c.name, st.found.Some?), st.used)
  }

  /** The option declarations of a command, in order: each one's value is
      the value of its alias, and a required one must be given. */
  function CheckOptions(given: Entries<string>, configs: seq<OptionConfig>, validated: Entries<Option<string>>, used: set<string>)
    : Checked<(Entries<Option<string>>, set<string>)>
    decreases |configs|
  {
    if configs == [] then Ok((validated, used))
    else
      var c := configs[0];
      match ScanAliases("Option", given, Defined, c.name, Aliases(c.name, c.alternatives), Scan(None, used))
      case Err(e) => Err(e)
      case Ok(st) =>
        if c.required && st.found.None? then ErrorOut("Required option '" + c.name + "' is missing")
        else CheckOptions(given, configs[1..], Put(validated, c.name, if st.found.Some? then Some(st.found.value.1) else None), st.used)
  }

  /** The first given key that no declaration used. */
  function FirstUnused<V>(given: Entries<V>, used: set<string>): (r: Option<string>)
    ensures r.None? <==> forall i :: 0 <= i < |given| ==> given[i].0 in used
    ensures r.Some? ==> r.value !in used && exists i :: 0 <= i < |given| && given[i].0 == r.value
  {
    if given == [] then None
    else if given[0].0 !in used then Some(given[0].0)
    else
      var r := FirstUnused(given[1..], used);
      assert forall i :: 1 <= i < |given| ==> given[i] == given[1..][i - 1];
      r
  }

  /** `args.positional[i]`, undefined past the end. */
  function PositionalAt(positional: seq<string>, i: nat): (r: Option<string>)
    ensures r.Some? <==> i < |positional|
    ensures r.Some? ==> r.value == positional[i]
  {
    if i < |positional| then Some(positional[i]) else None
  }

  /** The positional declarations of a command from index `i` on: each one
      takes the positional at its index. */
  function CheckPositionals(configs: seq<PositionalConfig>, positional: seq<string>, i: nat, validated: Entries<Option<string>>)
    : Checked<Entries<Option<string>>>
    decreases |configs| - i
  {
    if i >= |configs| then Ok(validated)
    else
      var value := PositionalAt(positional, i);
      if configs[i].required && value.None? then ErrorOut("Required positional argument '" + configs[i].name + "' is missing")
      else CheckPositionals(configs, positional, i + 1, Put(validated, configs[i].name, value))
  }

  /** The validation phases of `executeArgs` for the chosen command, after
      the command name has been taken off the positionals. */
  function Validate(args: ParsedArgs, cmd: Command): Checked<Execution> {
    match CheckFlags(args.flags, cmd.flags, [], {})
    case Err(e) => Err(e)
    case Ok(fs) =>
      var unknownFlag := FirstUnused(args.flags, fs.1);
      if unknownFlag.Some? then ErrorOut("Unknown flag: '" + unknownFlag.value + "'")
      else match CheckOptions(args.options, cmd.options, [], {})
      case Err(e) => Err(e)
      case Ok(os) =>
        var unknownOption := FirstUnused(args.options, os.1);
        if unknownOption.Some? then ErrorOut("Unknown option: '" + unknownOption.value + "'")
        else match CheckPositionals(cmd.positional, args.positional, 0, [])
        case Err(e) => Err(e)
        case Ok(ps) =>
          if |args.positional| > |cmd.positional| then
            ErrorOut("Unexpected positional arguments: " + JoinWith(args.positional[|cmd.positional|..], ", "))
          else Ok(Invoke(cmd, os.0, fs.0, ps))
  }

  /** The help flag, long or short, is set. */
  predicate WantsHelp(args: ParsedArgs) {
    Get(args.flags, "help") == Some(true) || Get(args.flags, "h") == Some(true)
  }

  /** `executeArgs`: the first positional names the command (`_default`
      when there is none); help wins over everything else; a following
      positional naming a subcommand hands over to that subcommand. */
  function Execute(args: ParsedArgs, commands: Entries<Command>): Checked<Execution>
    decreases |args.positional|
  {
    var name := if args.positional == [] then "_default" else args.positional[0];
    var rest := args.(positional := if args.positional == [] then [] else args.positional[1..]);
    match Get(commands, name)
    case None => ErrorOut("Command " + name + " not found")
    case Some(cmd) =>
      if WantsHelp(args) then Ok(ShowHelp(name))
      else if rest.positional != [] && cmd.subcommands.Some? && Get(cmd.subcommands.value, rest.positional[0]).Some? then
        Execute(rest, cmd.subcommands.value)
      else Validate(rest, cmd)
  }

  method ValidateFlags(given: Entries<bool>, configs: seq<FlagConfig>) returns (r: Checked<(Entries<bool>, set<string>)>)
    ensures r == CheckFlags(given, configs, [], {})
  {
    var validated: Entries<bool> := [];
    var used: set<string> := {};
    for k := 0 to |configs|
      invariant CheckFlags(given, configs, [], {}) == CheckFlags(given, configs[k..], validated, used)
    {
      var c := configs[k];
      assert configs[k..][0] == c && configs[k..][1..] == configs[k + 1..];
      var scan := ScanNames("Flag", given, IsTrue, c.name, Aliases(c.name, c.alternatives), used);
      if scan.Err? {
        return Err(scan.error);
      }
      validated := Put(validated, c.name, scan.value.found.Some?);
      used := scan.value.used;
    }
    assert configs[|configs|..] == [];
    r := Ok((validated, used));
  }

  method ValidateOptions(given: Entries<string>, configs: seq<OptionConfig>) returns (r: Checked<(Entries<Option<string>>, set<string>)>)
    ensures r == CheckOptions(given, configs, [], {})
  {
    var validated: Entries<Option<string>> := [];
    var used: set<string> := {};
    for k := 0 to |configs|
      invariant CheckOptions(given, configs, [], {}) == CheckOptions(given, configs[k..], validated, used)
    {
      var c := configs[k];
      assert configs[k..][0] == c && configs[k..][1..] == configs[k + 1..];
      var scan := ScanNames("Option", given, Defined, c.name, Aliases(c.name, c.alternatives), used);
      if scan.Err? {
        return Err(scan.error);
      }
      if c.required && scan.value.found.None? {
        return ErrorOut("Required option '" + c.name + "' is missing");
      }
      validated := Put(validated, c.name, if scan.value.found.Some? then Some(scan.value.found.value.1) else None);
      used := scan.value.used;
    }
    assert configs[|configs|..] == [];
    r := Ok((validated, used));
  }

  /** `for (const k in given) if (!used.has(k)) ...` */
  method FindUnused<V>(given: Entries<V>, used: set<string>) returns (r: Option<string>)
    ensures r == FirstUnused(given, used)
  {
    for i := 0 to |given|
      invariant FirstUnused(given, used) == FirstUnused(given[i..], used)
    {
      assert given[i..][0] == given[i] && given[i..][1..] == given[i + 1..];
      if given[i].0 !in used {
        return Some(given[i].0);
      }
    }
    assert given[|given|..] == [];
    r := None;
  }

  method ValidatePositionals(configs: seq<PositionalConfig>, positional: seq<string>) returns (r: Checked<Entries<Option<string>>>)
    ensures r == CheckPositionals(configs, positional, 0, [])
  {
    var validated: Entries<Option<string>> := [];
    for i := 0 to |configs|
      invariant CheckPositionals(configs, positional, 0, []) == CheckPositionals(configs, positional, i, validated)
    {
      var value := PositionalAt(positional, i);
      if configs[i].required && value.None? {
        return ErrorOut("Required positional argument '" + configs[i].name + "' is missing");
      }
      validated := Put(validated, configs[i].name, value);
    }
    r := Ok(validated);
  }

  /** `executeArgs` up to the call of the command's action. */
  method ExecuteArgs(args: ParsedArgs, commands: Entries<Command>) returns (r: Checked<Execution>)
    ensures r == Execute(args, commands)
    decreases |args.positional|
  {
    var positional := args.positional;
    var name := "_default";
    if positional != [] {
      name := positional[0];
      positional := positional[1..];
    }
    var command := Get(commands, name);
    if command.None? {
      return ErrorOut("Command " + name + " not found");
    }
    var cmd := command.value;
    if Get(args.flags, "help") == Some(true) || Get(args.flags, "h") == Some(true) {
      return Ok(ShowHelp(name));
    }
    var rest := args.(positional := positional);
    if positional != [] && cmd.subcommands.Some? && Get(cmd.subcommands.value, positional[0]).Some? {
      r := ExecuteArgs(rest, cmd.subcommands.value);
      return;
    }
    var flags := ValidateFlags(args.flags, cmd.flags);
    if flags.Err? {
      return Err(flags.error);
    }
    var unknownFlag := FindUnused(args.flags, flags.value.1);
    if unknownFlag.Some? {
      return ErrorOut("Unknown flag: '" + unknownFlag.value + "'");
    }
    var options := ValidateOptions(args.options, cmd.options);
    if options.Err? {
      return Err(options.error);
    }
    var unknownOption := FindUnused(args.options, options.value.1);
    if unknownOption.Some? {
      return ErrorOut("Unknown option: '" + unknownOption.value + "'");
    }
    var validatedPositional := ValidatePositionals(cmd.positional, positional);
    if validatedPositional.Err? {
      return Err(validatedPositional.error);
    }
    if |positional| > |cmd.positional| {
      return ErrorOut("Unexpected positional arguments: " + JoinWith(positional[|cmd.positional|..], ", "));
    }
    r := Ok(Invoke(cmd, options.value.0, flags.value.0, validatedPositional.value));
  }

  /** Some alias in `names` was given. */
  predicate AnyGiven<V>(given: Entries<V>, present: V -> bool, names: seq<string>) {
    exists i :: 0 <= i < |names| && Given(given, present, names[i])
  }

  /** Two aliases in `names`, at different positions, were given. */
  predicate TwoGiven<V>(given: Entries<V>, present: V -> bool, names: seq<string>) {
    exists i, j :: 0 <= i < j < |names| && Given(given, present, names[i]) && Given(given, present, names[j])
  }

  /** A given alias was already found, or was already used. */
  predicate GivenAgain<V>(given: Entries<V>, present: V -> bool, names: seq<string>, st: Scan<V>) {
    exists i :: 0 <= i < |names| && Given(given, present, names[i]) && (st.found.Some? || names[i] in st.used)
  }

  /** The given aliases. */
  function GivenNames<V>(given: Entries<V>, present: V -> bool, names: seq<string>): set<string> {
    set i | 0 <= i < |names| && Given(given, present, names[i]) :: names[i]
  }

  /** The given aliases of a list: those of its head and of its tail. */
  lemma GivenNamesCons<V>(given: Entries<V>, present: V -> bool, names: seq<string>)
    requires names != []
    ensures GivenNames(given, present, names) ==
      (if Given(given, present, names[0]) then {names[0]} else {}) + GivenNames(given, present, names[1..])
  {
    var tail := names[1..];
    forall x | x in GivenNames(given, present, names)
      ensures x in (if Given(given, present, names[0]) then {names[0]} else {}) + GivenNames(given, present, tail)
    {
      var i :| 0 <= i < |names| && Given(given, present, names[i]) && names[i] == x;
      if i > 0 {
        assert tail[i - 1] == x;
      }
    }
    forall x | x in GivenNames(given, present, tail)
      ensures x in GivenNames(given, present, names)
    {
      var i :| 0 <= i < |tail| && Given(given, present, tail[i]) && tail[i] == x;
      assert names[i + 1] == x;
    }
  }

  /** The alias scan fails when two aliases of one declaration were given,
      or a given alias was already used. */
  lemma {:induction false} ScanFailsIf<V>(kind: string, given: Entries<V>, present: V -> bool, cname: string, names: seq<string>, st: Scan<V>)
    requires GivenAgain(given, present, names, st) || TwoGiven(given, present, names)
    ensures ScanAliases(kind, given, present, cname, names, st).Err?
    decreases |names|, 1
  {
    var n := names[0];
    if !Given(given, present, n) {
      ScanFailsIfSkip(kind, given, present, cname, names, st);
    } else if !(st.found.Some? || n in st.used) {
      ScanFailsIfTake(kind, given, present, cname, names, st);
    }
  }

  /** The case of `ScanFailsIf` where the first alias was not given. */
  lemma {:induction false} ScanFailsIfSkip<V>(kind: string, given: Entries<V>, present: V -> bool, cname: string, names: seq<string>, st: Scan<V>)
    requires GivenAgain(given, present, names, st) || TwoGiven(given, present, names)
    requires names != [] && !Given(given, present, names[0])
    ensures ScanAliases(kind, given, present, cname, names, st).Err?
    decreases |names|, 0
  {
    var tail := names[1..];
    if GivenAgain(given, present, names, st) {
      var i :| 0 <= i < |names| && Given(given, present, names[i]) && (st.found.Some? || names[i] in st.used);
      assert i > 0 && tail[i - 1] == names[i];
      assert GivenAgain(given, present, tail, st);
    } else {
      var i, j :| 0 <= i < j < |names| && Given(given, present, names[i]) && Given(given, present, names[j]);
      assert i > 0 && tail[i - 1] == names[i] && tail[j - 1] == names[j];
      assert TwoGiven(given, present, tail);
    }
    assert ScanAliases(kind, given, present, cname, names, st) == ScanAliases(kind, given, present, cname, tail, st);
    ScanFailsIf(kind, given, present, cname, tail, st);
  }

  /** The case of `ScanFailsIf` where the first alias was given and is found. */
  lemma {:induction false} ScanFailsIfTake<V>(kind: string, given: Entries<V>, present: V -> bool, cname: string, names: seq<string>, st: Scan<V>)
    requires GivenAgain(given, present, names, st) || TwoGiven(given, present, names)
    requires names != [] && Given(given, present, names[0]) && st.found.None? && names[0] !in st.used
    ensures ScanAliases(kind, given, present, cname, names, st).Err?
    decreases |names|, 0
  {
    var n := names[0];
    var tail := names[1..];
    var st' := Scan(Some((n, Get(given, n).value)), st.used + {n});
    if GivenAgain(given, present, names, st) {
      var i :| 0 <= i < |names| && Given(given, present, names[i]) && (st.found.Some? || names[i] in st.used);
      assert i > 0 && tail[i - 1] == names[i];
      assert GivenAgain(given, present, tail, st');
    } else {
      var i, j :| 0 <= i < j < |names| && Given(given, present, names[i]) && Given(given, present, names[j]);
      assert tail[j - 1] == names[j];
      assert GivenAgain(given, present, tail, st');
    }
    assert ScanAliases(kind, given, present, cname, names, st) == ScanAliases(kind, given, present, cname, tail, st');
    ScanFailsIf(kind, given, present, cname, tail, st');
  }

  /** The alias scan fails only when two aliases of one declaration were
      given, or a given alias was already used. */
  lemma {:induction false} ScanFailsOnlyIf<V>(kind: string, given: Entries<V>, present: V -> bool, cname: string, names: seq<string>, st: Scan<V>)
    requires ScanAliases(kind, given, present, cname, names, st).Err?
    ensures GivenAgain(given, present, names, st) || TwoGiven(given, present, names)
    decreases |names|, 1
  {
    var n := names[0];
    if !Given(given, present, n) {
      ScanFailsOnlyIfSkip(kind, given, present, cname, names, st);
    } else if st.found.Some? || n in st.used {
      assert Given(given, present, names[0]);
      assert GivenAgain(given, present, names, st);
    } else {
      ScanFailsOnlyIfTake(kind, given, present, cname, names, st);
    }
  }

  /** The case of `ScanFailsOnlyIf` where the first alias was not given. */
  lemma {:induction false} ScanFailsOnlyIfSkip<V>(kind: string, given: Entries<V>, present: V -> bool, cname: string, names: seq<string>, st: Scan<V>)
    requires ScanAliases(kind, given, present, cname, names, st).Err?
    requires names != [] && !Given(given, present, names[0])
    ensures GivenAgain(given, present, names, st) || TwoGiven(given, present, names)
    decreases |names|, 0
  {
    var tail := names[1..];
    assert ScanAliases(kind, given, present, cname, names, st) == ScanAliases(kind, given, present, cname, tail, st);
    ScanFailsOnlyIf(kind, given, present, cname, tail, st);
    if GivenAgain(given, present, tail, st) {
      var i :| 0 <= i < |tail| && Given(given, present, tail[i]) && (st.found.Some? || tail[i] in st.used);
      assert names[i + 1] == tail[i];
      assert GivenAgain(given, present, names, st);
    } else {
      var i, j :| 0 <= i < j < |tail| && Given(given, present, tail[i]) && Given(given, present, tail[j]);
      assert names[i + 1] == tail[i] && names[j + 1] == tail[j];
      assert TwoGiven(given, present, names);
    }
  }

  /** The case of `ScanFailsOnlyIf` where the first alias was given and is found. */
  lemma {:induction false} ScanFailsOnlyIfTake<V>(kind: string, given: Entries<V>, present: V -> bool, cname: string, names: seq<string>, st: Scan<V>)
    requires ScanAliases(kind, given, present, cname, names, st).Err?
    requires names != [] && Given(given, present, names[0]) && st.found.None? && names[0] !in st.used
    ensures TwoGiven(given, present, names)
    decreases |names|, 0
  {
    var n := names[0];
    var tail := names[1..];
    var st' := Scan(Some((n, Get(given, n).value)), st.used + {n});
    assert ScanAliases(kind, given, present, cname, names, st) == ScanAliases(kind, given, present, cname, tail, st');
    ScanFailsOnlyIf(kind, given, present, cname, tail, st');
    var i :| 0 <= i < |tail| && Given(given, present, tail[i]);
    assert names[i + 1] == tail[i];
    assert Given(given, present, names[0]) && Given(given, present, names[i + 1]);
  }

  /** The alias scan fails exactly when two aliases of one declaration were
      given, or a given alias was already used. */
  lemma ScanFails<V>(kind: string, given: Entries<V>, present: V -> bool, cname: string, names: seq<string>, st: Scan<V>)
    ensures ScanAliases(kind, given, present, cname, names, st).Err? <==>
      GivenAgain(given, present, names, st) || TwoGiven(given, present, names)
  {
    if GivenAgain(given, present, names, st) || TwoGiven(given, present, names) {
      ScanFailsIf(kind, given, present, cname, names, st);
    }
    if ScanAliases(kind, given, present, cname, names, st).Err? {
      ScanFailsOnlyIf(kind, given, present, cname, names, st);
    }
  }

  /** A passing alias scan finds a value exactly when some alias was given,
      that value is the one given, and every given alias becomes used. */
  lemma {:induction false} ScanResult<V>(kind: string, given: Entries<V>, present: V -> bool, cname: string, names: seq<string>, st: Scan<V>)
    requires ScanAliases(kind, given, present, cname, names, st).Ok?
    ensures var r := ScanAliases(kind, given, present, cname, names, st).value;
      (r.found.Some? <==> st.found.Some? || AnyGiven(given, present, names)) &&
      r.used == st.used + GivenNames(given, present, names) &&
      (st.found.Some? ==> r.found == st.found) &&
      (st.found.None? && r.found.Some? ==> r.found.value.0 in names && Get(given, r.found.value.0) == Some(r.found.value.1))
    decreases |names|
  {
    if names == [] {
      assert GivenNames(given, present, names) == {};
    } else {
      var n := names[0];
      var tail := names[1..];
      GivenNamesCons(given, present, names);
      if !Given(given, present, n) {
        ScanResult(kind, given, present, cname, tail, st);
        if AnyGiven(given, present, names) {
          var i :| 0 <= i < |names| && Given(given, present, names[i]);
          assert i > 0 && tail[i - 1] == names[i];
        }
        if AnyGiven(given, present, tail) {
          var i :| 0 <= i < |tail| && Given(given, present, tail[i]);
          assert names[i + 1] == tail[i];
        }
      } else {
        var st' := Scan(Some((n, Get(given, n).value)), st.used + {n});
        ScanResult(kind, given, present, cname, tail, st');
        assert AnyGiven(given, present, names);
      }
    }
  }

  /** The alias scan fails exactly when two aliases of one declaration were
      given, or a given alias was already used; otherwise it finds a value
      exactly when some alias was given, that value is the one given, and
      every given alias becomes used. */
  lemma ScanMeaning<V>(kind: string, given: Entries<V>, present: V -> bool, cname: string, names: seq<string>, st: Scan<V>)
    ensures ScanAliases(kind, given, present, cname, names, st).Err? <==>
      GivenAgain(given, present, names, st) || TwoGiven(given, present, names)
    ensures ScanAliases(kind, given, present, cname, names, st).Ok? ==>
      var r := ScanAliases(kind, given, present, cname, names, st).value;
      (r.found.Some? <==> st.found.Some? || AnyGiven(given, present, names)) &&
      r.used == st.used + GivenNames(given, present, names) &&
      (st.found.Some? ==> r.found == st.found) &&
      (st.found.None? && r.found.Some? ==> r.found.value.0 in names && Get(given, r.found.value.0) == Some(r.found.value.1))
  {
    ScanFails(kind, given, present, cname, names, st);
    if ScanAliases(kind, given, present, cname, names, st).Ok? {
      ScanResult(kind, given, present, cname, names, st);
    }
  }

  function FlagNames(c: FlagConfig): seq<string> {
    Aliases(c.name, c.alternatives)
  }

  function OptionNames(c: OptionConfig): seq<string> {
    Aliases(c.name, c.alternatives)
  }

  /** No declaration after the `i`th has its name. */
  predicate LastFlagNamed(configs: seq<FlagConfig>, i: int)
    requires 0 <= i < |configs|
  {
    forall j :: i < j < |configs| ==> configs[j].name != configs[i].name
  }

  predicate LastOptionNamed(configs: seq<OptionConfig>, i: int)
    requires 0 <= i < |configs|
  {
    forall j :: i < j < |configs| ==> configs[j].name != configs[i].name
  }

  predicate LastPositionalNamed(configs: seq<PositionalConfig>, i: int)
    requires 0 <= i < |configs|
  {
    forall j :: i < j < |configs| ==> configs[j].name != configs[i].name
  }

  /** One declaration of the flag phase: its alias scan passed, and the
      phase goes on with the rest. */
  lemma CheckFlagsStep(given: Entries<bool>, configs: seq<FlagConfig>, validated: Entries<bool>, used: set<string>)
    requires configs != [] && CheckFlags(given, configs, validated, used).Ok?
    ensures var c := configs[0];
      var scan := ScanAliases("Flag", given, IsTrue, c.name, FlagNames(c), Scan(None, used));
      scan.Ok? &&
      CheckFlags(given, configs, validated, used) ==
        CheckFlags(given, configs[1..], Put(validated, c.name, scan.value.found.Some?), scan.value.used)
  {
  }

  /** When the flag phase passes, the used names are exactly the given
      aliases of the declared flags. */
  lemma {:induction false} CheckFlagsUsed(given: Entries<bool>, configs: seq<FlagConfig>, validated: Entries<bool>, used: set<string>)
    requires CheckFlags(given, configs, validated, used).Ok?
    ensures var u := CheckFlags(given, configs, validated, used).value.1;
      forall k :: k in u <==> k in used || (Given(given, IsTrue, k) && exists i :: 0 <= i < |configs| && k in FlagNames(configs[i]))
    decreases |configs|
  {
    if configs != [] {
      var c := configs[0];
      var tail := configs[1..];
      CheckFlagsStep(given, configs, validated, used);
      ScanMeaning("Flag", given, IsTrue, c.name, FlagNames(c), Scan(None, used));
      var st := ScanAliases("Flag", given, IsTrue, c.name, FlagNames(c), Scan(None, used)).value;
      CheckFlagsUsed(given, tail, Put(validated, c.name, st.found.Some?), st.used);
      var u := CheckFlags(given, configs, validated, used).value.1;
      forall k
        ensures k in u <==> k in used || (Given(given, IsTrue, k) && exists i :: 0 <= i < |configs| && k in FlagNames(configs[i]))
      {
        if k in GivenNames(given, IsTrue, FlagNames(c)) {
          assert k in FlagNames(configs[0]);
        }
        if Given(given, IsTrue, k) && k in FlagNames(c) {
          var j :| 0 <= j < |FlagNames(c)| && FlagNames(c)[j] == k;
          assert k in GivenNames(given, IsTrue, FlagNames(c));
        }
        if exists i :: 0 <= i < |configs| && k in FlagNames(configs[i]) {
          var i :| 0 <= i < |configs| && k in FlagNames(configs[i]);
          if i > 0 {
            assert k in FlagNames(tail[i - 1]);
          }
        }
      }
    }
  }

  /** When the flag phase passes, each declaration (the last of its name)
      maps to whether one of its aliases was given, and nothing else is
      written. */
  lemma {:induction false} CheckFlagsValues(given: Entries<bool>, configs: seq<FlagConfig>, validated: Entries<bool>, used: set<string>)
    requires CheckFlags(given, configs, validated, used).Ok?
    ensures var v := CheckFlags(given, configs, validated, used).value.0;
      (forall i :: 0 <= i < |configs| && LastFlagNamed(configs, i) ==>
        Get(v, configs[i].name) == Some(AnyGiven(given, IsTrue, FlagNames(configs[i])))) &&
      (forall k :: (forall i :: 0 <= i < |configs| ==> configs[i].name != k) ==> Get(v, k) == Get(validated, k))
    decreases |configs|
  {
    if configs != [] {
      var c := configs[0];
      var tail := configs[1..];
      assert forall i :: 0 <= i < |tail| ==> tail[i] == configs[i + 1];
      CheckFlagsStep(given, configs, validated, used);
      ScanMeaning("Flag", given, IsTrue, c.name, FlagNames(c), Scan(None, used));
      var st := ScanAliases("Flag", given, IsTrue, c.name, FlagNames(c), Scan(None, used)).value;
      var validated' := Put(validated, c.name, st.found.Some?);
      CheckFlagsValues(given, tail, validated', st.used);
      var v := CheckFlags(given, configs, validated, used).value.0;
      forall i | 0 <= i < |configs| && LastFlagNamed(configs, i)
        ensures Get(v, configs[i].name) == Some(AnyGiven(given, IsTrue, FlagNames(configs[i])))
      {
        if i == 0 {
          GetPut(validated, c.name, st.found.Some?, c.name);
        } else {
          assert LastFlagNamed(tail, i - 1);
        }
      }
      forall k | forall i :: 0 <= i < |configs| ==> configs[i].name != k
        ensures Get(v, k) == Get(validated, k)
      {
        assert configs[0].name != k;
        GetPut(validated, c.name, st.found.Some?, k);
      }
    }
  }

  /** When the flag phase passes, the used names are exactly the given
      aliases of the declared flags; each declaration (the last of its name)
      maps to whether one of its aliases was given; nothing else is written. */
  lemma CheckFlagsMeaning(given: Entries<bool>, configs: seq<FlagConfig>, validated: Entries<bool>, used: set<string>)
    requires CheckFlags(given, configs, validated, used).Ok?
    ensures var (v, u) := CheckFlags(given, configs, validated, used).value;
      (forall k :: k in u <==> k in used || (Given(given, IsTrue, k) && exists i :: 0 <= i < |configs| && k in FlagNames(configs[i]))) &&
      (forall i :: 0 <= i < |configs| && LastFlagNamed(configs, i) ==>
        Get(v, configs[i].name) == Some(AnyGiven(given, IsTrue, FlagNames(configs[i])))) &&
      (forall k :: (forall i :: 0 <= i < |configs| ==> configs[i].name != k) ==> Get(v, k) == Get(validated, k))
  {
    CheckFlagsUsed(given, configs, validated, used);
    CheckFlagsValues(given, configs, validated, used);
  }

  /** The value an option declaration receives: present exactly when one
      of its aliases was given, and then the value given for that alias. */
  predicate OptionValue(given: Entries<string>, names: seq<string>, value: Option<Option<string>>) {
    value.Some? &&
    (value.value.Some? <==> AnyGiven(given, Defined, names)) &&
    (value.value.Some? ==> exists n :: n in names && Get(given, n) == Some(value.value.value))
  }

  /** One declaration of the option phase: its alias scan passed, a
      required declaration found a value, and the phase goes on with the
      rest. */
  lemma CheckOptionsStep(given: Entries<string>, configs: seq<OptionConfig>, validated: Entries<Option<string>>, used: set<string>)
    requires configs != [] && CheckOptions(given, configs, validated, used).Ok?
    ensures var c := configs[0];
      var scan := ScanAliases("Option", given, Defined, c.name, OptionNames(c), Scan(None, used));
      scan.Ok? && !(c.required && scan.value.found.None?) &&
      CheckOptions(given, configs, validated, used) ==
        CheckOptions(given, configs[1..], Put(validated, c.name, if scan.value.found.Some? then Some(scan.value.found.value.1) else None), scan.value.used)
  {
  }

  /** When the option phase passes, every required option was given. */
  lemma {:induction false} CheckOptionsRequired(given: Entries<string>, configs: seq<OptionConfig>, validated: Entries<Option<string>>, used: set<string>)
    requires CheckOptions(given, configs, validated, used).Ok?
    ensures forall i :: 0 <= i < |configs| && configs[i].required ==> AnyGiven(given, Defined, OptionNames(configs[i]))
    decreases |configs|
  {
    if configs != [] {
      var c := configs[0];
      var tail := configs[1..];
      CheckOptionsStep(given, configs, validated, used);
      ScanMeaning("Option", given, Defined, c.name, OptionNames(c), Scan(None, used));
      var st := ScanAliases("Option", given, Defined, c.name, OptionNames(c), Scan(None, used)).value;
      var value := if st.found.Some? then Some(st.found.value.1) else None;
      CheckOptionsRequired(given, tail, Put(validated, c.name, value), st.used);
      forall i | 0 <= i < |configs| && configs[i].required
        ensures AnyGiven(given, Defined, OptionNames(configs[i]))
      {
        if i > 0 {
          assert tail[i - 1] == configs[i];
        }
      }
    }
  }

  /** When the option phase passes, the used names are exactly the given
      aliases of the declared options. */
  lemma {:induction false} CheckOptionsUsed(given: Entries<string>, configs: seq<OptionConfig>, validated: Entries<Option<string>>, used: set<string>)
    requires CheckOptions(given, configs, validated, used).Ok?
    ensures var u := CheckOptions(given, configs, validated, used).value.1;
      forall k :: k in u <==> k in used || (Given(given, Defined, k) && exists i :: 0 <= i < |configs| && k in OptionNames(configs[i]))
    decreases |configs|
  {
    if configs != [] {
      var c := configs[0];
      var tail := configs[1..];
      CheckOptionsStep(given, configs, validated, used);
      ScanMeaning("Option", given, Defined, c.name, OptionNames(c), Scan(None, used));
      var st := ScanAliases("Option", given, Defined, c.name, OptionNames(c), Scan(None, used)).value;
      var value := if st.found.Some? then Some(st.found.value.1) else None;
      CheckOptionsUsed(given, tail, Put(validated, c.name, value), st.used);
      var u := CheckOptions(given, configs, validated, used).value.1;
      forall k
        ensures k in u <==> k in used || (Given(given, Defined, k) && exists i :: 0 <= i < |configs| && k in OptionNames(configs[i]))
      {
        if k in GivenNames(given, Defined, OptionNames(c)) {
          assert k in OptionNames(configs[0]);
        }
        if Given(given, Defined, k) && k in OptionNames(c) {
          var j :| 0 <= j < |OptionNames(c)| && OptionNames(c)[j] == k;
          assert k in GivenNames(given, Defined, OptionNames(c));
        }
        if exists i :: 0 <= i < |configs| && k in OptionNames(configs[i]) {
          var i :| 0 <= i < |configs| && k in OptionNames(configs[i]);
          if i > 0 {
            assert k in OptionNames(tail[i - 1]);
          }
        }
      }
    }
  }

  /** When the option phase passes, each declaration (the last of its name)
      carries the value of its given alias, and nothing else is written. */
  lemma {:induction false} CheckOptionsValues(given: Entries<string>, configs: seq<OptionConfig>, validated: Entries<Option<string>>, used: set<string>)
    requires CheckOptions(given, configs, validated, used).Ok?
    ensures var v := CheckOptions(given, configs, validated, used).value.0;
      (forall i :: 0 <= i < |configs| && LastOptionNamed(configs, i) ==>
        OptionValue(given, OptionNames(configs[i]), Get(v, configs[i].name))) &&
      (forall k :: (forall i :: 0 <= i < |configs| ==> configs[i].name != k) ==> Get(v, k) == Get(validated, k))
    decreases |configs|
  {
    if configs != [] {
      var c := configs[0];
      var tail := configs[1..];
      assert forall i :: 0 <= i < |tail| ==> tail[i] == configs[i + 1];
      CheckOptionsStep(given, configs, validated, used);
      ScanMeaning("Option", given, Defined, c.name, OptionNames(c), Scan(None, used));
      var st := ScanAliases("Option", given, Defined, c.name, OptionNames(c), Scan(None, used)).value;
      var value := if st.found.Some? then Some(st.found.value.1) else None;
      var validated' := Put(validated, c.name, value);
      CheckOptionsValues(given, tail, validated', st.used);
      var v := CheckOptions(given, configs, validated, used).value.0;
      forall i | 0 <= i < |configs| && LastOptionNamed(configs, i)
        ensures OptionValue(given, OptionNames(configs[i]), Get(v, configs[i].name))
      {
        if i == 0 {
          GetPut(validated, c.name, value, c.name);
        } else {
          assert LastOptionNamed(tail, i - 1);
        }
      }
      forall k | forall i :: 0 <= i < |configs| ==> configs[i].name != k
        ensures Get(v, k) == Get(validated, k)
      {
        assert configs[0].name != k;
        GetPut(validated, c.name, value, k);
      }
    }
  }

  /** When the option phase passes, every required option was given, the
      used names are exactly the given aliases, and each declaration (the
      last of its name) carries the value of its given alias. */
  lemma CheckOptionsMeaning(given: Entries<string>, configs: seq<OptionConfig>, validated: Entries<Option<string>>, used: set<string>)
    requires CheckOptions(given, configs, validated, used).Ok?
    ensures var (v, u) := CheckOptions(given, configs, validated, used).value;
      (forall i :: 0 <= i < |configs| && configs[i].required ==> AnyGiven(given, Defined, OptionNames(configs[i]))) &&
      (forall k :: k in u <==> k in used || (Given(given, Defined, k) && exists i :: 0 <= i < |configs| && k in OptionNames(configs[i]))) &&
      (forall i :: 0 <= i < |configs| && LastOptionNamed(configs, i) ==>
        OptionValue(given, OptionNames(configs[i]), Get(v, configs[i].name))) &&
      (forall k :: (forall i :: 0 <= i < |configs| ==> configs[i].name != k) ==> Get(v, k) == Get(validated, k))
  {
    CheckOptionsRequired(given, configs, validated, used);
    CheckOptionsUsed(given, configs, validated, used);
    CheckOptionsValues(given, configs, validated, used);
  }

  /** No declaration from index `s` on is named `k`. */
  predicate NoPositionalNamed(configs: seq<PositionalConfig>, s: nat, k: string) {
    forall i :: s <= i < |configs| ==> configs[i].name != k
  }

  /** The positional phase passes only when every required positional is
      there, and it writes no key that is not a declared name. */
  lemma {:induction false} CheckPositionalsMeaning(configs: seq<PositionalConfig>, positional: seq<string>, s: nat, validated: Entries<Option<string>>)
    requires CheckPositionals(configs, positional, s, validated).Ok?
    ensures forall i :: s <= i < |configs| && configs[i].required ==> i < |positional|
    ensures forall k :: NoPositionalNamed(configs, s, k) ==>
      Get(CheckPositionals(configs, positional, s, validated).value, k) == Get(validated, k)
    decreases |configs| - s
  {
    if s < |configs| {
      var value := PositionalAt(positional, s);
      var validated' := Put(validated, configs[s].name, value);
      assert CheckPositionals(configs, positional, s, validated) == CheckPositionals(configs, positional, s + 1, validated');
      CheckPositionalsMeaning(configs, positional, s + 1, validated');
      forall k | NoPositionalNamed(configs, s, k)
        ensures Get(CheckPositionals(configs, positional, s, validated).value, k) == Get(validated, k)
      {
        assert NoPositionalNamed(configs, s + 1, k);
        GetPut(validated, configs[s].name, value, k);
      }
    }
  }

  /** Each positional declaration (the last of its name) takes the
      positional at its index, or nothing when there are fewer. */
  lemma {:induction false} CheckPositionalsValues(configs: seq<PositionalConfig>, positional: seq<string>, s: nat, validated: Entries<Option<string>>, i: nat)
    requires CheckPositionals(configs, positional, s, validated).Ok?
    requires s <= i < |configs| && LastPositionalNamed(configs, i)
    ensures Get(CheckPositionals(configs, positional, s, validated).value, configs[i].name) == Some(PositionalAt(positional, i))
    decreases |configs| - s
  {
    var value := PositionalAt(positional, s);
    var validated' := Put(validated, configs[s].name, value);
    assert CheckPositionals(configs, positional, s, validated) == CheckPositionals(configs, positional, s + 1, validated');
    if i == s {
      CheckPositionalsMeaning(configs, positional, s + 1, validated');
      assert NoPositionalNamed(configs, s + 1, configs[s].name);
      GetPut(validated, configs[s].name, value, configs[s].name);
    } else {
      CheckPositionalsValues(configs, positional, s + 1, validated', i);
    }
  }

  /** A passing validation passed every phase, in order. */
  lemma ValidateSteps(args: ParsedArgs, cmd: Command)
    requires Validate(args, cmd).Ok?
    ensures var fs := CheckFlags(args.flags, cmd.flags, [], {});
      var os := CheckOptions(args.options, cmd.options, [], {});
      var ps := CheckPositionals(cmd.positional, args.positional, 0, []);
      fs.Ok? && FirstUnused(args.flags, fs.value.1).None? &&
      os.Ok? && FirstUnused(args.options, os.value.1).None? &&
      ps.Ok? && |args.positional| <= |cmd.positional| &&
      Validate(args, cmd) == Ok(Invoke(cmd, os.value.0, fs.value.0, ps.value))
  {
  }

  /** A passing validation: every given flag is a declared alias, and each
      flag declaration maps to whether one of its aliases was given. */
  lemma ValidatePassFlags(args: ParsedArgs, cmd: Command)
    requires Validate(args, cmd).Ok?
    ensures var e := Validate(args, cmd).value;
      e.Invoke? &&
      (forall i :: 0 <= i < |args.flags| ==>
        Given(args.flags, IsTrue, args.flags[i].0) && exists j :: 0 <= j < |cmd.flags| && args.flags[i].0 in FlagNames(cmd.flags[j])) &&
      (forall j :: 0 <= j < |cmd.flags| && LastFlagNamed(cmd.flags, j) ==>
        Get(e.flags, cmd.flags[j].name) == Some(AnyGiven(args.flags, IsTrue, FlagNames(cmd.flags[j]))))
  {
    ValidateSteps(args, cmd);
    CheckFlagsMeaning(args.flags, cmd.flags, [], {});
  }

  /** A passing validation: every given option is a declared alias, every
      required option was given, and each option declaration carries the
      value of its given alias. */
  lemma ValidatePassOptions(args: ParsedArgs, cmd: Command)
    requires Validate(args, cmd).Ok?
    ensures var e := Validate(args, cmd).value;
      e.Invoke? &&
      (forall i :: 0 <= i < |args.options| ==> exists j :: 0 <= j < |cmd.options| && args.options[i].0 in OptionNames(cmd.options[j])) &&
      (forall j :: 0 <= j < |cmd.options| && cmd.options[j].required ==> AnyGiven(args.options, Defined, OptionNames(cmd.options[j]))) &&
      (forall j :: 0 <= j < |cmd.options| && LastOptionNamed(cmd.options, j) ==>
        OptionValue(args.options, OptionNames(cmd.options[j]), Get(e.options, cmd.options[j].name)))
  {
    ValidateSteps(args, cmd);
    CheckOptionsMeaning(args.options, cmd.options, [], {});
  }

  /** A passing validation: every required positional is there, there are
      no surplus ones, and each declaration receives the positional at its
      index. */
  lemma ValidatePassPositionals(args: ParsedArgs, cmd: Command)
    requires Validate(args, cmd).Ok?
    ensures var e := Validate(args, cmd).value;
      e.Invoke? &&
      |args.positional| <= |cmd.positional| &&
      (forall j :: 0 <= j < |cmd.positional| && cmd.positional[j].required ==> j < |args.positional|) &&
      (forall j :: 0 <= j < |cmd.positional| && LastPositionalNamed(cmd.positional, j) ==>
        Get(e.positional, cmd.positional[j].name) == Some(PositionalAt(args.positional, j)))
  {
    ValidateSteps(args, cmd);
    CheckPositionalsMeaning(cmd.positional, args.positional, 0, []);
    var ps := CheckPositionals(cmd.positional, args.positional, 0, []);
    forall j | 0 <= j < |cmd.positional| && LastPositionalNamed(cmd.positional, j)
      ensures Get(ps.value, cmd.positional[j].name) == Some(PositionalAt(args.positional, j))
    {
      CheckPositionalsValues(cmd.positional, args.positional, 0, [], j);
    }
  }

  /** A command is invoked only when every given flag is true and is an
      alias of a declared flag, every given option is an alias of a
      declared option, every required option and positional is present and
      there are no surplus positionals; the action then receives, under each
      declared name (the last of its name), whether the flag was given, the
      value given for the option, and the positional at that index. */
  lemma ValidateOk(args: ParsedArgs, cmd: Command)
    requires Validate(args, cmd).Ok?
    ensures var e := Validate(args, cmd).value;
      e.Invoke? && e.command == cmd &&
      (forall i :: 0 <= i < |args.flags| ==>
        Given(args.flags, IsTrue, args.flags[i].0) && exists j :: 0 <= j < |cmd.flags| && args.flags[i].0 in FlagNames(cmd.flags[j])) &&
      (forall i :: 0 <= i < |args.options| ==> exists j :: 0 <= j < |cmd.options| && args.options[i].0 in OptionNames(cmd.options[j])) &&
      (forall j :: 0 <= j < |cmd.options| && cmd.options[j].required ==> AnyGiven(args.options, Defined, OptionNames(cmd.options[j]))) &&
      |args.positional| <= |cmd.positional| &&
      (forall j :: 0 <= j < |cmd.positional| && cmd.positional[j].required ==> j < |args.positional|) &&
      (forall j :: 0 <= j < |cmd.flags| && LastFlagNamed(cmd.flags, j) ==>
        Get(e.flags, cmd.flags[j].name) == Some(AnyGiven(args.flags, IsTrue, FlagNames(cmd.flags[j])))) &&
      (forall j :: 0 <= j < |cmd.options| && LastOptionNamed(cmd.options, j) ==>
        OptionValue(args.options, OptionNames(cmd.options[j]), Get(e.options, cmd.options[j].name))) &&
      (forall j :: 0 <= j < |cmd.positional| && LastPositionalNamed(cmd.positional, j) ==>
        Get(e.positional, cmd.positional[j].name) == Some(PositionalAt(args.positional, j)))
  {
    ValidateSteps(args, cmd);
    ValidatePassFlags(args, cmd);
    ValidatePassOptions(args, cmd);
    ValidatePassPositionals(args, cmd);
  }

  /** Whenever `executeArgs` invokes a command, help was not asked for, and
      the result is the validation of that command against the flags and
      options as parsed and a suffix of the positionals (the command names
      taken off). */
  lemma {:induction false} ExecuteReachesValidate(args: ParsedArgs, commands: Entries<Command>)
    requires Execute(args, commands).Ok? && Execute(args, commands).value.Invoke?
    ensures !WantsHelp(args)
    ensures exists n :: (0 <= n <= |args.positional| &&
      Validate(args.(positional := args.positional[n..]), Execute(args, commands).value.command) == Execute(args, commands))
    decreases |args.positional|
  {
    var name := if args.positional == [] then "_default" else args.positional[0];
    var rest := args.(positional := if args.positional == [] then [] else args.positional[1..]);
    var cmd := Get(commands, name).value;
    var n := if args.positional == [] then 0 else 1;
    assert rest == args.(positional := args.positional[n..]);
    assert !WantsHelp(args);
    if rest.positional != [] && cmd.subcommands.Some? && Get(cmd.subcommands.value, rest.positional[0]).Some? {
      var subs := cmd.subcommands.value;
      assert Execute(args, commands) == Execute(rest, subs);
      ExecuteReachesValidate(rest, subs);
      var m :| 0 <= m <= |rest.positional| &&
        Validate(rest.(positional := rest.positional[m..]), Execute(rest, subs).value.command) == Execute(rest, subs);
      assert rest.(positional := rest.positional[m..]) == args.(positional := args.positional[n + m..]);
      var k := n + m;
      assert Validate(args.(positional := args.positional[k..]), Execute(args, commands).value.command) == Execute(args, commands);
    } else {
      assert Execute(args, commands) == Validate(rest, cmd);
      ValidateSteps(rest, cmd);
      assert Execute(args, commands).value.command == cmd;
    }
  }

  /** A flag parsed with the value `false` matches no declaration and is
      reported as unknown, whatever the command declares. */
  lemma FalseFlagRejected(args: ParsedArgs, cmd: Command, k: string)
    requires Get(args.flags, k) == Some(false)
    ensures Validate(args, cmd).Err?
  {
    if Validate(args, cmd).Ok? {
      ValidateOk(args, cmd);
      assert false;
    }
  }

  /** `--verbose` together with its alias `-v` is rejected. */
  lemma AliasClashExample(given: Entries<bool>, names: seq<string>)
    requires given == [("verbose", true), ("v", true)] && names == Aliases("verbose", ["v"])
    ensures ScanAliases("Flag", given, IsTrue, "verbose", names, Scan(None, {})).Err?
  {
    assert Given(given, IsTrue, "verbose");
    assert Given(given, IsTrue, "v") by {
      assert given[0].0 != "v";
      assert given[1..] == [("v", true)];
    }
    ScanMeaning("Flag", given, IsTrue, "verbose", names, Scan(None, {}));
    assert names[0] == "verbose" && names[1] == "v";
    assert TwoGiven(given, IsTrue, names);
  }
}
