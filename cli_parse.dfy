/** The command-line front end of the sysdef tool: `filterArgs` drops the
    runtime and script from `process.argv`, and `parseArgs` sorts the rest
    into flags, options and positionals. */
module CliParse {
  import opened Strings
  import opened Wrappers
  import opened Records

  /** An argument naming a JavaScript or TypeScript script. */
  predicate IsScript(arg: string) {
    EndsWith(arg, ".ts") || EndsWith(arg, ".js") || EndsWith(arg, ".mjs") || EndsWith(arg, ".cjs")
  }

  /** Text whose last character differs from a suffix's does not end in it. */
  lemma LastCharDiffers(arg: string, suffix: string)
    requires suffix != [] && (arg == [] || arg[|arg| - 1] != suffix[|suffix| - 1])
    ensures !EndsWith(arg, suffix)
  {
    if |suffix| <= |arg| {
      assert arg[|arg| - |suffix|..][|suffix| - 1] == arg[|arg| - 1];
    }
  }

  /** Every script suffix ends in `s`. */
  lemma NotScript(arg: string)
    requires arg == [] || arg[|arg| - 1] != 's'
    ensures !IsScript(arg)
  {
    LastCharDiffers(arg, ".ts");
    LastCharDiffers(arg, ".js");
    LastCharDiffers(arg, ".mjs");
    LastCharDiffers(arg, ".cjs");
  }

  /** A name with the `.ts` suffix is a script. */
  lemma TsScript(stem: string, arg: string)
    requires arg == stem + ".ts"
    ensures IsScript(arg)
  {
    assert arg[|arg| - 3..] == ".ts";
  }

  /** `args[i]` looks like the subcommand: neither it nor its predecessor is
      a path, and it is not a flag. */
  predicate IsSubcommandAt(args: seq<string>, i: int)
    requires 1 <= i < |args|
  {
    !Contains(args[i - 1], '/') && !StartsWith(args[i], "-") && !Contains(args[i], '/')
  }

  /** `filterArgs`: everything after the first script; failing that, the
      suffix from the first subcommand-like argument; failing that, all but
      the first two arguments. */
  method FilterArgs(args: seq<string>) returns (r: seq<string>)
    ensures exists k :: 0 <= k <= |args| && r == args[k..]
    ensures forall i :: 0 <= i < |args| && IsScript(args[i]) && (forall j :: 0 <= j < i ==> !IsScript(args[j])) ==>
      r == args[i + 1..]
    ensures (forall j :: 0 <= j < |args| ==> !IsScript(args[j])) ==>
      forall i :: 1 <= i < |args| && IsSubcommandAt(args, i) && (forall j :: 1 <= j < i ==> !IsSubcommandAt(args, j)) ==>
        r == args[i..]
    ensures (forall j :: 0 <= j < |args| ==> !IsScript(args[j])) && (forall j :: 1 <= j < |args| ==> !IsSubcommandAt(args, j)) ==>
      r == args[if |args| < 2 then |args| else 2..]
  {
    for i := 0 to |args|
      invariant forall j :: 0 <= j < i ==> !IsScript(args[j])
    {
      if IsScript(args[i]) {
        return args[i + 1..];
      }
    }
    var i := 1;
    while i < |args|
      invariant 1 <= i
      invariant forall j :: 1 <= j < i && j < |args| ==> !IsSubcommandAt(args, j)
    {
      if IsSubcommandAt(args, i) {
        return args[i..];
      }
      i := i + 1;
    }
    r := args[if |args| < 2 then |args| else 2..];
  }

  /** The arguments after the first script are the user's. */
  method FilterArgsAfterScript(args: seq<string>, i: nat) returns (r: seq<string>)
    requires i < |args| && IsScript(args[i]) && forall j :: 0 <= j < i ==> !IsScript(args[j])
    ensures r == args[i + 1..]
  {
    r := FilterArgs(args);
  }

  /** The interpreter, a flag and a script followed by the user's arguments. */
  method FilterArgsExample() returns (r: seq<string>)
    ensures r == ["arg1", "arg2"]
  {
    var front, user := ["bun", "--watch", "script.ts"], ["arg1", "arg2"];
    var args := front + user;
    assert args[|front|..] == user;
    NotScript(args[0]);
    NotScript(args[1]);
    TsScript("script", args[2]);
    r := FilterArgsAfterScript(args, 2);
  }

  /** A bare word after the program name starts the user's arguments:
      `cmd subcommand arg1 arg2` keeps all but `cmd`. */
  method FilterArgsSubcommand(args: seq<string>) returns (r: seq<string>)
    requires |args| >= 2 && !Contains(args[0], '/') && !Contains(args[1], '/') && !StartsWith(args[1], "-")
    requires forall j :: 0 <= j < |args| ==> !IsScript(args[j])
    ensures r == args[1..]
  {
    assert IsSubcommandAt(args, 1);
    r := FilterArgs(args);
  }

  /** A path is never taken for the subcommand, nor is the word after it:
      `node /path/to/script arg1` falls back to dropping the first two. */
  method FilterArgsPath(args: seq<string>) returns (r: seq<string>)
    requires |args| == 3 && Contains(args[1], '/')
    requires forall j :: 0 <= j < |args| ==> !IsScript(args[j])
    ensures r == [args[2]]
  {
    assert !IsSubcommandAt(args, 1);
    assert !IsSubcommandAt(args, 2);
    r := FilterArgs(args);
    assert r == args[2..];
  }

  datatype ParsedArgs = ParsedArgs(flags: Entries<bool>, options: Entries<string>, positional: seq<string>)

  const NoArgs := ParsedArgs([], [], [])

  /** Sets every character of a short-flag bundle to true, in order. */
  function SetChars(flags: Entries<bool>, cs: string): Entries<bool>
    decreases |cs|
  {
    if cs == [] then flags else Put(SetChars(flags, cs[..|cs| - 1]), [cs[|cs| - 1]], true)
  }

  /** `nextArg` becomes the value of a long option: it exists, is not empty
      and is not a flag. */
  predicate TakesValue(args: seq<string>, i: int) {
    0 <= i + 1 < |args| && args[i + 1] != "" && !StartsWith(args[i + 1], "-")
  }

  /** What `parseArgs` does with the arguments from `args[0]` on, on top of
      what it has collected so far. */
  function ParseFrom(args: seq<string>, acc: ParsedArgs): ParsedArgs
    decreases |args|
  {
    if args == [] then acc
    else
      var arg := args[0];
      if StartsWith(arg, "--") then
        if TakesValue(args, 0) then ParseFrom(args[2..], acc.(options := Put(acc.options, arg[2..], args[1])))
        else ParseFrom(args[1..], acc.(flags := Put(acc.flags, arg[2..], true)))
      else if StartsWith(arg, "-") && |arg| > 1 then
        ParseFrom(args[1..], acc.(flags := SetChars(acc.flags, arg[1..])))
      else ParseFrom(args[1..], acc.(positional := acc.positional + [arg]))
  }

  method SetCharsLoop(flags: Entries<bool>, cs: string) returns (r: Entries<bool>)
    ensures r == SetChars(flags, cs)
  {
    r := flags;
    for j := 0 to |cs|
      invariant r == SetChars(flags, cs[..j])
    {
      assert cs[..j + 1][..j] == cs[..j];
      r := Put(r, [cs[j]], true);
    }
    assert cs[..|cs|] == cs;
  }

  /** `parseArgs` */
  method ParseArgs(args: seq<string>) returns (result: ParsedArgs)
    ensures result == ParseFrom(args, NoArgs)
  {
    result := NoArgs;
    var i := 0;
    while i < |args|
      invariant 0 <= i <= |args|
      invariant ParseFrom(args, NoArgs) == ParseFrom(args[i..], result)
      decreases |args| - i
    {
      var arg := args[i];
      var rest := args[i..];
      assert rest[0] == arg && rest[1..] == args[i + 1..];
      if StartsWith(arg, "--") {
        var name := arg[2..];
        if TakesValue(args, i) {
          assert TakesValue(rest, 0) && rest[1] == args[i + 1] && rest[2..] == args[i + 2..];
          result := result.(options := Put(result.options, name, args[i + 1]));
          i := i + 1;
        } else {
          assert !TakesValue(rest, 0);
          result := result.(flags := Put(result.flags, name, true));
        }
      } else if StartsWith(arg, "-") && |arg| > 1 {
        var flags := SetCharsLoop(result.flags, arg[1..]);
        result := result.(flags := flags);
      } else {
        result := result.(positional := result.positional + [arg]);
      }
      i := i + 1;
    }
  }

  /** An argument `parseArgs` keeps as a positional: not a flag, or a lone `-`. */
  predicate PlainArg(arg: string) {
    !StartsWith(arg, "-") || arg == "-"
  }

  lemma LongIsDash(a: string)
    ensures StartsWith(a, "--") ==> StartsWith(a, "-")
  {
    if |a| >= 2 {
      assert a[..1] == a[..2][..1];
    }
  }

  /** Arguments that are not flags are positionals, in their input order. */
  lemma {:induction false} PlainArgsArePositional(args: seq<string>, acc: ParsedArgs)
    requires forall i :: 0 <= i < |args| ==> PlainArg(args[i])
    ensures ParseFrom(args, acc) == acc.(positional := acc.positional + args)
  {
    if args == [] {
    } else {
      LongIsDash(args[0]);
      PlainArgsArePositional(args[1..], acc.(positional := acc.positional + [args[0]]));
      assert acc.positional + [args[0]] + args[1..] == acc.positional + args;
    }
  }

  /** Every recorded flag is true. */
  predicate FlagsTrue(p: ParsedArgs) {
    forall i :: 0 <= i < |p.flags| ==> p.flags[i].1
  }

  /** Every option value is a real value: not empty, and not a flag. */
  predicate OptionValuesPlain(p: ParsedArgs) {
    forall i :: 0 <= i < |p.options| ==> p.options[i].1 != "" && !StartsWith(p.options[i].1, "-")
  }

  lemma {:induction false} PutValues<V>(es: Entries<V>, k: string, v: V, P: V -> bool)
    requires forall i :: 0 <= i < |es| ==> P(es[i].1)
    requires P(v)
    ensures forall i :: 0 <= i < |Put(es, k, v)| ==> P(Put(es, k, v)[i].1)
  {
    if es != [] && es[0].0 != k {
      PutValues(es[1..], k, v, P);
    }
  }

  lemma {:induction false} SetCharsTrue(flags: Entries<bool>, cs: string)
    requires forall i :: 0 <= i < |flags| ==> flags[i].1
    ensures forall i :: 0 <= i < |SetChars(flags, cs)| ==> SetChars(flags, cs)[i].1
    decreases |cs|
  {
    if cs != [] {
      SetCharsTrue(flags, cs[..|cs| - 1]);
      PutValues(SetChars(flags, cs[..|cs| - 1]), [cs[|cs| - 1]], true, (b: bool) => b);
    }
  }

  /** `parseArgs` only ever writes `true` into flags, and only plain
      arguments into options; earlier positionals are kept in front. */
  lemma {:induction false} ParseShape(args: seq<string>, acc: ParsedArgs)
    requires FlagsTrue(acc) && OptionValuesPlain(acc)
    ensures FlagsTrue(ParseFrom(args, acc)) && OptionValuesPlain(ParseFrom(args, acc))
    ensures acc.positional <= ParseFrom(args, acc).positional
    decreases |args|
  {
    if args != [] {
      var arg := args[0];
      if StartsWith(arg, "--") {
        if TakesValue(args, 0) {
          PutValues(acc.options, arg[2..], args[1], (s: string) => s != "" && !StartsWith(s, "-"));
          ParseShape(args[2..], acc.(options := Put(acc.options, arg[2..], args[1])));
        } else {
          PutValues(acc.flags, arg[2..], true, (b: bool) => b);
          ParseShape(args[1..], acc.(flags := Put(acc.flags, arg[2..], true)));
        }
      } else if StartsWith(arg, "-") && |arg| > 1 {
        SetCharsTrue(acc.flags, arg[1..]);
        ParseShape(args[1..], acc.(flags := SetChars(acc.flags, arg[1..])));
      } else {
        var next := acc.(positional := acc.positional + [arg]);
        ParseShape(args[1..], next);
        assert acc.positional <= next.positional;
      }
    }
  }

  /** Every parsed flag is `true` and every option value is plain. */
  lemma ParsedFlagsTrue(args: seq<string>)
    ensures FlagsTrue(ParseFrom(args, NoArgs)) && OptionValuesPlain(ParseFrom(args, NoArgs))
  {
    ParseShape(args, NoArgs);
  }

  /** After a bundle, each of its characters is a flag set to true. */
  lemma {:induction false} SetCharsHit(flags: Entries<bool>, cs: string, c: char)
    requires c in cs
    ensures Get(SetChars(flags, cs), [c]) == Some(true)
    decreases |cs|
  {
    var init, last := cs[..|cs| - 1], cs[|cs| - 1];
    var prev := SetChars(flags, init);
    assert SetChars(flags, cs) == Put(prev, [last], true);
    GetPut(prev, [last], true, [c]);
    if c != last {
      assert cs == init + [last];
      SetCharsHit(flags, init, c);
    }
  }

  /** A bundle touches no key other than its characters. */
  lemma {:induction false} SetCharsMiss(flags: Entries<bool>, cs: string, k: string)
    requires !(|k| == 1 && k[0] in cs)
    ensures Get(SetChars(flags, cs), k) == Get(flags, k)
    decreases |cs|
  {
    if cs != [] {
      var init, last := cs[..|cs| - 1], cs[|cs| - 1];
      var prev := SetChars(flags, init);
      assert SetChars(flags, cs) == Put(prev, [last], true);
      if |k| == 1 {
        assert k[0] != last;
        assert k[0] !in init by {
          assert forall x :: x in init ==> x in cs;
        }
      }
      assert k != [last];
      GetPut(prev, [last], true, k);
      SetCharsMiss(flags, init, k);
    }
  }

  /** After a bundle, each of its characters is a flag set to true, and no
      other key is touched. */
  lemma SetCharsMeaning(flags: Entries<bool>, cs: string, k: string)
    ensures Get(SetChars(flags, cs), k) == if |k| == 1 && k[0] in cs then Some(true) else Get(flags, k)
  {
    if |k| == 1 && k[0] in cs {
      assert k == [k[0]];
      SetCharsHit(flags, cs, k[0]);
    } else {
      SetCharsMiss(flags, cs, k);
    }
  }

  /** `--name value`: the next argument is consumed as the value. */
  lemma LongOption(name: string, value: string, rest: seq<string>, acc: ParsedArgs)
    requires value != "" && !StartsWith(value, "-")
    ensures ParseFrom(["--" + name, value] + rest, acc) == ParseFrom(rest, acc.(options := Put(acc.options, name, value)))
  {
    var args := ["--" + name, value] + rest;
    assert args[0][..2] == "--" && args[0][2..] == name;
    assert TakesValue(args, 0);
    assert args[2..] == rest;
  }

  /** `--name` at the end, or before another flag, is a flag. */
  lemma LongFlag(name: string, rest: seq<string>, acc: ParsedArgs)
    requires rest == [] || rest[0] == "" || StartsWith(rest[0], "-")
    ensures ParseFrom(["--" + name] + rest, acc) == ParseFrom(rest, acc.(flags := Put(acc.flags, name, true)))
  {
    var args := ["--" + name] + rest;
    assert args[0][..2] == "--" && args[0][2..] == name;
    assert args[1..] == rest;
  }

  /** `-abc` sets the flags `a`, `b` and `c`. */
  lemma ShortBundle(cs: string, rest: seq<string>, acc: ParsedArgs)
    requires cs != "" && cs[0] != '-'
    ensures ParseFrom(["-" + cs] + rest, acc) == ParseFrom(rest, acc.(flags := SetChars(acc.flags, cs)))
  {
    var args := ["-" + cs] + rest;
    assert args[0][..1] == "-" && args[0][1..] == cs;
    assert !StartsWith(args[0], "--") by {
      assert args[0][1] == cs[0];
    }
    assert args[1..] == rest;
  }

  /** One step of `parseArgs` at index `i`. */
  lemma ParseStep(args: seq<string>, i: nat, acc: ParsedArgs)
    requires i < |args|
    ensures var arg := args[i];
      ParseFrom(args[i..], acc) ==
        if StartsWith(arg, "--") then
          if TakesValue(args, i) then ParseFrom(args[i + 2..], acc.(options := Put(acc.options, arg[2..], args[i + 1])))
          else ParseFrom(args[i + 1..], acc.(flags := Put(acc.flags, arg[2..], true)))
        else if StartsWith(arg, "-") && |arg| > 1 then
          ParseFrom(args[i + 1..], acc.(flags := SetChars(acc.flags, arg[1..])))
        else ParseFrom(args[i + 1..], acc.(positional := acc.positional + [arg]))
  {
    var rest := args[i..];
    assert rest[0] == args[i] && rest[1..] == args[i + 1..];
    if TakesValue(args, i) {
      assert TakesValue(rest, 0) && rest[1] == args[i + 1] && rest[2..] == args[i + 2..];
    } else {
      assert !TakesValue(rest, 0);
    }
  }

  /** A short-flag bundle at index `i` sets its characters. */
  lemma BundleStep(args: seq<string>, i: nat, j: nat, acc: ParsedArgs, chars: string)
    requires i < |args| && StartsWith(args[i], "-") && |args[i]| > 1 && !StartsWith(args[i], "--")
    requires j == i + 1 && chars == args[i][1..]
    ensures ParseFrom(args[i..], acc) == ParseFrom(args[j..], acc.(flags := SetChars(acc.flags, chars)))
  {
    ParseStep(args, i, acc);
  }

  /** A long option at index `i` takes the next argument. */
  lemma OptionStep(args: seq<string>, i: nat, j: nat, acc: ParsedArgs, name: string, value: string)
    requires i < |args| && StartsWith(args[i], "--") && TakesValue(args, i)
    requires j == i + 2 && name == args[i][2..] && value == args[i + 1]
    ensures ParseFrom(args[i..], acc) == ParseFrom(args[j..], acc.(options := Put(acc.options, name, value)))
  {
    ParseStep(args, i, acc);
  }

  /** A positional at index `i` is collected. */
  lemma PositionalStep(args: seq<string>, i: nat, j: nat, acc: ParsedArgs, arg: string)
    requires i < |args| && !StartsWith(args[i], "-") && j == i + 1 && arg == args[i]
    ensures ParseFrom(args[i..], acc) == ParseFrom(args[j..], acc.(positional := acc.positional + [arg]))
  {
    ParseStep(args, i, acc);
  }

  /** The argument list of the mixed example. */
  const MixedArgs := ["-vd", "--name", "john", "input.txt", "--output", "result.txt", "extra"]

  /** `-vd --name john` */
  lemma MixedFront(args: seq<string>)
    requires args == MixedArgs
    ensures ParseFrom(args, NoArgs) ==
      ParseFrom(args[3..], ParsedArgs(SetChars([], "vd"), Put([], "name", "john"), []))
  {
    var a1 := NoArgs.(flags := SetChars([], "vd"));
    assert args[0][..1] == "-" && args[0][1] != '-' && args[0][1..] == "vd";
    assert args[0..] == args;
    BundleStep(args, 0, 1, NoArgs, "vd");
    assert args[1][..2] == "--" && args[1][2..] == "name";
    assert TakesValue(args, 1) by {
      assert args[2][..1][0] == 'j';
    }
    OptionStep(args, 1, 3, a1, "name", "john");
  }

  /** `input.txt --output result.txt extra` */
  lemma MixedBack(args: seq<string>, acc: ParsedArgs)
    requires args == MixedArgs && acc.positional == []
    ensures ParseFrom(args[3..], acc) ==
      ParsedArgs(acc.flags, Put(acc.options, "output", "result.txt"), ["input.txt", "extra"])
  {
    var a3 := acc.(positional := ["input.txt"]);
    var a4 := a3.(options := Put(acc.options, "output", "result.txt"));
    assert !StartsWith(args[3], "-") by {
      assert args[3][..1][0] == 'i';
    }
    PositionalStep(args, 3, 4, acc, "input.txt");
    assert args[4][..2] == "--" && args[4][2..] == "output";
    assert TakesValue(args, 4) by {
      assert args[5][..1][0] == 'r';
    }
    OptionStep(args, 4, 6, a3, "output", "result.txt");
    assert args[6..] == ["extra"];
    PlainArgsArePositional(["extra"], a4);
  }

  lemma MixedTrace(args: seq<string>)
    requires args == MixedArgs
    ensures ParseFrom(args, NoArgs) ==
      ParsedArgs(SetChars([], "vd"), Put(Put([], "name", "john"), "output", "result.txt"), ["input.txt", "extra"])
  {
    MixedFront(args);
    MixedBack(args, ParsedArgs(SetChars([], "vd"), Put([], "name", "john"), []));
  }

  /** The mixed example: `-vd --name john input.txt --output result.txt extra`. */
  lemma MixedExample(args: seq<string>)
    requires args == MixedArgs
    ensures var r := ParseFrom(args, NoArgs);
      r.positional == ["input.txt", "extra"] &&
      Get(r.flags, "v") == Some(true) && Get(r.flags, "d") == Some(true) &&
      Get(r.options, "name") == Some("john") && Get(r.options, "output") == Some("result.txt")
  {
    MixedTrace(args);
    SetCharsMeaning([], "vd", "v");
    SetCharsMeaning([], "vd", "d");
    GetPut(Put([], "name", "john"), "output", "result.txt", "name");
    GetPut([], "name", "john", "name");
  }
}
