/** The command builder of the sysdef library: a command declares
    positional arguments, flags, options and subcommands, and `parse` turns
    an argument list into a result object keyed by the declared names. */
module Commands {
  import opened Wrappers
  import opened Strings
  import opened Validation

  datatype ValueType = StringType | NumberType | BooleanType

  /** A declaration's `type`, or the default the parser falls back to. */
  function TypeOr(t: Option<ValueType>, fallback: ValueType): ValueType {
    if t.Some? then t.value else fallback
  }

  /** A declared positional argument; `default` is `Undefined` when absent
      (the parser never reads it). */
  datatype ArgumentConfig = ArgumentConfig(name: string, required: bool, typ: Option<ValueType>, default: Value)

  /** A declared flag; `default` is `Undefined` when absent. */
  datatype FlagConfig = FlagConfig(short: Option<string>, long: string, typ: Option<ValueType>, default: Value)

  /** A declared option; `default` is `Undefined` when absent. */
  datatype OptionConfig = OptionConfig(short: Option<string>, long: string, typ: Option<ValueType>, required: bool, default: Value)

  /** The immutable declaration sets a command can `use`. */
  datatype ConfigSet =
    | FlagSet(flags: seq<FlagConfig>)
    | OptionSet(options: seq<OptionConfig>)
    | MixedSet(flags: seq<FlagConfig>, options: seq<OptionConfig>)

  /** The flags a set contributes. */
  function SetFlags(s: ConfigSet): seq<FlagConfig> {
    if s.OptionSet? then [] else s.flags
  }

  /** The options a set contributes. */
  function SetOptions(s: ConfigSet): seq<OptionConfig> {
    if s.FlagSet? then [] else s.options
  }

  /** `FlagSet.flag` and `MixedSet.flag`: a new set with one more flag. */
  function AddFlag(s: ConfigSet, f: FlagConfig): (r: ConfigSet)
    requires !s.OptionSet?
    ensures SetFlags(r) == SetFlags(s) + [f] && SetOptions(r) == SetOptions(s)
    ensures r.FlagSet? == s.FlagSet?
  {
    if s.FlagSet? then FlagSet(s.flags + [f]) else MixedSet(s.flags + [f], s.options)
  }

  /** `OptionSet.option` and `MixedSet.option`: a new set with one more option. */
  function AddOption(s: ConfigSet, o: OptionConfig): (r: ConfigSet)
    requires !s.FlagSet?
    ensures SetOptions(r) == SetOptions(s) + [o] && SetFlags(r) == SetFlags(s)
    ensures r.OptionSet? == s.OptionSet?
  {
    if s.OptionSet? then OptionSet(s.options + [o]) else MixedSet(s.flags, s.options + [o])
  }

  /** The action attached to a command, as an opaque token. */
  datatype Handler = Handler(id: nat)

  /** The parse result: the declared names and `_`, the list of extra
      positionals. */
  type Parsed = map<string, Value>

  /** `result[k]`, undefined for a missing key. */
  function Read(result: Parsed, k: string): Value {
    if k in result then result[k] else Undefined
  }

  /** `parseValue`: `number` stands for JavaScript's `Number()`. */
  function ParseValue(value: string, typ: ValueType, number: string -> Number): (r: Result<Value, string>)
    ensures typ == StringType ==> r == Ok(Str(value))
    ensures typ == NumberType ==> (r.Err? <==> number(value).NaN?)
    ensures typ == NumberType && r.Ok? ==> r.value == Num(number(value))
    ensures typ == NumberType && r.Err? ==> r.error == "Invalid number: " + value
    ensures typ == BooleanType ==> r.Ok? && r.value.Bool?
  {
    match typ
    case NumberType => if number(value).NaN? then Err("Invalid number: " + value) else Ok(Num(number(value)))
    case BooleanType => Ok(Bool(LowerAscii(value) == "true" || value == "1"))
    case StringType => Ok(Str(value))
  }

  /** `array.find`: the first element satisfying `p`. */
  function Find<T>(xs: seq<T>, p: T -> bool): (r: Option<T>)
    ensures r.None? <==> forall i :: 0 <= i < |xs| ==> !p(xs[i])
    ensures r.Some? ==> exists i :: 0 <= i < |xs| && xs[i] == r.value && p(xs[i]) && forall j :: 0 <= j < i ==> !p(xs[j])
  {
    if xs == [] then None
    else if p(xs[0]) then Some(xs[0])
    else
      var r := Find(xs[1..], p);
      assert forall i :: 1 <= i < |xs| ==> xs[i] == xs[1..][i - 1];
      r
  }

  function FlagByLong(fs: seq<FlagConfig>, name: string): Option<FlagConfig> {
    Find(fs, (f: FlagConfig) => f.long == name)
  }

  function OptionByLong(os: seq<OptionConfig>, name: string): Option<OptionConfig> {
    Find(os, (o: OptionConfig) => o.long == name)
  }

  function FlagByShort(fs: seq<FlagConfig>, name: string): Option<FlagConfig> {
    Find(fs, (f: FlagConfig) => f.short == Some(name))
  }

  function OptionByShort(os: seq<OptionConfig>, name: string): Option<OptionConfig> {
    Find(os, (o: OptionConfig) => o.short == Some(name))
  }

  /** The result object before any argument is read. */
  const Initial: Parsed := map["_" := Arr([])]

  /** Writes every flag default, in declaration order. */
  function SeedFlags(result: Parsed, fs: seq<FlagConfig>): Parsed
    decreases |fs|
  {
    if fs == [] then result
    else
      var r := SeedFlags(result, fs[..|fs| - 1]);
      var f := fs[|fs| - 1];
      if f.default != Undefined then r[f.long := f.default] else r
  }

  /** Writes every option default, in declaration order. */
  function SeedOptions(result: Parsed, os: seq<OptionConfig>): Parsed
    decreases |os|
  {
    if os == [] then result
    else
      var r := SeedOptions(result, os[..|os| - 1]);
      var o := os[|os| - 1];
      if o.default != Undefined then r[o.long := o.default] else r
  }

  /** The result object once every default has been written. */
  function Seeded(flags: seq<FlagConfig>, options: seq<OptionConfig>): Parsed {
    SeedOptions(SeedFlags(Initial, flags), options)
  }

  /** `result._.push(arg)`: fails when `_` has been overwritten by a
      declaration of that name with something other than an array. The
      message stands in for the `TypeError` the JavaScript engine raises;
      the source has no `throw` of its own here. */
  function Push(result: Parsed, arg: string): (r: Result<Parsed, string>)
    ensures r.Ok? <==> Read(result, "_").Arr?
    ensures r.Ok? ==> r.value == result["_" := Arr(Read(result, "_").elems + [Str(arg)])]
  {
    match Read(result, "_")
    case Arr(es) => Ok(result["_" := Arr(es + [Str(arg)])])
    case _ => Err("TypeError: result._.push is not a function")
  }

  /** The first required argument at an index of at least `pos`, from `j` on. */
  function MissingArgument(cfg: seq<ArgumentConfig>, pos: nat, j: nat): (r: Option<string>)
    ensures r.None? <==> forall k :: j <= k < |cfg| && cfg[k].required ==> k < pos
    ensures r.Some? ==> exists k :: j <= k < |cfg| && cfg[k].required && k >= pos && cfg[k].name == r.value
    decreases |cfg| - j
  {
    if j >= |cfg| then None
    else if cfg[j].required && j >= pos then Some(cfg[j].name)
    else MissingArgument(cfg, pos, j + 1)
  }

  /** The first required option, from `j` on, that is still undefined. */
  function MissingOption(os: seq<OptionConfig>, result: Parsed, j: nat): (r: Option<string>)
    ensures r.None? <==> forall k :: j <= k < |os| && os[k].required ==> Read(result, os[k].long) != Undefined
    ensures r.Some? ==> exists k :: j <= k < |os| && os[k].required && Read(result, os[k].long) == Undefined && os[k].long == r.value
    decreases |os| - j
  {
    if j >= |os| then None
    else if os[j].required && Read(result, os[j].long) == Undefined then Some(os[j].long)
    else MissingOption(os, result, j + 1)
  }

  const MissingArgumentText := "Missing required argument: "
  const MissingOptionText := "Missing required option: --"

  /** The checks after the last argument. */
  function Finish(arguments: seq<ArgumentConfig>, options: seq<OptionConfig>, result: Parsed, pos: nat): (r: Result<Parsed, string>)
    ensures r.Ok? <==>
      (forall k :: 0 <= k < |arguments| && arguments[k].required ==> k < pos) &&
      (forall k :: 0 <= k < |options| && options[k].required ==> Read(result, options[k].long) != Undefined)
    ensures r.Ok? ==> r.value == result
  {
    var arg := MissingArgument(arguments, pos, 0);
    if arg.Some? then Err(MissingArgumentText + arg.value)
    else
      var opt := MissingOption(options, result, 0);
      if opt.Some? then Err(MissingOptionText + opt.value)
      else Ok(result)
  }

  /** What one argument does to the parse: stop with a result, hand the
      rest over to a subcommand, or go on at index `j`. */
  datatype Step =
    | Stop(outcome: Result<Parsed, string>)
    | Delegate(sub: Command, rest: seq<string>)
    | Next(j: nat, result: Parsed, pos: nat)

  /** Stores a parsed value under `key`, or stops at the parse error. */
  function Assign(result: Parsed, key: string, v: Result<Value, string>, j: nat, pos: nat): (s: Step)
    ensures s.Next? <==> v.Ok?
    ensures s.Next? ==> s == Next(j, result[key := v.value], pos)
    ensures s.Stop? ==> s.outcome == Err(v.error)
  {
    match v
    case Err(e) => Stop(Err(e))
    case Ok(x) => Next(j, result[key := x], pos)
  }

  /** A flag whose type is boolean or not given. */
  predicate Switch(f: FlagConfig) {
    f.typ.None? || f.typ == Some(BooleanType)
  }

  /** `--name` or `--name=value` at index `i`. */
  function LongStep(flags: seq<FlagConfig>, options: seq<OptionConfig>, args: seq<string>, i: nat, result: Parsed, pos: nat, number: string -> Number): (s: Step)
    requires i < |args| && StartsWith(args[i], "--")
    ensures !s.Delegate?
    ensures s.Next? ==> i < s.j <= |args| && s.pos == pos
  {
    var (name, inline) := SplitTwo(args[i][2..], '=');
    if name == "" then Stop(Err("Invalid flag format"))
    else
      var flag := FlagByLong(flags, name);
      var option := OptionByLong(options, name);
      if flag.Some? then
        var f := flag.value;
        if Switch(f) then
          Assign(result, f.long, if inline.Present? then ParseValue(inline.text, BooleanType, number) else Ok(Bool(true)), i + 1, pos)
        else if inline.Present? then Assign(result, f.long, ParseValue(inline.text, f.typ.value, number), i + 1, pos)
        else if i + 1 < |args| then Assign(result, f.long, ParseValue(args[i + 1], f.typ.value, number), i + 2, pos)
        else Stop(Err("Flag --" + name + " requires a value"))
      else if option.Some? then
        var o := option.value;
        if inline.Present? then Assign(result, o.long, ParseValue(inline.text, TypeOr(o.typ, StringType), number), i + 1, pos)
        else if i + 1 < |args| then Assign(result, o.long, ParseValue(args[i + 1], TypeOr(o.typ, StringType), number), i + 2, pos)
        else Stop(Err("Option --" + name + " requires a value"))
      else Stop(Err("Unknown flag/option: --" + name))
  }

  /** `-name` at index `i`: the whole rest of the argument is one short name. */
  function ShortStep(flags: seq<FlagConfig>, options: seq<OptionConfig>, args: seq<string>, i: nat, result: Parsed, pos: nat, number: string -> Number): (s: Step)
    requires i < |args| && |args[i]| > 1
    ensures !s.Delegate?
    ensures s.Next? ==> i < s.j <= |args| && s.pos == pos
  {
    var name := args[i][1..];
    var flag := FlagByShort(flags, name);
    var option := OptionByShort(options, name);
    if flag.Some? then
      var f := flag.value;
      if Switch(f) then Next(i + 1, result[f.long := Bool(true)], pos)
      else if i + 1 < |args| then Assign(result, f.long, ParseValue(args[i + 1], f.typ.value, number), i + 2, pos)
      else Stop(Err("Flag -" + name + " requires a value"))
    else if option.Some? then
      var o := option.value;
      if i + 1 < |args| then Assign(result, o.long, ParseValue(args[i + 1], TypeOr(o.typ, StringType), number), i + 2, pos)
      else Stop(Err("Option -" + name + " requires a value"))
    else Stop(Err("Unknown flag/option: -" + name))
  }

  /** A positional at index `i`: the next declared argument takes it, or it
      is appended to `_`. */
  function PositionalStep(arguments: seq<ArgumentConfig>, args: seq<string>, i: nat, result: Parsed, pos: nat, number: string -> Number): (s: Step)
    requires i < |args|
    ensures !s.Delegate?
    ensures s.Next? ==> s.j == i + 1
  {
    if pos < |arguments| then
      Assign(result, arguments[pos].name, ParseValue(args[i], TypeOr(arguments[pos].typ, StringType), number), i + 1, pos + 1)
    else
      match Push(result, args[i])
      case Err(e) => Stop(Err(e))
      case Ok(r) => Next(i + 1, r, pos)
  }

  /** One turn of the `parse` loop. */
  function StepAt(c: Command, args: seq<string>, i: nat, result: Parsed, pos: nat, number: string -> Number): (s: Step)
    requires i < |args|
    reads c
    ensures s.Next? ==> i < s.j <= |args|
    ensures s.Delegate? ==> args[i] in c.subcommands && s.sub == c.subcommands[args[i]] && s.rest == args[i + 1..]
  {
    var arg := args[i];
    if arg in c.subcommands then Delegate(c.subcommands[arg], args[i + 1..])
    else if StartsWith(arg, "--") then LongStep(c.flags, c.options, args, i, result, pos, number)
    else if StartsWith(arg, "-") && |arg| > 1 then ShortStep(c.flags, c.options, args, i, result, pos, number)
    else PositionalStep(c.arguments, args, i, result, pos, number)
  }

  /** `parse(args)` of command `c`, as found in the heap. */
  ghost function ParseSpec(c: Command, args: seq<string>, number: string -> Number): Result<Parsed, string>
    reads *
    decreases |args|, 1, 0
  {
    RunFrom(c, args, 0, Seeded(c.flags, c.options), 0, number)
  }

  /** The `parse` loop from index `i` on. */
  ghost function RunFrom(c: Command, args: seq<string>, i: nat, result: Parsed, pos: nat, number: string -> Number): Result<Parsed, string>
    reads *
    decreases |args|, 0, |args| - i
  {
    if i >= |args| then Finish(c.arguments, c.options, result, pos)
    else
      match StepAt(c, args, i, result, pos, number)
      case Stop(outcome) => outcome
      case Delegate(sub, rest) => ParseSpec(sub, rest, number)
      case Next(j, r, p) => RunFrom(c, args, j, r, p, number)
  }

  /** What `execute` runs: the receiver's own handler, if any, on the parse
      result. */
  datatype Invocation = Invocation(handler: Option<Handler>, parsed: Parsed)

  class Command {
    var name: string
    var description: Option<string>
    var arguments: seq<ArgumentConfig>
    var flags: seq<FlagConfig>
    var options: seq<OptionConfig>
    var subcommands: map<string, Command>
    var handler: Option<Handler>

    /** `command(name, description)` */
    constructor(name: string, description: Option<string>)
      ensures this.name == name && this.description == description
      ensures arguments == [] && flags == [] && options == [] && subcommands == map[] && handler == None
    {
      this.name := name;
      this.description := description;
      arguments := [];
      flags := [];
      options := [];
      subcommands := map[];
      handler := None;
    }

    /** `description(desc)` changes the receiver and returns it. */
    method Description(desc: string) returns (r: Command)
      modifies this
      ensures r == this && description == Some(desc)
      ensures name == old(name) && arguments == old(arguments) && flags == old(flags) && options == old(options)
      ensures subcommands == old(subcommands) && handler == old(handler)
    {
      description := Some(desc);
      r := this;
    }

    /** A fresh command with the receiver's name, description, subcommands
        and handler, and the given declarations. */
    method CopyWith(arguments: seq<ArgumentConfig>, flags: seq<FlagConfig>, options: seq<OptionConfig>) returns (c: Command)
      ensures fresh(c)
      ensures c.name == name && c.description == description && c.subcommands == subcommands && c.handler == handler
      ensures c.arguments == arguments && c.flags == flags && c.options == options
    {
      c := new Command(name, description);
      c.arguments := arguments;
      c.flags := flags;
      c.options := options;
      c.subcommands := subcommands;
      c.handler := handler;
    }

    /** `argument(name, config)`: a new command with one more argument; the
        receiver is unchanged. */
    method Argument(argName: string, required: bool, typ: Option<ValueType>, default: Value) returns (c: Command)
      ensures fresh(c)
      ensures c.arguments == arguments + [ArgumentConfig(argName, required, typ, default)]
      ensures c.flags == flags && c.options == options
      ensures c.name == name && c.description == description && c.subcommands == subcommands && c.handler == handler
    {
      c := CopyWith(arguments + [ArgumentConfig(argName, required, typ, default)], flags, options);
    }

    /** `flag(long, config)`: a new command with one more flag. */
    method Flag(long: string, short: Option<string>, typ: Option<ValueType>, default: Value) returns (c: Command)
      ensures fresh(c)
      ensures c.flags == flags + [FlagConfig(short, long, typ, default)]
      ensures c.arguments == arguments && c.options == options
      ensures c.name == name && c.description == description && c.subcommands == subcommands && c.handler == handler
    {
      c := CopyWith(arguments, flags + [FlagConfig(short, long, typ, default)], options);
    }

    /** `option(long, config)`: a new command with one more option. */
    method Option(long: string, short: Option<string>, typ: Option<ValueType>, required: bool, default: Value) returns (c: Command)
      ensures fresh(c)
      ensures c.options == options + [OptionConfig(short, long, typ, required, default)]
      ensures c.arguments == arguments && c.flags == flags
      ensures c.name == name && c.description == description && c.subcommands == subcommands && c.handler == handler
    {
      c := CopyWith(arguments, flags, options + [OptionConfig(short, long, typ, required, default)]);
    }

    /** `use(set)`: a new command with the set's flags and options appended. */
    method Use(configs: ConfigSet) returns (c: Command)
      ensures fresh(c)
      ensures c.flags == flags + SetFlags(configs) && c.options == options + SetOptions(configs)
      ensures c.arguments == arguments
      ensures c.name == name && c.description == description && c.subcommands == subcommands && c.handler == handler
    {
      match configs
      case FlagSet(fs) =>
        c := CopyWith(arguments, flags + fs, options);
      case OptionSet(os) =>
        c := CopyWith(arguments, flags, options + os);
      case MixedSet(fs, os) =>
        c := CopyWith(arguments, flags + fs, options + os);
    }

    /** `subcommand(name, description)`: registers a fresh, bare command
        under `name` and returns it. */
    method Subcommand(subName: string, subDescription: Option<string>) returns (sub: Command)
      modifies this
      ensures fresh(sub)
      ensures sub.name == subName && sub.description == subDescription
      ensures sub.arguments == [] && sub.flags == [] && sub.options == [] && sub.subcommands == map[] && sub.handler == None
      ensures subcommands == old(subcommands)[subName := sub]
      ensures name == old(name) && description == old(description) && arguments == old(arguments)
      ensures flags == old(flags) && options == old(options) && handler == old(handler)
    {
      sub := new Command(subName, subDescription);
      subcommands := subcommands[subName := sub];
    }

    /** `action(handler)` changes the receiver and returns it. */
    method Action(h: Handler) returns (r: Command)
      modifies this
      ensures r == this && handler == Some(h)
      ensures name == old(name) && description == old(description) && arguments == old(arguments)
      ensures flags == old(flags) && options == old(options) && subcommands == old(subcommands)
    {
      handler := Some(h);
      r := this;
    }

    /** The long-argument branch of `parse`. */
    method LongArg(args: seq<string>, i: nat, result: Parsed, pos: nat, number: string -> Number) returns (s: Step)
      requires i < |args| && StartsWith(args[i], "--")
      ensures s == LongStep(flags, options, args, i, result, pos, number)
    {
      var (name, inline) := SplitTwo(args[i][2..], '=');
      if name == "" {
        return Stop(Err("Invalid flag format"));
      }
      var flag := FlagByLong(flags, name);
      var option := OptionByLong(options, name);
      var key: string;
      var v: Result<Value, string>;
      var j := i + 1;
      if flag.Some? {
        var f := flag.value;
        key := f.long;
        if Switch(f) {
          v := if inline.Present? then ParseValue(inline.text, BooleanType, number) else Ok(Bool(true));
        } else if inline.Present? {
          v := ParseValue(inline.text, f.typ.value, number);
        } else if i + 1 < |args| {
          v := ParseValue(args[i + 1], f.typ.value, number);
          j := i + 2;
        } else {
          return Stop(Err("Flag --" + name + " requires a value"));
        }
      } else if option.Some? {
        var o := option.value;
        key := o.long;
        if inline.Present? {
          v := ParseValue(inline.text, TypeOr(o.typ, StringType), number);
        } else if i + 1 < |args| {
          v := ParseValue(args[i + 1], TypeOr(o.typ, StringType), number);
          j := i + 2;
        } else {
          return Stop(Err("Option --" + name + " requires a value"));
        }
      } else {
        return Stop(Err("Unknown flag/option: --" + name));
      }
      s := Assign(result, key, v, j, pos);
    }

    /** The short-argument branch of `parse`. */
    method ShortArg(args: seq<string>, i: nat, result: Parsed, pos: nat, number: string -> Number) returns (s: Step)
      requires i < |args| && |args[i]| > 1
      ensures s == ShortStep(flags, options, args, i, result, pos, number)
    {
      var name := args[i][1..];
      var flag := FlagByShort(flags, name);
      var option := OptionByShort(options, name);
      if flag.Some? {
        var f := flag.value;
        if Switch(f) {
          s := Next(i + 1, result[f.long := Bool(true)], pos);
        } else if i + 1 < |args| {
          s := Assign(result, f.long, ParseValue(args[i + 1], f.typ.value, number), i + 2, pos);
        } else {
          s := Stop(Err("Flag -" + name + " requires a value"));
        }
      } else if option.Some? {
        var o := option.value;
        if i + 1 < |args| {
          s := Assign(result, o.long, ParseValue(args[i + 1], TypeOr(o.typ, StringType), number), i + 2, pos);
        } else {
          s := Stop(Err("Option -" + name + " requires a value"));
        }
      } else {
        s := Stop(Err("Unknown flag/option: -" + name));
      }
    }

    /** The positional branch of `parse`. */
    method PositionalArg(args: seq<string>, i: nat, result: Parsed, pos: nat, number: string -> Number) returns (s: Step)
      requires i < |args|
      ensures s == PositionalStep(arguments, args, i, result, pos, number)
    {
      if pos < |arguments| {
        var a := arguments[pos];
        s := Assign(result, a.name, ParseValue(args[i], TypeOr(a.typ, StringType), number), i + 1, pos + 1);
      } else if Read(result, "_").Arr? {
        s := Next(i + 1, result["_" := Arr(Read(result, "_").elems + [Str(args[i])])], pos);
      } else {
        s := Stop(Err("TypeError: result._.push is not a function"));
      }
    }

    /** `parse(args)` */
    method Parse(args: seq<string>, number: string -> Number) returns (r: Result<Parsed, string>)
      ensures r == ParseSpec(this, args, number)
      decreases |args|
    {
      var result := Initial;
      for k := 0 to |flags|
        invariant result == SeedFlags(Initial, flags[..k])
      {
        assert flags[..k + 1][..k] == flags[..k];
        if flags[k].default != Undefined {
          result := result[flags[k].long := flags[k].default];
        }
      }
      assert flags[..|flags|] == flags;
      ghost var seeded := result;
      for k := 0 to |options|
        invariant result == SeedOptions(seeded, options[..k])
      {
        assert options[..k + 1][..k] == options[..k];
        if options[k].default != Undefined {
          result := result[options[k].long := options[k].default];
        }
      }
      assert options[..|options|] == options;

      var i := 0;
      var pos := 0;
      while i < |args|
        invariant i <= |args|
        invariant ParseSpec(this, args, number) == RunFrom(this, args, i, result, pos, number)
        decreases |args| - i
      {
        var arg := args[i];
        if arg in subcommands {
          var sub := subcommands[arg];
          r := sub.Parse(args[i + 1..], number);
          return;
        }
        var step: Step;
        if StartsWith(arg, "--") {
          step := LongArg(args, i, result, pos, number);
        } else if StartsWith(arg, "-") && |arg| > 1 {
          step := ShortArg(args, i, result, pos, number);
        } else {
          step := PositionalArg(args, i, result, pos, number);
        }
        assert step == StepAt(this, args, i, result, pos, number);
        if step.Stop? {
          return step.outcome;
        }
        i, result, pos := step.j, step.result, step.pos;
      }
      r := Finish(arguments, options, result, pos);
    }

    /** `execute(args)`: parses with the receiver and hands the result to
        the receiver's own handler, even when a subcommand did the parsing. */
    method Execute(args: seq<string>, number: string -> Number) returns (r: Result<Invocation, string>)
      ensures ParseSpec(this, args, number).Err? ==> r == Err(ParseSpec(this, args, number).error)
      ensures ParseSpec(this, args, number).Ok? ==> r == Ok(Invocation(handler, ParseSpec(this, args, number).value))
    {
      var parsed := Parse(args, number);
      match parsed
      case Err(e) =>
        r := Err(e);
      case Ok(p) =>
        r := Ok(Invocation(handler, p));
    }
  }

  // ---------------------------------------------------------------------
  // Properties of `parse`

  /** A key no defaulted flag names keeps its value. */
  lemma {:induction false} SeedFlagsKeep(result: Parsed, fs: seq<FlagConfig>, k: string)
    requires forall j :: 0 <= j < |fs| && fs[j].default != Undefined ==> fs[j].long != k
    ensures Read(SeedFlags(result, fs), k) == Read(result, k)
    decreases |fs|
  {
    if fs != [] {
      SeedFlagsKeep(result, fs[..|fs| - 1], k);
    }
  }

  /** The last defaulted flag of a name decides that name's value. */
  lemma {:induction false} SeedFlagsLast(result: Parsed, fs: seq<FlagConfig>, j: nat)
    requires j < |fs| && fs[j].default != Undefined
    requires forall j' :: j < j' < |fs| && fs[j'].default != Undefined ==> fs[j'].long != fs[j].long
    ensures Read(SeedFlags(result, fs), fs[j].long) == fs[j].default
    decreases |fs|
  {
    if j < |fs| - 1 {
      SeedFlagsLast(result, fs[..|fs| - 1], j);
    }
  }

  /** A key no defaulted option names keeps its value. */
  lemma {:induction false} SeedOptionsKeep(result: Parsed, os: seq<OptionConfig>, k: string)
    requires forall j :: 0 <= j < |os| && os[j].default != Undefined ==> os[j].long != k
    ensures Read(SeedOptions(result, os), k) == Read(result, k)
    decreases |os|
  {
    if os != [] {
      SeedOptionsKeep(result, os[..|os| - 1], k);
    }
  }

  /** The last defaulted option of a name decides that name's value. */
  lemma {:induction false} SeedOptionsLast(result: Parsed, os: seq<OptionConfig>, j: nat)
    requires j < |os| && os[j].default != Undefined
    requires forall j' :: j < j' < |os| && os[j'].default != Undefined ==> os[j'].long != os[j].long
    ensures Read(SeedOptions(result, os), os[j].long) == os[j].default
    decreases |os|
  {
    if j < |os| - 1 {
      SeedOptionsLast(result, os[..|os| - 1], j);
    }
  }

  /** Declarations without defaults write nothing. */
  lemma {:induction false} NoDefaults(fs: seq<FlagConfig>, os: seq<OptionConfig>, result: Parsed)
    requires forall j :: 0 <= j < |fs| ==> fs[j].default == Undefined
    requires forall j :: 0 <= j < |os| ==> os[j].default == Undefined
    ensures SeedOptions(SeedFlags(result, fs), os) == result
    decreases |fs| + |os|
  {
    if os != [] {
      NoDefaults(fs, os[..|os| - 1], result);
    } else if fs != [] {
      NoDefaults(fs[..|fs| - 1], os, result);
    }
  }

  /** With no arguments, `parse` only checks the seeded defaults. */
  lemma ParseNothing(c: Command, number: string -> Number)
    ensures ParseSpec(c, [], number) == Finish(c.arguments, c.options, Seeded(c.flags, c.options), 0)
  {
  }

  /** A registered subcommand name hands the rest of the arguments to that
      subcommand: whatever the parent has parsed so far is discarded. */
  lemma SubcommandDelegates(c: Command, args: seq<string>, i: nat, result: Parsed, pos: nat, number: string -> Number)
    requires i < |args| && args[i] in c.subcommands
    ensures RunFrom(c, args, i, result, pos, number) == ParseSpec(c.subcommands[args[i]], args[i + 1..], number)
  {
  }

  /** An argument the parser treats as positional: `-`, the empty string,
      or one not starting with `-`. */
  predicate Plain(arg: string) {
    |arg| <= 1 || arg[0] != '-'
  }

  lemma PlainIsPositional(arg: string)
    requires Plain(arg)
    ensures !StartsWith(arg, "--") && !(StartsWith(arg, "-") && |arg| > 1)
  {
    if |arg| > 1 {
      assert arg[..1][0] == arg[0];
      assert arg[..2][0] == arg[0];
    }
  }

  /** A positional that a declared argument is still waiting for is stored
      under that argument's name. */
  lemma PositionalFills(c: Command, args: seq<string>, i: nat, result: Parsed, pos: nat, number: string -> Number)
    requires i < |args| && Plain(args[i]) && args[i] !in c.subcommands
    requires pos < |c.arguments| && TypeOr(c.arguments[pos].typ, StringType) == StringType
    ensures RunFrom(c, args, i, result, pos, number) ==
      RunFrom(c, args, i + 1, result[c.arguments[pos].name := Str(args[i])], pos + 1, number)
  {
    PlainIsPositional(args[i]);
  }

  /** `PositionalFills`, with the argument's name and text and the next
      index and position named by the caller. */
  lemma PositionalFillsTo(c: Command, args: seq<string>, i: nat, result: Parsed, pos: nat, number: string -> Number, key: string, text: string, j: nat, next: nat)
    requires i < |args| && args[i] == text && Plain(text) && text !in c.subcommands
    requires pos < |c.arguments| && c.arguments[pos].name == key && TypeOr(c.arguments[pos].typ, StringType) == StringType
    requires j == i + 1 && next == pos + 1
    ensures RunFrom(c, args, i, result, pos, number) == RunFrom(c, args, j, result[key := Str(text)], next, number)
  {
    PositionalFills(c, args, i, result, pos, number);
  }

  function Strs(xs: seq<string>): (r: seq<Value>)
    ensures |r| == |xs| && forall k :: 0 <= k < |xs| ==> r[k] == Str(xs[k])
  {
    if xs == [] then [] else [Str(xs[0])] + Strs(xs[1..])
  }

  /** A plain argument past the declared ones is appended to `_`. */
  lemma PlainPushes(c: Command, args: seq<string>, i: nat, result: Parsed, pos: nat, number: string -> Number)
    requires i < |args| && pos >= |c.arguments| && Read(result, "_").Arr?
    requires Plain(args[i]) && args[i] !in c.subcommands
    ensures RunFrom(c, args, i, result, pos, number) ==
      RunFrom(c, args, i + 1, result["_" := Arr(Read(result, "_").elems + [Str(args[i])])], pos, number)
  {
    PlainIsPositional(args[i]);
  }

  lemma Overwrite(result: Parsed, es: seq<Value>, x: Value, xs: seq<Value>)
    ensures result["_" := Arr(es + [x])]["_" := Arr(es + [x] + xs)] == result["_" := Arr(es + ([x] + xs))]
  {
    assert es + [x] + xs == es + ([x] + xs);
  }

  /** Once every declared argument is filled, plain arguments are appended
      to `_` in the order given. */
  lemma {:induction false} ExtrasInOrder(c: Command, args: seq<string>, i: nat, result: Parsed, pos: nat, number: string -> Number)
    requires i <= |args| && pos >= |c.arguments| && Read(result, "_").Arr?
    requires forall k :: i <= k < |args| ==> Plain(args[k]) && args[k] !in c.subcommands
    ensures RunFrom(c, args, i, result, pos, number) ==
      Finish(c.arguments, c.options, result["_" := Arr(Read(result, "_").elems + Strs(args[i..]))], pos)
    decreases |args| - i
  {
    var es := Read(result, "_").elems;
    if i == |args| {
      assert es + Strs(args[i..]) == es;
      assert result["_" := Arr(es)] == result;
    } else {
      var next := result["_" := Arr(es + [Str(args[i])])];
      PlainPushes(c, args, i, result, pos, number);
      ExtrasInOrder(c, args, i + 1, next, pos, number);
      assert Strs(args[i..]) == [Str(args[i])] + Strs(args[i + 1..]);
      Overwrite(result, es, Str(args[i]), Strs(args[i + 1..]));
    }
  }

  /** `--` and `--=…` have an empty name. */
  lemma InvalidFlagFormat(c: Command, args: seq<string>, i: nat, result: Parsed, pos: nat, number: string -> Number)
    requires i < |args| && args[i] !in c.subcommands
    requires args[i] == "--" || StartsWith(args[i], "--=")
    ensures RunFrom(c, args, i, result, pos, number) == Err("Invalid flag format")
  {
    var arg := args[i];
    assert arg[..2] == "--" by {
      if arg != "--" {
        assert arg[..3][..2] == arg[..2];
      }
    }
    var rest := arg[2..];
    if arg != "--" {
      assert rest == [] + ['='] + rest[1..] by {
        assert arg[..3][2] == '=';
      }
      SplitTwoAfter([], '=', rest[1..]);
    }
  }

  /** How a long argument `--name`, or `--name=text`, splits. */
  lemma LongSplit(arg: string, name: string, text: string)
    requires arg == "--" + name + "=" + text && '=' !in name
    ensures StartsWith(arg, "--") && arg[2..] == name + ['='] + text
    ensures SplitTwo(arg[2..], '=') == (name, Present(Split(text, '=')[0]))
  {
    assert arg[..2] == "--";
    assert arg[2..] == name + ['='] + text;
    SplitTwoAfter(name, '=', text);
  }

  lemma LongBare(arg: string, name: string)
    requires arg == "--" + name && '=' !in name
    ensures StartsWith(arg, "--") && arg[2..] == name
    ensures SplitTwo(arg[2..], '=') == (name, Absent)
  {
    assert arg[..2] == "--";
    assert arg[2..] == name;
  }

  /** A boolean or untyped flag given as `--name` is true. */
  lemma LongSwitch(c: Command, args: seq<string>, i: nat, result: Parsed, pos: nat, number: string -> Number, name: string)
    requires i < |args| && args[i] !in c.subcommands
    requires args[i] == "--" + name && name != "" && '=' !in name
    requires FlagByLong(c.flags, name).Some? && Switch(FlagByLong(c.flags, name).value)
    ensures RunFrom(c, args, i, result, pos, number) == RunFrom(c, args, i + 1, result[name := Bool(true)], pos, number)
  {
    LongBare(args[i], name);
  }

  /** A boolean or untyped flag given as `--name=text` is true exactly when
      the text before any further `=` lower-cases to `true` or is `1`. */
  lemma LongSwitchInline(c: Command, args: seq<string>, i: nat, result: Parsed, pos: nat, number: string -> Number, name: string, text: string)
    requires i < |args| && args[i] !in c.subcommands
    requires args[i] == "--" + name + "=" + text && name != "" && '=' !in name
    requires FlagByLong(c.flags, name).Some? && Switch(FlagByLong(c.flags, name).value)
    ensures var v := Split(text, '=')[0];
      RunFrom(c, args, i, result, pos, number) ==
      RunFrom(c, args, i + 1, result[name := Bool(LowerAscii(v) == "true" || v == "1")], pos, number)
  {
    LongSplit(args[i], name, text);
  }

  /** A string option given as `--name=text` takes the text before any
      further `=`: `--o=a=b` gives `a`. */
  lemma InlineOption(c: Command, args: seq<string>, i: nat, result: Parsed, pos: nat, number: string -> Number, name: string, text: string)
    requires i < |args| && args[i] !in c.subcommands
    requires args[i] == "--" + name + "=" + text && name != "" && '=' !in name
    requires FlagByLong(c.flags, name).None? && OptionByLong(c.options, name).Some?
    requires TypeOr(OptionByLong(c.options, name).value.typ, StringType) == StringType
    ensures RunFrom(c, args, i, result, pos, number) ==
      RunFrom(c, args, i + 1, result[name := Str(Split(text, '=')[0])], pos, number)
  {
    LongSplit(args[i], name, text);
  }

  /** One parse step at a bare `--name` option whose next argument parses to `v`. */
  lemma OptionStepValue(c: Command, args: seq<string>, i: nat, result: Parsed, pos: nat, number: string -> Number,
                        name: string, value: string, v: Value, next: nat)
    requires next == i + 2 && next <= |args| && args[i] !in c.subcommands && args[i + 1] == value
    requires args[i] == "--" + name && name != "" && '=' !in name
    requires FlagByLong(c.flags, name).None? && OptionByLong(c.options, name).Some?
    requires ParseValue(value, TypeOr(OptionByLong(c.options, name).value.typ, StringType), number) == Ok(v)
    ensures StepAt(c, args, i, result, pos, number) == Next(next, result[name := v], pos)
  {
    LongBare(args[i], name);
    var o := OptionByLong(c.options, name).value;
    assert LongStep(c.flags, c.options, args, i, result, pos, number)
        == Assign(result, o.long, ParseValue(args[i + 1], TypeOr(o.typ, StringType), number), i + 2, pos);
  }

  /** `--name value` for a declared option whose value parses: the option
      takes the parsed value and the scan goes on after it. */
  lemma OptionTakesValue(c: Command, args: seq<string>, i: nat, result: Parsed, pos: nat, number: string -> Number,
                         name: string, value: string, v: Value, next: nat)
    requires next == i + 2 && next <= |args| && args[i] !in c.subcommands && args[i + 1] == value
    requires args[i] == "--" + name && name != "" && '=' !in name
    requires FlagByLong(c.flags, name).None? && OptionByLong(c.options, name).Some?
    requires ParseValue(value, TypeOr(OptionByLong(c.options, name).value.typ, StringType), number) == Ok(v)
    ensures RunFrom(c, args, i, result, pos, number) == RunFrom(c, args, next, result[name := v], pos, number)
  {
    OptionStepValue(c, args, i, result, pos, number, name, value, v, next);
  }
  lemma OptionTakesNext(c: Command, args: seq<string>, i: nat, result: Parsed, pos: nat, number: string -> Number, name: string)
    requires i < |args| && args[i] !in c.subcommands
    requires args[i] == "--" + name && name != "" && '=' !in name
    requires FlagByLong(c.flags, name).None? && OptionByLong(c.options, name).Some?
    ensures var t := TypeOr(OptionByLong(c.options, name).value.typ, StringType);
      RunFrom(c, args, i, result, pos, number) ==
        if i + 1 == |args| then Err("Option --" + name + " requires a value")
        else match ParseValue(args[i + 1], t, number)
          case Err(e) => Err(e)
          case Ok(v) => RunFrom(c, args, i + 2, result[name := v], pos, number)
  {
    LongBare(args[i], name);
  }

  /** A flag of type string or number given as `--name` takes the next
      argument; as the last argument it is an error. */
  lemma FlagTakesNext(c: Command, args: seq<string>, i: nat, result: Parsed, pos: nat, number: string -> Number, name: string)
    requires i < |args| && args[i] !in c.subcommands
    requires args[i] == "--" + name && name != "" && '=' !in name
    requires FlagByLong(c.flags, name).Some? && !Switch(FlagByLong(c.flags, name).value)
    ensures var t := FlagByLong(c.flags, name).value.typ.value;
      RunFrom(c, args, i, result, pos, number) ==
        if i + 1 == |args| then Err("Flag --" + name + " requires a value")
        else match ParseValue(args[i + 1], t, number)
          case Err(e) => Err(e)
          case Ok(v) => RunFrom(c, args, i + 2, result[name := v], pos, number)
  {
    LongBare(args[i], name);
  }

  /** A long name that no flag or option declares is an error. */
  lemma UnknownLong(c: Command, args: seq<string>, i: nat, result: Parsed, pos: nat, number: string -> Number, name: string, inline: MaybeText)
    requires i < |args| && args[i] !in c.subcommands
    requires args[i] == "--" + name + (if inline.Present? then "=" + inline.text else "")
    requires name != "" && '=' !in name
    requires forall j :: 0 <= j < |c.flags| ==> c.flags[j].long != name
    requires forall j :: 0 <= j < |c.options| ==> c.options[j].long != name
    ensures RunFrom(c, args, i, result, pos, number) == Err("Unknown flag/option: --" + name)
  {
    if inline.Present? {
      LongSplit(args[i], name, inline.text);
    } else {
      LongBare(args[i], name);
    }
  }

  /** `-name` is looked up as one short name: `-xy` is not `-x -y`. */
  lemma ShortWhole(c: Command, args: seq<string>, i: nat, result: Parsed, pos: nat, number: string -> Number, name: string)
    requires i < |args| && args[i] !in c.subcommands
    requires args[i] == "-" + name && name != "" && name[0] != '-'
    requires forall j :: 0 <= j < |c.flags| ==> c.flags[j].short != Some(name)
    requires forall j :: 0 <= j < |c.options| ==> c.options[j].short != Some(name)
    ensures RunFrom(c, args, i, result, pos, number) == Err("Unknown flag/option: -" + name)
  {
    assert args[i][..1] == "-";
    assert args[i][1..] == name;
    assert args[i][..2][1] == name[0];
  }

  /** A boolean or untyped flag given as `-s` is true. */
  lemma ShortSwitch(c: Command, args: seq<string>, i: nat, result: Parsed, pos: nat, number: string -> Number, name: string)
    requires i < |args| && args[i] !in c.subcommands
    requires args[i] == "-" + name && name != "" && name[0] != '-'
    requires FlagByShort(c.flags, name).Some? && Switch(FlagByShort(c.flags, name).value)
    ensures RunFrom(c, args, i, result, pos, number) ==
      RunFrom(c, args, i + 1, result[FlagByShort(c.flags, name).value.long := Bool(true)], pos, number)
  {
    assert args[i][..1] == "-";
    assert args[i][1..] == name;
    assert args[i][..2][1] == name[0];
  }

  /** An option given as `-s` takes the next argument; as the last argument
      it is an error. */
  lemma ShortOptionTakesNext(c: Command, args: seq<string>, i: nat, result: Parsed, pos: nat, number: string -> Number, name: string)
    requires i < |args| && args[i] !in c.subcommands
    requires args[i] == "-" + name && name != "" && name[0] != '-'
    requires FlagByShort(c.flags, name).None? && OptionByShort(c.options, name).Some?
    ensures var o := OptionByShort(c.options, name).value;
      RunFrom(c, args, i, result, pos, number) ==
        if i + 1 == |args| then Err("Option -" + name + " requires a value")
        else match ParseValue(args[i + 1], TypeOr(o.typ, StringType), number)
          case Err(e) => Err(e)
          case Ok(v) => RunFrom(c, args, i + 2, result[o.long := v], pos, number)
  {
    assert args[i][..1] == "-";
    assert args[i][1..] == name;
    assert args[i][..2][1] == name[0];
  }

  /** Boolean text: `true` in any letter case, or `1`. */
  lemma BooleanText(number: string -> Number)
    ensures ParseValue("TRUE", BooleanType, number) == Ok(Bool(true))
    ensures ParseValue("1", BooleanType, number) == Ok(Bool(true))
    ensures ParseValue("yes", BooleanType, number) == Ok(Bool(false))
    ensures ParseValue("0", BooleanType, number) == Ok(Bool(false))
  {
    assert LowerAscii("TRUE") == "true";
    assert LowerAscii("yes")[0] == 'y';
    assert LowerAscii("0")[0] == '0';
  }

  /** Boolean text in general: it always parses, and it is true exactly for
      `1` and for the four letters of `true`, each in either letter case. */
  lemma BooleanRule(value: string, number: string -> Number)
    ensures ParseValue(value, BooleanType, number).Ok?
    ensures ParseValue(value, BooleanType, number).value.Bool?
    ensures ParseValue(value, BooleanType, number).value.b <==>
      value == "1" || (|value| == 4 && forall i :: 0 <= i < 4 ==> LowerChar(value[i]) == "true"[i])
  {
    var low := LowerAscii(value);
    if |value| == 4 && forall i :: 0 <= i < 4 ==> LowerChar(value[i]) == "true"[i] {
      assert forall i :: 0 <= i < 4 ==> low[i] == "true"[i];
      assert low == "true";
    }
    if low == "true" {
      assert forall i :: 0 <= i < 4 ==> LowerChar(value[i]) == low[i];
    }
  }

  // ---------------------------------------------------------------------
  // The library's own usage examples

  const InputFile: seq<string> := ["input.txt"]

  /** `command('test').argument('file', {type: 'string', required: true})`
      on `input.txt` */
  lemma BasicArgumentExample(c: Command, args: seq<string>, number: string -> Number)
    requires c.arguments == [ArgumentConfig("file", true, Some(StringType), Undefined)]
    requires c.flags == [] && c.options == [] && c.subcommands == map[]
    requires args == InputFile
    ensures ParseSpec(c, args, number) == Ok(map["_" := Arr([]), "file" := Str("input.txt")])
  {
    assert args[0][0] == 'i';
    PositionalFills(c, args, 0, Initial, 0, number);
  }

  const VerboseDebug: seq<string> := ["--verbose", "--debug"]

  /** The declarations of the flags example. */
  predicate VerboseDebugCommand(c: Command)
    reads c
  {
    c.flags == [FlagConfig(Some("v"), "verbose", None, Undefined), FlagConfig(None, "debug", Some(BooleanType), Undefined)] &&
    c.arguments == [] && c.options == [] && c.subcommands == map[]
  }

  lemma VerboseStep(c: Command, args: seq<string>, number: string -> Number)
    requires VerboseDebugCommand(c) && args == VerboseDebug
    ensures ParseSpec(c, args, number) == RunFrom(c, args, 1, Initial["verbose" := Bool(true)], 0, number)
  {
    NoDefaults(c.flags, c.options, Initial);
    assert args[0] == "--" + "verbose";
    assert FlagByLong(c.flags, "verbose") == Some(c.flags[0]);
    LongSwitch(c, args, 0, Initial, 0, number, "verbose");
  }

  lemma DebugStep(c: Command, args: seq<string>, r: Parsed, number: string -> Number)
    requires VerboseDebugCommand(c) && args == VerboseDebug
    ensures RunFrom(c, args, 1, r, 0, number) == RunFrom(c, args, 2, r["debug" := Bool(true)], 0, number)
  {
    assert args[1] == "--" + "debug";
    assert FlagByLong(c.flags, "debug") == Some(c.flags[1]);
    LongSwitch(c, args, 1, r, 0, number, "debug");
  }

  /** `.flag('verbose', {short: 'v'}).flag('debug', {type: 'boolean'})` on
      `--verbose --debug` */
  lemma FlagsExample(c: Command, args: seq<string>, number: string -> Number)
    requires VerboseDebugCommand(c)
    requires args == VerboseDebug
    ensures ParseSpec(c, args, number) == Ok(map["_" := Arr([]), "verbose" := Bool(true), "debug" := Bool(true)])
  {
    VerboseStep(c, args, number);
    DebugStep(c, args, Initial["verbose" := Bool(true)], number);
  }

  const MissingInput: seq<string> := []

  /** `.argument('required', {required: true})` on no arguments */
  lemma MissingArgumentExample(c: Command, args: seq<string>, number: string -> Number)
    requires c.arguments == [ArgumentConfig("required", true, None, Undefined)]
    requires c.flags == [] && c.options == []
    requires args == MissingInput
    ensures ParseSpec(c, args, number) == Err(MissingArgumentText + "required")
  {
    NoDefaults(c.flags, c.options, Initial);
    assert Seeded(c.flags, c.options) == Initial;
    ParseNothing(c, number);
    assert MissingArgument(c.arguments, 0, 0) == Some("required");
  }

  /** `.option('required', {required: true})` on no arguments */
  lemma MissingOptionExample(c: Command, args: seq<string>, number: string -> Number)
    requires c.options == [OptionConfig(None, "required", None, true, Undefined)]
    requires c.arguments == [] && c.flags == []
    requires args == MissingInput
    ensures ParseSpec(c, args, number) == Err(MissingOptionText + "required")
  {
    NoDefaults(c.flags, c.options, Initial);
    assert Seeded(c.flags, c.options) == Initial;
    ParseNothing(c, number);
    assert MissingArgument(c.arguments, 0, 0) == None;
    assert Read(Initial, "required") == Undefined;
    assert MissingOption(c.options, Initial, 0) == Some("required");
  }

  const OutputCount: seq<string> := ["--output", "result.txt", "--count", "42"]

  /** The declarations of the options example. */
  predicate OutputCountCommand(c: Command)
    reads c
  {
    c.options == [OptionConfig(Some("o"), "output", Some(StringType), true, Undefined), OptionConfig(None, "count", Some(NumberType), false, Undefined)] &&
    c.arguments == [] && c.flags == [] && c.subcommands == map[]
  }

  lemma OutputStep(c: Command, args: seq<string>, number: string -> Number)
    requires OutputCountCommand(c) && args == OutputCount
    ensures ParseSpec(c, args, number) == RunFrom(c, args, 2, Initial["output" := Str("result.txt")], 0, number)
  {
    NoDefaults(c.flags, c.options, Initial);
    assert args[0] == "--" + "output";
    assert OptionByLong(c.options, "output") == Some(c.options[0]);
    OptionTakesValue(c, args, 0, Initial, 0, number, "output", "result.txt", Str("result.txt"), 2);
  }

  lemma CountStep(c: Command, args: seq<string>, r: Parsed, number: string -> Number)
    requires OutputCountCommand(c) && args == OutputCount && number("42") == Finite(42.0)
    ensures RunFrom(c, args, 2, r, 0, number) == RunFrom(c, args, 4, r["count" := Num(Finite(42.0))], 0, number)
  {
    assert args[2] == "--" + "count";
    assert OptionByLong(c.options, "count") == Some(c.options[1]);
    OptionTakesValue(c, args, 2, r, 0, number, "count", "42", Num(Finite(42.0)), 4);
  }

  lemma OutputCountFinish(c: Command, r: Parsed)
    requires OutputCountCommand(c) && r == Initial["output" := Str("result.txt")]["count" := Num(Finite(42.0))]
    ensures Finish(c.arguments, c.options, r, 0) == Ok(r)
  {
    assert Read(r, "output") != Undefined;
    assert MissingOption(c.options, r, 0) == None;
  }

  /** `.option('output', {short: 'o', type: 'string', required: true})
      .option('count', {type: 'number'})` on `--output result.txt --count 42` */
  lemma OptionsExample(c: Command, args: seq<string>, number: string -> Number)
    requires OutputCountCommand(c)
    requires args == OutputCount && number("42") == Finite(42.0)
    ensures ParseSpec(c, args, number) == Ok(map["_" := Arr([]), "output" := Str("result.txt"), "count" := Num(Finite(42.0))])
  {
    OutputStep(c, args, number);
    CountStep(c, args, Initial["output" := Str("result.txt")], number);
    OutputCountFinish(c, Initial["output" := Str("result.txt")]["count" := Num(Finite(42.0))]);
  }

  const FileVerboseOut: seq<string> := ["file.txt", "-v", "-o", "out.txt"]

  /** The declarations of the mixed example. */
  predicate FileVerboseOutCommand(c: Command)
    reads c
  {
    c.arguments == [ArgumentConfig("input", true, Some(StringType), Undefined)] &&
    c.flags == [FlagConfig(Some("v"), "verbose", None, Undefined)] &&
    c.options == [OptionConfig(Some("o"), "output", Some(StringType), false, Undefined)] &&
    c.subcommands == map[]
  }

  lemma InputStep(c: Command, args: seq<string>, number: string -> Number)
    requires FileVerboseOutCommand(c) && |args| >= 1 && args[0] == "file.txt"
    ensures ParseSpec(c, args, number) == RunFrom(c, args, 1, Initial["input" := Str("file.txt")], 1, number)
  {
    NoDefaults(c.flags, c.options, Initial);
    assert Plain(args[0]) by {
      assert args[0][0] == 'f';
    }
    PositionalFillsTo(c, args, 0, Initial, 0, number, "input", "file.txt", 1, 1);
  }

  lemma ShortVerboseStep(c: Command, args: seq<string>, r: Parsed, number: string -> Number)
    requires FileVerboseOutCommand(c) && args == FileVerboseOut
    ensures RunFrom(c, args, 1, r, 1, number) == RunFrom(c, args, 2, r["verbose" := Bool(true)], 1, number)
  {
    assert args[1] == "-" + "v";
    assert FlagByShort(c.flags, "v") == Some(c.flags[0]);
    ShortSwitch(c, args, 1, r, 1, number, "v");
  }

  lemma ShortOutputStep(c: Command, args: seq<string>, r: Parsed, number: string -> Number)
    requires FileVerboseOutCommand(c) && args == FileVerboseOut
    ensures RunFrom(c, args, 2, r, 1, number) == RunFrom(c, args, 4, r["output" := Str("out.txt")], 1, number)
  {
    assert args[2] == "-" + "o";
    assert FlagByShort(c.flags, "o") == None;
    assert OptionByShort(c.options, "o") == Some(c.options[0]);
    ShortOptionTakesNext(c, args, 2, r, 1, number, "o");
  }

  /** `.argument('input', {type: 'string', required: true}).flag('verbose',
      {short: 'v'}).option('output', {short: 'o', type: 'string'})` on
      `file.txt -v -o out.txt` */
  lemma MixedExample(c: Command, args: seq<string>, number: string -> Number)
    requires FileVerboseOutCommand(c)
    requires args == FileVerboseOut
    ensures ParseSpec(c, args, number) ==
      Ok(map["_" := Arr([]), "input" := Str("file.txt"), "verbose" := Bool(true), "output" := Str("out.txt")])
  {
    var r1 := Initial["input" := Str("file.txt")];
    var r2 := r1["verbose" := Bool(true)];
    var r3 := r2["output" := Str("out.txt")];
    InputStep(c, args, number);
    ShortVerboseStep(c, args, r1, number);
    ShortOutputStep(c, args, r2, number);
    assert MissingArgument(c.arguments, 1, 0) == None;
    assert MissingOption(c.options, r3, 0) == None;
  }

  const BuildProduction: seq<string> := ["build", "production"]

  /** A parent whose only subcommand `build` is bare, on `build production`. */
  lemma BuildParse(cli: Command, build: Command, args: seq<string>, number: string -> Number)
    requires cli.subcommands == map["build" := build]
    requires build.arguments == [] && build.flags == [] && build.options == [] && build.subcommands == map[]
    requires args == BuildProduction
    ensures ParseSpec(cli, args, number) == Ok(map["_" := Arr([Str("production")])])
  {
    SubcommandDelegates(cli, args, 0, Seeded(cli.flags, cli.options), 0, number);
    NoDefaults(build.flags, build.options, Initial);
    var rest := args[1..];
    assert rest == ["production"];
    assert rest[0][0] == 'p';
    ExtrasInOrder(build, rest, 0, Initial, 0, number);
    assert Strs(rest[0..]) == [Str("production")];
    var extras: seq<Value> := [] + [Str("production")];
    assert extras == [Str("production")];
    assert Initial["_" := Arr(extras)].Keys == {"_"};
    assert Initial["_" := Arr(extras)] == map["_" := Arr([Str("production")])];
  }

  /** `command('main')`, then `.subcommand('build').argument('target',
      {required: true}).action(…)`, executed on `build production`. The
      builders copy, so the command registered under `build` stays bare:
      `production` lands in `_`, no `target` is set, and the handler that
      runs is the parent's, which is absent. */
  method SubcommandExample(number: string -> Number) returns (parsed: Result<Parsed, string>, run: Result<Invocation, string>)
    ensures parsed == Ok(map["_" := Arr([Str("production")])])
    ensures run == Ok(Invocation(None, map["_" := Arr([Str("production")])]))
  {
    var cli := new Command("main", None);
    var build := cli.Subcommand("build", Some("Build the project"));
    var built := build.Argument("target", true, None, Undefined);
    built := built.Action(Handler(1));
    var args := BuildProduction;
    BuildParse(cli, build, args, number);
    parsed := cli.Parse(args, number);
    run := cli.Execute(args, number);
  }
}
