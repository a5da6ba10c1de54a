/** The variable store: named string variables and `{name}` substitution.
    The same class appears three times in the repository
    (package/sysdef-src/sysdef.ts, src/sysdef.ts, src/index.ts) with one and
    the same `fillIn`; this module models all three. */
module Variables {
  import opened Wrappers

  type Vars = map<string, string>

  /** The three local variables of the `fillIn` loop: the text produced so far,
      whether a `{` is open, and the characters collected since it. */
  datatype Scan = Scan(out: string, inside: bool, pending: string)

  const Start := Scan("", false, "")

  /** One iteration of the `fillIn` loop on character `c`. */
  function Step(vars: Vars, st: Scan, c: char): Scan {
    if c == '{' then
      // a new brace abandons the one already open, which is copied out as it was
      Scan(if st.inside then st.out + "{" + st.pending else st.out, true, "")
    else if c == '}' then
      var out :=
        if st.inside && st.pending in vars then st.out + vars[st.pending]
        else if st.inside then st.out + "{" + st.pending + "}"
        else st.out + "}";
      Scan(out, false, "")
    else if st.inside then
      Scan(st.out, true, st.pending + [c])
    else
      Scan(st.out + [c], false, st.pending)
  }

  /** The loop run over all of `s`, from state `st`. */
  function Run(vars: Vars, s: string, st: Scan): Scan
    decreases |s|
  {
    if s == [] then st else Run(vars, s[1..], Step(vars, st, s[0]))
  }

  /** Scanning starts with the first character. */
  lemma RunCons(vars: Vars, c: char, s: string, st: Scan)
    ensures Run(vars, [c] + s, st) == Run(vars, s, Step(vars, st, c))
  {
    assert ([c] + s)[1..] == s;
  }

  /** What is left after the loop: a brace still open is copied out literally. */
  function Flush(st: Scan): string {
    if st.inside then st.out + "{" + st.pending else st.out
  }

  /** The text `fillIn` returns. */
  function FillInText(vars: Vars, s: string): string {
    Flush(Run(vars, s, Start))
  }

  /** A scanner state that can occur: nothing is pending outside a brace. */
  predicate Sane(st: Scan) {
    !st.inside ==> st.pending == ""
  }

  /** Plain text, without braces. */
  predicate Plain(t: string) {
    '{' !in t && '}' !in t
  }

  // ---------------------------------------------------------------------------
  // Lemmas about the scanner

  /** Scanning a concatenation is scanning its two halves one after the other. */
  lemma {:induction false} RunAppend(vars: Vars, a: string, b: string, st: Scan)
    ensures Run(vars, a + b, st) == Run(vars, b, Run(vars, a, st))
    decreases |a|
  {
    if a != [] {
      assert (a + b)[0] == a[0];
      assert (a + b)[1..] == a[1..] + b;
      RunAppend(vars, a[1..], b, Step(vars, st, a[0]));
    } else {
      assert a + b == b;
    }
  }

  /** A state with `pre` put in front of the text it has produced. */
  function Shift(pre: string, st: Scan): Scan {
    Scan(pre + st.out, st.inside, st.pending)
  }

  /** One step only appends to the text already produced. */
  lemma StepShift(vars: Vars, pre: string, st: Scan, c: char)
    ensures Step(vars, Shift(pre, st), c) == Shift(pre, Step(vars, st, c))
  {
    if c == '{' && st.inside {
      assert pre + st.out + "{" + st.pending == pre + (st.out + "{" + st.pending);
    } else if c == '}' && st.inside && st.pending in vars {
      assert pre + st.out + vars[st.pending] == pre + (st.out + vars[st.pending]);
    } else if c == '}' && st.inside {
      assert pre + st.out + "{" + st.pending + "}" == pre + (st.out + "{" + st.pending + "}");
    } else if c == '}' {
      assert pre + st.out + "}" == pre + (st.out + "}");
    } else if c != '{' && !st.inside {
      assert pre + st.out + [c] == pre + (st.out + [c]);
    }
  }

  /** Text put in front of the output stays in front through the whole scan. */
  lemma {:induction false} RunShift(vars: Vars, pre: string, s: string, st: Scan)
    ensures Run(vars, s, Shift(pre, st)) == Shift(pre, Run(vars, s, st))
    decreases |s|
  {
    if s != [] {
      StepShift(vars, pre, st, s[0]);
      RunShift(vars, pre, s[1..], Step(vars, st, s[0]));
    }
  }

  /** The text already produced is never touched again: it stays a prefix. */
  lemma RunKeepsOutput(vars: Vars, s: string, st: Scan)
    ensures var r := Run(vars, s, st); var r0 := Run(vars, s, Scan("", st.inside, st.pending));
      r == Scan(st.out + r0.out, r0.inside, r0.pending)
  {
    var empty := Scan("", st.inside, st.pending);
    assert Shift(st.out, empty) == st;
    RunShift(vars, st.out, s, empty);
  }

  /** Nothing is ever pending outside a brace. */
  lemma {:induction false} RunSane(vars: Vars, s: string, st: Scan)
    requires Sane(st)
    ensures Sane(Run(vars, s, st))
    decreases |s|
  {
    if s != [] {
      RunSane(vars, s[1..], Step(vars, st, s[0]));
    }
  }

  /** Outside a brace, plain text is copied to the output. */
  lemma {:induction false} RunPlainOutside(vars: Vars, t: string, st: Scan)
    requires Plain(t) && !st.inside
    ensures Run(vars, t, st) == Scan(st.out + t, false, st.pending)
    decreases |t|
  {
    if t != [] {
      assert t == [t[0]] + t[1..];
      RunPlainOutside(vars, t[1..], Step(vars, st, t[0]));
    }
  }

  /** Inside a brace, plain text is collected as the pending name. */
  lemma {:induction false} RunPlainInside(vars: Vars, t: string, st: Scan)
    requires Plain(t) && st.inside
    ensures Run(vars, t, st) == Scan(st.out, true, st.pending + t)
    decreases |t|
  {
    if t != [] {
      assert st.pending + t == (st.pending + [t[0]]) + t[1..];
      RunPlainInside(vars, t[1..], Step(vars, st, t[0]));
    }
  }

  /** A text with no `}` comes out unchanged, whatever the variables: every
      `{` only flushes the attempt before it, and the end flushes the last one. */
  lemma {:induction false} RunWithoutClose(vars: Vars, s: string, st: Scan)
    requires '}' !in s
    ensures Flush(Run(vars, s, st)) == Flush(st) + s
    decreases |s|
  {
    if s != [] {
      assert s == [s[0]] + s[1..];
      RunWithoutClose(vars, s[1..], Step(vars, st, s[0]));
    }
  }

  /** Outside a brace, a text with no `{` is copied unchanged (every `}` is literal). */
  lemma {:induction false} RunWithoutOpen(vars: Vars, s: string, st: Scan)
    requires '{' !in s && !st.inside && st.pending == ""
    ensures Run(vars, s, st) == Scan(st.out + s, false, "")
    decreases |s|
  {
    if s != [] {
      assert st.out + s == (st.out + [s[0]]) + s[1..];
      RunWithoutOpen(vars, s[1..], Step(vars, st, s[0]));
    }
  }

  /** Without the variables, every character but `}` leaves the flushed text
      extended by that character, and `}` does too. */
  lemma {:induction false} RunNoVars(s: string, st: Scan)
    ensures Flush(Run(map[], s, st)) == Flush(st) + s
    decreases |s|
  {
    if s != [] {
      assert s == [s[0]] + s[1..];
      RunNoVars(s[1..], Step(map[], st, s[0]));
    }
  }

  // ---------------------------------------------------------------------------
  // What `fillIn` does

  /** What a complete placeholder `{k}` becomes: the value when `k` is set
      (an empty value included), otherwise the placeholder itself. */
  function Substitution(vars: Vars, k: string): string {
    if k in vars then vars[k] else "{" + k + "}"
  }

  /** Text that ends outside any brace can be filled in separately from what follows it. */
  lemma FillInAppend(vars: Vars, a: string, b: string)
    requires !Run(vars, a, Start).inside
    ensures FillInText(vars, a + b) == FillInText(vars, a) + FillInText(vars, b)
  {
    RunSane(vars, a, Start);
    var ra := Run(vars, a, Start);
    assert ra == Scan(ra.out, false, "");
    RunAppend(vars, a, b, Start);
    RunKeepsOutput(vars, b, ra);
  }

  /** Closing a brace that holds `k` emits the substitution of `k`. */
  lemma CloseBrace(vars: Vars, out: string, k: string)
    ensures Step(vars, Scan(out, true, k), '}') == Scan(out + Substitution(vars, k), false, "")
  {
    if k !in vars {
      assert out + "{" + k + "}" == out + ("{" + k + "}");
    }
  }

  /** A complete placeholder is replaced by its substitution, exactly once. */
  lemma FillInPlaceholder(vars: Vars, k: string)
    requires Plain(k)
    ensures FillInText(vars, "{" + k + "}") == Substitution(vars, k)
    ensures !Run(vars, "{" + k + "}", Start).inside
  {
    var st1 := Scan("", true, "");
    assert "{" + k + "}" == ['{'] + (k + ['}']);
    RunCons(vars, '{', k + ['}'], Start);
    RunAppend(vars, k, ['}'], st1);
    RunPlainInside(vars, k, st1);
    assert "" + k == k;
    RunCons(vars, '}', [], Scan("", true, k));
    CloseBrace(vars, "", k);
    assert "" + Substitution(vars, k) == Substitution(vars, k);
  }

  /** Plain text is copied unchanged and leaves no brace open. */
  lemma FillInPlain(vars: Vars, t: string)
    requires Plain(t)
    ensures FillInText(vars, t) == t
    ensures !Run(vars, t, Start).inside
  {
    RunPlainOutside(vars, t, Start);
  }

  /** A text without `}` comes out unchanged, so an unterminated brace is
      copied literally: `Hello {name` and `{{{name` stay as they are. */
  lemma FillInWithoutClose(vars: Vars, s: string)
    requires '}' !in s
    ensures FillInText(vars, s) == s
  {
    RunWithoutClose(vars, s, Start);
  }

  /** A text without `{` comes out unchanged: a stray `}` is literal. */
  lemma FillInWithoutOpen(vars: Vars, s: string)
    requires '{' !in s
    ensures FillInText(vars, s) == s
  {
    RunWithoutOpen(vars, s, Start);
  }

  /** With no variables set, nothing is ever replaced. */
  lemma FillInNoVars(s: string)
    ensures FillInText(map[], s) == s
  {
    RunNoVars(s, Start);
  }

  /** Two opening braces in a row leave one `{` in the output and a brace open. */
  lemma RunTwoOpen(vars: Vars, rest: string)
    ensures Run(vars, "{{" + rest, Start) == Run(vars, rest, Scan("{", true, ""))
  {
    assert "{{" + rest == ['{'] + (['{'] + rest);
    RunCons(vars, '{', ['{'] + rest, Start);
    RunCons(vars, '{', rest, Scan("", true, ""));
    assert "" + "{" + "" == "{";
  }

  /** Inside a fresh brace, `k}` emits the substitution of `k` and closes
      the brace. */
  lemma RunPlaceholder(vars: Vars, out: string, k: string, rest: string)
    requires Plain(k)
    ensures Run(vars, k + "}" + rest, Scan(out, true, "")) == Run(vars, rest, Scan(out + Substitution(vars, k), false, ""))
  {
    var st := Scan(out, true, "");
    assert k + "}" + rest == k + (['}'] + rest);
    RunAppend(vars, k, ['}'] + rest, st);
    RunPlainInside(vars, k, st);
    assert "" + k == k;
    RunCons(vars, '}', rest, Scan(out, true, k));
    CloseBrace(vars, out, k);
  }

  /** A second `{` abandons the first: `{{k}}` becomes `{` + substitution + `}`. */
  lemma FillInNested(vars: Vars, k: string)
    requires Plain(k)
    ensures FillInText(vars, "{{" + k + "}}") == "{" + Substitution(vars, k) + "}"
  {
    assert "{{" + k + "}}" == "{{" + (k + "}" + "}");
    RunTwoOpen(vars, k + "}" + "}");
    RunPlaceholder(vars, "{", k, "}");
    var st3 := Scan("{" + Substitution(vars, k), false, "");
    assert "}" == ['}'] + [];
    RunCons(vars, '}', [], st3);
  }

  /** `{{k}` becomes `{` followed by the substitution of `k`. */
  lemma FillInNestedOpen(vars: Vars, k: string)
    requires Plain(k)
    ensures FillInText(vars, "{{" + k + "}") == "{" + Substitution(vars, k)
  {
    assert "{{" + k + "}" == "{{" + (k + "}" + "");
    RunTwoOpen(vars, k + "}" + "");
    RunPlaceholder(vars, "{", k, "");
  }

  /** A template with one placeholder between two plain texts. */
  lemma FillInOne(vars: Vars, a: string, k: string, b: string)
    requires Plain(a) && Plain(k) && Plain(b)
    ensures FillInText(vars, a + "{" + k + "}" + b) == a + Substitution(vars, k) + b
  {
    var p := "{" + k + "}";
    FillInPlain(vars, a);
    FillInPlaceholder(vars, k);
    FillInPlain(vars, b);
    assert a + "{" + k + "}" + b == a + (p + b);
    FillInAppend(vars, p, b);
    FillInAppend(vars, a, p + b);
  }

  /** Substitution is a single pass: a value holding a placeholder is copied as it is. */
  lemma FillInSinglePass()
    ensures FillInText(map["outer" := "{inner}", "inner" := "x"], "{outer}") == "{inner}"
  {
    var vars := map["outer" := "{inner}", "inner" := "x"];
    assert Plain("outer");
    FillInPlaceholder(vars, "outer");
    assert "{" + "outer" + "}" == "{outer}";
    assert Substitution(vars, "outer") == "{inner}";
  }

  /** An empty value is substituted: `Hello {empty}world` becomes `Hello world`. */
  lemma FillInEmptyValue()
    ensures FillInText(map["empty" := ""], "Hello {empty}world") == "Hello world"
  {
    var vars := map["empty" := ""];
    assert Plain("Hello ") && Plain("empty") && Plain("world");
    FillInOne(vars, "Hello ", "empty", "world");
    assert "Hello " + "{" + "empty" + "}" + "world" == "Hello {empty}world";
    assert "Hello " + Substitution(vars, "empty") + "world" == "Hello world";
  }

  // ---------------------------------------------------------------------------
  // The store

  datatype VarError = NotSet(name: string)

  class VariableStore {
    var vars: Vars

    constructor()
      ensures vars == map[]
    {
      vars := map[];
    }

    /** `get`: the value of `k`; an unset variable and one set to the empty
        string are both errors. */
    method Get(k: string) returns (r: Result<string, VarError>)
      ensures r.Ok? <==> k in vars && vars[k] != ""
      ensures r.Ok? ==> r.value == vars[k]
      ensures r.Err? ==> r.error == NotSet(k)
    {
      var v := GetSafe(k);
      if v.None? || v.value == "" {
        r := Err(NotSet(k));
      } else {
        r := Ok(v.value);
      }
    }

    /** The older `get` of src/index.ts: the same test, but nothing is returned. */
    method Check(k: string) returns (r: Outcome<VarError>)
      ensures r.Pass? <==> k in vars && vars[k] != ""
      ensures r.Fail? ==> r.error == NotSet(k)
    {
      var v := GetSafe(k);
      if v.None? || v.value == "" {
        r := Fail(NotSet(k));
      } else {
        r := Pass;
      }
    }

    method Set(k: string, v: string)
      modifies this
      ensures vars == old(vars)[k := v]
    {
      vars := vars[k := v];
    }

    /** `has`: whether `k` is set at all, even to the empty string. */
    method Has(k: string) returns (b: bool)
      ensures b <==> k in vars
    {
      b := k in vars;
    }

    /** `getSafe`: the raw entry, empty strings included. */
    method GetSafe(k: string) returns (r: Option<string>)
      ensures r.Some? <==> k in vars
      ensures r.Some? ==> r.value == vars[k]
    {
      if k in vars {
        r := Some(vars[k]);
      } else {
        r := None;
      }
    }

    /** `fillIn`: one left-to-right pass over `s`. */
    method FillIn(s: string) returns (r: string)
      ensures r == FillInText(vars, s)
    {
      var substr := "";
      var insideBracket := false;
      var newString := "";
      for i := 0 to |s|
        invariant Run(vars, s, Start) == Run(vars, s[i..], Scan(newString, insideBracket, substr))
      {
        assert s[i..] == [s[i]] + s[i + 1..];
        RunCons(vars, s[i], s[i + 1..], Scan(newString, insideBracket, substr));
        if s[i] == '{' {
          if insideBracket {
            newString := newString + "{" + substr;
          }
          substr := "";
          insideBracket := true;
        } else if s[i] == '}' {
          var v := GetSafe(substr);
          if insideBracket && v.Some? {
            newString := newString + v.value;
          } else if insideBracket {
            newString := newString + "{" + substr + "}";
          } else {
            newString := newString + "}";
          }
          insideBracket := false;
          substr := "";
        } else if insideBracket {
          substr := substr + [s[i]];
        } else {
          newString := newString + [s[i]];
        }
      }
      assert s[|s|..] == [];
      if insideBracket {
        newString := newString + "{" + substr;
      }
      r := newString;
    }

    /** `insertAll`: every entry of the record is written, overwriting. */
    method InsertAll(rec: Vars)
      modifies this
      ensures vars == old(vars) + rec
    {
      var rest := rec.Keys;
      while rest != {}
        invariant rest <= rec.Keys
        invariant vars == old(vars) + (map k | k in rec.Keys - rest :: rec[k])
        decreases rest
      {
        var k :| k in rest;
        vars := vars[k := rec[k]];
        rest := rest - {k};
      }
      assert rec == (map k | k in rec.Keys - {} :: rec[k]);
    }

    /** `branchOff`: a new store with this store's entries and then the record's;
        this store is left as it was. */
    method BranchOff(rec: Vars) returns (store: VariableStore)
      ensures fresh(store)
      ensures store.vars == vars + rec
    {
      store := new VariableStore();
      var rest := vars.Keys;
      while rest != {}
        invariant rest <= vars.Keys
        invariant store.vars == map k | k in vars.Keys - rest :: vars[k]
        decreases rest
      {
        var k :| k in rest;
        store.Set(k, vars[k]);
        rest := rest - {k};
      }
      assert store.vars == vars;
      store.InsertAll(rec);
    }
  }
}
