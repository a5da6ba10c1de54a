/** The string operations of JavaScript that the model relies on. */
module Strings {

  /** `s.startsWith(p)` */
  predicate StartsWith(s: string, p: string) {
    |p| <= |s| && s[..|p|] == p
  }

  /** `s.endsWith(p)` */
  predicate EndsWith(s: string, p: string) {
    |p| <= |s| && s[|s| - |p|..] == p
  }

  /** `s.includes(c)` for a one-character needle */
  predicate Contains(s: string, c: char) {
    c in s
  }

  /** `s.split(c)` for a one-character separator: an empty string gives `[""]`,
      two adjacent separators give an empty part between them. */
  function Split(s: string, c: char): (parts: seq<string>)
    ensures |parts| >= 1
    ensures forall i :: 0 <= i < |parts| ==> c !in parts[i]
    ensures c !in s ==> parts == [s]
    ensures |parts| >= 2 <==> c in s
  {
    if s == [] then [""]
    else
      var rest := Split(s[1..], c);
      assert s == [s[0]] + s[1..];
      if s[0] == c then [""] + rest
      else [[s[0]] + rest[0]] + rest[1..]
  }

  /** `parts.join(c)` for a one-character separator */
  function Join(parts: seq<string>, c: char): string
    requires |parts| >= 1
  {
    if |parts| == 1 then parts[0] else parts[0] + [c] + Join(parts[1..], c)
  }

  /** Splitting and joining again on the same separator gives back the input. */
  lemma {:induction false} JoinSplit(s: string, c: char)
    ensures Join(Split(s, c), c) == s
  {
    if s != [] {
      JoinSplit(s[1..], c);
      var rest := Split(s[1..], c);
      if s[0] != c {
        if |rest| > 1 {
          assert Split(s, c)[1..] == rest[1..];
        }
      }
    }
  }

  /** When the separator occurs, the first part is the text before its first
      occurrence and the other parts, joined again, are the text after it. */
  lemma {:induction false} SplitFirst(s: string, c: char)
    requires c in s
    ensures |Split(s, c)| >= 2
    ensures s == Split(s, c)[0] + [c] + Join(Split(s, c)[1..], c)
  {
    var rest := Split(s[1..], c);
    if s[0] == c {
      JoinSplit(s[1..], c);
      assert Split(s, c)[1..] == rest;
    } else {
      SplitFirst(s[1..], c);
      assert Split(s, c)[1..] == rest[1..];
    }
  }

  /** Text without the separator, then the separator: the text is the first
      part and splitting goes on after the separator. */
  lemma {:induction false} SplitAfter(a: string, c: char, b: string)
    requires c !in a
    ensures Split(a + [c] + b, c) == [a] + Split(b, c)
  {
    var s := a + [c] + b;
    if a != [] {
      assert s[0] == a[0] != c;
      assert s[1..] == a[1..] + [c] + b;
      SplitAfter(a[1..], c, b);
      var rest := Split(s[1..], c);
      assert rest == [a[1..]] + Split(b, c);
      assert Split(s, c) == [[a[0]] + rest[0]] + rest[1..];
      assert [a[0]] + a[1..] == a;
    } else {
      assert s == [c] + b;
      assert s[1..] == b;
    }
  }

  /** `split(c, 2)` on such text: the text before the separator, and the
      part of the rest before its next separator. */
  lemma SplitTwoAfter(a: string, c: char, b: string)
    requires c !in a
    ensures SplitTwo(a + [c] + b, c) == (a, Present(Split(b, c)[0]))
  {
    SplitAfter(a, c, b);
  }

  /** `split(c, 2)`: the first part, and the second one when the separator occurs. */
  function SplitTwo(s: string, c: char): (r: (string, MaybeText))
    ensures c !in r.0
    ensures r.1.Present? <==> c in s
    ensures r.1.Present? ==> c !in r.1.text
  {
    var parts := Split(s, c);
    (parts[0], if |parts| >= 2 then Present(parts[1]) else Absent)
  }

  /** The second half of `SplitTwo`: JavaScript's `parts[1]`, which may be absent. */
  datatype MaybeText = Absent | Present(text: string)

  /** `s.toLowerCase()` restricted to the letters A to Z. */
  function LowerAscii(s: string): (r: string)
    ensures |r| == |s|
    ensures forall i :: 0 <= i < |s| ==> r[i] == LowerChar(s[i])
  {
    if s == [] then [] else [LowerChar(s[0])] + LowerAscii(s[1..])
  }

  function LowerChar(c: char): char {
    if 'A' <= c <= 'Z' then (c as int - 'A' as int + 'a' as int) as char else c
  }

  /** `parts.join(sep)` for any separator: the empty list gives `""`. */
  function JoinWith(parts: seq<string>, sep: string): (r: string)
    ensures |parts| == 1 ==> r == parts[0]
  {
    if parts == [] then "" else if |parts| == 1 then parts[0] else parts[0] + sep + JoinWith(parts[1..], sep)
  }

  /** On a one-character separator, `JoinWith` is `Join`: both model `join`. */
  lemma {:induction false} JoinWithChar(parts: seq<string>, c: char)
    requires |parts| >= 1
    ensures JoinWith(parts, [c]) == Join(parts, c)
    decreases |parts|
  {
    if |parts| > 1 {
      JoinWithChar(parts[1..], c);
    }
  }

  /** The decimal text of a natural number, as JavaScript prints an array index. */
  function NatToString(n: nat): (r: string)
    ensures |r| >= 1
    ensures forall i :: 0 <= i < |r| ==> '0' <= r[i] <= '9'
  {
    if n < 10 then [Digit(n)] else NatToString(n / 10) + [Digit(n % 10)]
  }

  function Digit(d: nat): (c: char)
    requires d < 10
    ensures '0' <= c <= '9'
  {
    ('0' as int + d) as char
  }
}
