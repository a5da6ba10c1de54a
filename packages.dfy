/** Package descriptions shared by the reconciliation engine and the package index. */
module Packages {

  /** `ANY_VERSION_STRING`: the version of a request that accepts whatever is installed. */
  const AnyVersion: string := "_*_"

  /** `PackageInfo` */
  datatype PackageInfo = PackageInfo(name: string, version: string, provider: string)

  /** The key `provider:name:version` under which a package is indexed. */
  function FullKey(p: PackageInfo): string {
    p.provider + ":" + p.name + ":" + p.version
  }

  /** The key `provider:name`, for a package at any version. */
  function NameKey(provider: string, name: string): string {
    provider + ":" + name
  }

  /** Neither the provider nor the name contains the separator. */
  predicate ColonFree(p: PackageInfo) {
    ':' !in p.provider && ':' !in p.name
  }

  /** In `a:b` with a colon-free `a`, the first colon is at position `|a|`. */
  lemma FirstColon(a: string, b: string)
    requires ':' !in a
    ensures (a + ":" + b)[|a|] == ':'
    ensures forall i :: 0 <= i < |a| ==> (a + ":" + b)[i] != ':'
  {
    forall i | 0 <= i < |a|
      ensures (a + ":" + b)[i] != ':'
    {
      assert (a + ":" + b)[i] == a[i];
    }
  }

  /** A separator that does not occur in the first part splits a key uniquely. */
  lemma SplitAtSeparator(a: string, b: string, c: string, d: string)
    requires ':' !in a && ':' !in c
    requires a + ":" + b == c + ":" + d
    ensures a == c && b == d
  {
    var s := a + ":" + b;
    FirstColon(a, b);
    FirstColon(c, d);
    if |a| != |c| {
      assert false;
    }
    assert a == s[..|a|];
    assert b == s[|a| + 1..];
  }

  /** For colon-free providers and names, the full key determines the package. */
  lemma FullKeyInjective(p: PackageInfo, q: PackageInfo)
    requires ColonFree(p) && ColonFree(q)
    requires FullKey(p) == FullKey(q)
    ensures p == q
  {
    assert FullKey(p) == p.provider + ":" + (p.name + ":" + p.version);
    assert FullKey(q) == q.provider + ":" + (q.name + ":" + q.version);
    SplitAtSeparator(p.provider, p.name + ":" + p.version, q.provider, q.name + ":" + q.version);
    SplitAtSeparator(p.name, p.version, q.name, q.version);
  }

  /** For colon-free providers and names, the name key determines provider and name. */
  lemma NameKeyInjective(p1: string, n1: string, p2: string, n2: string)
    requires ':' !in p1 && ':' !in p2
    requires NameKey(p1, n1) == NameKey(p2, n2)
    ensures p1 == p2 && n1 == n2
  {
    SplitAtSeparator(p1, n1, p2, n2);
  }
}
