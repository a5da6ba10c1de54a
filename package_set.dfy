/** `PackageSet`: an index of packages by their joined string keys. */
module PackageSets {
  import opened Packages

  /** The full keys of a list of packages. */
  function FullKeys(ps: seq<PackageInfo>): set<string> {
    set p | p in ps :: FullKey(p)
  }

  /** The name keys of a list of packages. */
  function NameKeys(ps: seq<PackageInfo>): set<string> {
    set p | p in ps :: NameKey(p.provider, p.name)
  }

  /** Appending a package adds exactly its full key. */
  lemma FullKeysSnoc(ps: seq<PackageInfo>, p: PackageInfo)
    ensures FullKeys(ps + [p]) == FullKeys(ps) + {FullKey(p)}
  {
    assert forall q :: q in ps + [p] <==> q in ps || q == p;
  }

  /** Appending a package adds exactly its name key. */
  lemma NameKeysSnoc(ps: seq<PackageInfo>, p: PackageInfo)
    ensures NameKeys(ps + [p]) == NameKeys(ps) + {NameKey(p.provider, p.name)}
  {
    assert forall q :: q in ps + [p] <==> q in ps || q == p;
  }

  /** The index of a concatenation is the union of the indexes. */
  lemma FullKeysAppend(ps: seq<PackageInfo>, qs: seq<PackageInfo>)
    ensures FullKeys(ps + qs) == FullKeys(ps) + FullKeys(qs)
  {
    assert forall q :: q in ps + qs <==> q in ps || q in qs;
  }

  /** The name index of a concatenation is the union of the name indexes. */
  lemma NameKeysAppend(ps: seq<PackageInfo>, qs: seq<PackageInfo>)
    ensures NameKeys(ps + qs) == NameKeys(ps) + NameKeys(qs)
  {
    assert forall q :: q in ps + qs <==> q in ps || q in qs;
  }

  class PackageSet {
    var packages: set<string>
    var packageKeys: set<string>
    /** every package added so far, in order */
    ghost var added: seq<PackageInfo>

    ghost predicate Valid()
      reads this
    {
      packages == FullKeys(added) && packageKeys == NameKeys(added)
    }

    constructor()
      ensures Valid() && added == []
    {
      packages, packageKeys := {}, {};
      added := [];
    }

    /** `add`: both keys are inserted together; nothing is removed. */
    method Add(p: PackageInfo)
      requires Valid()
      modifies this
      ensures Valid() && added == old(added) + [p]
      ensures packages == old(packages) + {FullKey(p)}
      ensures packageKeys == old(packageKeys) + {NameKey(p.provider, p.name)}
    {
      packages := packages + {FullKey(p)};
      packageKeys := packageKeys + {NameKey(p.provider, p.name)};
      FullKeysSnoc(added, p);
      NameKeysSnoc(added, p);
      added := added + [p];
    }

    /** `has`: membership of the full key. */
    method Has(p: PackageInfo) returns (b: bool)
      ensures b <==> FullKey(p) in packages
    {
      b := FullKey(p) in packages;
    }

    /** `hasAnyVersion`: membership of the name key. */
    method HasAnyVersion(provider: string, name: string) returns (b: bool)
      ensures b <==> NameKey(provider, name) in packageKeys
    {
      b := NameKey(provider, name) in packageKeys;
    }

    /** `addList`: `add` of each package in order. */
    method AddList(ps: seq<PackageInfo>)
      requires Valid()
      modifies this
      ensures Valid() && added == old(added) + ps
      ensures packages == old(packages) + FullKeys(ps)
      ensures packageKeys == old(packageKeys) + NameKeys(ps)
    {
      ghost var added0 := added;
      for i := 0 to |ps|
        invariant Valid() && added == added0 + ps[..i]
      {
        assert added0 + ps[..i + 1] == (added0 + ps[..i]) + [ps[i]];
        Add(ps[i]);
      }
      assert ps[..|ps|] == ps;
      FullKeysAppend(added0, ps);
      NameKeysAppend(added0, ps);
    }
  }

  /** The index built from `ps` holds a full key exactly when some package of
      `ps` has it. */
  lemma FullKeysMember(ps: seq<PackageInfo>, p: PackageInfo)
    requires ColonFree(p) && forall q :: q in ps ==> ColonFree(q)
    ensures FullKey(p) in FullKeys(ps) <==> p in ps
  {
    if FullKey(p) in FullKeys(ps) {
      var q :| q in ps && FullKey(q) == FullKey(p);
      FullKeyInjective(p, q);
    }
  }

  /** `hasAnyVersion` is true exactly for provider/name pairs that were added,
      at some version. */
  lemma NameKeysMember(ps: seq<PackageInfo>, provider: string, name: string)
    requires ':' !in provider && forall q :: q in ps ==> ColonFree(q)
    ensures NameKey(provider, name) in NameKeys(ps)
        <==> exists q :: q in ps && q.provider == provider && q.name == name
  {
    if NameKey(provider, name) in NameKeys(ps) {
      var q :| q in ps && NameKey(q.provider, q.name) == NameKey(provider, name);
      NameKeyInjective(q.provider, q.name, provider, name);
    }
  }

  /** `has(p)` implies `hasAnyVersion(p)` when the names involved are colon-free. */
  lemma ExactImpliesAnyVersion(ps: seq<PackageInfo>, p: PackageInfo)
    requires ColonFree(p) && forall q :: q in ps ==> ColonFree(q)
    requires FullKey(p) in FullKeys(ps)
    ensures NameKey(p.provider, p.name) in NameKeys(ps)
  {
    FullKeysMember(ps, p);
  }

  /** Membership is by joined strings: with a colon in a name, a package can be
      found by `has` while `hasAnyVersion` does not know its name. */
  lemma KeyCollision()
    ensures var q := PackageInfo("b:c", "d", "a");
      var p := PackageInfo("b", "c:d", "a");
      FullKey(p) in FullKeys([q]) && NameKey(p.provider, p.name) !in NameKeys([q])
  {
    var q := PackageInfo("b:c", "d", "a");
    var p := PackageInfo("b", "c:d", "a");
    assert FullKey(p) == FullKey(q) == "a:b:c:d";
    assert forall x :: x in NameKeys([q]) ==> x == "a:b:c";
    assert NameKey(p.provider, p.name) == "a:b";
  }
}
