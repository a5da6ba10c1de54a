/** `getPackageList` and `versionMatches` of package/sysdef-src/sysdef.ts,
    and the grouping by provider that feeds `syncPackages`. */
module PackageLists {
  import opened Wrappers
  import opened Strings
  import opened Packages
  import opened Lockfiles
  import opened SysModules

  /** One package spec string of a provider's list, parsed: `split(":")`,
      then either the lockfile's version or the remaining parts rejoined. */
  function ParseSpec(provider: string, spec: string, lock: Data): PackageInfo {
    var split := Split(spec, ':');
    if |split| == 1 then
      var name := split[0];
      var version := match Version(lock, provider, name) case Some(v) => v case None => AnyVersion;
      PackageInfo(name, version, provider)
    else
      PackageInfo(split[0], Join(split[1..], ':'), provider)
  }

  /** Without a colon the spec is the name and the version comes from the
      lockfile, or is any version; otherwise the name ends at the first
      colon and the rest, colons included, is the version. */
  lemma ParseSpecMeaning(provider: string, spec: string, lock: Data)
    ensures var p := ParseSpec(provider, spec, lock);
      && p.provider == provider && ':' !in p.name
      && (':' !in spec ==> p.name == spec)
      && (':' !in spec && Version(lock, provider, spec).Some? ==> p.version == Version(lock, provider, spec).value)
      && (':' !in spec && Version(lock, provider, spec).None? ==> p.version == AnyVersion)
      && (':' in spec ==> spec == p.name + ":" + p.version)
  {
    if ':' in spec {
      SplitFirst(spec, ':');
    }
  }

  /** A colon-free name followed by a version round-trips through the
      parser, however many colons the version holds. */
  lemma ParseSpecJoined(provider: string, name: string, version: string, lock: Data)
    requires ':' !in name
    ensures ParseSpec(provider, name + ":" + version, lock) == PackageInfo(name, version, provider)
  {
    var spec := name + ":" + version;
    assert spec[|name|] == ':';
    var p := ParseSpec(provider, spec, lock);
    ParseSpecMeaning(provider, spec, lock);
    SplitAtSeparator(p.name, p.version, name, version);
  }

  /** `versionMatches`: equal, or either side is any version. */
  function VersionMatches(v1: string, v2: string): (b: bool)
    ensures b <==> v1 == v2 || v1 == AnyVersion || v2 == AnyVersion
  {
    if v1 == AnyVersion || v2 == AnyVersion then true else v1 == v2
  }

  /** A parsed package together with the name of the module requesting it. */
  datatype Request = Request(origin: string, info: PackageInfo)

  /** The requests of one provider's spec list, in order. */
  function SpecRequests(origin: string, provider: string, specs: seq<string>, lock: Data): seq<Request> {
    seq(|specs|, i requires 0 <= i < |specs| => Request(origin, ParseSpec(provider, specs[i], lock)))
  }

  /** The requests of one module, provider by provider. */
  function ModuleRequests(origin: string, packages: seq<(string, seq<string>)>, lock: Data): seq<Request> {
    if packages == [] then []
    else SpecRequests(origin, packages[0].0, packages[0].1, lock) + ModuleRequests(origin, packages[1..], lock)
  }

  /** All requests, module by module: one per spec string, duplicates kept. */
  function Requests(modules: seq<Module>, lock: Data): seq<Request> {
    if modules == [] then []
    else ModuleRequests(modules[0].name, modules[0].packages, lock) + Requests(modules[1..], lock)
  }

  lemma AppendAssoc<T>(a: seq<T>, b: seq<T>, c: seq<T>)
    ensures (a + b) + c == a + (b + c)
  {
  }

  lemma AppendNil<T>(a: seq<T>, b: seq<T>)
    requires a == []
    ensures a + b == b
  {
  }

  lemma DropCons<T>(s: seq<T>, j: nat, rest: seq<T>)
    requires j < |s|
    ensures s[j..] + rest == [s[j]] + (s[j + 1..] + rest)
  {
  }

  lemma DropAll<T>(s: seq<T>, rest: seq<T>)
    ensures s[|s|..] + rest == rest
  {
  }

  lemma RequestsCons(modules: seq<Module>, i: nat, lock: Data)
    requires i < |modules|
    ensures Requests(modules[i..], lock)
         == ModuleRequests(modules[i].name, modules[i].packages, lock) + Requests(modules[i + 1..], lock)
  {
    assert modules[i..][1..] == modules[i + 1..];
  }

  lemma ModuleRequestsCons(origin: string, packages: seq<(string, seq<string>)>, i: nat, lock: Data)
    requires i < |packages|
    ensures ModuleRequests(origin, packages[i..], lock)
         == SpecRequests(origin, packages[i].0, packages[i].1, lock) + ModuleRequests(origin, packages[i + 1..], lock)
  {
    assert packages[i..][1..] == packages[i + 1..];
  }

  /** The first module to request a package, and the version it asked for. */
  datatype Seen = Seen(origin: string, version: string)

  function Key(r: Request): string {
    NameKey(r.info.provider, r.info.name)
  }

  /** A request clashes with the first one recorded for its provider and
      name when `versionMatches` holds for their versions. */
  predicate Clash(seen: map<string, Seen>, r: Request) {
    Key(r) in seen && VersionMatches(seen[Key(r)].version, r.info.version)
  }

  /** Only the first request of a provider and name is recorded. */
  function Record(seen: map<string, Seen>, r: Request): map<string, Seen> {
    if Key(r) in seen then seen else seen[Key(r) := Seen(r.origin, r.info.version)]
  }

  /** `seenVersions` after a sequence of requests. */
  function Recorded(rs: seq<Request>, seen: map<string, Seen>): map<string, Seen> {
    if rs == [] then seen else Recorded(rs[1..], Record(seen, rs[0]))
  }

  function ConflictMessage(first: Seen, r: Request): string {
    "Requested two different versions for package " + r.info.name + ": " + first.version
      + " in " + first.origin + " and " + r.info.version + " in " + r.origin
  }

  /** The loop of `getPackageList` over the flat request list. */
  function Check(rs: seq<Request>, seen: map<string, Seen>): Result<seq<PackageInfo>, string> {
    if rs == [] then Ok([])
    else if Clash(seen, rs[0]) then Err(ConflictMessage(seen[Key(rs[0])], rs[0]))
    else Prepend([rs[0].info], Check(rs[1..], Record(seen, rs[0])))
  }

  function Prepend(ps: seq<PackageInfo>, r: Result<seq<PackageInfo>, string>): Result<seq<PackageInfo>, string> {
    match r
    case Ok(qs) => Ok(ps + qs)
    case Err(e) => Err(e)
  }

  lemma PrependNil(r: Result<seq<PackageInfo>, string>)
    ensures Prepend([], r) == r
  {
    if r.Ok? {
      assert [] + r.value == r.value;
    }
  }

  /** One request of the loop: a clash stops it, otherwise the package is
      kept and the request recorded. */
  lemma CheckCons(all: seq<PackageInfo>, x: Request, rest: seq<Request>, seen: map<string, Seen>)
    ensures Prepend(all, Check([x] + rest, seen)) ==
      if Clash(seen, x) then Err(ConflictMessage(seen[Key(x)], x))
      else Prepend(all + [x.info], Check(rest, Record(seen, x)))
  {
    assert ([x] + rest)[1..] == rest;
    PrependStep(all, x.info, Check(rest, Record(seen, x)));
  }

  lemma PrependStep(all: seq<PackageInfo>, p: PackageInfo, r: Result<seq<PackageInfo>, string>)
    ensures Prepend(all, Prepend([p], r)) == Prepend(all + [p], r)
  {
    if r.Ok? {
      assert all + ([p] + r.value) == (all + [p]) + r.value;
    }
  }

  /** What `getPackageList` returns, or the error it stops with. */
  function PackageList(modules: seq<Module>, lock: Data): Result<seq<PackageInfo>, string> {
    Check(Requests(modules, lock), map[])
  }

  function Infos(rs: seq<Request>): (ps: seq<PackageInfo>)
    ensures |ps| == |rs| && forall i :: 0 <= i < |rs| ==> ps[i] == rs[i].info
  {
    seq(|rs|, i requires 0 <= i < |rs| => rs[i].info)
  }

  /** `getPackageList(modules, lockfile)` */
  method GetPackageList(modules: seq<Module>, lockfile: Lockfile) returns (r: Result<seq<PackageInfo>, string>)
    ensures r == PackageList(modules, lockfile.data)
  {
    ghost var lock := lockfile.data;
    var all: seq<PackageInfo> := [];
    var seen: map<string, Seen> := map[];
    var data := lockfile.data;
    assert modules[0..] == modules;
    PrependNil(Check(Requests(modules, lock), seen));
    for mi := 0 to |modules|
      invariant PackageList(modules, lock) == Prepend(all, Check(Requests(modules[mi..], lock), seen))
    {
      var mod := modules[mi];
      RequestsCons(modules, mi, lock);
      ghost var later := Requests(modules[mi + 1..], lock);
      assert mod.packages[0..] == mod.packages;
      for pi := 0 to |mod.packages|
        invariant PackageList(modules, lock) == Prepend(all, Check(ModuleRequests(mod.name, mod.packages[pi..], lock) + later, seen))
      {
        var provider := mod.packages[pi].0;
        var specs := mod.packages[pi].1;
        var infos := seq(|specs|, k requires 0 <= k < |specs| => ParseSpec(provider, specs[k], data));
        ModuleRequestsCons(mod.name, mod.packages, pi, lock);
        ghost var here := SpecRequests(mod.name, provider, specs, lock);
        ghost var rest := ModuleRequests(mod.name, mod.packages[pi + 1..], lock) + later;
        AppendAssoc(here, ModuleRequests(mod.name, mod.packages[pi + 1..], lock), later);
        assert here[0..] == here;
        for j := 0 to |infos|
          invariant PackageList(modules, lock) == Prepend(all, Check(here[j..] + rest, seen))
        {
          var p := infos[j];
          DropCons(here, j, rest);
          CheckCons(all, Request(mod.name, p), here[j + 1..] + rest, seen);
          var k := NameKey(p.provider, p.name);
          if k in seen {
            var first := seen[k];
            if VersionMatches(first.version, p.version) {
              r := Err(ConflictMessage(first, Request(mod.name, p)));
              return;
            }
          } else {
            seen := seen[k := Seen(mod.name, p.version)];
          }
          all := all + [p];
        }
        DropAll(here, rest);
      }
      assert mod.packages[|mod.packages|..] == [];
      AppendNil(ModuleRequests(mod.name, mod.packages[|mod.packages|..], lock), later);
    }
    assert modules[|modules|..] == [];
    r := Ok(all);
    assert all + [] == all;
  }

  // ---------------------------------------------------------------------------
  // Properties of the package list

  /** On success the list holds every request's package, in request order:
      one per spec string, with duplicates kept. */
  lemma {:induction false} CheckOk(rs: seq<Request>, seen: map<string, Seen>)
    requires Check(rs, seen).Ok?
    ensures Check(rs, seen).value == Infos(rs)
  {
    if rs != [] {
      CheckOk(rs[1..], Record(seen, rs[0]));
      assert Infos(rs) == [rs[0].info] + Infos(rs[1..]);
    }
  }

  /** Entries already recorded are never replaced. */
  lemma {:induction false} RecordedKeepsFirst(rs: seq<Request>, seen: map<string, Seen>, k: string)
    requires k in seen
    ensures k in Recorded(rs, seen) && Recorded(rs, seen)[k] == seen[k]
  {
    if rs != [] {
      RecordedKeepsFirst(rs[1..], Record(seen, rs[0]), k);
    }
  }

  /** `getPackageList` stops exactly when some request clashes with the
      first recorded version of its provider and name. */
  lemma {:induction false} CheckFails(rs: seq<Request>, seen: map<string, Seen>)
    ensures Check(rs, seen).Err? <==> exists j :: 0 <= j < |rs| && Clash(Recorded(rs[..j], seen), rs[j])
  {
    if rs == [] {
    } else {
      var x, t := rs[0], rs[1..];
      CheckFails(t, Record(seen, x));
      assert rs[..0] == [];
      forall j | 1 <= j < |rs|
        ensures Recorded(rs[..j], seen) == Recorded(t[..j - 1], Record(seen, x))
        ensures rs[j] == t[j - 1]
      {
        assert rs[..j][1..] == t[..j - 1];
      }
      if Check(rs, seen).Err? && !Clash(seen, x) {
        var j' :| 0 <= j' < |t| && Clash(Recorded(t[..j'], Record(seen, x)), t[j']);
        assert Clash(Recorded(rs[..j' + 1], seen), rs[j' + 1]);
      }
      if !Check(rs, seen).Err? {
        forall j | 0 <= j < |rs|
          ensures !Clash(Recorded(rs[..j], seen), rs[j])
        {
          if j > 0 {
            assert !Clash(Recorded(t[..j - 1], Record(seen, x)), t[j - 1]);
          }
        }
      }
    }
  }

  /** Two requests for one package at different concrete versions pass. */
  lemma DifferentVersionsPass(a: Request, b: Request)
    requires Key(a) == Key(b)
    requires a.info.version != b.info.version && a.info.version != AnyVersion && b.info.version != AnyVersion
    ensures Check([a, b], map[]) == Ok([a.info, b.info])
  {
    assert [a, b][1..] == [b];
    assert [b][1..] == [];
    assert Check([b], Record(map[], a)) == Ok([b.info] + []);
    assert [b.info] + [] == [b.info];
    assert [a.info] + [b.info] == [a.info, b.info];
  }

  /** Two requests for one package at matching versions stop the program,
      naming the first request's module and version. */
  lemma MatchingVersionsFail(a: Request, b: Request)
    requires Key(a) == Key(b) && VersionMatches(a.info.version, b.info.version)
    ensures Check([a, b], map[]) == Err(ConflictMessage(Seen(a.origin, a.info.version), b))
  {
    assert [a, b][1..] == [b];
  }

  // ---------------------------------------------------------------------------
  // Grouping by provider

  /** The packages of one provider, in list order. */
  function ForProvider(list: seq<PackageInfo>, provider: string): seq<PackageInfo> {
    if list == [] then []
    else
      var init := list[..|list| - 1];
      var last := list[|list| - 1];
      assert list == init + [last];
      ForProvider(init, provider) + if last.provider == provider then [last] else []
  }

  lemma ForProviderStep(list: seq<PackageInfo>, i: nat, q: string)
    requires i < |list|
    ensures ForProvider(list[..i + 1], q) == ForProvider(list[..i], q) + if list[i].provider == q then [list[i]] else []
  {
    assert list[..i + 1][..i] == list[..i];
  }

  /** The grouping loop before `syncPackages`: a provider is a key exactly
      when some package names it, and maps to its packages in order. */
  method GroupByProvider(list: seq<PackageInfo>) returns (groups: map<string, seq<PackageInfo>>)
    ensures forall q :: q in groups <==> exists i :: 0 <= i < |list| && list[i].provider == q
    ensures forall q :: q in groups ==> groups[q] == ForProvider(list, q)
  {
    groups := map[];
    for i := 0 to |list|
      invariant forall q :: q in groups <==> exists k :: 0 <= k < i && list[k].provider == q
      invariant forall q :: q in groups ==> groups[q] == ForProvider(list[..i], q)
    {
      var p := list[i];
      forall q
        ensures ForProvider(list[..i + 1], q) == ForProvider(list[..i], q) + if p.provider == q then [p] else []
      {
        ForProviderStep(list, i, q);
      }
      if p.provider !in groups {
        NoneForProvider(list[..i], p.provider);
        groups := groups[p.provider := [p]];
      } else {
        var current := groups[p.provider];
        current := current + [p];
        groups := groups[p.provider := current];
      }
    }
    assert list[..|list|] == list;
  }

  lemma {:induction false} NoneForProvider(list: seq<PackageInfo>, q: string)
    requires forall k :: 0 <= k < |list| ==> list[k].provider != q
    ensures ForProvider(list, q) == []
  {
    if list != [] {
      NoneForProvider(list[..|list| - 1], q);
    }
  }

  /** A provider's group holds each of its packages as often as the list
      does, and nothing else. */
  lemma {:induction false} ForProviderCounts(list: seq<PackageInfo>, q: string, x: PackageInfo)
    ensures multiset(ForProvider(list, q))[x] == if x.provider == q then multiset(list)[x] else 0
  {
    if list != [] {
      var init := list[..|list| - 1];
      var last := list[|list| - 1];
      assert list == init + [last];
      ForProviderCounts(init, q, x);
    }
  }
}
