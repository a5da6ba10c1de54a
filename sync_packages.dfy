/** `syncPackages` and `updateLockfile` of package/sysdef-src/sysdef.ts. A
    provider is its name and the packages it reports installed; its
    `install` and `uninstall` calls are recorded as a trace. */
module PackageSync {
  import opened Wrappers
  import opened Packages
  import opened PackageSets
  import opened Lockfiles

  /** A loaded provider, through what `getInstalled` returns. */
  datatype Provider = Provider(name: string, installed: seq<PackageInfo>)

  /** A call into a provider. */
  datatype Call =
    | Install(provider: string, packages: seq<PackageInfo>)
    | Uninstall(provider: string, names: seq<string>)

  /** The requested packages of a provider: its group, or none. */
  function Requested(groups: map<string, seq<PackageInfo>>, provider: string): seq<PackageInfo> {
    if provider in groups then groups[provider] else []
  }

  /** A requested package needs no change: that exact version is installed,
      or any version is asked for and some version is installed. */
  predicate Satisfied(installed: seq<PackageInfo>, p: PackageInfo) {
    FullKey(p) in FullKeys(installed) || (p.version == AnyVersion && NameKey(p.provider, p.name) in NameKeys(installed))
  }

  /** `noChange` */
  function NoChange(installed: seq<PackageInfo>, ps: seq<PackageInfo>): seq<PackageInfo> {
    if ps == [] then []
    else NoChange(installed, ps[..|ps| - 1]) + if Satisfied(installed, ps[|ps| - 1]) then [ps[|ps| - 1]] else []
  }

  /** `toInstall` */
  function ToInstall(installed: seq<PackageInfo>, ps: seq<PackageInfo>): seq<PackageInfo> {
    if ps == [] then []
    else ToInstall(installed, ps[..|ps| - 1]) + if Satisfied(installed, ps[|ps| - 1]) then [] else [ps[|ps| - 1]]
  }

  /** `toUninstall`: installed packages whose provider and name are not
      requested at any version. */
  function ToUninstall(requested: seq<PackageInfo>, installed: seq<PackageInfo>): seq<PackageInfo> {
    if installed == [] then []
    else
      var p := installed[|installed| - 1];
      ToUninstall(requested, installed[..|installed| - 1])
        + if NameKey(p.provider, p.name) in NameKeys(requested) then [] else [p]
  }

  function Names(ps: seq<PackageInfo>): (ns: seq<string>)
    ensures |ns| == |ps| && forall i :: 0 <= i < |ps| ==> ns[i] == ps[i].name
  {
    seq(|ps|, i requires 0 <= i < |ps| => ps[i].name)
  }

  /** The calls made for one provider: `install`, then `uninstall` unless
      removal is switched off. */
  function ProviderCalls(groups: map<string, seq<PackageInfo>>, provider: Provider, noRemove: bool): seq<Call> {
    var requested := Requested(groups, provider.name);
    [Install(provider.name, ToInstall(provider.installed, requested))]
      + if noRemove then [] else [Uninstall(provider.name, Names(ToUninstall(requested, provider.installed)))]
  }

  /** Every call of `syncPackages`, provider by provider. */
  function SyncTrace(groups: map<string, seq<PackageInfo>>, providers: seq<Provider>, noRemove: bool): seq<Call> {
    if providers == [] then []
    else SyncTrace(groups, providers[..|providers| - 1], noRemove) + ProviderCalls(groups, providers[|providers| - 1], noRemove)
  }

  lemma SnocPrefix<T>(s: seq<T>, i: nat)
    requires i < |s|
    ensures s[..i + 1][..i] == s[..i] && s[..i + 1][i] == s[i]
  {
  }

  /** The first loop of `syncPackages`: each requested package is left
      alone when `has` finds it, or when any version is asked for and
      `hasAnyVersion` finds it; otherwise it is to be installed. */
  method Classify(installedSet: PackageSet, ghost installed: seq<PackageInfo>, packages: seq<PackageInfo>)
    returns (noChange: seq<PackageInfo>, toInstall: seq<PackageInfo>)
    requires installedSet.packages == FullKeys(installed) && installedSet.packageKeys == NameKeys(installed)
    ensures noChange == NoChange(installed, packages)
    ensures toInstall == ToInstall(installed, packages)
  {
    noChange, toInstall := [], [];
    for j := 0 to |packages|
      invariant noChange == NoChange(installed, packages[..j])
      invariant toInstall == ToInstall(installed, packages[..j])
    {
      var p := packages[j];
      SnocPrefix(packages, j);
      var exact := installedSet.Has(p);
      if exact {
        noChange := noChange + [p];
      } else {
        var anyVersion := false;
        if p.version == AnyVersion {
          anyVersion := installedSet.HasAnyVersion(p.provider, p.name);
        }
        if anyVersion {
          noChange := noChange + [p];
        } else {
          toInstall := toInstall + [p];
        }
      }
    }
    assert packages[..|packages|] == packages;
  }

  /** The second loop of `syncPackages`: installed packages whose provider
      and name `hasAnyVersion` does not find among the requested ones. */
  method Unrequested(requestedSet: PackageSet, ghost requested: seq<PackageInfo>, installed: seq<PackageInfo>)
    returns (toUninstall: seq<PackageInfo>)
    requires requestedSet.packageKeys == NameKeys(requested)
    ensures toUninstall == ToUninstall(requested, installed)
  {
    toUninstall := [];
    for j := 0 to |installed|
      invariant toUninstall == ToUninstall(requested, installed[..j])
    {
      var p := installed[j];
      SnocPrefix(installed, j);
      var found := requestedSet.HasAnyVersion(p.provider, p.name);
      if !found {
        toUninstall := toUninstall + [p];
      }
    }
    assert installed[..|installed|] == installed;
  }

  lemma SyncTraceStep(groups: map<string, seq<PackageInfo>>, providers: seq<Provider>, i: nat, noRemove: bool)
    requires i < |providers|
    ensures SyncTrace(groups, providers[..i + 1], noRemove)
         == SyncTrace(groups, providers[..i], noRemove) + ProviderCalls(groups, providers[i], noRemove)
  {
    SnocPrefix(providers, i);
  }

  /** `syncPackages(allPackages, providers, noRemove)`. The `noChange` list
      of each provider is computed and then dropped, as in the original. */
  method SyncPackages(groups: map<string, seq<PackageInfo>>, providers: seq<Provider>, noRemove: bool)
    returns (trace: seq<Call>)
    ensures trace == SyncTrace(groups, providers, noRemove)
  {
    trace := [];
    for i := 0 to |providers|
      invariant trace == SyncTrace(groups, providers[..i], noRemove)
    {
      var provider := providers[i];
      var packages := if provider.name in groups then groups[provider.name] else [];
      var installed := provider.installed;
      var installedSet := new PackageSet();
      var requestedSet := new PackageSet();
      installedSet.AddList(installed);
      requestedSet.AddList(packages);

      var noChange, toInstall := Classify(installedSet, installed, packages);
      var toUninstall := Unrequested(requestedSet, packages, installed);

      var calls := [Install(provider.name, toInstall)];
      if !noRemove {
        var names := seq(|toUninstall|, k requires 0 <= k < |toUninstall| => toUninstall[k].name);
        assert names == Names(toUninstall);
        calls := calls + [Uninstall(provider.name, names)];
      }
      assert calls == ProviderCalls(groups, provider, noRemove);
      SyncTraceStep(groups, providers, i, noRemove);
      trace := trace + calls;
    }
    assert providers[..|providers|] == providers;
  }

  // ---------------------------------------------------------------------------
  // Properties of the classification

  /** Each requested package is either left alone or installed, never both,
      and no package is lost or invented. */
  lemma {:induction false} Partition(installed: seq<PackageInfo>, ps: seq<PackageInfo>)
    ensures |NoChange(installed, ps)| + |ToInstall(installed, ps)| == |ps|
    ensures forall x :: x in NoChange(installed, ps) <==> x in ps && Satisfied(installed, x)
    ensures forall x :: x in ToInstall(installed, ps) <==> x in ps && !Satisfied(installed, x)
  {
    if ps != [] {
      var init, last := ps[..|ps| - 1], ps[|ps| - 1];
      assert ps == init + [last];
      Partition(installed, init);
    }
  }

  /** With colon-free names the joined keys say what they mean: a request is
      left alone exactly when that package is installed, or any version is
      asked for and the provider has a package of that name. */
  lemma SatisfiedMeaning(installed: seq<PackageInfo>, p: PackageInfo)
    requires ColonFree(p) && forall q :: q in installed ==> ColonFree(q)
    ensures Satisfied(installed, p) <==>
      p in installed || (p.version == AnyVersion && exists q :: q in installed && q.provider == p.provider && q.name == p.name)
  {
    FullKeysMember(installed, p);
    NameKeysMember(installed, p.provider, p.name);
  }

  /** The packages to remove are the installed ones not requested at any version. */
  lemma {:induction false} UninstallMeaning(requested: seq<PackageInfo>, installed: seq<PackageInfo>)
    ensures forall x :: x in ToUninstall(requested, installed) <==>
      x in installed && NameKey(x.provider, x.name) !in NameKeys(requested)
  {
    if installed != [] {
      var init, last := installed[..|installed| - 1], installed[|installed| - 1];
      assert installed == init + [last];
      UninstallMeaning(requested, init);
    }
  }

  /** `install` is always called, `uninstall` only when removal is allowed. */
  lemma ProviderCallsShape(groups: map<string, seq<PackageInfo>>, provider: Provider, noRemove: bool)
    ensures var calls := ProviderCalls(groups, provider, noRemove);
      && |calls| == (if noRemove then 1 else 2)
      && calls[0].Install? && calls[0].provider == provider.name
      && (!noRemove ==> calls[1].Uninstall? && calls[1].provider == provider.name)
  {
  }

  /** Every call goes to a loaded provider: a group with no provider of its
      name is never installed. */
  lemma {:induction false} CallsTargetProviders(groups: map<string, seq<PackageInfo>>, providers: seq<Provider>, noRemove: bool)
    ensures forall c :: c in SyncTrace(groups, providers, noRemove) ==> exists i :: 0 <= i < |providers| && c.provider == providers[i].name
  {
    if providers != [] {
      var init := providers[..|providers| - 1];
      CallsTargetProviders(groups, init, noRemove);
      forall c | c in SyncTrace(groups, providers, noRemove)
        ensures exists i :: 0 <= i < |providers| && c.provider == providers[i].name
      {
        if c in SyncTrace(groups, init, noRemove) {
          var i :| 0 <= i < |init| && c.provider == init[i].name;
          assert providers[i] == init[i];
        } else {
          assert c.provider == providers[|providers| - 1].name;
        }
      }
    }
  }

  /** A provider nothing is requested from installs nothing and, unless
      removal is switched off, uninstalls everything it has. */
  lemma UnrequestedProvider(groups: map<string, seq<PackageInfo>>, provider: Provider, noRemove: bool)
    requires provider.name !in groups
    ensures ProviderCalls(groups, provider, noRemove)[0] == Install(provider.name, [])
    ensures !noRemove ==> ProviderCalls(groups, provider, noRemove)[1] == Uninstall(provider.name, Names(provider.installed))
  {
    NothingRequested(provider.installed);
  }

  lemma {:induction false} NothingRequested(installed: seq<PackageInfo>)
    ensures ToUninstall([], installed) == installed
  {
    if installed != [] {
      NothingRequested(installed[..|installed| - 1]);
    }
  }

  // ---------------------------------------------------------------------------
  // updateLockfile

  /** Every package the providers report, provider by provider. */
  function AllInstalled(providers: seq<Provider>): seq<PackageInfo> {
    if providers == [] then []
    else AllInstalled(providers[..|providers| - 1]) + providers[|providers| - 1].installed
  }

  /** `setVersion` of each package in turn. */
  function StoreAll(data: Data, ps: seq<PackageInfo>): Data {
    if ps == [] then data
    else
      var p := ps[|ps| - 1];
      Store(StoreAll(data, ps[..|ps| - 1]), p.provider, p.name, p.version)
  }

  lemma StoreAllSnoc(data: Data, ps: seq<PackageInfo>, p: PackageInfo)
    ensures StoreAll(data, ps + [p]) == Store(StoreAll(data, ps), p.provider, p.name, p.version)
  {
    assert (ps + [p])[..|ps|] == ps;
  }

  lemma AllInstalledStep(providers: seq<Provider>, i: nat)
    requires i < |providers|
    ensures AllInstalled(providers[..i + 1]) == AllInstalled(providers[..i]) + providers[i].installed
  {
    SnocPrefix(providers, i);
  }

  lemma AppendPrefix<T>(a: seq<T>, s: seq<T>, j: nat)
    requires j < |s|
    ensures a + s[..j + 1] == (a + s[..j]) + [s[j]]
    ensures a + s[..0] == a
    ensures s[..|s|] == s
  {
  }

  /** `updateLockfile(providers, lockfile)`, given the providers as they are
      after syncing. */
  method UpdateLockfile(providers: seq<Provider>, lockfile: Lockfile)
    modifies lockfile
    ensures lockfile.data == StoreAll(old(lockfile.data), AllInstalled(providers))
  {
    ghost var start := lockfile.data;
    for i := 0 to |providers|
      invariant lockfile.data == StoreAll(start, AllInstalled(providers[..i]))
    {
      var packages := providers[i].installed;
      ghost var before := AllInstalled(providers[..i]);
      AllInstalledStep(providers, i);
      assert before + packages[..0] == before;
      for j := 0 to |packages|
        invariant lockfile.data == StoreAll(start, before + packages[..j])
      {
        var p := packages[j];
        AppendPrefix(before, packages, j);
        StoreAllSnoc(start, before + packages[..j], p);
        lockfile.SetVersion(p.provider, p.name, p.version);
      }
      assert packages[..|packages|] == packages;
    }
    assert providers[..|providers|] == providers;
  }

  /** The last report of a package decides its recorded version. */
  lemma {:induction false} LastReportWins(data: Data, ps: seq<PackageInfo>, i: nat)
    requires i < |ps|
    requires forall j :: i < j < |ps| ==> (ps[j].provider, ps[j].name) != (ps[i].provider, ps[i].name)
    ensures Version(StoreAll(data, ps), ps[i].provider, ps[i].name) == Some(ps[i].version)
  {
    var last := ps[|ps| - 1];
    if i == |ps| - 1 {
      VersionAfterStore(StoreAll(data, ps[..|ps| - 1]), last.provider, last.name, last.version);
    } else {
      LastReportWins(data, ps[..|ps| - 1], i);
      StoreFrame(StoreAll(data, ps[..|ps| - 1]), last.provider, last.name, last.version, ps[i].provider, ps[i].name);
    }
  }

  /** Versions of packages no provider reports stay as they were. */
  lemma {:induction false} UnreportedKept(data: Data, ps: seq<PackageInfo>, provider: string, name: string)
    requires forall j :: 0 <= j < |ps| ==> (ps[j].provider, ps[j].name) != (provider, name)
    ensures Version(StoreAll(data, ps), provider, name) == Version(data, provider, name)
  {
    if ps != [] {
      var last := ps[|ps| - 1];
      UnreportedKept(data, ps[..|ps| - 1], provider, name);
      StoreFrame(StoreAll(data, ps[..|ps| - 1]), last.provider, last.name, last.version, provider, name);
    }
  }

  /** Every reported package has a recorded version afterwards. */
  lemma ReportedRecorded(data: Data, ps: seq<PackageInfo>, i: nat)
    requires i < |ps|
    ensures Version(StoreAll(data, ps), ps[i].provider, ps[i].name).Some?
  {
    var j := LastReport(ps, i);
    LastReportWins(data, ps, j);
  }

  /** The index of the last package with the same provider and name as `ps[i]`. */
  lemma {:induction false} LastReport(ps: seq<PackageInfo>, i: nat) returns (j: nat)
    requires i < |ps|
    ensures i <= j < |ps| && (ps[j].provider, ps[j].name) == (ps[i].provider, ps[i].name)
    ensures forall k :: j < k < |ps| ==> (ps[k].provider, ps[k].name) != (ps[j].provider, ps[j].name)
    decreases |ps| - i
  {
    var later := i + 1;
    while later < |ps| && (ps[later].provider, ps[later].name) != (ps[i].provider, ps[i].name)
      invariant i < later <= |ps|
      invariant forall k :: i < k < later ==> (ps[k].provider, ps[k].name) != (ps[i].provider, ps[i].name)
    {
      later := later + 1;
    }
    if later == |ps| {
      j := i;
    } else {
      j := LastReport(ps, later);
    }
  }
}
