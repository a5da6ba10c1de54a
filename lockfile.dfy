/** The lockfile of package/src/lockfile.ts: the version installed for
    each package, by provider and package name. */
module Lockfiles {
  import opened Wrappers
  import opened Validation

  /** provider -> package name -> version */
  type Data = map<string, map<string, string>>

  /** `getVersion` on the data. */
  function Version(data: Data, provider: string, name: string): (r: Option<string>)
    ensures r.Some? <==> provider in data && name in data[provider]
    ensures r.Some? ==> r.value == data[provider][name]
  {
    if provider in data && name in data[provider] then Some(data[provider][name]) else None
  }

  /** `setVersion` on the data: an unknown provider first gets an empty table. */
  function Store(data: Data, provider: string, name: string, version: string): (d: Data)
    ensures d.Keys == data.Keys + {provider}
  {
    var table := if provider in data then data[provider] else map[];
    data[provider := table[name := version]]
  }

  /** `delete` on the data: the provider's table stays, even when it becomes empty. */
  function Remove(data: Data, provider: string, name: string): (d: Data)
    ensures d.Keys == data.Keys
  {
    if provider in data && name in data[provider] then data[provider := data[provider] - {name}] else data
  }

  /** A table read from JSON: the first entry of each name counts, as with a
      property lookup. */
  function Table(es: seq<(string, Value)>): (m: map<string, Value>)
    ensures forall k :: k in m <==> exists i :: 0 <= i < |es| && es[i].0 == k
    ensures forall k :: k in m ==> m[k] == Lookup(es, k)
    ensures forall k :: k in m ==> exists i :: 0 <= i < |es| && es[i] == (k, m[k])
  {
    if es == [] then map[] else Table(es[1..])[es[0].0 := es[0].1]
  }

  /** The versions one provider's table denotes. */
  function InnerData(v: Value): map<string, string>
    requires IsStrings(v)
  {
    var u := Table(OwnEntries(v));
    map n | n in u :: u[n].s
  }

  /** The data a value accepted by the lockfile schema denotes. */
  function ToData(o: Value): Data
    requires IsStringTable(o)
  {
    var t := Table(OwnEntries(o));
    map p | p in t :: InnerData(t[p])
  }

  // ---------------------------------------------------------------------------
  // The lockfile object

  class Lockfile {
    var data: Data

    /** A fresh lockfile holds no versions. */
    constructor()
      ensures data == map[]
    {
      data := map[];
    }

    /** `getVersion(provider, name)` */
    function GetVersion(provider: string, name: string): (r: Option<string>)
      reads this
      ensures r.Some? <==> provider in data && name in data[provider]
      ensures r.Some? ==> r.value == data[provider][name]
    {
      if provider in data then
        if name in data[provider] then Some(data[provider][name]) else None
      else None
    }

    /** `setVersion(provider, name, version)` */
    method SetVersion(provider: string, name: string, version: string)
      modifies this
      ensures data == Store(old(data), provider, name, version)
    {
      if provider !in data {
        data := data[provider := map[]];
      }
      data := data[provider := data[provider][name := version]];
    }

    /** `delete(provider, name)` */
    method Delete(provider: string, name: string)
      modifies this
      ensures data == Remove(old(data), provider, name)
    {
      if provider in data && name in data[provider] {
        data := data[provider := data[provider] - {name}];
      }
    }

    /** `readFromFile` after `JSON.parse`: the parsed value replaces the data
        when the schema accepts it; otherwise the program is stopped with an
        error and the data is not touched. */
    method ReadFromFile(filepath: string, json: Value) returns (r: Outcome<string>)
      modifies this
      ensures LockfileSchema()(json) ==> r == Pass && IsStringTable(json) && data == ToData(json)
      ensures !LockfileSchema()(json) ==> r == Fail("Failed to read lockfile from " + filepath) && data == old(data)
    {
      var parsed := ParseSafe(json, LockfileSchema());
      LockfileSchemaTruthy(json);
      if !Truthy(parsed) {
        return Fail("Failed to read lockfile from " + filepath);
      }
      LockfileSchemaExact(json);
      data := ToData(parsed);
      return Pass;
    }
  }

  // ---------------------------------------------------------------------------
  // Properties of the operations

  /** A version just set is the one read back. */
  lemma VersionAfterStore(data: Data, provider: string, name: string, version: string)
    ensures Version(Store(data, provider, name, version), provider, name) == Some(version)
  {
  }

  /** Setting one version leaves every other version alone. */
  lemma StoreFrame(data: Data, provider: string, name: string, version: string, p: string, n: string)
    requires (p, n) != (provider, name)
    ensures Version(Store(data, provider, name, version), p, n) == Version(data, p, n)
  {
  }

  /** Setting a version twice keeps only the second. */
  lemma StoreTwice(data: Data, provider: string, name: string, v1: string, v2: string)
    ensures Store(Store(data, provider, name, v1), provider, name, v2) == Store(data, provider, name, v2)
  {
    var table := if provider in data then data[provider] else map[];
    assert table[name := v1][name := v2] == table[name := v2];
  }

  /** A deleted version is gone, and nothing else is. */
  lemma VersionAfterRemove(data: Data, provider: string, name: string, p: string, n: string)
    ensures Version(Remove(data, provider, name), provider, name) == None
    ensures (p, n) != (provider, name) ==> Version(Remove(data, provider, name), p, n) == Version(data, p, n)
  {
  }

  /** Deleting a version that is not there changes nothing. */
  lemma RemoveAbsent(data: Data, provider: string, name: string)
    requires Version(data, provider, name) == None
    ensures Remove(data, provider, name) == data
  {
  }

  /** Setting and then deleting leaves the provider known with an empty
      entry for the name's table where there was none. */
  lemma RemoveAfterStore(data: Data, provider: string, name: string, version: string)
    requires Version(data, provider, name) == None
    ensures Remove(Store(data, provider, name, version), provider, name)
         == data[provider := if provider in data then data[provider] else map[]]
  {
    var table := if provider in data then data[provider] else map[];
    assert table[name := version] - {name} == table;
  }

  /** In one provider's table, a version is the string found under the name. */
  lemma InnerVersion(v: Value, name: string, version: string)
    requires IsStrings(v)
    ensures (name in InnerData(v) && InnerData(v)[name] == version) <==>
      Lookup(OwnEntries(v), name) == Str(version)
  {
    var es := OwnEntries(v);
    var u := Table(es);
    if name in u {
      var j :| 0 <= j < |es| && es[j] == (name, u[name]);
      assert es[j].1.Str?;
    }
  }

  /** A provider is known exactly when the lookup finds an object, and its
      versions are those of that object. */
  lemma OuterVersion(o: Value, provider: string)
    requires IsStringTable(o)
    ensures provider in ToData(o) <==> IsObject(Lookup(OwnEntries(o), provider))
    ensures provider in ToData(o) ==>
      IsStrings(Lookup(OwnEntries(o), provider)) &&
      ToData(o)[provider] == InnerData(Lookup(OwnEntries(o), provider))
  {
    var outer := OwnEntries(o);
    var t := Table(outer);
    assert provider in ToData(o) <==> provider in t;
    if provider in t {
      var i :| 0 <= i < |outer| && outer[i] == (provider, t[provider]);
      assert IsStrings(outer[i].1);
      assert Lookup(outer, provider) == t[provider];
      assert ToData(o)[provider] == InnerData(t[provider]);
    } else {
      assert forall i :: 0 <= i < |outer| ==> outer[i].0 != provider;
      assert Lookup(outer, provider) == Undefined;
    }
  }

  /** After reading a file, a version is the one found by looking up the
      provider and then the name in the parsed JSON. */
  lemma ReadVersion(o: Value, provider: string, name: string, version: string)
    requires IsStringTable(o)
    ensures Version(ToData(o), provider, name) == Some(version) <==>
      var inner := Lookup(OwnEntries(o), provider);
      IsObject(inner) && Lookup(OwnEntries(inner), name) == Str(version)
  {
    OuterVersion(o, provider);
    if provider in ToData(o) {
      InnerVersion(Lookup(OwnEntries(o), provider), name, version);
    }
  }
}
