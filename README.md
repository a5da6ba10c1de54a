# sysdef, modelled in Dafny

sysdef is a declarative system configurator. A user's configuration lists
modules; each module names packages per provider (a package manager such
as apt or brew), files and directories to place in the home directory, and
variables. One run of sysdef makes the machine match the configuration:

- **Variables.** A `VariableStore` holds named string variables and fills
  `{name}` placeholders into paths and contents. Each module sees the base
  store branched off with its own variables.
- **Package reconciliation.** `getPackageList` flattens the modules'
  package specs (`name` or `name:version`) into one list, taking unpinned
  versions from the lockfile or the sentinel `_*_`, and stops on a repeated
  provider and name. The list is grouped by provider. `syncPackages` diffs
  each provider's group against what it reports installed and calls
  `install` and (unless `noRemove`) `uninstall`. `updateLockfile` then
  records the installed versions.
- **File placement.** `syncFiles` links or writes each module's files and
  directories.
- **Support structures.** `PackageSet` indexes packages by joined string
  keys. `Lockfile` maps provider and package name to a version. The
  validation combinators check untyped JSON values, such as the lockfile
  on disk.
- **Two command-line parsers.** `src/argparse.ts` (`filterArgs`,
  `parseArgs`, and the validation done by `executeArgs`) and the `Command`
  builder of `package/src/argparse.ts` with its `parse`.

The model keeps the program's own shape:

- **Classes** model the objects whose fields change in place:
  `VariableStore`, `PackageSet`, `Lockfile` and `Command`.
- **Loops** become methods with `while` or `for` loops. Each is proved
  equal to a specification function, or proved to establish its promised
  state.
- **Pure code** becomes functions: the validation combinators,
  `versionMatches` and the `FlagSet`/`OptionSet`/`MixedSet` builders.
- **JavaScript records** whose order matters (a module's packages, files
  and directories; parsed flags and options) are sequences of key/value
  pairs in insertion order. The other records are maps.
- **Calls the program does not compute itself:**
  - Failures become `Err` (or `Fail`) results. This covers four kinds of
    failure:
    - `errorOut` of package/sysdef-src/sysdef.ts:6-10, which prints
      `Fatal error: …` and exits the process; the result carries the
      message;
    - `errorOut` of src/argparse.ts:133-135, which throws an `Error` whose
      message starts with `Error: `; the result carries the message;
    - the `throw`s of package/src/argparse.ts and package/src/validation.ts;
      the result carries the message;
    - the `throw` of `VariableStore.get` for a key that is not set
      (package/sysdef-src/sysdef.ts:20, src/sysdef.ts:10, src/index.ts:9).
      This becomes `NotSet(k)`, which carries the key only, not the
      message text `Error getting variable: "k". It wasn't set anywhere.`
  - `Commands.Push` fails with the text
    `TypeError: result._.push is not a function` when `_` no longer holds
    an array. That text is not a `throw` of the source: it stands in for
    the `TypeError` the JavaScript engine raises at
    package/src/argparse.ts:288 once a flag or option named `_` has
    replaced the array.
  - Providers are a name plus the packages they report installed. Their
    `install`/`uninstall` calls are recorded as a trace, and so are the
    filesystem actions of `syncFiles`.
  - `path.resolve` and JavaScript's `Number()` are parameters
    (`resolve`, `number`).
  - File generators are functions of the variable store.
  - Helpers without a row stand for JavaScript built-ins: `Records.Put`
    is property assignment `o[k] = v` (as at src/argparse.ts:44-51),
    `Strings.StartsWith`, `Strings.EndsWith` and `Strings.Contains` are
    `startsWith`, `endsWith` and `includes`, and `Validation.TypeOf` is
    the `typeof` operator (as at package/src/validation.ts:7-9 and :31).

`getPackageList`'s conflict check is modelled as the code is written. It
stops when a provider and name seen before reappear with a version for
which `versionMatches` holds: equal versions, or either one `_*_`. Two
different concrete versions pass. The source's own comment on the check
(package/sysdef-src/sysdef.ts:183, "two contradicting versions") and its
error message (package/sysdef-src/sysdef.ts:220, "Requested two different
versions") describe a guard against two *different* versions. The condition at
package/sysdef-src/sysdef.ts:219 does the opposite. The model follows the
condition as written, and `PackageLists.CheckFails` states that behaviour.

## Model

| member | source | states |
|---|---|---|
| Variables.RunCons | package/sysdef-src/sysdef.ts:38-61 | the loop handles the first character with one step and then continues on the rest |
| Variables.RunAppend | package/sysdef-src/sysdef.ts:38-61 | scanning `a + b` is scanning `b` from the state reached after `a`: the loop carries nothing but its three variables |
| Variables.StepShift | package/sysdef-src/sysdef.ts:39-60 | every branch of one loop iteration only appends to `newString`, so text in front of it is kept |
| Variables.RunShift | package/sysdef-src/sysdef.ts:38-61 | text in front of `newString` stays in front for the whole scan |
| Variables.RunKeepsOutput | package/sysdef-src/sysdef.ts:38-61 | what has been produced is a prefix of the final output: the scan from any state equals the scan from the same state with an empty output, put after the old output |
| Variables.RunSane | package/sysdef-src/sysdef.ts:43-55 | `substr` is empty whenever no brace is open, because every branch that clears `insideBracket` also clears `substr` |
| Variables.RunPlainOutside | package/sysdef-src/sysdef.ts:58-60 | outside a brace, text without braces is appended to the output character by character |
| Variables.RunPlainInside | package/sysdef-src/sysdef.ts:56-57 | inside a brace, text without braces is collected into `substr` and nothing is output |
| Variables.RunWithoutClose | package/sysdef-src/sysdef.ts:38-65 | a text without `}` leaves the flushed output extended by exactly that text, whatever the variables: each `{` copies out the abandoned attempt and the end flushes the last |
| Variables.RunWithoutOpen | package/sysdef-src/sysdef.ts:45-60 | outside a brace, a text without `{` is copied verbatim; a `}` there is literal |
| Variables.RunNoVars | package/sysdef-src/sysdef.ts:38-65 | with an empty map every character, braces included, ends up in the flushed output unchanged |
| Variables.FillInAppend | package/sysdef-src/sysdef.ts:33-68 | a prefix that ends outside any brace is filled in independently of what follows |
| Variables.CloseBrace | package/sysdef-src/sysdef.ts:45-55 | a `}` with a brace open emits the value when `substr` is a key (an empty value included, because the test is `!== undefined`), otherwise `{substr}` literally, and closes the brace |
| Variables.FillInPlaceholder | package/sysdef-src/sysdef.ts:33-68 | `fillIn("{k}")` for a brace-free `k` is the value of `k` when set, otherwise `{k}`; the scan ends outside a brace |
| Variables.FillInPlain | package/sysdef-src/sysdef.ts:33-68 | text without braces is returned unchanged (package/test/sysdef.test.ts:36-48) |
| Variables.FillInWithoutClose | package/sysdef-src/sysdef.ts:63-65 | a string without `}` is returned unchanged, so an unterminated brace is flushed verbatim as `{` + `substr`: `Hello {name` and `{{{name` are unchanged (package/test/sysdef.test.ts:72-94) |
| Variables.FillInWithoutOpen | package/sysdef-src/sysdef.ts:51-53 | a string without `{` is returned unchanged: a `}` outside a brace is literal (package/test/sysdef.test.ts:80-86) |
| Variables.FillInNoVars | package/sysdef-src/sysdef.ts:33-68 | with no variables set, `fillIn` is the identity, `{unknown}` and `{}` included (package/test/sysdef.test.ts:50-62) |
| Variables.RunTwoOpen | package/sysdef-src/sysdef.ts:39-44 | a `{` while a brace is open flushes `{` + the pending text and restarts the brace |
| Variables.RunPlaceholder | package/sysdef-src/sysdef.ts:45-57 | inside a fresh brace, `k}` emits the substitution of `k` and closes the brace |
| Variables.FillInNested | package/sysdef-src/sysdef.ts:39-55 | `{{k}}` becomes `{` + substitution of `k` + `}`, so `{{var}}` gives `{value}` (package/test/sysdef.test.ts:64-70) |
| Variables.FillInNestedOpen | package/sysdef-src/sysdef.ts:39-55 | `{{k}` becomes `{` + substitution of `k`, so `{{name}` gives `{John` (package/test/sysdef.test.ts:161-167) |
| Variables.FillInOne | package/sysdef-src/sysdef.ts:33-68 | a template `a{k}b` with brace-free parts becomes `a` + substitution of `k` + `b` (package/test/sysdef.test.ts:19-25) |
| Variables.FillInSinglePass | package/test/sysdef.test.ts:169-176 | substitution is a single pass: with `outer = "{inner}"`, `{outer}` gives `{inner}` and the inner placeholder is not expanded |
| Variables.FillInEmptyValue | package/test/sysdef.test.ts:129-135 | an empty value is substituted: `Hello {empty}world` becomes `Hello world` |
| Variables.VariableStore.constructor | package/sysdef-src/sysdef.ts:13-14 | a new store holds no variables |
| Variables.VariableStore.Get | package/sysdef-src/sysdef.ts:17-23 | `get` succeeds iff the key is set to a non-empty string and then returns that value; an unset key and one set to `""` are both `NotSet` errors (the `!v` test; also src/sysdef.ts:7-13) |
| Variables.VariableStore.Check | src/index.ts:6-11 | the older `get` passes iff the key is set to a non-empty string and fails with `NotSet` otherwise; it returns no value |
| Variables.VariableStore.Set | package/sysdef-src/sysdef.ts:24-26 | `set` maps `k` to `v` and changes no other entry (also src/sysdef.ts:14-16, src/index.ts:12-14) |
| Variables.VariableStore.Has | package/sysdef-src/sysdef.ts:27-29 | `has` is true iff the key is present, even with an empty value (also src/sysdef.ts:17-19) |
| Variables.VariableStore.GetSafe | package/sysdef-src/sysdef.ts:30-32 | `getSafe` returns the raw entry, `None` exactly when the key is absent (also src/sysdef.ts:20-22) |
| Variables.VariableStore.FillIn | package/sysdef-src/sysdef.ts:33-68 | the loop with its three accumulators computes exactly `FillInText`, the scan the lemmas above characterise (the same loop is src/sysdef.ts:23-58 and src/index.ts:15-50) |
| Variables.VariableStore.InsertAll | package/sysdef-src/sysdef.ts:70-74 | after `insertAll(r)` the map is the old map overridden by every entry of `r`; keys outside `r` keep their values (also src/sysdef.ts:60-64) |
| Variables.VariableStore.BranchOff | package/sysdef-src/sysdef.ts:78-86 | `branchOff(r)` returns a fresh store holding this store's entries overridden by `r`; this store is not modified (also src/sysdef.ts:68-76) |
| Packages.FullKeyInjective | package/src/package-set.ts:9 | for colon-free providers and names, the joined key `provider:name:version` determines the package |
| Packages.NameKeyInjective | package/src/package-set.ts:10 | for colon-free providers, the joined key `provider:name` determines provider and name |
| PackageSets.FullKeysSnoc | package/src/package-set.ts:9 | adding one package adds exactly its full key to the index of full keys |
| PackageSets.NameKeysSnoc | package/src/package-set.ts:10 | adding one package adds exactly its name key to the index of name keys |
| PackageSets.FullKeysAppend | package/src/package-set.ts:21-25 | the full-key index of a concatenation of package lists is the union of their indexes |
| PackageSets.NameKeysAppend | package/src/package-set.ts:21-25 | the name-key index of a concatenation of package lists is the union of their indexes |
| PackageSets.PackageSet.constructor | package/src/package-set.ts:5-6 | a new set has both key sets empty and nothing added |
| PackageSets.PackageSet.Add | package/src/package-set.ts:8-11 | `add` inserts the full key and the name key together and removes nothing; both sets stay the key sets of the packages added so far |
| PackageSets.PackageSet.Has | package/src/package-set.ts:13-15 | `has` is true iff the joined full key is in the set |
| PackageSets.PackageSet.HasAnyVersion | package/src/package-set.ts:17-19 | `hasAnyVersion` is true iff the joined name key is in the set |
| PackageSets.PackageSet.AddList | package/src/package-set.ts:21-25 | `addList(ps)` is `add` of each element in order: the added sequence grows by `ps` and each key set grows by exactly the keys of `ps` |
| PackageSets.FullKeysMember | package/src/package-set.ts:9-15 | for colon-free names the full key of `p` is in the index iff `p` itself was added, so after `add(p)` `has(p)` holds and an unadded package is not found (package/test/package-set.test.ts:7-17) |
| PackageSets.NameKeysMember | package/src/package-set.ts:10-19 | for colon-free names `hasAnyVersion` holds iff some added package has that provider and name, so a pair never added is rejected (package/test/package-set.test.ts:19) |
| PackageSets.ExactImpliesAnyVersion | package/src/package-set.ts:8-19 | for colon-free names, `has(p)` implies `hasAnyVersion(p)` because `add` always inserts both keys |
| PackageSets.KeyCollision | package/src/package-set.ts:9-18 | keys are joined strings: with a colon in the name, `{a, b:c, d}` makes `has({a, b, c:d})` true while `hasAnyVersion({a, b})` is false |
| Lockfiles.Version | package/src/lockfile.ts:13-18 | `getVersion` on the data: a version exactly when the provider has a table and the table has the name, and then the stored one; otherwise undefined |
| Lockfiles.Store | package/src/lockfile.ts:20-25 | `setVersion` on the data: the provider becomes known (with an empty table created first when new) and no provider is lost |
| Lockfiles.Remove | package/src/lockfile.ts:27-31 | `delete` on the data keeps the set of providers, even when a table becomes empty |
| Lockfiles.Table | package/src/lockfile.ts:41 | the table a list of JSON entries denotes has exactly the listed names, each with the value a property lookup finds, which is one of the listed pairs |
| Lockfiles.Lockfile.constructor | package/src/lockfile.ts:11 | a new lockfile holds no data |
| Lockfiles.Lockfile.GetVersion | package/src/lockfile.ts:13-18 | `getVersion(provider, name)` is the stored version when both levels are present, and undefined for an unknown provider or an unknown name |
| Lockfiles.Lockfile.SetVersion | package/src/lockfile.ts:20-25 | `setVersion` replaces the data by `Store` of the old data |
| Lockfiles.Lockfile.Delete | package/src/lockfile.ts:27-31 | `delete` replaces the data by `Remove` of the old data |
| Lockfiles.Lockfile.ReadFromFile | package/src/lockfile.ts:38-48 | when the schema (a record of records of strings, package/src/lockfile.ts:6) accepts the parsed value, the data is replaced wholesale by what that value denotes; otherwise the result is the fatal `Failed to read lockfile from <path>` error and the data is untouched |
| Lockfiles.VersionAfterStore | package/src/lockfile.ts:13-25 | `getVersion(p, n)` right after `setVersion(p, n, v)` is `v` |
| Lockfiles.StoreFrame | package/src/lockfile.ts:20-25 | `setVersion(p, n, v)` leaves the version of every other provider/name pair unchanged |
| Lockfiles.StoreTwice | package/src/lockfile.ts:20-25 | setting the same entry twice is the same as setting it once to the second version |
| Lockfiles.VersionAfterRemove | package/src/lockfile.ts:27-31 | after `delete(p, n)`, `getVersion(p, n)` is undefined and every other pair keeps its version |
| Lockfiles.RemoveAbsent | package/src/lockfile.ts:28 | deleting an absent entry changes nothing |
| Lockfiles.RemoveAfterStore | package/src/lockfile.ts:20-31 | setting a new entry and deleting it again leaves the data as it was, except that a provider that was new now has an empty table |
| Lockfiles.InnerVersion | package/src/lockfile.ts:6 | in a provider table accepted by the schema, a name maps to a version iff a property lookup of the name finds that string |
| Lockfiles.OuterVersion | package/src/lockfile.ts:6 | in data accepted by the schema, a provider is known iff a property lookup finds an object, and its versions are that object's |
| Lockfiles.ReadVersion | package/src/lockfile.ts:38-48 | after a successful read, `getVersion(p, n)` is `v` iff looking up `p` and then `n` in the parsed JSON gives the string `v` |
| Validation.OwnEntries | package/src/validation.ts:89 | `Object.entries` of an object is its own entries in order; of an array, one entry per element keyed by its index as a decimal string |
| Validation.Lookup | package/src/validation.ts:39 | a property read finds the value of an entry with that name, and is `undefined` when no entry has it |
| Validation.BoolV | package/src/validation.ts:7 | `bool()` accepts exactly the booleans |
| Validation.NumberV | package/src/validation.ts:8 | `number()` accepts exactly the numbers, NaN and the infinities included |
| Validation.StringV | package/src/validation.ts:9 | `string()` accepts exactly the strings |
| Validation.UnknownV | package/src/validation.ts:10 | `unknown()` accepts every value |
| Validation.Optional | package/src/validation.ts:12-14 | `optional(v)` accepts `o` iff `v(o)` or `o` is `undefined` |
| Validation.Nullable | package/src/validation.ts:15-17 | `nullable(v)` accepts `o` iff `v(o)` or `o` is `null` |
| Validation.SomeAccepts | package/src/validation.ts:21 | `some` is true iff at least one validator of the list accepts |
| Validation.Union | package/src/validation.ts:19-23 | `union(vs)` accepts iff some validator of `vs` accepts |
| Validation.Literal | package/src/validation.ts:25-27 | `literal(x)` accepts exactly the values strictly equal to `x`: the same primitive, never an object, and nothing at all for NaN |
| Validation.KeysAccept | package/src/validation.ts:37-45 | the early-exit loop over the schema's keys is true iff each declared key's validator accepts the target's property |
| Validation.ObjV | package/src/validation.ts:29-47 | `obj(schema)` rejects non-objects and `null`, and otherwise accepts iff each declared key's validator accepts `target[key]` (absent keys read as `undefined`) |
| Validation.Every | package/src/validation.ts:74 | `every` is true iff each element is accepted |
| Validation.ArrayV | package/src/validation.ts:69-76 | `array(v)` accepts iff the value is an array every element of which `v` accepts |
| Validation.EntriesAccept | package/src/validation.ts:89-95 | the early-exit loop over the entries is true iff every key passes the key validator and every value the value validator |
| Validation.Record | package/src/validation.ts:78-97 | `record(kv, vv)` accepts iff the value is a non-null object whose every own entry has its key accepted by `kv` and its value by `vv` |
| Validation.Parse | package/src/validation.ts:49-57 | `parse` returns its input unchanged iff the validator accepts, and otherwise fails with the message `Validation failed!` |
| Validation.ParseSafe | package/src/validation.ts:59-67 | `parseSafe` returns its input when valid and `null` otherwise |
| Validation.ParseSafeNull | package/src/validation.ts:59-67 | `parseSafe` returns `null` iff the input is rejected or is itself a valid `null` |
| Validation.EmptyUnionRejects | package/src/validation.ts:19-23 | the empty union rejects everything |
| Validation.LiteralNaNRejects | package/src/validation.ts:25-27 | `literal(NaN)` accepts nothing, since NaN is not strictly equal to itself |
| Validation.EmptyContainersAccepted | package/src/validation.ts:69-97 | `[]` passes every array validator, and `{}` and `[]` pass every record validator |
| Validation.ObjIgnoresUndeclared | package/src/validation.ts:37-43 | only declared keys are examined: adding an undeclared property does not change the verdict of `obj` |
| Validation.LookupAppendOther | package/src/validation.ts:39 | a property appended under another name does not change what a read finds |
| Validation.ObjAbsentIsUndefined | package/src/validation.ts:39 | an absent key reads as `undefined`, so `obj({k: optional(v)})` accepts `{}` |
| Validation.StringRecordExact | package/src/lockfile.ts:6 | `record(string(), string())` accepts exactly the objects whose own properties are all strings |
| Validation.LockfileSchemaExact | package/src/lockfile.ts:6 | the lockfile schema accepts exactly the objects whose every property is an object of strings |
| Validation.LockfileSchemaTruthy | package/src/lockfile.ts:41-45 | the value `parseSafe` returns with the lockfile schema is truthy iff the schema accepts, so `if (!data)` fires exactly on rejection |
| Strings.Split | package/sysdef-src/sysdef.ts:191 | `split(":")` yields at least one part and no part holds the separator; there is more than one part iff the separator occurs, and the input itself when it does not |
| Strings.JoinSplit | package/sysdef-src/sysdef.ts:191-204 | joining the parts of a split on the same separator gives back the input |
| Strings.SplitFirst | package/sysdef-src/sysdef.ts:202-204 | when the separator occurs, the input is the first part, the separator, and the remaining parts rejoined |
| PackageLists.ParseSpecMeaning | package/sysdef-src/sysdef.ts:190-213 | a spec without `:` is the name, with the lockfile's version or `_*_` when the lockfile has none; otherwise the name is the text before the first `:` and the version is the rest, colons included; the provider is the list's key |
| PackageLists.ParseSpecJoined | package/sysdef-src/sysdef.ts:190-213 | a colon-free name joined by `:` to any version parses back to exactly that name and version |
| PackageLists.VersionMatches | package/sysdef-src/sysdef.ts:237-244 | `versionMatches` is true iff the versions are equal or either one is `_*_` |
| PackageLists.CheckCons | package/sysdef-src/sysdef.ts:215-230 | one request of the loop: a clash with the recorded entry stops with the conflict message, otherwise the package is pushed and the request recorded |
| PackageLists.GetPackageList | package/sysdef-src/sysdef.ts:180-235 | the nested loops over modules, providers and specs, pushing into `allPackages` and recording into `seenVersions`, return exactly `PackageList`: the request scan in module, provider, spec order |
| PackageLists.CheckOk | package/sysdef-src/sysdef.ts:187-234 | on success the list holds exactly one package per spec string, in module, provider, spec order, duplicates not collapsed |
| PackageLists.RecordedKeepsFirst | package/sysdef-src/sysdef.ts:217-227 | only the first occurrence of a provider and name is recorded; later requests never replace it |
| PackageLists.CheckFails | package/sysdef-src/sysdef.ts:215-227 | `getPackageList` stops iff some request's provider and name were seen before with a version for which `versionMatches` holds (the check fires when versions match, as written) |
| PackageLists.DifferentVersionsPass | package/sysdef-src/sysdef.ts:219 | two requests for one package at distinct concrete versions are both returned |
| PackageLists.MatchingVersionsFail | package/sysdef-src/sysdef.ts:219-221 | two requests for one package at matching versions stop with `Requested two different versions for package …`, naming the first module and version |
| PackageLists.ForProviderStep | package/sysdef-src/index.ts:68-76 | one more package extends only its own provider's group, at the end |
| PackageLists.GroupByProvider | package/sysdef-src/index.ts:65-76 | the grouping loop maps a provider exactly when some package names it, to that provider's packages in list order |
| PackageLists.NoneForProvider | package/sysdef-src/index.ts:69-70 | a provider no package names has an empty group, so its first package starts a new one |
| PackageLists.ForProviderCounts | package/sysdef-src/index.ts:65-76 | each group holds each package of its provider as often as the list does, and no package of another provider |
| PackageSync.Names | package/sysdef-src/sysdef.ts:291 | `toUninstall.map(p => p.name)` has one name per package, in order |
| PackageSync.Classify | package/sysdef-src/sysdef.ts:260-268 | the first loop, through `has` and `hasAnyVersion` on the installed set, pushes exactly `NoChange` into `noChange` and exactly `ToInstall` into `toInstall` |
| PackageSync.Unrequested | package/sysdef-src/sysdef.ts:270-274 | the second loop, through `hasAnyVersion` on the requested set, pushes exactly `ToUninstall` |
| PackageSync.SyncTraceStep | package/sysdef-src/sysdef.ts:247-293 | the providers are handled one after another, each adding its own calls at the end |
| PackageSync.SyncPackages | package/sysdef-src/sysdef.ts:246-294 | for each provider in order, with its group (or nothing) as the request, the calls made are `install(toInstall)` and then, unless `noRemove`, `uninstall` of the names of `toUninstall` |
| PackageSync.Partition | package/sysdef-src/sysdef.ts:260-268 | every requested package is no-change or to-install, never both; no-change holds exactly the satisfied ones and to-install exactly the others; the two lengths add up to the request's |
| PackageSync.SatisfiedMeaning | package/sysdef-src/sysdef.ts:261-263 | for colon-free names, a request needs no change iff that exact package is installed, or its version is `_*_` and the provider has some version of that name installed (package/test/sysdef.test.ts:347-376) |
| PackageSync.UninstallMeaning | package/sysdef-src/sysdef.ts:270-274 | to-uninstall is exactly the installed packages whose provider and name are not requested at any version (package/test/sysdef.test.ts:319-345) |
| PackageSync.ProviderCallsShape | package/sysdef-src/sysdef.ts:289-292 | `install` is always called, first; `uninstall` is called after it exactly when `noRemove` is false; both go to that provider |
| PackageSync.CallsTargetProviders | package/sysdef-src/sysdef.ts:247-248 | every call goes to a loaded provider, so a group whose name has no provider is never installed |
| PackageSync.UnrequestedProvider | package/sysdef-src/sysdef.ts:248 | a provider with no group installs nothing and, unless `noRemove`, uninstalls every package it reports |
| PackageSync.NothingRequested | package/sysdef-src/sysdef.ts:270-274 | with nothing requested, every installed package is to be uninstalled |
| PackageSync.StoreAllSnoc | package/sysdef-src/sysdef.ts:299-301 | one more reported package is one more `setVersion` after the others |
| PackageSync.AllInstalledStep | package/sysdef-src/sysdef.ts:297-298 | the providers' reports are taken one provider after another |
| PackageSync.UpdateLockfile | package/sysdef-src/sysdef.ts:296-303 | the nested loops leave the lockfile as `setVersion` of every reported package in turn, provider by provider |
| PackageSync.LastReportWins | package/sysdef-src/sysdef.ts:296-303 | after `updateLockfile`, a package's version is the one of its last report; later reports overwrite earlier ones (package/test/sysdef.test.ts:379-398) |
| PackageSync.UnreportedKept | package/sysdef-src/sysdef.ts:296-303 | a package no provider reports keeps the version it had |
| PackageSync.ReportedRecorded | package/sysdef-src/sysdef.ts:296-303 | every reported package has a version in the lockfile afterwards |
| PackageSync.LastReport | package/sysdef-src/sysdef.ts:299-301 | each reported package has a last report with the same provider and name, no later one following it |
| FileSync.FileActions | package/sysdef-src/sysdef.ts:310-322 | one action per file entry, in declaration order: a link to the filled-in resolved dotfiles path for a string, a `writeFile` of the generator's output for a function, at the filled-in destination |
| FileSync.DirectoryActions | package/sysdef-src/sysdef.ts:324-331 | one link per directory entry, in declaration order, both paths filled in |
| FileSync.FileActionsSnoc | package/sysdef-src/sysdef.ts:310-322 | a further file entry adds exactly its own action at the end |
| FileSync.DirectoryActionsSnoc | package/sysdef-src/sysdef.ts:324-331 | a further directory entry adds exactly its own link at the end |
| FileSync.SyncTraceSnoc | package/sysdef-src/sysdef.ts:307-332 | a further module adds exactly its own actions at the end |
| FileSync.SyncTraceStep | package/sysdef-src/sysdef.ts:307-332 | the outer loop: the first `i + 1` modules' actions are the first `i` modules' followed by module `i`'s |
| FileSync.SyncFiles | package/sysdef-src/sysdef.ts:306-333 | the actions issued are, module by module, its files and then its directories in declaration order, all filled in from `baseStore.branchOff(module.variables)` |
| FileSync.TraceLength | package/sysdef-src/sysdef.ts:306-333 | exactly one action per file and per directory |
| FileSync.WritesAreGenerated | package/sysdef-src/sysdef.ts:312-321 | a module's action is a `writeFile` iff it comes from a generated file; linked files and all directories become links |
| FileSync.TraceAppend | package/sysdef-src/sysdef.ts:307 | the actions of a list of modules are those of its parts one after the other |
| FileSync.ModuleVariableWins | package/sysdef-src/sysdef.ts:308-311 | a module's own variable overrides the base store's: a destination `{k}` names the module's value |
| FileSync.FillInLeading | package/sysdef-src/sysdef.ts:33-68 | a path that starts with a placeholder and continues with plain text is the substitution followed by that text |
| FileSync.FillInHome | package/test/sysdef.test.ts:416-417 | with `home` set to `/home/user`, `{home}` followed by plain text gives `/home/user` followed by it |
| FileSync.HomeLink | package/test/sysdef.test.ts:428-438 | the linked file `{home}/.bashrc` becomes a link at `/home/user/.bashrc` |
| FileSync.HomeProfile | package/test/sysdef.test.ts:429-442 | the generated file `{home}/.profile` becomes a `writeFile` at `/home/user/.profile` with the generator's output for the module's store |
| FileSync.HomeDestinations | package/test/sysdef.test.ts:401-443 | the test module's two files: the link at `/home/user/.bashrc` first, then the generated `/home/user/.profile` |
| Records.Get | src/argparse.ts:281 | reading a record key finds a stored value exactly when some entry has the key, and then one of its entries |
| Records.Keys | src/argparse.ts:298 | the keys of a record, in order, one per entry |
| Records.GetPut | src/argparse.ts:44-51 | after `o[k] = v`, `o[k]` is `v` and every other key reads as before |
| Records.PutKeySet | src/argparse.ts:44-51 | `o[k] = v` adds `k` to the keys and no other key |
| Records.PutDistinct | src/argparse.ts:44-51 | assignment keeps every key at most once |
| CliParse.LastCharDiffers | src/argparse.ts:11 | text whose last character differs from a suffix's does not end with that suffix |
| CliParse.NotScript | src/argparse.ts:11 | an argument not ending in `s` is not a script: all of `.ts`, `.js`, `.mjs` and `.cjs` end in `s` |
| CliParse.TsScript | src/argparse.ts:11 | a name ending in `.ts` is a script |
| CliParse.FilterArgs | src/argparse.ts:7-27 | the result is always a suffix of the input; it is everything after the first `.ts`/`.js`/`.mjs`/`.cjs` argument when there is one; otherwise `args[i..]` for the first `i >= 1` where neither `args[i-1]` nor `args[i]` contains `/` and `args[i]` does not start with `-`; failing both, `args[2..]` (empty for fewer than two arguments) |
| CliParse.FilterArgsAfterScript | src/argparse.ts:9-14 | the arguments after the first script are returned |
| CliParse.FilterArgsExample | src/argparse.test.ts:179-182 | `bun --watch script.ts arg1 arg2` gives `arg1 arg2` |
| CliParse.FilterArgsSubcommand | src/argparse.test.ts:149-152 | without a script, a bare second word starts the result: `cmd subcommand arg1 arg2` keeps all but `cmd` |
| CliParse.FilterArgsPath | src/argparse.test.ts:169-172 | a path is not taken for the subcommand, nor the word after it: `node /path/to/script arg1` gives `arg1` |
| CliParse.SetCharsLoop | src/argparse.ts:50-52 | the loop over a bundle's characters sets each to `true`, in order |
| CliParse.ParseArgs | src/argparse.ts:29-59 | the index loop, skipping an option's value, computes exactly `ParseFrom` of all arguments from an empty result |
| CliParse.LongIsDash | src/argparse.ts:39-49 | an argument starting with `--` also starts with `-` |
| CliParse.PlainArgsArePositional | src/argparse.ts:53-55 | arguments that do not start with `-`, a lone `-` and `""` included, are appended to the positionals in input order (src/argparse.test.ts:95-111) |
| CliParse.PutValues | src/argparse.ts:44-51 | assigning a value with some property keeps that property true of all values |
| CliParse.SetCharsTrue | src/argparse.ts:50-52 | a bundle only writes `true` |
| CliParse.ParseShape | src/argparse.ts:36-56 | `parseArgs` only writes `true` into flags and only non-empty values not starting with `-` into options; positionals collected before are kept in front |
| CliParse.ParsedFlagsTrue | src/argparse.ts:29-59 | every flag of the result is `true` and every option value is a non-empty argument not starting with `-` |
| CliParse.SetCharsHit | src/argparse.ts:49-52 | after `-abc`, each of `a`, `b`, `c` is a flag set to `true` |
| CliParse.SetCharsMiss | src/argparse.ts:49-52 | a bundle touches no flag other than its characters |
| CliParse.SetCharsMeaning | src/argparse.ts:49-52 | after a bundle, a one-character key of the bundle reads `true` and every other key reads as before (src/argparse.test.ts:32-39) |
| CliParse.LongOption | src/argparse.ts:39-45 | `--name value` with a non-empty `value` not starting with `-` sets option `name` to `value` and consumes it |
| CliParse.LongFlag | src/argparse.ts:39-48 | `--name` at the end, or before an empty argument or one starting with `-`, sets flag `name` (src/argparse.test.ts:86-93) |
| CliParse.ShortBundle | src/argparse.ts:49-52 | `-abc` sets the flags of its characters and consumes one argument |
| CliParse.ParseStep | src/argparse.ts:36-56 | one iteration at index `i`: long option, long flag, short bundle or positional, exactly as the branches say |
| CliParse.BundleStep | src/argparse.ts:49-52 | a short bundle at index `i` sets its characters and moves to `i + 1` |
| CliParse.OptionStep | src/argparse.ts:43-45 | a long option at index `i` takes the next argument and moves to `i + 2` |
| CliParse.PositionalStep | src/argparse.ts:53-55 | a plain argument at index `i` is appended to the positionals |
| CliParse.MixedFront | src/argparse.test.ts:114 | `-vd --name john` sets `v`, `d` and the option `name` |
| CliParse.MixedBack | src/argparse.test.ts:114 | `input.txt --output result.txt extra` adds two positionals and the option `output` |
| CliParse.MixedTrace | src/argparse.test.ts:113-120 | the whole mixed example parses to flags `v`, `d`, options `name`, `output` and positionals `input.txt`, `extra` |
| CliParse.MixedExample | src/argparse.test.ts:113-120 | in the mixed example, `v` and `d` read `true`, `name` reads `john`, `output` reads `result.txt`, and the positionals are `input.txt`, `extra` |
| CliExecute.ScanNames | src/argparse.ts:280-293 | the alias loop of one declaration computes the scan `ScanAliases` specifies: stop at an alias given twice under different names or already used, else record the first given alias and its value and mark every given alias used |
| CliExecute.FirstUnused | src/argparse.ts:298-302 | no key is reported exactly when every given key was used; a reported key is a given key that no declaration used |
| CliExecute.PositionalAt | src/argparse.ts:346 | `args.positional[i]` is defined exactly below the length, and then it is that element |
| CliExecute.ValidateFlags | src/argparse.ts:272-296 | the flag loop computes `CheckFlags`: each declaration in order, writing whether it was given under its name |
| CliExecute.ValidateOptions | src/argparse.ts:304-334 | the option loop computes `CheckOptions`: each declaration in order, failing on a missing required option, writing the given value or undefined |
| CliExecute.FindUnused | src/argparse.ts:336-340 | the unknown-key loop returns `FirstUnused`, the first given key no declaration used |
| CliExecute.ValidatePositionals | src/argparse.ts:342-353 | the positional loop computes `CheckPositionals`: a missing required positional fails, every declaration receives the positional at its index |
| CliExecute.ExecuteArgs | src/argparse.ts:242-365 | `executeArgs` computes `Execute`: command `_default` when no positional, "not found" error, help before anything else, hand-over to a named subcommand, then flags, unknown flags, options, unknown options, positionals, surplus positionals, and the action call |
| CliExecute.GivenNamesCons | src/argparse.ts:280-281 | the given aliases of a list are those of its head and of its tail |
| CliExecute.ScanFailsIf | src/argparse.ts:282-290 | two given aliases of one declaration, or a given alias already used, make the scan fail |
| CliExecute.ScanFailsIfSkip | src/argparse.ts:280-281 | the same when the first alias was not given |
| CliExecute.ScanFailsIfTake | src/argparse.ts:282-291 | the same when the first alias was given and is taken |
| CliExecute.ScanFailsOnlyIf | src/argparse.ts:282-290 | the scan fails only when two aliases were given or a given alias was already used |
| CliExecute.ScanFailsOnlyIfSkip | src/argparse.ts:280-281 | the same when the first alias was not given |
| CliExecute.ScanFailsOnlyIfTake | src/argparse.ts:282-291 | the same when the first alias was given: then a second alias was given too |
| CliExecute.ScanFails | src/argparse.ts:280-293 | both directions: the scan fails if and only if two aliases of the declaration were given or a given alias was used by an earlier declaration |
| CliExecute.ScanResult | src/argparse.ts:285-291 | a passing scan finds a value exactly when some alias was given, the value is the one given for a listed alias, and the used set grows by exactly the given aliases |
| CliExecute.ScanMeaning | src/argparse.ts:275-293 | the whole meaning of one declaration's scan, error cases and result together |
| CliExecute.CheckFlagsStep | src/argparse.ts:275-296 | a passing flag phase passed the first declaration's scan and continues with the rest |
| CliExecute.CheckFlagsUsed | src/argparse.ts:288-291 | after a passing flag phase the used names are exactly the given aliases of the declared flags |
| CliExecute.CheckFlagsValues | src/argparse.ts:295 | each flag declaration (the last one of its name) maps to whether one of its aliases was given; undeclared names are untouched |
| CliExecute.CheckFlagsMeaning | src/argparse.ts:272-296 | the used names and the validated flags together, as above |
| CliExecute.CheckOptionsStep | src/argparse.ts:307-334 | a passing option phase passed the first declaration's scan and its required check, and continues with the rest |
| CliExecute.CheckOptionsRequired | src/argparse.ts:329-331 | after a passing option phase every required option has a given alias |
| CliExecute.CheckOptionsUsed | src/argparse.ts:322-325 | after a passing option phase the used names are exactly the given aliases of the declared options |
| CliExecute.CheckOptionsValues | src/argparse.ts:333 | each option declaration (the last one of its name) is undefined exactly when no alias was given, and otherwise holds the value given for one of its aliases |
| CliExecute.CheckOptionsMeaning | src/argparse.ts:304-334 | required, used names and values together, as above |
| CliExecute.CheckPositionalsMeaning | src/argparse.ts:344-353 | a passing positional phase had every required positional, and writes no name that is not declared |
| CliExecute.CheckPositionalsValues | src/argparse.ts:352 | each positional declaration (the last one of its name) receives the positional at its index, or undefined past the end |
| CliExecute.ValidateSteps | src/argparse.ts:272-364 | a command is invoked only after every phase passed, in order, with the phase results as the action's arguments |
| CliExecute.ValidatePassFlags | src/argparse.ts:272-302 | after a passing validation every given flag is true and an alias of a declared flag, and each declaration maps to whether it was given |
| CliExecute.ValidatePassOptions | src/argparse.ts:304-340 | after a passing validation every given option is a declared alias, every required option is given, and each declaration holds its given value |
| CliExecute.ValidatePassPositionals | src/argparse.ts:342-358 | after a passing validation there are no surplus positionals, every required one is there, and each declaration holds the positional at its index |
| CliExecute.ValidateOk | src/argparse.ts:272-364 | the full guarantee of a validated command invocation: all of the three rows above for the command that was chosen |
| CliExecute.ExecuteReachesValidate | src/argparse.ts:247-270 | an invocation happens only without the help flag, and is the validation of the invoked command against the parsed flags and options and the positionals left after the command names |
| CliExecute.FalseFlagRejected | src/argparse.ts:281 | a flag whose parsed value is `false` counts as not given, so it is reported as an unknown flag whatever the command declares |
| CliExecute.AliasClashExample | src/argparse.ts:282-283 | `--verbose` together with its alias `-v` is rejected |
| Commands.AddFlag | package/src/argparse.ts:396-401 | `FlagSet.flag` / `MixedSet.flag` return a new set with the flag appended and the options unchanged |
| Commands.AddOption | package/src/argparse.ts:411-416 | `OptionSet.option` / `MixedSet.option` return a new set with the option appended and the flags unchanged |
| Commands.ParseValue | package/src/argparse.ts:312-325 | a string is kept as given; a number fails exactly when `Number()` gives NaN, with the message `Invalid number: <text>`, and is otherwise that number; a boolean always succeeds |
| Commands.Find | package/src/argparse.ts:225-226 | `find` returns nothing exactly when no element matches, and otherwise the first match |
| Commands.Push | package/src/argparse.ts:288 | `result._.push(arg)` succeeds exactly when `_` still holds an array, and then appends the argument to it |
| Commands.MissingArgument | package/src/argparse.ts:296-300 | no name is reported exactly when every required argument has an index below the number of positionals read; a reported name is such a required argument |
| Commands.MissingOption | package/src/argparse.ts:303-307 | no name is reported exactly when every required option has a value; a reported name is a required option still undefined |
| Commands.Finish | package/src/argparse.ts:295-309 | the final checks pass exactly when every required argument was filled and every required option is defined, and then the result is returned unchanged |
| Commands.Assign | package/src/argparse.ts:236 | writing a parsed value goes on exactly when the value parsed, and otherwise stops with the parse error |
| Commands.LongStep | package/src/argparse.ts:216-247 | a `--` argument never hands over to a subcommand, and when the parse goes on it has consumed one or two arguments and left the positional count alone |
| Commands.ShortStep | package/src/argparse.ts:249-278 | the same for a `-` argument |
| Commands.PositionalStep | package/src/argparse.ts:280-290 | a positional argument consumes exactly one argument |
| Commands.StepAt | package/src/argparse.ts:205-292 | one loop iteration moves forward within the arguments, and a hand-over happens only at a registered subcommand name, with the arguments after it |
| Commands.Command.constructor | package/src/argparse.ts:60-72 | a new command has the given name and description and no declarations, subcommands or handler |
| Commands.Command.Description | package/src/argparse.ts:74-77 | sets the description in place, changes nothing else, and returns the receiver |
| Commands.Command.CopyWith | package/src/argparse.ts:87-100 | the copy the builders make: a fresh command with the same name, description, subcommands and handler and the given declarations |
| Commands.Command.Argument | package/src/argparse.ts:79-101 | returns a fresh command with the argument appended; the receiver is left as it was |
| Commands.Command.Flag | package/src/argparse.ts:103-125 | returns a fresh command with the flag appended; the receiver is left as it was |
| Commands.Command.Option | package/src/argparse.ts:127-149 | returns a fresh command with the option appended; the receiver is left as it was |
| Commands.Command.Use | package/src/argparse.ts:151-173 | returns a fresh command with the set's flags and options appended after its own |
| Commands.Command.Subcommand | package/src/argparse.ts:175-179 | registers a fresh bare command under the name (replacing an earlier one) and returns it; nothing else changes |
| Commands.Command.Action | package/src/argparse.ts:181-184 | sets the handler in place, changes nothing else, and returns the receiver |
| Commands.Command.LongArg | package/src/argparse.ts:216-247 | the long-argument branch computes `LongStep` |
| Commands.Command.ShortArg | package/src/argparse.ts:249-278 | the short-argument branch computes `ShortStep` |
| Commands.Command.PositionalArg | package/src/argparse.ts:280-290 | the positional branch computes `PositionalStep` |
| Commands.Command.Parse | package/src/argparse.ts:186-310 | `parse` computes `ParseSpec`: defaults first, then the argument loop, then the required checks |
| Commands.Command.Execute | package/src/argparse.ts:327-332 | `execute` fails with the parse error, or runs the receiver's own handler (if any) on the parse result |
| Commands.SeedFlagsKeep | package/src/argparse.ts:190-194 | a key that no defaulted flag names keeps its value |
| Commands.SeedFlagsLast | package/src/argparse.ts:190-194 | the last defaulted flag of a name decides that name's initial value |
| Commands.SeedOptionsKeep | package/src/argparse.ts:196-200 | a key that no defaulted option names keeps its value |
| Commands.SeedOptionsLast | package/src/argparse.ts:196-200 | the last defaulted option of a name decides that name's initial value |
| Commands.NoDefaults | package/src/argparse.ts:187-200 | declarations without defaults leave the initial result as it was |
| Commands.ParseNothing | package/src/argparse.ts:205-309 | on no arguments `parse` only runs the required checks on the defaults |
| Commands.SubcommandDelegates | package/src/argparse.ts:209-213 | a registered subcommand name hands every later argument to that subcommand's own parse, whatever was parsed before |
| Commands.PlainIsPositional | package/src/argparse.ts:216-249 | `-`, the empty string and anything not starting with `-` take the positional branch |
| Commands.PositionalFills | package/src/argparse.ts:281-286 | a plain argument that a declared string argument is waiting for is stored under that argument's name |
| Commands.PositionalFillsTo | package/src/argparse.ts:281-286 | the same, with the name and text given by the caller |
| Commands.Strs | package/src/argparse.ts:288 | the texts as string values, element by element |
| Commands.PlainPushes | package/src/argparse.ts:287-289 | a plain argument past the declared ones is appended to `_` |
| Commands.ExtrasInOrder | package/src/argparse.ts:287-292 | once every declared argument is filled, the remaining plain arguments end up in `_` in the order given |
| Commands.InvalidFlagFormat | package/src/argparse.ts:217-223 | `--` and `--=...` are rejected as an invalid flag format |
| Commands.LongSplit | package/src/argparse.ts:217-219 | `--name=text` splits into the name and the text before any further `=` |
| Commands.LongBare | package/src/argparse.ts:217-219 | `--name` splits into the name and no value |
| Commands.LongSwitch | package/src/argparse.ts:228-230 | a boolean or untyped flag given as `--name` becomes true |
| Commands.LongSwitchInline | package/src/argparse.ts:228-230 | a boolean or untyped flag given as `--name=text` is true exactly when the text before any further `=` (as `split('=', 2)` gives) lower-cases to `true` or is `1` |
| Commands.InlineOption | package/src/argparse.ts:238-243 | a string option given as `--name=text` takes only the text before any further `=` (`--o=a=b` gives `a`) |
| Commands.OptionStepValue | package/src/argparse.ts:238-243 | one loop iteration at `--name value` for a declared option stores the parsed value and moves two arguments on |
| Commands.OptionTakesValue | package/src/argparse.ts:238-243 | the parse after `--name value` continues from the argument after the value with the option set |
| Commands.OptionTakesNext | package/src/argparse.ts:238-243 | an option given as `--name` takes the next argument, parsed by its type; as the last argument it fails with `Option --name requires a value` |
| Commands.FlagTakesNext | package/src/argparse.ts:231-236 | a string or number flag given as `--name` takes the next argument; as the last argument it fails with `Flag --name requires a value` |
| Commands.UnknownLong | package/src/argparse.ts:244-246 | a long name that no flag or option declares fails with `Unknown flag/option: --name` |
| Commands.ShortWhole | package/src/argparse.ts:250-277 | `-name` is looked up as one short name (`-xy` is not `-x -y`), and an undeclared one fails with `Unknown flag/option: -name` |
| Commands.ShortSwitch | package/src/argparse.ts:259-261 | a boolean or untyped flag given as `-s` sets its long name to true |
| Commands.ShortOptionTakesNext | package/src/argparse.ts:269-274 | an option given as `-s` takes the next argument under its long name; as the last argument it fails with `Option -s requires a value` |
| Commands.BooleanText | package/src/argparse.ts:320-321 | four sample texts: `TRUE` and `1` are true, `yes` and `0` are false |
| Commands.BooleanRule | package/src/argparse.ts:320-321 | boolean text always parses, and is true exactly for `1` and for the four letters of `true` each in either letter case; everything else is false |
| Commands.BasicArgumentExample | package/test/argparse.test.ts:11-20 | a required string argument `file` on `input.txt` gives `file = input.txt` and an empty `_` |
| Commands.VerboseStep | package/test/argparse.test.ts:22-32 | the first step of the flags example sets `verbose` |
| Commands.DebugStep | package/test/argparse.test.ts:22-32 | the second step of the flags example sets `debug` |
| Commands.FlagsExample | package/test/argparse.test.ts:22-32 | `--verbose --debug` sets both flags to true |
| Commands.MissingArgumentExample | package/test/argparse.test.ts:60-65 | a missing required argument fails with `Missing required argument: required` |
| Commands.MissingOptionExample | package/test/argparse.test.ts:67-72 | a missing required option fails with `Missing required option: --required` |
| Commands.OutputStep | package/test/argparse.test.ts:34-44 | the first step of the options example stores `output` |
| Commands.CountStep | package/test/argparse.test.ts:34-44 | the second step of the options example stores the number 42 under `count` |
| Commands.OutputCountFinish | package/test/argparse.test.ts:34-44 | the required `output` is present at the end |
| Commands.OptionsExample | package/test/argparse.test.ts:34-44 | `--output result.txt --count 42` gives `output = result.txt` and `count = 42` |
| Commands.InputStep | package/test/argparse.test.ts:46-58 | the first step of the mixed example stores `input` |
| Commands.ShortVerboseStep | package/test/argparse.test.ts:46-58 | `-v` sets `verbose` |
| Commands.ShortOutputStep | package/test/argparse.test.ts:46-58 | `-o out.txt` stores `output` |
| Commands.MixedExample | package/test/argparse.test.ts:46-58 | `file.txt -v -o out.txt` gives `input`, `verbose` and `output` as the test expects |
| Commands.BuildParse | package/test/argparse.test.ts:74-83 | a parent whose subcommand `build` is bare parses `build production` to `_ = [production]` |
| Commands.SubcommandExample | package/test/argparse.test.ts:74-83 | built as in the test, the registered `build` stays bare because the builders copy, so `production` lands in `_` and the parent's absent handler is what runs |
| Strings.SplitTwo | package/src/argparse.ts:217-219 | `split('=', 2)`: the first part holds no separator, a second part exists exactly when the separator occurs, and it holds no separator either |
| Strings.SplitTwoAfter | package/src/argparse.ts:217-219 | on `a=b` with a separator-free `a`, the parts are `a` and the text of `b` before its next separator |
| Strings.LowerAscii | package/src/argparse.ts:321 | lower-casing keeps the length and maps each character on its own |
| Strings.JoinWith | src/argparse.ts:356-357 | joining a single part gives that part |
| Strings.JoinWithChar | src/argparse.ts:357 | on a one-character separator `JoinWith` agrees with `Join` on every non-empty list, so both describe one `join` |

## Left out

- Shell execution: `defaultShell` and `dryShell` spawn processes and stream their output. The model has no shell; provider calls are recorded, not run.
- Concrete filesystems and prompts: `package/sysdef-src/connections.ts` and `package/src/connections.ts` are real filesystem calls and y/N prompts. `syncFiles` is modelled as the trace of `ensureSymlink` and `writeFile` requests it issues; what a filesystem does with them is not modelled.
- Providers and loaders: the provider adapters parse tool output and run concurrently, and the loaders scan directories and import modules dynamically. A provider is modelled as its name and the installed list it reports.
- CLI wiring: the commander, environment and process plumbing of the two `index.ts` entry points. The same holds for the default argument `process.argv.slice(2)` of `parse` (package/src/argparse.ts:186) and the optional `args?` of `execute` (:327): the model always receives the argument list explicitly. Only the grouping loop by provider (package/sysdef-src/index.ts:65-76) is modelled.
- Lockfile I/O: `serializeToFile` and the `JSON.parse` inside `readFromFile`. `readFromFile` takes an already-parsed value.
- YAML configuration loading, stdin prompts, ANSI styling, `help()`/`generateHelp` and every `console.log`: presentation or foreign libraries.
- `Number()`: the float parsing of JavaScript is the parameter `number`, which yields NaN, ±Infinity or a finite value (as an exact real; double rounding is not modelled), so `Infinity` and `1e999` pass the `isNaN` test at package/src/argparse.ts:314-319 as in the source; the model reads nothing else from it.
- Strings.LowerAscii: models `toLowerCase` on the letters A to Z only; other letters are left as they are, with no Unicode case mapping.
- Strings are sequences of Unicode code points, which is also what `for (const char of …)` at src/argparse.ts:50 iterates. JavaScript's UTF-16 `length` and indexing differ for characters outside the Basic Multilingual Plane, and lone surrogates cannot occur in the model; neither is modelled. No normalisation or encoding is modelled either.
- JavaScript object semantics: prototype properties (`constructor`, `__proto__`) and the reordering of integer-like keys in objects are not modelled. Records keep plain insertion order.
- The recursive `executeArgs` for a subcommand (src/argparse.ts:268) is not awaited in the source. The model treats its outcome as the outcome of the call.
- The call of the command's action (src/argparse.ts:360-364) is modelled as an `Invoke` value carrying the command and its validated arguments; the action itself is not run. Help (src/argparse.ts:255-259) is a `ShowHelp` value; the help text is not modelled.
- `Command.execute` (package/src/argparse.ts:327-332) is modelled as the handler token and the parse result; the handler is not run.
- `onEverySync` hooks and the `runEvents` stub, and the stubs `syncPackages`/`syncFiles`/`runEvents` of src/sysdef.ts: no behaviour to model.
- `syncModules` is not part of this model: package/test/sysdef.test.ts calls it, but no shown source file defines it. The same holds for that test's two-argument `syncPackages` and synchronous `Filesystem`.
- Idempotence of a whole run (a second run with no change plans nothing) is not stated. In the model a provider's installed list is an input, so no second run follows from the first.
- The example modules, example workspaces and documentation site configuration are data only.
- Lockfiles.Lockfile.ReadFromFile: the failure's message `Failed to read lockfile from <path>` and its fatal effect are assumed. package/src/lockfile.ts:3 imports `errorOut` from `./argparse`, but package/src/argparse.ts exports no `errorOut`, so the call at package/src/lockfile.ts:44 names a function the shown source does not define. The model treats it as the `errorOut` of package/sysdef-src/sysdef.ts:6-10.
- CliExecute.ExecuteArgs: `args.positional.shift()` (src/argparse.ts:247) removes the command name from the caller's own `args` object, once at each level, including the recursive call at src/argparse.ts:268. The model passes `args` by value, so this mutation is not visible to the caller; only the shifted positionals that the validation sees are modelled.
- FileSync.SyncFiles: a generator is modelled as a function from the variables of the branched store to the content. A JavaScript generator receives the live store (package/sysdef-src/sysdef.ts:318) and could fail through `store.get` or add variables with `store.set`; neither effect is modelled.
