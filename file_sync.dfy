/** `syncFiles` of package/sysdef-src/sysdef.ts: each module's files and
    directories become filesystem actions, recorded as a trace. */
module FileSync {
  import opened Variables
  import opened SysModules

  /** A filesystem call. */
  datatype Action =
    | EnsureSymlink(destination: string, source: string)
    | WriteFile(destination: string, contents: string)

  /** The action for one file entry, under the module's variables. `resolve`
      stands for resolving a path inside the dotfiles directory. */
  function FileAction(vars: Vars, entry: (string, FileSource), resolve: string -> string): Action {
    var destination := FillInText(vars, entry.0);
    match entry.1
    case Link(path) => EnsureSymlink(destination, FillInText(vars, resolve(path)))
    case Generate(gen) => WriteFile(destination, gen(vars))
  }

  /** The action for one directory entry: always a link. */
  function DirectoryAction(vars: Vars, entry: (string, string), resolve: string -> string): Action {
    EnsureSymlink(FillInText(vars, entry.0), FillInText(vars, resolve(entry.1)))
  }

  function FileActions(vars: Vars, files: seq<(string, FileSource)>, resolve: string -> string): (r: seq<Action>)
    ensures |r| == |files|
    ensures forall i :: 0 <= i < |files| ==> r[i] == FileAction(vars, files[i], resolve)
  {
    seq(|files|, i requires 0 <= i < |files| => FileAction(vars, files[i], resolve))
  }

  function DirectoryActions(vars: Vars, directories: seq<(string, string)>, resolve: string -> string): (r: seq<Action>)
    ensures |r| == |directories|
    ensures forall i :: 0 <= i < |directories| ==> r[i] == DirectoryAction(vars, directories[i], resolve)
  {
    seq(|directories|, i requires 0 <= i < |directories| => DirectoryAction(vars, directories[i], resolve))
  }

  /** One module: files first, then directories, each in declaration order,
      all filled in from the base variables overridden by the module's. */
  function ModuleActions(base: Vars, m: Module, resolve: string -> string): seq<Action> {
    var vars := base + m.variables;
    FileActions(vars, m.files, resolve) + DirectoryActions(vars, m.directories, resolve)
  }

  /** Every action of `syncFiles`, module by module. */
  function SyncTrace(base: Vars, modules: seq<Module>, resolve: string -> string): seq<Action> {
    if modules == [] then []
    else SyncTrace(base, modules[..|modules| - 1], resolve) + ModuleActions(base, modules[|modules| - 1], resolve)
  }

  lemma SnocPrefix<T>(s: seq<T>, i: nat)
    requires i < |s|
    ensures s[..i + 1][..i] == s[..i] && s[..i + 1][i] == s[i]
  {
  }

  lemma FileActionsSnoc(vars: Vars, files: seq<(string, FileSource)>, j: nat, resolve: string -> string)
    requires j < |files|
    ensures FileActions(vars, files[..j + 1], resolve) == FileActions(vars, files[..j], resolve) + [FileAction(vars, files[j], resolve)]
  {
    SnocPrefix(files, j);
  }

  lemma DirectoryActionsSnoc(vars: Vars, directories: seq<(string, string)>, j: nat, resolve: string -> string)
    requires j < |directories|
    ensures DirectoryActions(vars, directories[..j + 1], resolve) == DirectoryActions(vars, directories[..j], resolve) + [DirectoryAction(vars, directories[j], resolve)]
  {
    SnocPrefix(directories, j);
  }

  lemma AppendAssoc<T>(x: seq<T>, y: seq<T>, z: seq<T>)
    ensures (x + y) + z == x + (y + z)
  {
  }

  lemma SyncTraceSnoc(base: Vars, modules: seq<Module>, m: Module, resolve: string -> string)
    ensures SyncTrace(base, modules + [m], resolve) == SyncTrace(base, modules, resolve) + ModuleActions(base, m, resolve)
  {
    var ms := modules + [m];
    assert ms[..|ms| - 1] == modules && ms[|ms| - 1] == m;
  }

  lemma SyncTraceStep(base: Vars, modules: seq<Module>, i: nat, resolve: string -> string)
    requires i < |modules|
    ensures SyncTrace(base, modules[..i + 1], resolve) == SyncTrace(base, modules[..i], resolve) + ModuleActions(base, modules[i], resolve)
  {
    SnocPrefix(modules, i);
  }

  /** `syncFiles(modules, baseStore, fs)` */
  method SyncFiles(modules: seq<Module>, baseStore: VariableStore, resolve: string -> string) returns (actions: seq<Action>)
    ensures actions == SyncTrace(baseStore.vars, modules, resolve)
  {
    actions := [];
    for i := 0 to |modules|
      invariant actions == SyncTrace(baseStore.vars, modules[..i], resolve)
    {
      var mod := modules[i];
      var store := baseStore.BranchOff(mod.variables);
      var moduleActions := [];

      for j := 0 to |mod.files|
        invariant store.vars == baseStore.vars + mod.variables
        invariant moduleActions == FileActions(store.vars, mod.files[..j], resolve)
      {
        var (path, file) := mod.files[j];
        FileActionsSnoc(store.vars, mod.files, j, resolve);
        var destination := store.FillIn(path);
        match file {
          case Link(source) =>
            var sourcePath := store.FillIn(resolve(source));
            moduleActions := moduleActions + [EnsureSymlink(destination, sourcePath)];
          case Generate(gen) =>
            var contents := gen(store.vars);
            moduleActions := moduleActions + [WriteFile(destination, contents)];
        }
      }
      assert mod.files[..|mod.files|] == mod.files;

      ghost var fileActions := moduleActions;
      for j := 0 to |mod.directories|
        invariant store.vars == baseStore.vars + mod.variables
        invariant moduleActions == fileActions + DirectoryActions(store.vars, mod.directories[..j], resolve)
      {
        var (path, directory) := mod.directories[j];
        DirectoryActionsSnoc(store.vars, mod.directories, j, resolve);
        AppendAssoc(fileActions, DirectoryActions(store.vars, mod.directories[..j], resolve), [DirectoryAction(store.vars, mod.directories[j], resolve)]);
        var destination := store.FillIn(path);
        var sourcePath := store.FillIn(resolve(directory));
        moduleActions := moduleActions + [EnsureSymlink(destination, sourcePath)];
      }
      assert mod.directories[..|mod.directories|] == mod.directories;

      assert moduleActions == ModuleActions(baseStore.vars, mod, resolve);
      SyncTraceStep(baseStore.vars, modules, i, resolve);
      actions := actions + moduleActions;
    }
    assert modules[..|modules|] == modules;
  }

  // ---------------------------------------------------------------------------
  // Properties of the trace

  /** One action per file and per directory. */
  lemma {:induction false} TraceLength(base: Vars, modules: seq<Module>, resolve: string -> string)
    ensures |SyncTrace(base, modules, resolve)| == EntryCount(modules)
  {
    if modules != [] {
      TraceLength(base, modules[..|modules| - 1], resolve);
    }
  }

  function EntryCount(modules: seq<Module>): nat {
    if modules == [] then 0
    else EntryCount(modules[..|modules| - 1]) + |modules[|modules| - 1].files| + |modules[|modules| - 1].directories|
  }

  /** Only directories and linked files become links: the number of
      `writeFile` calls of a module is its number of generated files. */
  lemma {:induction false} WritesAreGenerated(base: Vars, m: Module, resolve: string -> string, i: nat)
    requires i < |m.files| + |m.directories|
    ensures ModuleActions(base, m, resolve)[i].WriteFile? <==> i < |m.files| && m.files[i].1.Generate?
  {
  }

  /** The modules' actions come in module order: the trace of a list of
      modules is the traces of its parts, one after the other. */
  lemma {:induction false} TraceAppend(base: Vars, a: seq<Module>, b: seq<Module>, resolve: string -> string)
    ensures SyncTrace(base, a + b, resolve) == SyncTrace(base, a, resolve) + SyncTrace(base, b, resolve)
    decreases |b|
  {
    if b == [] {
      assert a + b == a;
    } else {
      var b', last := b[..|b| - 1], b[|b| - 1];
      assert b == b' + [last];
      assert a + b == (a + b') + [last];
      SyncTraceSnoc(base, a + b', last, resolve);
      SyncTraceSnoc(base, b', last, resolve);
      TraceAppend(base, a, b', resolve);
      AppendAssoc(SyncTrace(base, a, resolve), SyncTrace(base, b', resolve), ModuleActions(base, last, resolve));
    }
  }

  /** A module's own variables override the base store: a destination that
      is just `{k}` names the module's value for `k`. */
  lemma ModuleVariableWins(base: Vars, m: Module, resolve: string -> string, k: string)
    requires |m.files| > 0 && m.files[0].0 == "{" + k + "}" && Plain(k) && k in m.variables
    ensures ModuleActions(base, m, resolve)[0].destination == m.variables[k]
  {
    FillInPlaceholder(base + m.variables, k);
  }

  /** A destination that starts with a placeholder: the substitution, then
      the rest as it is. */
  lemma FillInLeading(vars: Vars, k: string, rest: string)
    requires Plain(k) && Plain(rest)
    ensures FillInText(vars, "{" + k + "}" + rest) == Substitution(vars, k) + rest
  {
    assert "{" + k + "}" + rest == ['{'] + (k + "}" + rest);
    RunCons(vars, '{', k + "}" + rest, Start);
    assert Step(vars, Start, '{') == Scan("", true, "");
    RunPlaceholder(vars, "", k, rest);
    assert "" + Substitution(vars, k) == Substitution(vars, k);
    RunPlainOutside(vars, rest, Scan(Substitution(vars, k), false, ""));
  }

  lemma FillInHome(vars: Vars, rest: string)
    requires "home" in vars && vars["home"] == "/home/user" && Plain(rest)
    ensures FillInText(vars, "{home}" + rest) == "/home/user" + rest
  {
    assert Plain("home");
    FillInLeading(vars, "home", rest);
    assert "{" + "home" + "}" == "{home}";
  }

  /** The test's linked file `{home}/.bashrc`, with `home` set in the base
      store and not in the module. */
  lemma HomeLink(base: Vars, m: Module, resolve: string -> string)
    requires "home" in base && base["home"] == "/home/user" && "home" !in m.variables
    requires |m.files| >= 1 && m.files[0].0 == "{home}/.bashrc" && m.files[0].1 == Link("bashrc")
    ensures ModuleActions(base, m, resolve)[0] == EnsureSymlink("/home/user/.bashrc", FillInText(base + m.variables, resolve("bashrc")))
  {
    var vars := base + m.variables;
    assert ModuleActions(base, m, resolve)[0] == FileAction(vars, m.files[0], resolve);
    assert Plain("/.bashrc");
    assert "{home}" + "/.bashrc" == "{home}/.bashrc" && "/home/user" + "/.bashrc" == "/home/user/.bashrc";
    FillInHome(vars, "/.bashrc");
  }

  /** The test's generated file `{home}/.profile`. */
  lemma HomeProfile(base: Vars, m: Module, resolve: string -> string)
    requires "home" in base && base["home"] == "/home/user" && "home" !in m.variables
    requires |m.files| >= 2 && m.files[1].0 == "{home}/.profile" && m.files[1].1.Generate?
    ensures ModuleActions(base, m, resolve)[1] == WriteFile("/home/user/.profile", m.files[1].1.gen(base + m.variables))
  {
    var vars := base + m.variables;
    assert ModuleActions(base, m, resolve)[1] == FileAction(vars, m.files[1], resolve);
    assert Plain("/.profile");
    assert "{home}" + "/.profile" == "{home}/.profile" && "/home/user" + "/.profile" == "/home/user/.profile";
    FillInHome(vars, "/.profile");
  }

  /** The test's module: `{home}/.bashrc` linked and `{home}/.profile`
      generated, with `home` set in the base store and not in the module. */
  lemma HomeDestinations(base: Vars, m: Module, resolve: string -> string)
    requires "home" in base && base["home"] == "/home/user" && "home" !in m.variables
    requires |m.files| == 2 && m.files[0].0 == "{home}/.bashrc" && m.files[0].1 == Link("bashrc")
    requires m.files[1].0 == "{home}/.profile" && m.files[1].1.Generate?
    ensures var actions := ModuleActions(base, m, resolve);
      actions[0] == EnsureSymlink("/home/user/.bashrc", FillInText(base + m.variables, resolve("bashrc")))
      && actions[1] == WriteFile("/home/user/.profile", m.files[1].1.gen(base + m.variables))
  {
    HomeLink(base, m, resolve);
    HomeProfile(base, m, resolve);
  }
}
