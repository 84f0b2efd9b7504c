/**
 * The option, search-path and freshness logic of `import_module`.
 *
 * The interpreter's module cache (`sys.modules`) maps a module name to an entry
 * holding its `__file__`, its cached `__mtime__` and how many times its code has
 * run. Executing module code, `eval(pythonpath)` and `os.stat` are inputs: the
 * outcome of a first import, whether a reload fails, the evaluated path list,
 * and the modification time of every existing file.
 */
module Loader {
  import opened PyString
  import opened Config

  /** A cache entry; an absent `__mtime__` and a `None` one are read alike. */
  datatype Entry = Entry(file: Option<string>, mtime: Option<int>, runs: nat)

  /** Running a module's code for its first import: it fails, or it defines `__file__` or not. */
  datatype Exec = ExecFails | Executed(file: Option<string>)

  /**
   * What import_module hands back: the module of that name, the import error
   * re-raised (debug), or SERVER_RETURN with HTTP_INTERNAL_SERVER_ERROR.
   */
  datatype Load = Loaded(name: string) | ReRaised | ServerError

  datatype LoaderState = LoaderState(path: seq<string>, modules: map<string, Entry>)

  datatype Imported = Imported(state: LoaderState, load: Load)

  /** Python 2 `a < b` where None is below every int. */
  predicate PyLess(a: Option<int>, b: Option<int>) {
    match (a, b)
    case (None, Some(_)) => true
    case (Some(x), Some(y)) => x < y
    case (_, None) => false
  }

  /** Python 2 `max(a, b)` for an int b, where None is below every int. */
  function PyMax(a: Option<int>, b: int): int {
    if a.Some? && a.value > b then a.value else b
  }

  /** The stat time of an existing file, None for a missing one. */
  function StatOf(stats: map<string, int>, p: string): Option<int> {
    if p in stats then Some(stats[p]) else None
  }

  /** The mtime the loader observes: `__file__`, then the newer of it and `__file__[:-1]`. */
  function Observed(file: Option<string>, stats: map<string, int>): Option<int> {
    if file.None? then None
    else
      var m := StatOf(stats, file.value);
      var source := DropLast(file.value);
      if source in stats then Some(PyMax(m, stats[source])) else m
  }

  /** `sys.path[:0] = ['.']` unless '.' is already there. */
  function WithDot(path: seq<string>): seq<string> {
    if "." in path then path else ["."] + path
  }

  function SearchPath(path: seq<string>, o: Options, evaluated: seq<string>): seq<string> {
    if o.pythonpath != "" then evaluated else WithDot(path)
  }

  function QualifiedName(rootpkg: string, name: string): string {
    if rootpkg != "" then rootpkg + "." + name else name
  }

  /** The error import_module raises for a failed import or reload. */
  function ImportError(o: Options): Load {
    if o.debug then ReRaised else ServerError
  }

  /** Whether the module is reloaded: autoreload and the cached mtime below the observed one. */
  predicate Reloads(o: Options, before: Option<int>, now: Option<int>) {
    o.autoreload && PyLess(before, now)
  }

  /** The cached mtime read before the stat, None when autoreload is off or the module is new. */
  function CachedMtime(st: LoaderState, o: Options, q: string): Option<int> {
    if o.autoreload && q in st.modules then st.modules[q].mtime else None
  }

  /** The entry for `q` once imported: the cached one, or a fresh one that has run once. */
  function EntryFor(st: LoaderState, q: string, first: Exec): Entry
    requires q in st.modules || first.Executed?
  {
    if q in st.modules then st.modules[q] else Entry(first.file, None, 1)
  }

  function WatchedMtime(o: Options, e: Entry, stats: map<string, int>): Option<int> {
    if o.autoreload then Observed(e.file, stats) else None
  }

  /** import_module as a function of the interpreter state and the foreign results. */
  function ImportSpec(st: LoaderState, name: string, opt: map<string, string>, evaluated: seq<string>,
                      first: Exec, reloadFails: bool, stats: map<string, int>): Imported
  {
    var o := ParseOptions(opt);
    var q := QualifiedName(o.rootpkg, name);
    var failed := Imported(LoaderState(SearchPath(st.path, o, evaluated), st.modules), ImportError(o));
    if q !in st.modules && first.ExecFails? then failed
    else
      var e := EntryFor(st, q, first);
      var now := WatchedMtime(o, e, stats);
      var reload := Reloads(o, CachedMtime(st, o, q), now);
      if reload && reloadFails then
        // the module the import found stays in sys.modules, without a new mtime
        Imported(LoaderState(SearchPath(st.path, o, evaluated), st.modules[q := e]), ImportError(o))
      else
        var e' := e.(mtime := now, runs := e.runs + if reload then 1 else 0);
        Imported(LoaderState(SearchPath(st.path, o, evaluated), st.modules[q := e']), Loaded(q))
  }

  /** `rootpkg` prefixes the module name; without it the name is used as given. */
  lemma RootPackagePrefix(st: LoaderState, name: string, opt: map<string, string>, evaluated: seq<string>,
                          first: Exec, reloadFails: bool, stats: map<string, int>)
    ensures var r := ImportSpec(st, name, opt, evaluated, first, reloadFails, stats);
      r.load.Loaded? ==>
        r.load.name == (if "rootpkg" in opt && opt["rootpkg"] != "" then opt["rootpkg"] + "." + name else name)
  {
    OptionsMeaning(opt);
  }

  /** '.' is on the new path, put in front only when it was missing; a second insertion changes nothing. */
  lemma DotInsertedOnce(path: seq<string>)
    ensures "." in WithDot(path)
    ensures WithDot(path) == path || ("." !in path && WithDot(path) == ["."] + path)
    ensures WithDot(WithDot(path)) == WithDot(path)
  {
  }

  /** Without pythonpath the search path gets '.'; with it, the evaluated list replaces the path. */
  lemma SearchPathChoice(st: LoaderState, name: string, opt: map<string, string>, evaluated: seq<string>,
                         first: Exec, reloadFails: bool, stats: map<string, int>)
    ensures var r := ImportSpec(st, name, opt, evaluated, first, reloadFails, stats);
      r.state.path == (if "pythonpath" in opt && opt["pythonpath"] != "" then evaluated else WithDot(st.path))
  {
    OptionsMeaning(opt);
  }

  /**
   * The observed mtime is the newest stat time of the two candidate files, with
   * a missing file below any time; it is None only when neither exists.
   */
  lemma ObservedIsNewest(f: string, stats: map<string, int>)
    ensures var m := Observed(Some(f), stats);
      m.None? <==> f !in stats && DropLast(f) !in stats
    ensures var m := Observed(Some(f), stats);
      f in stats ==> m.Some? && stats[f] <= m.value
    ensures var m := Observed(Some(f), stats);
      DropLast(f) in stats ==> m.Some? && stats[DropLast(f)] <= m.value
    ensures var m := Observed(Some(f), stats);
      m.Some? ==> (f in stats && m.value == stats[f]) || (DropLast(f) in stats && m.value == stats[DropLast(f)])
  {
  }

  /** A module without `__file__` is never seen to change. */
  lemma NoFileNoMtime(stats: map<string, int>)
    ensures Observed(None, stats) == None
  {
  }

  /** Python 2's ordering with None lowest: None is below every time and nothing is below None. */
  lemma PyLessNone(a: Option<int>, t: int)
    ensures PyLess(None, Some(t))
    ensures !PyLess(a, None)
    ensures PyLess(a, Some(t)) <==> a.None? || a.value < t
  {
  }

  /**
   * On success, the module's code ran once more than before (once more than the
   * first run, for a new module) exactly when autoreload is on and the cached
   * mtime, None for a new module, is below the observed one; the cache then holds
   * the observed mtime, or None when autoreload is off.
   */
  lemma ReloadDecision(st: LoaderState, name: string, opt: map<string, string>, evaluated: seq<string>,
                       first: Exec, reloadFails: bool, stats: map<string, int>)
    ensures var r := ImportSpec(st, name, opt, evaluated, first, reloadFails, stats);
      var o := ParseOptions(opt);
      var q := QualifiedName(o.rootpkg, name);
      r.load.Loaded? ==>
        q in st.modules || first.Executed?
    ensures var r := ImportSpec(st, name, opt, evaluated, first, reloadFails, stats);
      var o := ParseOptions(opt);
      var q := QualifiedName(o.rootpkg, name);
      r.load.Loaded? ==>
        (q in r.state.modules
         && r.state.modules[q].file == (if q in st.modules then st.modules[q].file else first.file))
    ensures var r := ImportSpec(st, name, opt, evaluated, first, reloadFails, stats);
      var o := ParseOptions(opt);
      var q := QualifiedName(o.rootpkg, name);
      var base := if q in st.modules then st.modules[q].runs else 1;
      r.load.Loaded? ==>
        (q in r.state.modules
         && (r.state.modules[q].runs == base || r.state.modules[q].runs == base + 1)
         && (r.state.modules[q].runs == base + 1
             <==> o.autoreload && PyLess(CachedMtime(st, o, q), Observed(r.state.modules[q].file, stats))))
    ensures var r := ImportSpec(st, name, opt, evaluated, first, reloadFails, stats);
      var o := ParseOptions(opt);
      var q := QualifiedName(o.rootpkg, name);
      r.load.Loaded? ==>
        (q in r.state.modules
         && r.state.modules[q].mtime == (if o.autoreload then Observed(r.state.modules[q].file, stats) else None))
  {
  }

  /**
   * The first import under autoreload is followed by a reload as soon as a file
   * is there to stat, because the absent mtime is below any time.
   */
  lemma FirstImportReloads(st: LoaderState, name: string, opt: map<string, string>, evaluated: seq<string>,
                           f: string, stats: map<string, int>)
    requires ParseOptions(opt).autoreload
    requires QualifiedName(ParseOptions(opt).rootpkg, name) !in st.modules
    requires f in stats || DropLast(f) in stats
    ensures var r := ImportSpec(st, name, opt, evaluated, Executed(Some(f)), false, stats);
      r.load.Loaded? && r.state.modules[r.load.name].runs == 2
  {
    ObservedIsNewest(f, stats);
  }

  /**
   * A failed first import or a failed reload raises. A failed first import or a
   * failed reload of a cached module leaves the cache as it was; a failed reload
   * right after a first import leaves the freshly imported module cached, with
   * no mtime and one run.
   */
  lemma ImportFailure(st: LoaderState, name: string, opt: map<string, string>, evaluated: seq<string>,
                      first: Exec, reloadFails: bool, stats: map<string, int>)
    ensures var r := ImportSpec(st, name, opt, evaluated, first, reloadFails, stats);
      var q := QualifiedName(ParseOptions(opt).rootpkg, name);
      !r.load.Loaded? && (q in st.modules || first.ExecFails?) ==> r.state.modules == st.modules
    ensures var r := ImportSpec(st, name, opt, evaluated, first, reloadFails, stats);
      var q := QualifiedName(ParseOptions(opt).rootpkg, name);
      !r.load.Loaded? && q !in st.modules && first.Executed? ==>
        reloadFails && ParseOptions(opt).autoreload
        && r.state.modules == st.modules[q := Entry(first.file, None, 1)]
    ensures var r := ImportSpec(st, name, opt, evaluated, first, reloadFails, stats);
      !r.load.Loaded? ==> (r.load == ReRaised <==> "debug" in opt && opt["debug"] != "")
    ensures var r := ImportSpec(st, name, opt, evaluated, first, reloadFails, stats);
      var q := QualifiedName(ParseOptions(opt).rootpkg, name);
      q !in st.modules && first == ExecFails ==> !r.load.Loaded?
    ensures var r := ImportSpec(st, name, opt, evaluated, first, reloadFails, stats);
      (!reloadFails && (QualifiedName(ParseOptions(opt).rootpkg, name) in st.modules || first.Executed?))
        ==> r.load.Loaded?
  {
    OptionsMeaning(opt);
  }

  /**
   * A first import whose reload fails still leaves the module cached, so the
   * next import takes it from the cache, without running its first import
   * again, and reloads it.
   */
  lemma FailedReloadKeepsModule(st: LoaderState, name: string, opt: map<string, string>, evaluated: seq<string>,
                                f: string, stats: map<string, int>, again: Exec)
    requires ParseOptions(opt).autoreload
    requires QualifiedName(ParseOptions(opt).rootpkg, name) !in st.modules
    requires f in stats || DropLast(f) in stats
    ensures var q := QualifiedName(ParseOptions(opt).rootpkg, name);
      var one := ImportSpec(st, name, opt, evaluated, Executed(Some(f)), true, stats);
      !one.load.Loaded? && q in one.state.modules && one.state.modules[q] == Entry(Some(f), None, 1)
    ensures var q := QualifiedName(ParseOptions(opt).rootpkg, name);
      var one := ImportSpec(st, name, opt, evaluated, Executed(Some(f)), true, stats);
      var two := ImportSpec(one.state, name, opt, evaluated, again, false, stats);
      two.load == Loaded(q) && two.state.modules[q].runs == 2
  {
    ObservedIsNewest(f, stats);
  }

  /** The entry of any other module already in the cache is left as it was. */
  lemma OtherModulesUnchanged(st: LoaderState, name: string, opt: map<string, string>, evaluated: seq<string>,
                              first: Exec, reloadFails: bool, stats: map<string, int>, other: string)
    requires other != QualifiedName(ParseOptions(opt).rootpkg, name)
    ensures var r := ImportSpec(st, name, opt, evaluated, first, reloadFails, stats);
      other in st.modules ==> other in r.state.modules && r.state.modules[other] == st.modules[other]
  {
  }

  /**
   * Importing again with the files unchanged does not reload: the cache already
   * holds the observed mtime.
   */
  lemma ReloadSettles(st: LoaderState, name: string, opt: map<string, string>, evaluated: seq<string>,
                      first: Exec, reloadFails: bool, stats: map<string, int>, again: Exec)
    requires ImportSpec(st, name, opt, evaluated, first, reloadFails, stats).load.Loaded?
    ensures var one := ImportSpec(st, name, opt, evaluated, first, reloadFails, stats);
      var two := ImportSpec(one.state, name, opt, evaluated, again, true, stats);
      two.load == one.load && two.state.modules == one.state.modules
  {
    var o := ParseOptions(opt);
    var q := QualifiedName(o.rootpkg, name);
    var one := ImportSpec(st, name, opt, evaluated, first, reloadFails, stats);
    var e := one.state.modules[q];
    assert e.mtime == WatchedMtime(o, e, stats);
    assert !PyLess(e.mtime, e.mtime);
  }

  /** The interpreter's import machinery, as far as import_module uses it. */
  class Interpreter {
    var path: seq<string>                // sys.path
    var modules: map<string, Entry>     // sys.modules

    function State(): LoaderState
      reads this
    {
      LoaderState(path, modules)
    }

    constructor (path: seq<string>)
      ensures State() == LoaderState(path, map[])
    {
      this.path := path;
      modules := map[];
    }

    /** The search-path step: the evaluated pythonpath, or '.' in front when missing. */
    method SetSearchPath(o: Options, evaluated: seq<string>)
      modifies this`path
      ensures path == SearchPath(old(path), o, evaluated)
    {
      if o.pythonpath != "" {
        path := evaluated;
      } else if "." !in path {
        path := ["."] + path;
      }
    }

    /** The modification time of a module, from its `__file__` and the stat results. */
    static method StatMtime(file: Option<string>, stats: map<string, int>) returns (now: Option<int>)
      ensures now == Observed(file, stats)
      ensures now.Some? ==> file.Some? && (file.value in stats || DropLast(file.value) in stats)
    {
      now := None;
      if file.Some? {
        var f := file.value;
        if f in stats {
          now := Some(stats[f]);
        }
        if DropLast(f) in stats {
          now := Some(PyMax(now, stats[DropLast(f)]));
        }
      }
    }

    method ImportModule(name: string, opt: map<string, string>, evaluated: seq<string>,
                        first: Exec, reloadFails: bool, stats: map<string, int>) returns (r: Load)
      modifies this
      ensures Imported(State(), r) == ImportSpec(old(State()), name, opt, evaluated, first, reloadFails, stats)
    {
      var o := ParseOptions(opt);
      SetSearchPath(o, evaluated);
      var q := name;
      if o.rootpkg != "" {
        q := o.rootpkg + "." + name;
      }
      var before: Option<int> := None;
      var now: Option<int> := None;
      var e: Entry;
      if q in modules {
        e := modules[q];
        if o.autoreload {
          before := e.mtime;
        }
      } else if first.ExecFails? {
        r := ImportError(o);
        return;
      } else {
        e := Entry(first.file, None, 1);
      }
      if o.autoreload {
        now := StatMtime(e.file, stats);
      }
      if o.autoreload && PyLess(before, now) {
        if reloadFails {
          modules := modules[q := e];
          r := ImportError(o);
          return;
        }
        e := e.(runs := e.runs + 1);
      }
      modules := modules[q := e.(mtime := now)];
      r := Loaded(q);
    }
  }
}
