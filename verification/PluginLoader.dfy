/** Loading plugins in dependency order with reference counts (src/kernel/module_loader.cpp). */
module PluginLoader {
  import opened PluginOrder
  import opened Collections

  /** A shared object: whether dlopen and dlsym succeed, its `mod` symbol, and whether its
      init function succeeds (or is absent). */
  datatype Plugin = Plugin(opens: bool, name: string, depends: seq<string>, initOk: bool)

  datatype PluginInfo = PluginInfo(path: string, refCount: int)

  type Table = map<string, PluginInfo>

  /** `increase_ref` of a loaded plugin. */
  function Bump(t: Table, name: string): Table
    requires name in t
  {
    t[name := t[name].(refCount := t[name].refCount + 1)]
  }

  /** `resolve_dependencies`: counts references until a dependency is missing. */
  function Resolve(t: Table, depends: seq<string>): (Table, bool) {
    if depends == [] then (t, true)
    else if depends[0] !in t then (t, false)
    else Resolve(Bump(t, depends[0]), depends[1..])
  }

  /** `load_plugin`. */
  function Load(t: Table, path: string, p: Plugin): (Table, bool) {
    if !p.opens then (t, false)
    else if p.name in t then (Bump(t, p.name), true)
    else
      var (t', ok) := Resolve(t, p.depends);
      if !ok || !p.initOk then (t', false) else (t'[p.name := PluginInfo(path, 0)], true)
  }

  /** Loading the candidates in the given order, whether or not each load succeeds. */
  function LoadAll(t: Table, cs: seq<Candidate>, ps: seq<Plugin>, order: seq<nat>): Table
    requires |ps| == |cs| && Within(cs, order)
  {
    if order == [] then t
    else
      var u := order[|order| - 1];
      Load(LoadAll(t, cs, ps, order[..|order| - 1]), cs[u].path, ps[u]).0
  }

  class ModuleLoader {
    var loaded: Table

    method ResolveDependencies(depends: seq<string>) returns (ok: bool)
      modifies this
      ensures (loaded, ok) == Resolve(old(loaded), depends)
    {
      for i := 0 to |depends|
        invariant Resolve(loaded, depends[i..]) == Resolve(old(loaded), depends)
      {
        assert depends[i..][1..] == depends[i + 1..];
        if depends[i] !in loaded { return false; }
        loaded := Bump(loaded, depends[i]);
      }
      return true;
    }

    method LoadPlugin(path: string, p: Plugin) returns (ok: bool)
      modifies this
      ensures (loaded, ok) == Load(old(loaded), path, p)
    {
      if !p.opens { return false; }
      if p.name in loaded {
        loaded := Bump(loaded, p.name);
        return true;
      }
      var resolved := ResolveDependencies(p.depends);
      if !resolved || !p.initOk { return false; }
      loaded := loaded[p.name := PluginInfo(path, 0)];
      return true;
    }

    /** `load_plugins` after the scan. */
    method LoadPlugins(cs: seq<Candidate>, ps: seq<Plugin>) returns (rc: Rc, ghost order: seq<nat>)
      requires |ps| == |cs|
      modifies this
      ensures rc == Loop <==> HasCycle(cs)
      ensures rc == Loop ==> loaded == old(loaded)
      ensures rc == Ok ==> Sound(cs, order) && loaded == LoadAll(old(loaded), cs, ps, order)
      ensures rc == Ok ==> forall i :: 0 <= i < |cs| ==> (i in order <==> AllClean(cs, i))
    {
      hide HasCycle, AllClean, Load, ByPriority, Clean, Deps;
      var todo;
      rc, todo := TopoSort(cs);
      order := todo;
      if rc == Loop { return; }
      hide Sound;
      for k := 0 to |todo|
        invariant Within(cs, todo[..k]) && loaded == LoadAll(old(loaded), cs, ps, todo[..k])
      {
        var ok := LoadPlugin(cs[todo[k]].path, ps[todo[k]]);
        assert todo[..k + 1][..k] == todo[..k];
      }
      assert todo[..|todo|] == todo;
    }
  }

  // ---------- reference counts ----------

  /** How many of the candidates in `order` list `name` as a dependency. */
  function Dependents(cs: seq<Candidate>, order: seq<nat>, name: string): nat
    requires Within(cs, order)
  {
    if order == [] then 0
    else Dependents(cs, order[..|order| - 1], name) + (if name in cs[order[|order| - 1]].depends then 1 else 0)
  }

  /** The scan was honest, every plugin opens and initialises, names are distinct and every
      dependency is among the candidates. */
  ghost predicate Cooperative(cs: seq<Candidate>, ps: seq<Plugin>) {
    && |ps| == |cs|
    && (forall i :: 0 <= i < |cs| ==> ps[i] == Plugin(true, cs[i].name, cs[i].depends, true))
    && (forall i, j :: 0 <= i < j < |cs| ==> cs[i].name != cs[j].name)
    && (forall i, d :: 0 <= i < |cs| && d in cs[i].depends ==> d in Index(cs))
  }

  /** The table after loading `order`: exactly those plugins, each with one reference for
      every one of them that lists it. */
  ghost predicate Counted(t: Table, cs: seq<Candidate>, order: seq<nat>) {
    && Within(cs, order)
    && (forall i :: 0 <= i < |cs| ==> (cs[i].name in t <==> i in order))
    && (forall n :: n in t ==> n in Index(cs) && t[n].refCount == Dependents(cs, order, n))
  }

  /** Resolving distinct dependencies that are all loaded adds one reference to each. */
  lemma {:induction false} ResolveCounts(t: Table, depends: seq<string>)
    requires forall d :: d in depends ==> d in t
    requires forall k, l :: 0 <= k < l < |depends| ==> depends[k] != depends[l]
    ensures var (r, ok) := Resolve(t, depends);
            && ok && r.Keys == t.Keys
            && forall n :: n in t ==> r[n].path == t[n].path
                                      && r[n].refCount == t[n].refCount + (if n in depends then 1 else 0)
  {
    if depends != [] {
      var d, rest := depends[0], depends[1..];
      assert d !in rest;
      ResolveCounts(Bump(t, d), rest);
      assert forall n :: n in depends <==> n == d || n in rest;
    }
  }

  lemma CleanNames(cs: seq<Candidate>, ps: seq<Plugin>, u: nat)
    requires Cooperative(cs, ps) && u < |cs| && Clean(cs, u)
    ensures forall k, l :: 0 <= k < l < |cs[u].depends| ==> cs[u].depends[k] != cs[u].depends[l]
  {
    forall k, l | 0 <= k < l < |cs[u].depends|
      ensures cs[u].depends[k] != cs[u].depends[l]
    {
      assert cs[u].depends[k] in Index(cs);
    }
  }

  /** A listed name is the name of a candidate depended on. */
  lemma ListedIsDependency(cs: seq<Candidate>, u: nat, d: string)
    requires u < |cs| && d in cs[u].depends && d in Index(cs)
    ensures Index(cs)[d] < |cs| && cs[Index(cs)[d]].name == d && Index(cs)[d] in Deps(cs, u)
  {
    var k :| 0 <= k < |cs[u].depends| && cs[u].depends[k] == d;
    assert DependsOn(cs, u, Index(cs)[d]);
  }

  /** Whatever an emitted plugin lists was emitted before it. */
  lemma ListedBefore(cs: seq<Candidate>, ps: seq<Plugin>, order: seq<nat>, k: nat, n: string)
    requires Cooperative(cs, ps) && Sound(cs, order) && k < |order|
    requires order[k] < |cs| && n in cs[order[k]].depends
    ensures n in Index(cs) && Index(cs)[n] < |cs| && cs[Index(cs)[n]].name == n && Index(cs)[n] in order[..k]
  {
    hide Clean, ByPriority;
    ListedIsDependency(cs, order[k], n);
    assert Deps(cs, order[k]) <= Elems(order[..k]);
  }

  /** Nothing loaded before a plugin lists it. */
  lemma {:induction false} NoDependentsYet(cs: seq<Candidate>, ps: seq<Plugin>, order: seq<nat>, k: nat, u: nat)
    requires Cooperative(cs, ps) && Sound(cs, order) && k <= |order| && u < |cs| && u !in order[..k]
    ensures Within(cs, order[..k]) && Dependents(cs, order[..k], cs[u].name) == 0
  {
    hide Clean, Deps, ByPriority, Index;
    if k > 0 {
      var w, n := order[k - 1], cs[u].name;
      assert order[..k][..k - 1] == order[..k - 1];
      assert order[..k] == order[..k - 1] + [w];
      NoDependentsYet(cs, ps, order, k - 1, u);
      if n in cs[w].depends { ListedBefore(cs, ps, order, k - 1, n); }
    }
  }

  lemma DependentsStep(cs: seq<Candidate>, order: seq<nat>, u: nat, n: string)
    requires Within(cs, order) && u < |cs|
    ensures Within(cs, order + [u])
    ensures Dependents(cs, order + [u], n) == Dependents(cs, order, n) + (if n in cs[u].depends then 1 else 0)
  {
    assert (order + [u])[..|order|] == order;
  }

  lemma NameIndexed(cs: seq<Candidate>, i: nat)
    requires i < |cs|
    ensures cs[i].name in Index(cs)
  {
  }

  /** Adding a plugin whose dependencies are loaded and which no loaded one lists. */
  lemma {:induction false} OneMore(t: Table, cs: seq<Candidate>, ps: seq<Plugin>, order: seq<nat>, u: nat)
    requires Cooperative(cs, ps) && Counted(t, cs, order) && u < |cs| && u !in order
    requires forall d :: d in cs[u].depends ==> d in t && d != cs[u].name
    requires forall k, l :: 0 <= k < l < |cs[u].depends| ==> cs[u].depends[k] != cs[u].depends[l]
    requires Dependents(cs, order, cs[u].name) == 0
    ensures var (r, ok) := Load(t, cs[u].path, ps[u]);
            ok && Counted(r, cs, order + [u])
  {
    hide Resolve, Index, Dependents;
    var c := cs[u];
    ResolveCounts(t, c.depends);
    var r := Load(t, c.path, ps[u]).0;
    NameIndexed(cs, u);
    forall i | 0 <= i < |cs|
      ensures cs[i].name in r <==> i in order + [u]
    {
      if i != u { assert cs[i].name != c.name; }
    }
    forall n | n in r
      ensures n in Index(cs) && r[n].refCount == Dependents(cs, order + [u], n)
    {
      DependentsStep(cs, order, u, n);
    }
  }

  /** One load keeps the count. */
  lemma {:induction false} LoadCounts(t: Table, cs: seq<Candidate>, ps: seq<Plugin>, order: seq<nat>, k: nat)
    requires Cooperative(cs, ps) && Sound(cs, order) && k < |order| && Counted(t, cs, order[..k])
    ensures order[k] < |cs|
    ensures var (r, ok) := Load(t, cs[order[k]].path, ps[order[k]]);
            ok && Counted(r, cs, order[..k + 1])
  {
    hide Clean, Deps, Load, Index, ByPriority, Dependents;
    var u := order[k];
    assert order[..k + 1] == order[..k] + [u];
    assert u !in order[..k];
    CleanNames(cs, ps, u);
    forall d | d in cs[u].depends
      ensures d in t && d != cs[u].name
    {
      ListedBefore(cs, ps, order, k, d);
    }
    NoDependentsYet(cs, ps, order, k, u);
    OneMore(t, cs, ps, order[..k], u);
  }

  /** Loading a sound order from an empty table: every plugin in it is loaded, and its
      reference count is the number of loaded plugins that list it. */
  lemma {:induction false} LoadAllCounts(cs: seq<Candidate>, ps: seq<Plugin>, order: seq<nat>, k: nat)
    requires Cooperative(cs, ps) && Sound(cs, order) && k <= |order|
    ensures Within(cs, order[..k]) && Counted(LoadAll(map[], cs, ps, order[..k]), cs, order[..k])
  {
    if k > 0 {
      hide Cooperative, Sound, Counted, Load;
      LoadAllCounts(cs, ps, order, k - 1);
      assert order[..k][..k - 1] == order[..k - 1];
      LoadCounts(LoadAll(map[], cs, ps, order[..k - 1]), cs, ps, order, k - 1);
    }
  }

  /** With no dependency listed twice, the order is a permutation of the candidates. */
  lemma EveryoneOrdered(cs: seq<Candidate>, order: seq<nat>)
    requires Sound(cs, order)
    requires forall i :: 0 <= i < |cs| ==> (i in order <==> AllClean(cs, i))
    requires forall i :: 0 <= i < |cs| ==> Clean(cs, i)
    ensures |order| == |cs| && forall i :: 0 <= i < |cs| ==> i in order
  {
    hide ByPriority, Deps;
    forall i | 0 <= i < |cs| ensures i in order {
      assert AllClean(cs, i);
    }
    DistinctCard(order);
    assert Elems(order) == Range(|cs|);
  }

  /** Everything is then loaded from an empty table, and each plugin ends with one reference
      per plugin that lists it. */
  lemma EveryoneLoaded(cs: seq<Candidate>, ps: seq<Plugin>, order: seq<nat>)
    requires Cooperative(cs, ps) && Sound(cs, order) && forall i :: 0 <= i < |cs| ==> i in order
    ensures Within(cs, order)
    ensures var t := LoadAll(map[], cs, ps, order);
            forall i :: 0 <= i < |cs| ==> cs[i].name in t && t[cs[i].name].refCount == Dependents(cs, order, cs[i].name)
  {
    hide Sound, Cooperative, LoadAll, Dependents;
    LoadAllCounts(cs, ps, order, |order|);
    assert order[..|order|] == order;
  }

  /** What a failed load leaves behind: the table is unchanged exactly when it failed before
      finding a first dependency; otherwise references stay counted for a plugin that is not
      there. */
  lemma {:induction false} FailedLoadLeaks(t: Table, path: string, p: Plugin)
    requires !Load(t, path, p).1
    ensures Load(t, path, p).0 == t <==> !p.opens || p.depends == [] || p.depends[0] !in t
  {
    if p.opens && p.depends != [] && p.depends[0] in t {
      var d := p.depends[0];
      ResolveGrows(Bump(t, d), p.depends[1..]);
      var r := Load(t, path, p).0;
      assert r[d].refCount > t[d].refCount;
    }
  }

  lemma {:induction false} ResolveGrows(t: Table, depends: seq<string>)
    ensures var r := Resolve(t, depends).0;
            r.Keys == t.Keys && forall n :: n in t ==> r[n].refCount >= t[n].refCount
  {
    if depends != [] && depends[0] in t { ResolveGrows(Bump(t, depends[0]), depends[1..]); }
  }

  // ---------- loads that may fail ----------

  /** The names `resolve_dependencies` gets through: the list up to the first that is missing. */
  function Reached(present: set<string>, depends: seq<string>): (r: seq<string>)
    ensures r <= depends && (forall n :: n in r ==> n in present)
    ensures |r| < |depends| ==> depends[|r|] !in present
  {
    if depends == [] || depends[0] !in present then [] else [depends[0]] + Reached(present, depends[1..])
  }

  /** Resolving succeeds exactly when every listed name is loaded; it adds one reference per
      entry reached, whether it succeeds or not. */
  lemma {:induction false} ResolveIff(t: Table, depends: seq<string>)
    ensures var (r, ok) := Resolve(t, depends);
            && (ok <==> forall d :: d in depends ==> d in t)
            && r.Keys == t.Keys
            && forall n :: n in t ==> r[n].path == t[n].path
                                      && r[n].refCount == t[n].refCount + multiset(Reached(t.Keys, depends))[n]
  {
    if depends != [] && depends[0] in t {
      var d, rest := depends[0], depends[1..];
      ResolveIff(Bump(t, d), rest);
      assert Bump(t, d).Keys == t.Keys;
      assert forall e :: e in depends <==> e == d || e in rest;
    }
  }

  /** A load succeeds exactly when the object opens and the plugin is loaded already, or all it
      lists is and its init succeeds. */
  predicate Loadable(present: set<string>, p: Plugin) {
    p.opens && (p.name in present || ((forall d :: d in p.depends ==> d in present) && p.initOk))
  }

  /** References a load hands out: to a plugin loaded already, one for itself; otherwise one for
      each listed name reached, also when the load then fails. */
  function Credits(present: set<string>, p: Plugin): multiset<string> {
    if !p.opens then multiset{}
    else if p.name in present then multiset{p.name}
    else multiset(Reached(present, p.depends))
  }

  /** For every table and plugin: when a load succeeds, which name it adds, with its path and
      no references, and what it adds to the counts of the others; nothing else changes. */
  lemma LoadIff(t: Table, path: string, p: Plugin)
    ensures var (r, ok) := Load(t, path, p);
            && (ok <==> Loadable(t.Keys, p))
            && r.Keys == (if ok then t.Keys + {p.name} else t.Keys)
            && (ok && p.name !in t ==> r[p.name] == PluginInfo(path, 0))
            && forall n :: n in t ==> r[n].path == t[n].path
                                      && r[n].refCount == t[n].refCount + Credits(t.Keys, p)[n]
  {
    if p.opens && p.name !in t { ResolveIff(t, p.depends); }
  }

  /** The names present after loading the plugins of `order`, from the plugins alone. */
  function Present(start: set<string>, ps: seq<Plugin>, order: seq<nat>): set<string>
    requires forall k :: 0 <= k < |order| ==> order[k] < |ps|
  {
    if order == [] then start
    else
      var before, p := Present(start, ps, order[..|order| - 1]), ps[order[|order| - 1]];
      if Loadable(before, p) then before + {p.name} else before
  }

  /** The references handed out on the way. */
  function Credited(start: set<string>, ps: seq<Plugin>, order: seq<nat>): multiset<string>
    requires forall k :: 0 <= k < |order| ==> order[k] < |ps|
  {
    if order == [] then multiset{}
    else
      var rest := order[..|order| - 1];
      Credited(start, ps, rest) + Credits(Present(start, ps, rest), ps[order[|order| - 1]])
  }

  /** References go only to plugins that are there. */
  lemma {:induction false} CreditedPresent(start: set<string>, ps: seq<Plugin>, order: seq<nat>, n: string)
    requires forall k :: 0 <= k < |order| ==> order[k] < |ps|
    requires n !in Present(start, ps, order)
    ensures n !in Credited(start, ps, order)
  {
    if order != [] {
      CreditedPresent(start, ps, order[..|order| - 1], n);
    }
  }

  /** Loading any plugins in any order from any table, whichever loads fail: exactly the loadable
      ones are added, and every count is what it was plus the references handed out. */
  lemma {:induction false} LoadAllIff(t: Table, cs: seq<Candidate>, ps: seq<Plugin>, order: seq<nat>)
    requires |ps| == |cs| && Within(cs, order)
    ensures forall k :: 0 <= k < |order| ==> order[k] < |ps|
    ensures var r := LoadAll(t, cs, ps, order);
            && r.Keys == Present(t.Keys, ps, order)
            && forall n :: n in r ==>
                 r[n].refCount == (if n in t then t[n].refCount else 0) + Credited(t.Keys, ps, order)[n]
  {
    if order != [] {
      hide Load, Credits, Loadable;
      var rest, u := order[..|order| - 1], order[|order| - 1];
      var before := LoadAll(t, cs, ps, rest);
      LoadAllIff(t, cs, ps, rest);
      LoadIff(before, cs[u].path, ps[u]);
      var r := LoadAll(t, cs, ps, order);
      forall n | n in r
        ensures r[n].refCount == (if n in t then t[n].refCount else 0) + Credited(t.Keys, ps, order)[n]
      {
        if n !in before {
          CreditedPresent(t.Keys, ps, rest, n);
          assert n == ps[u].name;
          NewUncredited(before.Keys, ps[u]);
          StartPresent(t.Keys, ps, rest);
        }
      }
    }
  }

  lemma NewUncredited(present: set<string>, p: Plugin)
    requires p.name !in present
    ensures p.name !in Credits(present, p)
  {
  }

  lemma {:induction false} StartPresent(start: set<string>, ps: seq<Plugin>, order: seq<nat>)
    requires forall k :: 0 <= k < |order| ==> order[k] < |ps|
    ensures start <= Present(start, ps, order)
  {
    if order != [] { StartPresent(start, ps, order[..|order| - 1]); }
  }

  /** The scan was honest and names are distinct; anything may fail to open or initialise, or
      list names that are nowhere to be found. */
  ghost predicate Honest(cs: seq<Candidate>, ps: seq<Plugin>) {
    && |ps| == |cs|
    && (forall i :: 0 <= i < |cs| ==> ps[i].name == cs[i].name && ps[i].depends == cs[i].depends)
    && (forall i, j :: 0 <= i < j < |cs| ==> cs[i].name != cs[j].name)
  }

  /** The names present after the first `k` loads of a sound order: those of plugins in it that
      open, initialise, and list nothing that is not present. */
  ghost predicate Settled(cs: seq<Candidate>, ps: seq<Plugin>, done: seq<nat>, present: set<string>)
    requires |ps| == |cs|
  {
    && (forall n :: n in present ==> exists i :: 0 <= i < |cs| && i in done && cs[i].name == n)
    && (forall i :: 0 <= i < |cs| && i in done ==>
          (cs[i].name in present <==>
             ps[i].opens && ps[i].initOk && forall d :: d in cs[i].depends ==> d in present))
  }

  lemma {:induction false} LoadSettles(cs: seq<Candidate>, ps: seq<Plugin>, order: seq<nat>, k: nat, present: set<string>)
    requires Honest(cs, ps) && Sound(cs, order) && k < |order| && order[k] < |cs| && Settled(cs, ps, order[..k], present)
    ensures Settled(cs, ps, order[..k + 1], if Loadable(present, ps[order[k]]) then present + {cs[order[k]].name} else present)
  {
    hide Clean, Deps, ByPriority, Index;
    var u := order[k];
    var after := if Loadable(present, ps[u]) then present + {cs[u].name} else present;
    assert order[..k + 1] == order[..k] + [u] && u !in order[..k];
    assert cs[u].name !in present;
    forall i | 0 <= i < |cs| && i in order[..k + 1] && cs[u].name in cs[i].depends ensures false {
      NotListedYet(cs, order, k, i);
    }
  }

  /** Nobody loaded so far lists the next one. */
  lemma NotListedYet(cs: seq<Candidate>, order: seq<nat>, k: nat, i: nat)
    requires Sound(cs, order) && k < |order| && order[k] < |cs| && i < |cs| && i in order[..k + 1]
    requires forall i, j :: 0 <= i < j < |cs| ==> cs[i].name != cs[j].name
    ensures cs[order[k]].name !in cs[i].depends
  {
    hide Clean, ByPriority;
    var n := cs[order[k]].name;
    if n in cs[i].depends {
      NameIndexed(cs, order[k]);
      ListedIsDependency(cs, i, n);
      assert false;
    }
  }

  /** In the order the sort makes, from an empty table: a plugin ends up loaded exactly when it
      opens, its init succeeds, and everything it lists is loaded. */
  lemma {:induction false} LoadedIff(cs: seq<Candidate>, ps: seq<Plugin>, order: seq<nat>, k: nat)
    requires Honest(cs, ps) && Sound(cs, order) && k <= |order|
    ensures Within(cs, order[..k]) && Settled(cs, ps, order[..k], LoadAll(map[], cs, ps, order[..k]).Keys)
  {
    if k > 0 {
      hide Honest, Sound, Settled, Load, Loadable;
      LoadedIff(cs, ps, order, k - 1);
      assert order[..k][..k - 1] == order[..k - 1];
      var before, u := LoadAll(map[], cs, ps, order[..k - 1]), order[k - 1];
      HonestAt(cs, ps, order, k - 1);
      LoadIff(before, cs[u].path, ps[u]);
      LoadSettles(cs, ps, order, k - 1, before.Keys);
    }
  }

  ghost predicate OwnPaths(cs: seq<Candidate>, t: Table) {
    forall i :: 0 <= i < |cs| && cs[i].name in t ==> t[cs[i].name].path == cs[i].path
  }

  lemma LoadKeepsPaths(cs: seq<Candidate>, ps: seq<Plugin>, t: Table, u: nat)
    requires Honest(cs, ps) && u < |cs| && OwnPaths(cs, t)
    ensures OwnPaths(cs, Load(t, cs[u].path, ps[u]).0)
  {
    hide Load, Loadable, Credits;
    LoadIff(t, cs[u].path, ps[u]);
  }

  /** Each under its own path. */
  lemma {:induction false} LoadedPaths(cs: seq<Candidate>, ps: seq<Plugin>, order: seq<nat>)
    requires Honest(cs, ps) && Within(cs, order)
    ensures OwnPaths(cs, LoadAll(map[], cs, ps, order))
  {
    hide OwnPaths, Load;
    if order == [] {
      NoPaths(cs);
    } else {
      LoadedPaths(cs, ps, order[..|order| - 1]);
      LoadKeepsPaths(cs, ps, LoadAll(map[], cs, ps, order[..|order| - 1]), order[|order| - 1]);
    }
  }

  lemma NoPaths(cs: seq<Candidate>)
    ensures OwnPaths(cs, map[])
  {
  }

  lemma HonestAt(cs: seq<Candidate>, ps: seq<Plugin>, order: seq<nat>, k: nat)
    requires Honest(cs, ps) && Sound(cs, order) && k < |order|
    ensures |ps| == |cs| && order[k] < |cs| && Within(cs, order[..k + 1]) && ps[order[k]].name == cs[order[k]].name
  {
    hide Clean, Deps, ByPriority;
  }

  /** A dependency listed twice keeps an otherwise fine plugin from ever being loaded. */
  lemma RepeatNeverLoaded()
    ensures var a := Candidate("a.so", "a", 1000, []);
            var b := Candidate("b.so", "b", 1000, ["a", "a"]);
            !AllClean([a, b], 1) && !HasCycle([a, b])
  {
    var cs := [Candidate("a.so", "a", 1000, []), Candidate("b.so", "b", 1000, ["a", "a"])];
    assert cs[1].depends[0] == "a" && cs[1].depends[1] == "a";
    assert LastIndex(cs, 0) == map[];
    assert LastIndex(cs, 1) == map["a" := 0];
    assert LastIndex(cs, 2) == map["a" := 0, "b" := 1];
    assert !Clean(cs, 1);
    assert IndexPath(cs, [1]);
    var done := ["a", "b"];
    assert Succ(cs, "a") == [] && Succ(cs, "b") == ["a", "a"];
    forall i, d | 0 <= i < |done| && d in Succ(cs, done[i])
      ensures d in done[..i]
    {
      assert i == 1 && d == "a";
      assert done[..1] == ["a"];
    }
    FinishedAcyclic(cs, done);
  }
}
