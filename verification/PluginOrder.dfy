/** Load order of plugins (src/kernel/module_loader.cpp): cycle detection by depth-first
    search, then Kahn's algorithm with a heap on load_priority. */
module PluginOrder {
  import opened Collections

  /** A plugin found by the directory scan. */
  datatype Candidate = Candidate(path: string, name: string, loadPriority: nat, depends: seq<string>)

  datatype Rc = Ok | Loop

  // ---------- the dependency graph ----------

  /** Where `idx` sends a name: the last candidate of that name among the first `n`. */
  function LastIndex(cs: seq<Candidate>, n: nat): (idx: map<string, nat>)
    requires n <= |cs|
    ensures forall d :: d in idx ==> idx[d] < n && cs[idx[d]].name == d
    ensures forall i :: 0 <= i < n ==> cs[i].name in idx && i <= idx[cs[i].name]
  {
    if n == 0 then map[] else LastIndex(cs, n - 1)[cs[n - 1].name := n - 1]
  }

  function Index(cs: seq<Candidate>): map<string, nat> { LastIndex(cs, |cs|) }

  /** The names a name depends on; a name outside the scan has none. */
  function Succ(cs: seq<Candidate>, name: string): seq<string> {
    if name in Index(cs) then cs[Index(cs)[name]].depends else []
  }

  ghost predicate IsPath(cs: seq<Candidate>, p: seq<string>) {
    forall k :: 0 <= k < |p| - 1 ==> p[k + 1] in Succ(cs, p[k])
  }

  /** A path that returns to where it started. */
  ghost predicate IsCycle(cs: seq<Candidate>, p: seq<string>) {
    |p| >= 2 && p[0] == p[|p| - 1] && IsPath(cs, p)
  }

  ghost predicate HasCycle(cs: seq<Candidate>) { exists p :: IsCycle(cs, p) }

  /** Every name mentioned. */
  function Names(cs: seq<Candidate>): set<string> {
    set i, d | 0 <= i < |cs| && d in [cs[i].name] + cs[i].depends :: d
  }

  function ToSet(s: seq<string>): set<string> { set x | x in s }

  /** Names listed so that each comes after everything it depends on. */
  ghost predicate Finished(cs: seq<Candidate>, done: seq<string>) {
    forall i, d :: 0 <= i < |done| && d in Succ(cs, done[i]) ==> d in done[..i]
  }

  lemma SuccInNames(cs: seq<Candidate>, name: string)
    ensures forall d :: d in Succ(cs, name) ==> d in Names(cs)
  {
    if name in Index(cs) {
      var i := Index(cs)[name];
      forall d | d in Succ(cs, name)
        ensures d in Names(cs)
      {
        assert d in [cs[i].name] + cs[i].depends;
      }
    }
  }

  /** `detect_cycle`.  `path` is the search stack in order and `done` the order in which
      names were finished. */
  method DetectCycle(cs: seq<Candidate>, idx: map<string, nat>, name: string,
                     visited: set<string>, stack: set<string>, ghost path: seq<string>, ghost done: seq<string>)
    returns (cycle: bool, visited': set<string>, stack': set<string>, ghost done': seq<string>)
    requires idx == Index(cs) && name in Names(cs)
    requires ToSet(path) == stack <= Names(cs) && IsPath(cs, path + [name])
    requires ToSet(done) == visited && visited !! stack && Finished(cs, done)
    ensures cycle ==> HasCycle(cs)
    ensures !cycle ==> stack' == stack && ToSet(done') == visited' && visited' !! stack
                       && done <= done' && Finished(cs, done') && visited + {name} <= visited'
    decreases |Names(cs) - stack|
  {
    hide IsPath, Finished, HasCycle, Names, ToSet;
    visited', stack', done' := visited, stack, done;
    if name in stack {
      ToSetHas(path, name);
      ClosesCycle(cs, path, name);
      return true, visited', stack', done';
    }
    if name in visited { return false, visited', stack', done'; }
    stack' := stack' + {name};
    if name in idx {
      var depends := cs[idx[name]].depends;
      SuccInNames(cs, name);
      ToSetAppend(path, name);
      SmallerSet(Names(cs) - stack', Names(cs) - stack);
      for k := 0 to |depends|
        invariant stack' == stack + {name} && ToSet(done') == visited' && visited' !! stack'
        invariant done <= done' && Finished(cs, done') && visited <= visited'
        invariant forall i :: 0 <= i < k ==> depends[i] in visited'
      {
        ExtendPath(cs, path + [name], depends[k]);
        cycle, visited', stack', done' := DetectCycle(cs, idx, depends[k], visited', stack', path + [name], done');
        if cycle { return; }
      }
    }
    stack' := stack' - {name};
    visited' := visited' + {name};
    forall d | d in Succ(cs, name)
      ensures d in done'
    {
      ToSetHas(done', d);
    }
    FinishOne(cs, done', name);
    ToSetAppend(done', name);
    done' := done' + [name];
    cycle := false;
  }

  lemma ToSetAppend(s: seq<string>, x: string)
    ensures ToSet(s + [x]) == ToSet(s) + {x}
  {
  }

  lemma ToSetHas(s: seq<string>, x: string)
    ensures x in ToSet(s) <==> x in s
  {
  }

  lemma SmallerSet<T>(a: set<T>, b: set<T>)
    requires a < b
    ensures |a| < |b|
  {
    var rest := b - a;
    assert b == a + rest && a !! rest && rest != {};
  }

  /** A name already on the search stack closes a cycle. */
  lemma ClosesCycle(cs: seq<Candidate>, path: seq<string>, name: string)
    requires name in path && IsPath(cs, path + [name])
    ensures HasCycle(cs)
  {
    var k :| 0 <= k < |path| && path[k] == name;
    var q := path + [name];
    var p := q[k..];
    forall i | 0 <= i < |p| - 1
      ensures p[i + 1] in Succ(cs, p[i])
    {
      assert q[k + i + 1] in Succ(cs, q[k + i]);
    }
    assert IsCycle(cs, p);
  }

  lemma ExtendPath(cs: seq<Candidate>, p: seq<string>, d: string)
    requires |p| > 0 && IsPath(cs, p) && d in Succ(cs, p[|p| - 1])
    ensures IsPath(cs, p + [d])
  {
    var q := p + [d];
    forall k | 0 <= k < |q| - 1
      ensures q[k + 1] in Succ(cs, q[k])
    {
      if k < |p| - 1 { assert p[k + 1] in Succ(cs, p[k]); }
    }
  }

  lemma FinishOne(cs: seq<Candidate>, done: seq<string>, name: string)
    requires Finished(cs, done) && forall d :: d in Succ(cs, name) ==> d in done
    ensures Finished(cs, done + [name])
  {
    var q := done + [name];
    forall i, d | 0 <= i < |q| && d in Succ(cs, q[i])
      ensures d in q[..i]
    {
      if i < |done| {
        assert d in done[..i];
        assert q[..i] == done[..i];
      } else {
        assert q[..i] == done;
      }
    }
  }

  /** Where a finished name was listed first. */
  function Position(done: seq<string>, name: string): (i: nat)
    ensures i <= |done|
    ensures name in done <==> i < |done|
    ensures i < |done| ==> done[i] == name
    ensures forall k :: 0 <= k < i ==> done[k] != name
  {
    if done == [] then 0 else if done[0] == name then 0 else 1 + Position(done[1..], name)
  }

  /** When every candidate is finished there is no cycle. */
  lemma FinishedAcyclic(cs: seq<Candidate>, done: seq<string>)
    requires Finished(cs, done) && forall i :: 0 <= i < |cs| ==> cs[i].name in done
    ensures !HasCycle(cs)
  {
    if p :| IsCycle(cs, p) {
      assert p[1] in Succ(cs, p[0]);
      assert p[0] in Index(cs);
      PathDrops(cs, done, p, |p| - 1);
    }
  }

  lemma {:induction false} PathDrops(cs: seq<Candidate>, done: seq<string>, p: seq<string>, k: nat)
    requires Finished(cs, done) && IsPath(cs, p) && 1 <= k < |p| && p[0] in done
    ensures p[k] in done && Position(done, p[k]) < Position(done, p[0])
  {
    if k > 1 { PathDrops(cs, done, p, k - 1); }
    assert p[k] in Succ(cs, p[k - 1]);
    var i := Position(done, p[k - 1]);
    assert p[k] in done[..i];
  }

  // ---------- Kahn's algorithm ----------

  /** Candidate `i` depends on candidate `j`. */
  predicate DependsOn(cs: seq<Candidate>, i: nat, j: nat)
    requires i < |cs|
  {
    exists k :: 0 <= k < |cs[i].depends| && cs[i].depends[k] in Index(cs) && Index(cs)[cs[i].depends[k]] == j
  }

  /** The candidates that `i` depends on. */
  function Deps(cs: seq<Candidate>, i: nat): set<nat>
    requires i < |cs|
  {
    set j | 0 <= j < |cs| && DependsOn(cs, i, j)
  }

  /** How often the first `n` entries of a dependency list name a candidate, counting repeats. */
  function InScope(idx: map<string, nat>, depends: seq<string>, n: nat): (c: nat)
    requires n <= |depends|
    ensures c <= n
  {
    if n == 0 then 0 else InScope(idx, depends, n - 1) + (if depends[n - 1] in idx then 1 else 0)
  }

  /** The initial in-degree. */
  function Degree(cs: seq<Candidate>, i: nat): nat
    requires i < |cs|
  {
    InScope(Index(cs), cs[i].depends, |cs[i].depends|)
  }

  /** No candidate is named twice among the first `n` entries. */
  ghost predicate NoRepeat(idx: map<string, nat>, depends: seq<string>, n: nat)
    requires n <= |depends|
  {
    forall k, l :: 0 <= k < l < n && depends[k] in idx ==> depends[k] != depends[l]
  }

  /** No dependency on a candidate is listed twice. */
  ghost predicate Clean(cs: seq<Candidate>, i: nat)
    requires i < |cs|
  {
    NoRepeat(Index(cs), cs[i].depends, |cs[i].depends|)
  }

  /** The candidates named in the first `n` entries. */
  function Named(idx: map<string, nat>, depends: seq<string>, n: nat): set<nat>
    requires n <= |depends|
  {
    set k | 0 <= k < n && depends[k] in idx :: idx[depends[k]]
  }

  lemma NamedStep(idx: map<string, nat>, depends: seq<string>, n: nat)
    requires 0 < n <= |depends|
    requires forall a, b :: a in idx && b in idx && idx[a] == idx[b] ==> a == b
    ensures var d := depends[n - 1];
            && Named(idx, depends, n) == Named(idx, depends, n - 1) + (if d in idx then {idx[d]} else {})
            && (d in idx ==> (idx[d] in Named(idx, depends, n - 1) <==> d in depends[..n - 1]))
            && (NoRepeat(idx, depends, n) <==>
                NoRepeat(idx, depends, n - 1) && !(d in idx && d in depends[..n - 1]))
  {
    var d := depends[n - 1];
    if d in idx && d in depends[..n - 1] {
      var k :| 0 <= k < n - 1 && depends[k] == d;
      assert idx[d] == idx[depends[k]];
    }
  }

  lemma {:induction false} NamedCount(idx: map<string, nat>, depends: seq<string>, n: nat)
    requires n <= |depends|
    requires forall a, b :: a in idx && b in idx && idx[a] == idx[b] ==> a == b
    ensures |Named(idx, depends, n)| <= InScope(idx, depends, n)
    ensures |Named(idx, depends, n)| == InScope(idx, depends, n) <==> NoRepeat(idx, depends, n)
  {
    if n == 0 {
      assert Named(idx, depends, 0) == {};
    } else {
      NamedStep(idx, depends, n);
      hide Named, NoRepeat;
      NamedCount(idx, depends, n - 1);
      var prev, d := Named(idx, depends, n - 1), depends[n - 1];
      if d in idx { OneMore(prev, idx[d]); }
    }
  }

  lemma OneMore(s: set<nat>, x: nat)
    ensures |s + {x}| == |s| + if x in s then 0 else 1
  {
    if x in s { assert s + {x} == s; }
  }

  /** The in-degree counts each candidate depended on at least once, and exactly once when
      the list names none twice. */
  lemma DegreeBounds(cs: seq<Candidate>, i: nat)
    requires i < |cs|
    ensures |Deps(cs, i)| <= Degree(cs, i)
    ensures |Deps(cs, i)| == Degree(cs, i) <==> Clean(cs, i)
  {
    var ds, idx := cs[i].depends, Index(cs);
    NamedCount(idx, ds, |ds|);
    forall j
      ensures j in Deps(cs, i) <==> j in Named(idx, ds, |ds|)
    {
      if j in Named(idx, ds, |ds|) {
        var k :| 0 <= k < |ds| && ds[k] in idx && idx[ds[k]] == j;
        assert DependsOn(cs, i, j);
      }
    }
    assert Deps(cs, i) == Named(idx, ds, |ds|);
  }

  function Elems(s: seq<nat>): set<nat> { set x | x in s }

  ghost predicate Distinct(s: seq<nat>) { forall i, j :: 0 <= i < j < |s| ==> s[i] != s[j] }

  /** The in-degree left once `order` has been emitted. */
  ghost function Left(cs: seq<Candidate>, i: nat, order: seq<nat>): int
    requires i < |cs|
  {
    Degree(cs, i) - |Deps(cs, i) * Elems(order)|
  }

  /** Candidates that could be loaded next: not loaded, dependencies loaded, and none listed
      twice. */
  ghost predicate ReadyAfter(cs: seq<Candidate>, i: nat, order: seq<nat>) {
    i < |cs| && i !in order && Clean(cs, i) && Deps(cs, i) <= Elems(order)
  }

  /** Each pick had the least load_priority among the candidates ready at that time. */
  ghost predicate ByPriority(cs: seq<Candidate>, order: seq<nat>) {
    forall k, j: nat :: 0 <= k < |order| && order[k] < |cs| && ReadyAfter(cs, j, order[..k]) ==>
      cs[order[k]].loadPriority <= cs[j].loadPriority
  }

  /** In-degree zero means ready. */
  lemma ZeroIsReady(cs: seq<Candidate>, i: nat, order: seq<nat>)
    requires i < |cs|
    ensures Left(cs, i, order) >= 0
    ensures Left(cs, i, order) == 0 <==> Clean(cs, i) && Deps(cs, i) <= Elems(order)
  {
    DegreeBounds(cs, i);
    var d, e := Deps(cs, i), Deps(cs, i) * Elems(order);
    if e != d {
      assert e < d;
      SmallerSet(e, d);
    }
  }

  lemma LeftStep(cs: seq<Candidate>, i: nat, order: seq<nat>, u: nat)
    requires i < |cs| && u < |cs| && u !in order
    ensures Left(cs, i, order + [u]) == Left(cs, i, order) - (if DependsOn(cs, i, u) then 1 else 0)
  {
    var d, e := Deps(cs, i), Elems(order);
    assert Elems(order + [u]) == e + {u};
    assert u in d <==> DependsOn(cs, i, u);
    if u in d {
      assert d * (e + {u}) == d * e + {u};
    } else {
      assert d * (e + {u}) == d * e;
    }
  }

  lemma LeftStart(cs: seq<Candidate>, i: nat)
    requires i < |cs|
    ensures Left(cs, i, []) == Degree(cs, i)
  {
    assert Deps(cs, i) * Elems([]) == {};
  }

  /** Emitted candidates are distinct, each after everything it depends on and by priority. */
  ghost predicate Sound(cs: seq<Candidate>, order: seq<nat>) {
    && Within(cs, order) && Distinct(order)
    && (forall k :: 0 <= k < |order| ==> Clean(cs, order[k]) && Deps(cs, order[k]) <= Elems(order[..k]))
    && ByPriority(cs, order)
  }

  /** The heap holds the candidates not emitted whose in-degree is zero. */
  ghost predicate HeapIs(cs: seq<Candidate>, indeg: seq<int>, pq: seq<nat>, order: seq<nat>) {
    && |indeg| == |cs| && Within(cs, pq) && Distinct(pq)
    && forall i :: 0 <= i < |cs| ==> (i in pq <==> i !in order && indeg[i] == 0)
  }

  /** What the loop of `topo_sort` keeps: in-degrees below `m` account for all of `order`,
      those from `m` up not yet for its last element. */
  ghost predicate Counts(cs: seq<Candidate>, indeg: seq<int>, before: seq<nat>, after: seq<nat>, m: nat) {
    && |indeg| == |cs|
    && (forall i :: 0 <= i < |cs| && i < m ==> indeg[i] == Left(cs, i, after))
    && (forall i :: m <= i < |cs| ==> indeg[i] == Left(cs, i, before))
  }

  /** Popping a least element of the heap extends the order soundly. */
  lemma PopIsSound(cs: seq<Candidate>, indeg: seq<int>, pq: seq<nat>, order: seq<nat>, k: nat)
    requires Sound(cs, order) && HeapIs(cs, indeg, pq, order) && Counts(cs, indeg, order, order, 0)
    requires Least(cs, pq, k)
    ensures Sound(cs, order + [pq[k]])
    ensures HeapIs(cs, indeg, pq[..k] + pq[k + 1..], order + [pq[k]])
    ensures pq[k] !in order
  {
    hide Clean, Deps, Left, ReadyAfter, Sound;
    var u := pq[k];
    assert u in pq && indeg[u] == 0;
    ZeroIsReady(cs, u, order);
    forall i: nat | ReadyAfter(cs, i, order)
      ensures i < |cs| && cs[u].loadPriority <= cs[i].loadPriority
    {
      ReadyWithin(cs, i, order);
      ReadyIsInHeap(cs, indeg, pq, order, i);
      var x :| 0 <= x < |pq| && pq[x] == i;
    }
    AppendSound(cs, order, u);
  }

  lemma ReadyIsInHeap(cs: seq<Candidate>, indeg: seq<int>, pq: seq<nat>, order: seq<nat>, i: nat)
    requires HeapIs(cs, indeg, pq, order) && Counts(cs, indeg, order, order, 0) && ReadyAfter(cs, i, order)
    ensures i in pq
  {
    hide Clean, Deps, Left;
    ZeroIsReady(cs, i, order);
  }

  lemma AppendSound(cs: seq<Candidate>, order: seq<nat>, u: nat)
    requires Sound(cs, order) && u < |cs| && u !in order && Clean(cs, u) && Deps(cs, u) <= Elems(order)
    requires forall i: nat :: ReadyAfter(cs, i, order) ==> i < |cs| && cs[u].loadPriority <= cs[i].loadPriority
    ensures Sound(cs, order + [u])
  {
    hide Clean, Deps, ReadyAfter, Elems;
    var order' := order + [u];
    assert order'[..|order|] == order;
    forall j | 0 <= j < |order'|
      ensures Clean(cs, order'[j]) && Deps(cs, order'[j]) <= Elems(order'[..j])
    {
      if j < |order| { assert order'[..j] == order[..j]; }
    }
    forall j, i: nat | 0 <= j < |order'| && order'[j] < |cs| && ReadyAfter(cs, i, order'[..j])
      ensures i < |cs| && cs[order'[j]].loadPriority <= cs[i].loadPriority
    {
      ReadyWithin(cs, i, order'[..j]);
      if j < |order| { assert order'[..j] == order[..j]; }
    }
  }

  lemma ReadyWithin(cs: seq<Candidate>, i: nat, order: seq<nat>)
    requires ReadyAfter(cs, i, order)
    ensures i < |cs|
  {
  }

  /** Nothing emitted depends on the candidate emitted last. */
  lemma NotAnother(cs: seq<Candidate>, before: seq<nat>, u: nat, i: nat)
    requires Sound(cs, before + [u]) && i < |cs| && i in before + [u]
    ensures u < |cs| && !DependsOn(cs, i, u)
  {
    var after := before + [u];
    assert after[|before|] == u;
    var k :| 0 <= k < |after| && after[k] == i;
    assert u !in Elems(after[..k]);
    assert Deps(cs, i) <= Elems(after[..k]);
  }

  /** Visiting a candidate that depends on the one just emitted. */
  lemma TurnCounts(cs: seq<Candidate>, indeg: seq<int>, pq: seq<nat>, before: seq<nat>, u: nat, i: nat)
    requires Sound(cs, before + [u]) && u !in before && i < |cs|
    requires HeapIs(cs, indeg, pq, before + [u]) && Counts(cs, indeg, before, before + [u], i)
    ensures u < |cs|
    ensures !DependsOn(cs, i, u) ==> Counts(cs, indeg, before, before + [u], i + 1)
    ensures var indeg' := indeg[i := indeg[i] - 1];
            DependsOn(cs, i, u) ==>
              && HeapIs(cs, indeg', if indeg'[i] == 0 then pq + [i] else pq, before + [u])
              && Counts(cs, indeg', before, before + [u], i + 1)
  {
    hide Sound, Clean, Deps, Left, DependsOn;
    LastWithin(cs, before, u);
    LeftStep(cs, i, before, u);
    ZeroIsReady(cs, i, before + [u]);
    if i in before + [u] { NotAnother(cs, before, u, i); }
  }

  lemma LastWithin(cs: seq<Candidate>, before: seq<nat>, u: nat)
    requires Sound(cs, before + [u])
    ensures u < |cs|
  {
    assert (before + [u])[|before|] == u;
  }

  lemma {:induction false} DistinctBound(n: nat, s: seq<nat>)
    requires Distinct(s) && forall i :: 0 <= i < |s| ==> s[i] < n
    ensures |s| <= n
  {
    var e := Elems(s);
    DistinctCard(s);
    assert e <= Range(n);
    if e != Range(n) { SmallerSet(e, Range(n)); }
  }

  lemma {:induction false} DistinctCard(s: seq<nat>)
    requires Distinct(s)
    ensures |Elems(s)| == |s|
  {
    if s != [] {
      var init := s[..|s| - 1];
      DistinctCard(init);
      assert Elems(s) == Elems(init) + {s[|s| - 1]};
    }
  }

  // ---------- what is emitted ----------

  ghost predicate IndexPath(cs: seq<Candidate>, p: seq<nat>) {
    && p != [] && Within(cs, p)
    && forall k :: 0 <= k < |p| - 1 ==> DependsOn(cs, p[k], p[k + 1])
  }

  /** Neither the candidate nor anything it depends on, however indirectly, lists a candidate
      twice. */
  ghost predicate AllClean(cs: seq<Candidate>, i: nat) {
    forall p :: IndexPath(cs, p) && p[0] == i ==> Clean(cs, p[|p| - 1])
  }

  lemma {:induction false} EmittedPath(cs: seq<Candidate>, order: seq<nat>, p: seq<nat>, k: nat)
    requires Sound(cs, order) && IndexPath(cs, p) && p[0] in order && k < |p|
    ensures p[k] in order
  {
    if k > 0 {
      EmittedPath(cs, order, p, k - 1);
      var x :| 0 <= x < |order| && order[x] == p[k - 1];
      assert DependsOn(cs, p[k - 1], p[k]);
      assert p[k] in Deps(cs, p[k - 1]);
      assert p[k] in order[..x];
    }
  }

  /** What has been emitted is clean all the way down. */
  lemma EmittedIsClean(cs: seq<Candidate>, order: seq<nat>, i: nat)
    requires Sound(cs, order) && i in order
    ensures AllClean(cs, i)
  {
    forall p | IndexPath(cs, p) && p[0] == i
      ensures Clean(cs, p[|p| - 1])
    {
      EmittedPath(cs, order, p, |p| - 1);
      var x :| 0 <= x < |order| && order[x] == p[|p| - 1];
    }
  }

  /** Every candidate finished. */
  ghost predicate AllFinished(cs: seq<Candidate>, done: seq<string>) {
    Finished(cs, done) && forall i :: 0 <= i < |cs| ==> cs[i].name in done
  }

  /** A candidate shadowed by a later one of the same name ranks above all others. */
  function Rank(cs: seq<Candidate>, done: seq<string>, i: nat): nat
    requires i < |cs|
  {
    if Index(cs)[cs[i].name] == i then Position(done, cs[i].name) else |done|
  }

  lemma DependencyRanksLower(cs: seq<Candidate>, done: seq<string>, i: nat, j: nat)
    requires AllFinished(cs, done) && i < |cs| && DependsOn(cs, i, j)
    ensures j < |cs| && Rank(cs, done, j) < Rank(cs, done, i)
  {
    var k :| 0 <= k < |cs[i].depends| && cs[i].depends[k] in Index(cs) && Index(cs)[cs[i].depends[k]] == j;
    var d := cs[i].depends[k];
    assert cs[j].name == d;
    if Index(cs)[cs[i].name] == i {
      assert d in Succ(cs, cs[i].name);
    }
  }

  /** With the heap empty, whatever is clean all the way down has been emitted. */
  lemma {:induction false} CleanIsEmitted(cs: seq<Candidate>, done: seq<string>, order: seq<nat>, i: nat)
    requires AllFinished(cs, done) && i < |cs| && AllClean(cs, i)
    requires forall j :: 0 <= j < |cs| && j !in order ==> Left(cs, j, order) != 0
    ensures i in order
    decreases Rank(cs, done, i)
  {
    hide AllFinished, AllClean, Clean, DependsOn, Rank, Left;
    forall j | j in Deps(cs, i)
      ensures j in order
    {
      DependencyRanksLower(cs, done, i, j);
      DependencyClean(cs, i, j);
      CleanIsEmitted(cs, done, order, j);
    }
    DependencyClean(cs, i, i);
    ZeroIsReady(cs, i, order);
  }

  lemma DependencyClean(cs: seq<Candidate>, i: nat, j: nat)
    requires i < |cs| && AllClean(cs, i)
    ensures Clean(cs, i)
    ensures j < |cs| && DependsOn(cs, i, j) ==> AllClean(cs, j)
  {
    hide DependsOn, Clean;
    assert IndexPath(cs, [i]);
    if j < |cs| && DependsOn(cs, i, j) {
      forall p | IndexPath(cs, p) && p[0] == j
        ensures Clean(cs, p[|p| - 1])
      {
        Prepend(cs, i, p);
        assert ([i] + p)[|p|] == p[|p| - 1];
      }
    }
  }

  lemma Prepend(cs: seq<Candidate>, i: nat, p: seq<nat>)
    requires IndexPath(cs, p) && i < |cs| && DependsOn(cs, i, p[0])
    ensures IndexPath(cs, [i] + p)
  {
    hide DependsOn;
    var q := [i] + p;
    forall k | 0 <= k < |q| - 1
      ensures DependsOn(cs, q[k], q[k + 1])
    {
      if k > 0 { assert DependsOn(cs, p[k - 1], p[k]); }
    }
  }

  predicate Within(cs: seq<Candidate>, pq: seq<nat>) { forall i :: 0 <= i < |pq| ==> pq[i] < |cs| }

  /** No element has a smaller load_priority than the one at `k`. */
  predicate Least(cs: seq<Candidate>, pq: seq<nat>, k: nat)
    requires Within(cs, pq)
  {
    k < |pq| && forall i :: 0 <= i < |pq| ==> cs[pq[k]].loadPriority <= cs[pq[i]].loadPriority
  }

  /** `pop_heap`: takes an element of least load_priority; which one among equals, and how the
      rest is arranged, is up to the standard library. */
  method PopLeast(cs: seq<Candidate>, pq: seq<nat>) returns (u: nat, rest: seq<nat>, ghost k: nat)
    requires pq != [] && Within(cs, pq)
    ensures Least(cs, pq, k) && u == pq[k] && rest == pq[..k] + pq[k + 1..]
    ensures u < |cs| && forall i :: 0 <= i < |pq| ==> cs[u].loadPriority <= cs[pq[i]].loadPriority
    ensures multiset(rest) + multiset{u} == multiset(pq)
  {
    var w := LeastExists(cs, pq);
    var m: nat :| m < |pq| && Least(cs, pq, m);
    assert pq == pq[..m] + [pq[m]] + pq[m + 1..];
    u, rest, k := pq[m], pq[..m] + pq[m + 1..], m;
  }

  lemma {:induction false} LeastExists(cs: seq<Candidate>, pq: seq<nat>) returns (w: nat)
    requires pq != [] && Within(cs, pq)
    ensures Least(cs, pq, w)
  {
    w := 0;
    if |pq| > 1 {
      var init := pq[..|pq| - 1];
      var k := LeastExists(cs, init);
      w := if cs[pq[k]].loadPriority <= cs[pq[|pq| - 1]].loadPriority then k else |pq| - 1;
      forall i | 0 <= i < |pq|
        ensures cs[pq[w]].loadPriority <= cs[pq[i]].loadPriority
      {
        if i < |init| { assert pq[i] == init[i]; }
      }
    }
  }

  /** `topo_sort`: reports a loop exactly when the dependency graph has a cycle; otherwise
      emits, soundly and by priority, exactly the candidates that are clean all the way down. */
  method TopoSort(cs: seq<Candidate>) returns (rc: Rc, order: seq<nat>)
    ensures rc == Loop <==> HasCycle(cs)
    ensures rc == Loop ==> order == []
    ensures rc == Ok ==> Sound(cs, order)
    ensures rc == Ok ==> forall i :: 0 <= i < |cs| ==> (i in order <==> AllClean(cs, i))
  {
    hide HasCycle, Finished, IsPath, Sound, HeapIs, Counts, AllClean, Names;
    order := [];
    var idx := BuildIndex(cs);
    var visited, stack := {}, {};
    ghost var done := [];
    StartSearch(cs);
    for i := 0 to |cs|
      invariant stack == {} && ToSet(done) == visited && Finished(cs, done)
      invariant forall k :: 0 <= k < i ==> cs[k].name in visited
    {
      NameInNames(cs, i);
      var cycle;
      cycle, visited, stack, done := DetectCycle(cs, idx, cs[i].name, visited, stack, [], done);
      if cycle { return Loop, []; }
    }
    SearchDone(cs, done);
    var indeg := InDegrees(cs, idx);
    order := Kahn(cs, idx, indeg);
    forall i | 0 <= i < |cs|
      ensures i in order <==> AllClean(cs, i)
    {
      if i in order { EmittedIsClean(cs, order, i); }
      if AllClean(cs, i) { CleanIsEmitted(cs, done, order, i); }
    }
    rc := Ok;
  }

  method BuildIndex(cs: seq<Candidate>) returns (idx: map<string, nat>)
    ensures idx == Index(cs)
  {
    idx := map[];
    for i := 0 to |cs|
      invariant idx == LastIndex(cs, i)
    {
      idx := idx[cs[i].name := i];
    }
  }

  lemma StartSearch(cs: seq<Candidate>)
    ensures ToSet([]) == {} && Finished(cs, [])
    ensures forall n: string :: IsPath(cs, [] + [n])
  {
  }

  lemma NameInNames(cs: seq<Candidate>, i: nat)
    requires i < |cs|
    ensures cs[i].name in Names(cs)
  {
    assert cs[i].name in [cs[i].name] + cs[i].depends;
  }

  lemma SearchDone(cs: seq<Candidate>, done: seq<string>)
    requires Finished(cs, done) && forall i :: 0 <= i < |cs| ==> cs[i].name in ToSet(done)
    ensures AllFinished(cs, done) && !HasCycle(cs)
  {
    FinishedAcyclic(cs, done);
  }

  /** The in-degree loop. */
  method InDegrees(cs: seq<Candidate>, idx: map<string, nat>) returns (indeg: array<int>)
    requires idx == Index(cs)
    ensures fresh(indeg) && indeg.Length == |cs|
    ensures forall i :: 0 <= i < |cs| ==> indeg[i] == Degree(cs, i)
  {
    indeg := new int[|cs|](_ => 0);
    for i := 0 to |cs|
      invariant forall k :: 0 <= k < i ==> indeg[k] == Degree(cs, k)
      invariant forall k :: i <= k < |cs| ==> indeg[k] == 0
    {
      for k := 0 to |cs[i].depends|
        invariant indeg[i] == InScope(idx, cs[i].depends, k)
        invariant forall j :: 0 <= j < i ==> indeg[j] == Degree(cs, j)
        invariant forall j :: i < j < |cs| ==> indeg[j] == 0
      {
        if cs[i].depends[k] in idx { indeg[i] := indeg[i] + 1; }
      }
    }
  }

  /** Whether candidate `i` names candidate `u`: the scan with its early exit. */
  method Mentions(cs: seq<Candidate>, idx: map<string, nat>, i: nat, u: nat) returns (dep: bool)
    requires idx == Index(cs) && i < |cs|
    ensures dep == DependsOn(cs, i, u)
  {
    for k := 0 to |cs[i].depends|
      invariant forall l :: 0 <= l < k ==> !(cs[i].depends[l] in idx && idx[cs[i].depends[l]] == u)
    {
      if cs[i].depends[k] in idx && idx[cs[i].depends[k]] == u { return true; }
    }
    return false;
  }

  /** The main loop. */
  method Kahn(cs: seq<Candidate>, idx: map<string, nat>, indeg: array<int>) returns (order: seq<nat>)
    requires idx == Index(cs) && indeg.Length == |cs|
    requires forall i :: 0 <= i < |cs| ==> indeg[i] == Degree(cs, i)
    modifies indeg
    ensures Sound(cs, order)
    ensures forall i :: 0 <= i < |cs| && i !in order ==> Left(cs, i, order) != 0
  {
    hide Degree, Deps, Left, Sound, Least, HeapIs, Counts;
    order := [];
    var pq := FillHeap(cs, indeg);
    SoundStart(cs, indeg[..]);
    while pq != []
      invariant Sound(cs, order) && HeapIs(cs, indeg[..], pq, order) && Counts(cs, indeg[..], order, order, 0)
      decreases |cs| - |order|
    {
      HeapWithin(cs, indeg[..], pq, order);
      var u, rest, k := PopLeast(cs, pq);
      PopIsSound(cs, indeg[..], pq, order, k);
      SoundBound(cs, order + [u]);
      pq := Relax(cs, idx, indeg, rest, order, u);
      order := order + [u];
    }
    forall i | 0 <= i < |cs| && i !in order
      ensures Left(cs, i, order) != 0
    {
      HeapEmpty(cs, indeg[..], order, i);
    }
  }

  /** The inner loop: lower the in-degree of everything that depends on `u`. */
  method Relax(cs: seq<Candidate>, idx: map<string, nat>, indeg: array<int>, heap: seq<nat>, ghost before: seq<nat>, u: nat)
    returns (pq: seq<nat>)
    requires idx == Index(cs) && indeg.Length == |cs|
    requires Sound(cs, before + [u]) && u !in before
    requires HeapIs(cs, indeg[..], heap, before + [u]) && Counts(cs, indeg[..], before, before, 0)
    modifies indeg
    ensures HeapIs(cs, indeg[..], pq, before + [u]) && Counts(cs, indeg[..], before + [u], before + [u], 0)
  {
    hide Degree, Deps, DependsOn, Left, Clean, Sound, HeapIs, Counts;
    ghost var after: seq<nat> := before + [u];
    pq := heap;
    CountsStart(cs, indeg[..], before, after);
    for i := 0 to |cs|
      invariant HeapIs(cs, indeg[..], pq, after) && Counts(cs, indeg[..], before, after, i)
    {
      TurnCounts(cs, indeg[..], pq, before, u, i);
      var dep := Mentions(cs, idx, i, u);
      if dep {
        indeg[i] := indeg[i] - 1;
        if indeg[i] == 0 { pq := pq + [i]; }
      }
    }
    CountsDone(cs, indeg[..], before, after);
  }

  /** The loop that collects the candidates with no dependency in scope. */
  method FillHeap(cs: seq<Candidate>, indeg: array<int>) returns (pq: seq<nat>)
    requires indeg.Length == |cs|
    ensures HeapIs(cs, indeg[..], pq, [])
  {
    pq := [];
    for i := 0 to |cs|
      invariant Within(cs, pq) && Distinct(pq)
      invariant forall j :: j in pq <==> 0 <= j < i && indeg[j] == 0
    {
      if indeg[i] == 0 { pq := pq + [i]; }
    }
  }

  lemma HeapEmpty(cs: seq<Candidate>, indeg: seq<int>, order: seq<nat>, i: nat)
    requires HeapIs(cs, indeg, [], order) && Counts(cs, indeg, order, order, 0) && i < |cs| && i !in order
    ensures Left(cs, i, order) != 0
  {
    hide Left;
  }

  lemma CountsDone(cs: seq<Candidate>, indeg: seq<int>, before: seq<nat>, after: seq<nat>)
    requires Counts(cs, indeg, before, after, |cs|)
    ensures Counts(cs, indeg, after, after, 0)
  {
    hide Left;
  }

  lemma HeapWithin(cs: seq<Candidate>, indeg: seq<int>, pq: seq<nat>, order: seq<nat>)
    requires HeapIs(cs, indeg, pq, order)
    ensures Within(cs, pq)
  {
  }

  lemma CountsStart(cs: seq<Candidate>, indeg: seq<int>, before: seq<nat>, after: seq<nat>)
    requires Counts(cs, indeg, before, before, 0)
    ensures Counts(cs, indeg, before, after, 0)
  {
  }

  lemma SoundStart(cs: seq<Candidate>, indeg: seq<int>)
    requires |indeg| == |cs| && forall i :: 0 <= i < |cs| ==> indeg[i] == Degree(cs, i)
    ensures Sound(cs, []) && Counts(cs, indeg, [], [], 0)
  {
    forall i | 0 <= i < |cs| ensures indeg[i] == Left(cs, i, []) { LeftStart(cs, i); }
  }

  lemma SoundBound(cs: seq<Candidate>, order: seq<nat>)
    requires Sound(cs, order)
    ensures |order| <= |cs| && Within(cs, order)
  {
    DistinctBound(|cs|, order);
  }
}
