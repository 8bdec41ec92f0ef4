/** Doubly-linked lists threaded through a fixed node pool.

    A node is an index into the pool; NIL stands for the null pointer.  `Mem` is the contents
    of the node fields and list heads at one moment. */
module BuddyLists {
  import opened BuddySpec
  import opened Collections

  const NIL: int := -1

  datatype Mem = Mem(addr: seq<nat>, next: seq<int>, prev: seq<int>, heads: seq<int>)

  /** The node at position `i` of the list, or NIL off either end. */
  function At(xs: seq<nat>, i: int): int {
    if 0 <= i < |xs| then xs[i] else NIL
  }

  /** Node `n` was taken from the pool and holds the given address and links. */
  ghost predicate NodeIs(m: Mem, used: nat, n: nat, addr: nat, next: int, prev: int) {
    && n < used <= |m.addr| == |m.next| == |m.prev|
    && m.addr[n] == addr && m.next[n] == next && m.prev[n] == prev
  }

  /** The nodes `xs` form the list with the given head and hold the addresses `addrs`. */
  ghost predicate ListAt(m: Mem, used: nat, xs: seq<nat>, addrs: seq<nat>, head: int) {
    && |xs| == |addrs|
    && head == At(xs, 0)
    && forall i :: 0 <= i < |xs| ==> NodeIs(m, used, xs[i], addrs[i], At(xs, i + 1), At(xs, i - 1))
  }

  /** No node is in two places. */
  ghost predicate Apart(lists: seq<seq<nat>>) {
    forall o, i, p, j ::
      (0 <= o < |lists| && 0 <= i < |lists[o]| && 0 <= p < |lists| && 0 <= j < |lists[p]|
       && lists[o][i] == lists[p][j])
      ==> o == p && i == j
  }

  ghost predicate NotIn(lists: seq<seq<nat>>, n: nat) {
    forall o, i :: 0 <= o < |lists| && 0 <= i < |lists[o]| ==> lists[o][i] != n
  }

  /** The memory holds the lists `lists` of nodes with addresses `free`. */
  ghost predicate Linked(m: Mem, used: nat, lists: seq<seq<nat>>, free: seq<seq<nat>>) {
    && |lists| == |free| == |m.heads|
    && used <= |m.addr| == |m.next| == |m.prev|
    && Apart(lists)
    && forall o :: 0 <= o < |lists| ==> ListAt(m, used, lists[o], free[o], m.heads[o])
  }

  /** Memory after `free_list_insert` of node `n` into list `o`. */
  function Inserted(m: Mem, n: nat, o: nat): Mem
    requires n < |m.next| == |m.prev| && o < |m.heads|
    requires m.heads[o] == NIL || 0 <= m.heads[o] < |m.prev|
  {
    var prev := m.prev[n := NIL];
    Mem(m.addr, m.next[n := m.heads[o]],
        if m.heads[o] == NIL then prev else prev[m.heads[o] := n],
        m.heads[o := n])
  }

  /** Memory after `free_list_remove_block` of node `n` from list `o`. */
  function Removed(m: Mem, n: nat, o: nat): Mem
    requires n < |m.next| == |m.prev| && o < |m.heads|
    requires m.prev[n] == NIL || 0 <= m.prev[n] < |m.next|
    requires m.next[n] == NIL || 0 <= m.next[n] < |m.next|
  {
    var p, x := m.prev[n], m.next[n];
    var next := if p == NIL then m.next else m.next[p := x];
    var prev := if x == NIL then m.prev else m.prev[x := p];
    Mem(m.addr, next[n := NIL], prev[n := NIL], if p == NIL then m.heads[o := x] else m.heads)
  }

  lemma {:induction false} HeadInPool(m: Mem, used: nat, lists: seq<seq<nat>>, free: seq<seq<nat>>, o: nat)
    requires Linked(m, used, lists, free) && o < |lists|
    ensures m.heads[o] == NIL <==> lists[o] == []
    ensures lists[o] == [] <==> free[o] == []
    ensures lists[o] != [] ==> m.heads[o] == lists[o][0] < used && m.addr[lists[o][0]] == free[o][0]
  {
    assert ListAt(m, used, lists[o], free[o], m.heads[o]);
    if lists[o] != [] {
      assert NodeIs(m, used, lists[o][0], free[o][0], At(lists[o], 1), At(lists[o], -1));
    }
  }

  lemma {:induction false} InsertHere(m: Mem, used: nat, xs: seq<nat>, addrs: seq<nat>, n: nat, o: nat)
    requires used <= |m.addr| == |m.next| == |m.prev| && o < |m.heads|
    requires ListAt(m, used, xs, addrs, m.heads[o]) && n < used && n !in xs
    requires forall i, j :: 0 <= i < |xs| && 0 <= j < |xs| && xs[i] == xs[j] ==> i == j
    ensures m.heads[o] == NIL || 0 <= m.heads[o] < |m.prev|
    ensures ListAt(Inserted(m, n, o), used, [n] + xs, [m.addr[n]] + addrs, n)
  {
    var m', ys, bs := Inserted(m, n, o), [n] + xs, [m.addr[n]] + addrs;
    forall i | 0 <= i < |ys|
      ensures NodeIs(m', used, ys[i], bs[i], At(ys, i + 1), At(ys, i - 1))
    {
      if i > 0 {
        assert NodeIs(m, used, xs[i - 1], addrs[i - 1], At(xs, i), At(xs, i - 2));
        assert ys[i] == xs[i - 1] != n;
        assert At(ys, i + 1) == At(xs, i);
        assert i > 1 ==> xs[i - 1] != xs[0];
      }
    }
  }

  lemma {:induction false} InsertApart(lists: seq<seq<nat>>, n: nat, o: nat)
    requires Apart(lists) && NotIn(lists, n) && o < |lists|
    ensures Apart(lists[o := [n] + lists[o]])
  {
    var ls := lists[o := [n] + lists[o]];
    forall p, i, q, j |
      0 <= p < |ls| && 0 <= i < |ls[p]| && 0 <= q < |ls| && 0 <= j < |ls[q]| && ls[p][i] == ls[q][j]
      ensures p == q && i == j
    {
      var i' := if p == o then i - 1 else i;
      var j' := if q == o then j - 1 else j;
      assert i' >= 0 ==> ls[p][i] == lists[p][i'];
      assert j' >= 0 ==> ls[q][j] == lists[q][j'];
    }
  }

  lemma NotInInserted(lists: seq<seq<nat>>, n: nat, other: nat, o: nat)
    requires NotIn(lists, other) && n != other && o < |lists|
    ensures NotIn(lists[o := [n] + lists[o]], other)
  {
    var ls := lists[o := [n] + lists[o]];
    forall p, i | 0 <= p < |ls| && 0 <= i < |ls[p]|
      ensures ls[p][i] != other
    {
      if p == o && i > 0 { assert lists[o][i - 1] != other; }
    }
  }

  /** Inserting a node that is in no list puts its address at the head of the list. */
  lemma {:induction false} InsertLinked(m: Mem, used: nat, lists: seq<seq<nat>>, free: seq<seq<nat>>, n: nat, o: nat)
    requires Linked(m, used, lists, free) && NotIn(lists, n) && n < used && o < |lists|
    ensures m.heads[o] == NIL || 0 <= m.heads[o] < |m.prev|
    ensures Linked(Inserted(m, n, o), used, lists[o := [n] + lists[o]], free[o := [m.addr[n]] + free[o]])
  {
    assert ListAt(m, used, lists[o], free[o], m.heads[o]);
    InsertHere(m, used, lists[o], free[o], n, o);
    InsertApart(lists, n, o);
    var m' := Inserted(m, n, o);
    var ls, fs := lists[o := [n] + lists[o]], free[o := [m.addr[n]] + free[o]];
    forall p | 0 <= p < |ls|
      ensures ListAt(m', used, ls[p], fs[p], m'.heads[p])
    {
      if p != o {
        assert ListAt(m, used, lists[p], free[p], m.heads[p]);
        forall i | 0 <= i < |lists[p]|
          ensures lists[p][i] != n && lists[p][i] != m.heads[o]
        {
          if lists[o] != [] { assert lists[o][0] != lists[p][i]; }
        }
      }
    }
  }

  lemma RemovedFields(m: Mem, n: nat, o: nat, y: nat)
    requires n < |m.next| == |m.prev| && o < |m.heads| && y < |m.next| && y != n
    requires m.prev[n] == NIL || 0 <= m.prev[n] < |m.next|
    requires m.next[n] == NIL || 0 <= m.next[n] < |m.next|
    ensures var m' := Removed(m, n, o);
            && |m'.next| == |m.next| && |m'.prev| == |m.prev| && m'.addr == m.addr
            && m'.next[y] == (if y == m.prev[n] then m.next[n] else m.next[y])
            && m'.prev[y] == (if y == m.next[n] then m.prev[n] else m.prev[y])
  {
  }

  /** Dropping position `k` makes its neighbours each other's neighbours. */
  lemma WithoutAt(xs: seq<nat>, k: nat, i: int)
    requires k < |xs|
    ensures At(RemoveAt(xs, k), i) == At(xs, if i < k then i else i + 1)
  {
  }

  /** A node that stays gets the links it has in the shorter list. */
  lemma {:induction false} RemovedNode(m: Mem, used: nat, xs: seq<nat>, addrs: seq<nat>, k: nat, o: nat, j: nat)
    requires used <= |m.addr| == |m.next| == |m.prev| && o < |m.heads| && k < |xs| && j < |xs| && j != k
    requires ListAt(m, used, xs, addrs, m.heads[o])
    requires forall i, j :: 0 <= i < |xs| && 0 <= j < |xs| && xs[i] == xs[j] ==> i == j
    requires xs[k] < |m.next|
    requires m.prev[xs[k]] == NIL || 0 <= m.prev[xs[k]] < |m.next|
    requires m.next[xs[k]] == NIL || 0 <= m.next[xs[k]] < |m.next|
    ensures NodeIs(Removed(m, xs[k], o), used, xs[j], addrs[j],
                   At(xs, if j + 1 == k then k + 1 else j + 1), At(xs, if j - 1 == k then k - 1 else j - 1))
  {
    hide Removed;
    var n, y := xs[k], xs[j];
    assert NodeIs(m, used, n, addrs[k], At(xs, k + 1), At(xs, k - 1));
    assert NodeIs(m, used, y, addrs[j], At(xs, j + 1), At(xs, j - 1));
    assert y == m.prev[n] <==> j == k - 1;
    assert y == m.next[n] <==> j == k + 1;
    RemovedFields(m, n, o, y);
  }

  lemma {:induction false} RemovedNodeAt(m: Mem, used: nat, xs: seq<nat>, addrs: seq<nat>, k: nat, o: nat, i: nat)
    requires used <= |m.addr| == |m.next| == |m.prev| && o < |m.heads| && k < |xs| && i + 1 < |xs|
    requires ListAt(m, used, xs, addrs, m.heads[o])
    requires forall i, j :: 0 <= i < |xs| && 0 <= j < |xs| && xs[i] == xs[j] ==> i == j
    requires xs[k] < |m.next|
    requires m.prev[xs[k]] == NIL || 0 <= m.prev[xs[k]] < |m.next|
    requires m.next[xs[k]] == NIL || 0 <= m.next[xs[k]] < |m.next|
    ensures var ys := RemoveAt(xs, k);
            NodeIs(Removed(m, xs[k], o), used, ys[i], RemoveAt(addrs, k)[i], At(ys, i + 1), At(ys, i - 1))
  {
    hide Removed, At, NodeIs;
    var j := if i < k then i else i + 1;
    RemovedNode(m, used, xs, addrs, k, o, j);
    WithoutAt(xs, k, i + 1);
    WithoutAt(xs, k, i - 1);
  }

  lemma {:induction false} RemoveHere(m: Mem, used: nat, xs: seq<nat>, addrs: seq<nat>, k: nat, o: nat)
    requires used <= |m.addr| == |m.next| == |m.prev| && o < |m.heads| && k < |xs|
    requires ListAt(m, used, xs, addrs, m.heads[o])
    requires forall i, j :: 0 <= i < |xs| && 0 <= j < |xs| && xs[i] == xs[j] ==> i == j
    ensures NodeIs(m, used, xs[k], addrs[k], At(xs, k + 1), At(xs, k - 1))
    ensures var n := xs[k];
            && (m.prev[n] == NIL || 0 <= m.prev[n] < |m.next|)
            && (m.next[n] == NIL || 0 <= m.next[n] < |m.next|)
            && var m' := Removed(m, n, o);
            ListAt(m', used, RemoveAt(xs, k), RemoveAt(addrs, k), m'.heads[o])
  {
    var m', ys := Removed(m, xs[k], o), RemoveAt(xs, k);
    assert m'.heads[o] == At(ys, 0) by {
      WithoutAt(xs, k, 0);
    }
    hide Removed, NodeIs, At;
    forall i | 0 <= i < |ys|
      ensures NodeIs(m', used, ys[i], RemoveAt(addrs, k)[i], At(ys, i + 1), At(ys, i - 1))
    {
      RemovedNodeAt(m, used, xs, addrs, k, o, i);
    }
  }

  lemma {:induction false} RemoveApart(lists: seq<seq<nat>>, k: nat, o: nat)
    requires Apart(lists) && o < |lists| && k < |lists[o]|
    ensures Apart(lists[o := RemoveAt(lists[o], k)])
    ensures NotIn(lists[o := RemoveAt(lists[o], k)], lists[o][k])
  {
    var ls := lists[o := RemoveAt(lists[o], k)];
    forall p, i | 0 <= p < |ls| && 0 <= i < |ls[p]|
      ensures var i' := if p == o && i >= k then i + 1 else i;
              i' < |lists[p]| && ls[p][i] == lists[p][i'] && ls[p][i] != lists[o][k]
    {
    }
    forall p, i, q, j |
      0 <= p < |ls| && 0 <= i < |ls[p]| && 0 <= q < |ls| && 0 <= j < |ls[q]| && ls[p][i] == ls[q][j]
      ensures p == q && i == j
    {
      var i' := if p == o && i >= k then i + 1 else i;
      var j' := if q == o && j >= k then j + 1 else j;
      assert ls[p][i] == lists[p][i'] && ls[q][j] == lists[q][j'];
    }
  }

  /** Unlinking a node takes its address out of the list and leaves the node in no list. */
  lemma {:induction false} RemoveLinked(m: Mem, used: nat, lists: seq<seq<nat>>, free: seq<seq<nat>>, o: nat, k: nat)
    requires Linked(m, used, lists, free) && o < |lists| && k < |lists[o]|
    ensures |free[o]| == |lists[o]| && lists[o][k] < used
    ensures var n := lists[o][k];
            && m.addr[n] == free[o][k]
            && m.prev[n] == At(lists[o], k - 1) && m.next[n] == At(lists[o], k + 1)
            && (m.prev[n] == NIL || 0 <= m.prev[n] < |m.next|)
            && (m.next[n] == NIL || 0 <= m.next[n] < |m.next|)
            && Linked(Removed(m, n, o), used, lists[o := RemoveAt(lists[o], k)], free[o := RemoveAt(free[o], k)])
            && NotIn(lists[o := RemoveAt(lists[o], k)], n)
  {
    var n := lists[o][k];
    assert ListAt(m, used, lists[o], free[o], m.heads[o]);
    RemoveHere(m, used, lists[o], free[o], k, o);
    RemoveApart(lists, k, o);
    var m' := Removed(m, n, o);
    hide Removed, RemoveAt;
    var ls, fs := lists[o := RemoveAt(lists[o], k)], free[o := RemoveAt(free[o], k)];
    forall p | 0 <= p < |ls|
      ensures ListAt(m', used, ls[p], fs[p], m'.heads[p])
    {
      if p != o {
        assert ListAt(m, used, lists[p], free[p], m.heads[p]);
        forall i | 0 <= i < |lists[p]|
          ensures var y := lists[p][i]; m'.next[y] == m.next[y] && m'.prev[y] == m.prev[y]
        {
          if k > 0 { assert lists[o][k - 1] != lists[p][i]; }
          if k + 1 < |lists[o]| { assert lists[o][k + 1] != lists[p][i]; }
          RemovedFields(m, n, o, lists[p][i]);
        }
      }
    }
  }

  /** Writing the fields of a node that is in no list, and taking more nodes, changes no list. */
  lemma {:induction false} UnlinkedWrite(m: Mem, m': Mem, used: nat, used': nat, lists: seq<seq<nat>>, free: seq<seq<nat>>, n: nat)
    requires Linked(m, used, lists, free) && NotIn(lists, n) && n < |m.addr|
    requires used <= used' <= |m.addr|
    requires |m'.addr| == |m.addr| && m'.heads == m.heads && |m'.next| == |m.next| && |m'.prev| == |m.prev|
    requires m'.addr == m.addr[n := m'.addr[n]] && m'.next == m.next[n := m'.next[n]] && m'.prev == m.prev[n := m'.prev[n]]
    ensures Linked(m', used', lists, free)
  {
    forall o | 0 <= o < |lists|
      ensures ListAt(m', used', lists[o], free[o], m'.heads[o])
    {
      assert ListAt(m, used, lists[o], free[o], m.heads[o]);
    }
  }

  /** The nodes not taken from the pool yet are in no list. */
  lemma {:induction false} UntakenNotIn(m: Mem, used: nat, lists: seq<seq<nat>>, free: seq<seq<nat>>, n: nat)
    requires Linked(m, used, lists, free) && used <= n
    ensures NotIn(lists, n)
  {
    forall o, i | 0 <= o < |lists| && 0 <= i < |lists[o]|
      ensures lists[o][i] != n
    {
      assert ListAt(m, used, lists[o], free[o], m.heads[o]);
      assert NodeIs(m, used, lists[o][i], free[o][i], At(lists[o], i + 1), At(lists[o], i - 1));
    }
  }

  /** Empty lists. */
  lemma {:induction false} BlankLinked(m: Mem, lists: seq<seq<nat>>)
    requires |lists| == |m.heads| && |m.addr| == |m.next| == |m.prev|
    requires forall o :: 0 <= o < |lists| ==> lists[o] == [] && m.heads[o] == NIL
    ensures Linked(m, 0, lists, lists)
  {
  }
}
