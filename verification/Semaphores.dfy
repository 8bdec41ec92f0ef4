/** Timeline semaphores (plugins/gpu_driver/sim/semaphore_manager.cpp).  Callbacks run after the
    mutex is released, so what a call decides and when its callbacks run are separate steps. */
module Semaphores {
  datatype Waiter = Waiter(ticket: nat, expected: nat, user: nat)

  /** A callback with its argument. */
  datatype Call = Call(handle: nat, waiter: Waiter, arg: nat)

  /** `accepted` and `released` record the waiters that joined the queue and those taken off
      it, in order. */
  datatype Sem = Sem(value: nat, waiters: seq<Waiter>, destroyed: bool, accepted: seq<Waiter>, released: seq<Waiter>)

  /** A wait call the manager accepted, with its arguments. */
  datatype Ask = Ask(handle: nat, expected: nat, user: nat)

  /** `asked` lists the accepted wait calls; a waiter's ticket is its place in that list.
      `decided` records the callbacks in the order they were decided on under the mutex, `hands`
      what each of those calls has left to run, `fired` the callbacks run so far. */
  datatype World = World(
    sems: map<nat, Sem>,
    next: nat,
    asked: seq<Ask>,
    decided: seq<Call>,
    hands: seq<seq<Call>>,
    fired: seq<Call>)

  function Initial(): World { World(map[], 1, [], [], [], []) }

  predicate Live(w: World, h: nat) { h in w.sems && !w.sems[h].destroyed }

  /** How many waiters at the head of the queue a value satisfies. */
  function ReadyCount(ws: seq<Waiter>, v: nat): (n: nat)
    ensures n <= |ws|
    ensures forall i :: 0 <= i < n ==> ws[i].expected <= v
    ensures n < |ws| ==> ws[n].expected > v
  {
    if ws == [] || ws[0].expected > v then 0 else 1 + ReadyCount(ws[1..], v)
  }

  function SignalCalls(h: nat, ws: seq<Waiter>, v: nat): seq<Call> {
    seq(|ws|, i requires 0 <= i < |ws| => Call(h, ws[i], v))
  }

  function DestroyCalls(h: nat, ws: seq<Waiter>): seq<Call> {
    seq(|ws|, i requires 0 <= i < |ws| => Call(h, ws[i], ws[i].user))
  }

  function Decide(w: World, calls: seq<Call>): World {
    w.(decided := w.decided + calls, hands := w.hands + [calls])
  }

  /** Takes the first `n` waiters off the queue. */
  function Release(s: Sem, n: nat): Sem
    requires n <= |s.waiters|
  {
    s.(waiters := s.waiters[n..], released := s.released + s.waiters[..n])
  }

  /** The semaphore after one more waiter has joined its queue. */
  function Joined(s: Sem, x: Waiter): Sem {
    s.(waiters := s.waiters + [x], accepted := s.accepted + [x])
  }

  function Create(w: World, initial: nat): World {
    w.(sems := w.sems[w.next := Sem(initial, [], false, [], [])], next := w.next + 1)
  }

  function Signal(w: World, h: nat, v: nat): World {
    if !Live(w, h) || v <= w.sems[h].value then w
    else
      var s := w.sems[h];
      var n := ReadyCount(s.waiters, v);
      Decide(w.(sems := w.sems[h := Release(s, n).(value := v)]), SignalCalls(h, s.waiters[..n], v))
  }

  function Wait(w: World, h: nat, expected: nat, user: nat): World {
    if !Live(w, h) then w
    else
      var s := w.sems[h];
      var x := Waiter(|w.asked|, expected, user);
      var w' := w.(asked := w.asked + [Ask(h, expected, user)]);
      if s.value >= expected then Decide(w', [Call(h, x, s.value)])
      else w'.(sems := w.sems[h := Joined(s, x)])
  }

  function Destroy(w: World, h: nat): World {
    if !Live(w, h) then w
    else
      var s := w.sems[h];
      Decide(w.(sems := w.sems[h := Release(s, |s.waiters|).(destroyed := true)]), DestroyCalls(h, s.waiters))
  }

  /** One of the calls under way runs its next callback. */
  function Fire(w: World, k: nat): World {
    if k >= |w.hands| || w.hands[k] == [] then w
    else w.(hands := w.hands[k := w.hands[k][1..]], fired := w.fired + [w.hands[k][0]])
  }

  // ---------- the class, one call at a time ----------

  /** The last call has run its callbacks. */
  function Settle(w: World): World {
    if w.hands == [] then w
    else w.(hands := w.hands[..|w.hands| - 1], fired := w.fired + w.hands[|w.hands| - 1])
  }

  class SemaphoreManager {
    var semaphores: map<nat, Sem>
    var nextHandle: nat
    var asked: seq<Ask>
    ghost var fired: seq<Call>

    ghost function St(): World
      reads this
    {
      World(semaphores, nextHandle, asked, fired, [], fired)
    }

    constructor ()
      ensures St() == Initial()
    {
      semaphores, nextHandle, asked, fired := map[], 1, [], [];
    }

    method CreateSemaphore(initial: nat) returns (h: nat)
      modifies this
      ensures St() == Create(old(St()), initial) && h == old(nextHandle)
    {
      h := nextHandle;
      nextHandle := nextHandle + 1;
      semaphores := semaphores[h := Sem(initial, [], false, [], [])];
    }

    method SignalSemaphore(h: nat, value: nat) returns (ok: bool)
      modifies this
      ensures ok == (Live(old(St()), h) && value > old(St()).sems[h].value)
      ensures St() == if ok then Settle(Signal(old(St()), h, value)) else old(St())
    {
      if h !in semaphores || semaphores[h].destroyed { return false; }
      if value <= semaphores[h].value { return false; }
      ghost var s := semaphores[h];
      ghost var n := ReadyCount(s.waiters, value);
      semaphores := semaphores[h := semaphores[h].(value := value)];
      var ready: seq<Waiter> := [];
      while semaphores[h].waiters != [] && value >= semaphores[h].waiters[0].expected
        invariant h in semaphores && |ready| <= n
        invariant fired == old(fired) && nextHandle == old(nextHandle) && asked == old(asked)
        invariant ready == s.waiters[..|ready|]
        invariant semaphores[h] == Release(s, |ready|).(value := value)
        invariant semaphores == old(semaphores)[h := semaphores[h]]
        decreases |s.waiters| - |ready|
      {
        var x := semaphores[h].waiters[0];
        ready := ready + [x];
        semaphores := semaphores[h := Release(semaphores[h], 1)];
      }
      assert |ready| == n;
      ghost var calls := SignalCalls(h, ready, value);
      ghost var released := semaphores;
      assert fired == old(fired) + calls[..0];
      var i := 0;
      while i < |ready|
        invariant i <= |ready| && fired == old(fired) + calls[..i]
        invariant semaphores == released && nextHandle == old(nextHandle) && asked == old(asked)
      {
        fired := fired + [Call(h, ready[i], value)];
        assert calls[..i + 1] == calls[..i] + [calls[i]];
        i := i + 1;
      }
      assert calls[..i] == calls;
      return true;
    }

    method WaitFor(h: nat, expected: nat, user: nat) returns (ok: bool)
      modifies this
      ensures ok == Live(old(St()), h)
      ensures St() == Settle(Wait(old(St()), h, expected, user))
    {
      if h !in semaphores || semaphores[h].destroyed { return false; }
      var cur := semaphores[h].value;
      var x := Waiter(|asked|, expected, user);
      if cur >= expected {
        fired := fired + [Call(h, x, cur)];
      } else {
        semaphores := semaphores[h := Joined(semaphores[h], x)];
      }
      asked := asked + [Ask(h, expected, user)];
      return true;
    }

    method DestroySemaphore(h: nat) returns (ok: bool)
      modifies this
      ensures ok == Live(old(St()), h)
      ensures St() == if ok then Settle(Destroy(old(St()), h)) else old(St())
    {
      if h !in semaphores || semaphores[h].destroyed { return false; }
      var waiters := semaphores[h].waiters;
      semaphores := semaphores[h := Release(semaphores[h], |waiters|).(destroyed := true)];
      ghost var calls := DestroyCalls(h, waiters);
      ghost var released := semaphores;
      assert fired == old(fired) + calls[..0];
      var i := 0;
      while i < |waiters|
        invariant i <= |waiters| && fired == old(fired) + calls[..i]
        invariant semaphores == released && nextHandle == old(nextHandle) && asked == old(asked)
      {
        fired := fired + [Call(h, waiters[i], waiters[i].user)];
        assert calls[..i + 1] == calls[..i] + [calls[i]];
        i := i + 1;
      }
      assert calls[..i] == calls;
      return true;
    }

    method Query(h: nat) returns (found: bool, value: nat)
      ensures found == Live(St(), h)
      ensures found ==> value == St().sems[h].value
    {
      if h !in semaphores || semaphores[h].destroyed { return false, 0; }
      return true, semaphores[h].value;
    }
  }

  // ---------- every interleaving ----------

  datatype Action =
    | Creating(initial: nat)
    | Signalling(h: nat, value: nat)
    | Waiting(h: nat, expected: nat, user: nat)
    | Destroying(h: nat)
    | Firing(k: nat)

  function Step(w: World, a: Action): World {
    match a
    case Creating(initial) => Create(w, initial)
    case Signalling(h, value) => Signal(w, h, value)
    case Waiting(h, expected, user) => Wait(w, h, expected, user)
    case Destroying(h) => Destroy(w, h)
    case Firing(k) => Fire(w, k)
  }

  function Run(w: World, run: seq<Action>): World
    decreases |run|
  {
    if run == [] then w else Run(Step(w, run[0]), run[1..])
  }

  /** Every waiter that joined the queue has been taken off it, in order, or is still there; the
      head of the queue is not satisfied; a destroyed semaphore has nobody waiting. */
  ghost predicate Orderly(s: Sem) {
    && s.released + s.waiters == s.accepted
    && (s.destroyed ==> s.waiters == [])
    && (s.waiters != [] ==> s.waiters[0].expected > s.value)
  }

  /** The argument a callback may get: a value that satisfies its waiter or, once the semaphore
      is destroyed, the waiter's own datum. */
  ghost predicate Answered(w: World, c: Call) {
    && c.handle in w.sems
    && (c.waiter.expected <= c.arg <= w.sems[c.handle].value || (w.sems[c.handle].destroyed && c.arg == c.waiter.user))
  }

  /** What the calls under way have left to run, in the order it was decided on. */
  function Flatten(hands: seq<seq<Call>>): seq<Call> {
    if hands == [] then [] else Flatten(hands[..|hands| - 1]) + hands[|hands| - 1]
  }

  ghost predicate Shaped(w: World) {
    forall h :: h in w.sems ==> h < w.next && Orderly(w.sems[h])
  }

  ghost predicate Replied(w: World) {
    forall c :: c in w.decided ==> Answered(w, c)
  }

  /** The callbacks decided on are those run and those left to run. */
  ghost predicate Balanced(w: World) {
    multiset(w.decided) == multiset(w.fired) + multiset(Flatten(w.hands))
  }

  ghost predicate Ascending(ws: seq<Waiter>) {
    forall i, j :: 0 <= i < j < |ws| ==> ws[i].ticket < ws[j].ticket
  }

  ghost predicate DistinctTickets(calls: seq<Call>) {
    forall i, j :: 0 <= i < j < |calls| ==> calls[i].waiter.ticket != calls[j].waiter.ticket
  }

  ghost predicate HasTicket(ws: seq<Waiter>, t: nat) { exists x :: x in ws && x.ticket == t }

  ghost predicate HasCall(calls: seq<Call>, t: nat) { exists c :: c in calls && c.waiter.ticket == t }

  /** Those who joined a queue named that semaphore, in the order of their calls. */
  ghost predicate JoinersKnown(w: World) {
    && (forall h, x :: h in w.sems && x in w.sems[h].accepted ==> x.ticket < |w.asked| && w.asked[x.ticket] == Ask(h, x.expected, x.user))
    && (forall h :: h in w.sems ==> Ascending(w.sems[h].accepted))
  }

  /** Those called named that semaphore, and nobody is called twice. */
  ghost predicate CalledKnown(w: World) {
    && (forall c :: c in w.decided ==> CallKnown(w, c))
    && DistinctTickets(w.decided)
  }

  ghost predicate CallKnown(w: World, c: Call) {
    && c.handle in w.sems && c.waiter.ticket < |w.asked|
    && w.asked[c.waiter.ticket] == Ask(c.handle, c.waiter.expected, c.waiter.user)
  }

  /** Every accepted wait call joined the queue of the semaphore it named or was answered. */
  ghost predicate NobodyForgotten(w: World) {
    forall t :: 0 <= t < |w.asked| ==> Remembered(w, w.asked[t].handle, t)
  }

  ghost predicate Remembered(w: World, h: nat, t: nat) {
    h in w.sems && (HasTicket(w.sems[h].accepted, t) || HasCall(w.decided, t))
  }

  ghost predicate Registered(w: World) { JoinersKnown(w) && CalledKnown(w) && NobodyForgotten(w) }

  /** The callbacks on semaphore `h` for waiters that were in its queue, in order. */
  function CalledOn(calls: seq<Call>, h: nat, accepted: seq<Waiter>): seq<Waiter> {
    if calls == [] then []
    else
      var c := calls[|calls| - 1];
      CalledOn(calls[..|calls| - 1], h, accepted) + if c.handle == h && c.waiter in accepted then [c.waiter] else []
  }

  /** Those taken off a queue have been called, once each and in that order. */
  ghost predicate Delivered(w: World) {
    forall h :: h in w.sems ==> CalledOn(w.decided, h, w.sems[h].accepted) == w.sems[h].released
  }

  ghost predicate Inv(w: World) {
    Shaped(w) && Replied(w) && Balanced(w) && Registered(w) && Delivered(w)
  }

  // ---------- who is called ----------

  lemma {:induction false} CalledOnAppend(xs: seq<Call>, ys: seq<Call>, h: nat, accepted: seq<Waiter>)
    ensures CalledOn(xs + ys, h, accepted) == CalledOn(xs, h, accepted) + CalledOn(ys, h, accepted)
  {
    if ys == [] {
      assert xs + ys == xs;
    } else {
      var n := |ys| - 1;
      CalledOnAppend(xs, ys[..n], h, accepted);
      assert (xs + ys)[..|xs| + n] == xs + ys[..n];
    }
  }

  lemma {:induction false} CalledOnNone(calls: seq<Call>, h: nat, accepted: seq<Waiter>)
    requires forall c :: c in calls ==> c.handle != h || c.waiter !in accepted
    ensures CalledOn(calls, h, accepted) == []
  {
    if calls != [] { CalledOnNone(calls[..|calls| - 1], h, accepted); }
  }

  /** One callback on `h` for each of the waiters `ws`, in order. */
  ghost predicate CallsFor(calls: seq<Call>, h: nat, ws: seq<Waiter>) {
    |calls| == |ws| && forall i :: 0 <= i < |ws| ==> calls[i].handle == h && calls[i].waiter == ws[i]
  }

  lemma {:induction false} CalledOnAll(calls: seq<Call>, h: nat, ws: seq<Waiter>, accepted: seq<Waiter>)
    requires CallsFor(calls, h, ws) && forall x :: x in ws ==> x in accepted
    ensures CalledOn(calls, h, accepted) == ws
  {
    if ws != [] {
      var n := |ws| - 1;
      CalledOnAll(calls[..n], h, ws[..n], accepted);
      assert ws == ws[..n] + [ws[n]];
    }
  }

  lemma {:induction false} CalledOnHas(calls: seq<Call>, h: nat, accepted: seq<Waiter>, c: Call)
    requires c in calls && c.handle == h && c.waiter in accepted
    ensures c.waiter in CalledOn(calls, h, accepted)
  {
    var n := |calls| - 1;
    if c != calls[n] {
      assert calls == calls[..n] + [calls[n]];
      CalledOnHas(calls[..n], h, accepted, c);
    }
  }

  /** A waiter that has not been called may join without being mistaken for one that has. */
  lemma {:induction false} CalledOnGrows(calls: seq<Call>, h: nat, accepted: seq<Waiter>, x: Waiter)
    requires forall c :: c in calls ==> c.waiter != x
    ensures CalledOn(calls, h, accepted + [x]) == CalledOn(calls, h, accepted)
  {
    if calls != [] { CalledOnGrows(calls[..|calls| - 1], h, accepted, x); }
  }

  lemma {:induction false} CalledOnIn(calls: seq<Call>, h: nat, accepted: seq<Waiter>, x: Waiter) returns (c: Call)
    requires x in CalledOn(calls, h, accepted)
    ensures c in calls && c.handle == h && c.waiter == x
  {
    var n := |calls| - 1;
    if calls[n].waiter == x && calls[n].handle == h {
      c := calls[n];
    } else {
      c := CalledOnIn(calls[..n], h, accepted, x);
    }
  }

  lemma EarlierTicket(xs: seq<Waiter>, ys: seq<Waiter>, x: Waiter, y: Waiter)
    requires Ascending(xs + ys) && x in xs && y in ys
    ensures x.ticket < y.ticket
  {
    var i, j :| 0 <= i < |xs| && 0 <= j < |ys| && xs[i] == x && ys[j] == y;
    assert (xs + ys)[i] == x && (xs + ys)[|xs| + j] == y;
  }

  /** Nobody who still waits has been called. */
  lemma NotYetCalled(w: World, h: nat, x: Waiter)
    requires Shaped(w) && Registered(w) && Delivered(w) && h in w.sems && x in w.sems[h].waiters
    ensures !HasCall(w.decided, x.ticket)
  {
    hide CalledOn;
    var s := w.sems[h];
    if HasCall(w.decided, x.ticket) {
      var c :| c in w.decided && c.waiter.ticket == x.ticket;
      CalledOnHas(w.decided, h, s.accepted, c);
      EarlierTicket(s.released, s.waiters, c.waiter, x);
      assert false;
    }
  }

  // ---------- what every step keeps ----------

  lemma InitialInv()
    ensures Inv(Initial())
  {
  }

  lemma FlattenAppend(hands: seq<seq<Call>>, hand: seq<Call>)
    ensures Flatten(hands + [hand]) == Flatten(hands) + hand
  {
    assert (hands + [hand])[..|hands|] == hands;
  }

  lemma {:induction false} FlattenSplit(hands: seq<seq<Call>>, k: nat)
    requires k < |hands|
    ensures Flatten(hands) == Flatten(hands[..k]) + hands[k] + Flatten(hands[k + 1..])
    decreases |hands|
  {
    var n := |hands| - 1;
    if k < n {
      FlattenSplit(hands[..n], k);
      assert hands[..n][..k] == hands[..k];
      assert hands[..n][k + 1..] == hands[k + 1..][..n - k - 1];
      assert hands[k + 1..][n - k - 1] == hands[n];
    }
  }

  /** Running the next callback of a hand takes it out of what is left to run. */
  lemma FlattenFired(hands: seq<seq<Call>>, k: nat)
    requires k < |hands| && hands[k] != []
    ensures Flatten(hands) == Flatten(hands[..k]) + [hands[k][0]] + (hands[k][1..] + Flatten(hands[k + 1..]))
    ensures Flatten(hands[k := hands[k][1..]]) == Flatten(hands[..k]) + (hands[k][1..] + Flatten(hands[k + 1..]))
  {
    hide Flatten;
    var after := hands[k := hands[k][1..]];
    FlattenSplit(hands, k);
    FlattenSplit(after, k);
    assert after[..k] == hands[..k] && after[k + 1..] == hands[k + 1..];
    assert hands[k] == [hands[k][0]] + hands[k][1..];
  }

  lemma DecideKeepsBalance(w: World, calls: seq<Call>)
    requires Balanced(w)
    ensures Balanced(Decide(w, calls))
  {
    hide Flatten;
    FlattenAppend(w.hands, calls);
  }

  lemma FireKeepsBalance(w: World, k: nat)
    requires Balanced(w)
    ensures Balanced(Fire(w, k))
  {
    hide Flatten;
    if k < |w.hands| && w.hands[k] != [] { FlattenFired(w.hands, k); }
  }

  /** `s'` is `s` with the first `n` waiters taken off the queue. */
  ghost predicate Released(s: Sem, s': Sem, n: nat) {
    && n <= |s.waiters| && s'.accepted == s.accepted && s'.released == s.released + s.waiters[..n]
    && s'.value >= s.value && Orderly(s')
  }

  lemma ReleaseKeepsReplies(w: World, h: nat, s': Sem, calls: seq<Call>)
    requires Replied(w) && Live(w, h) && s'.value >= w.sems[h].value
    requires forall c :: c in calls ==> Answered(w.(sems := w.sems[h := s']), c)
    ensures Replied(Decide(w.(sems := w.sems[h := s']), calls))
  {
    forall c | c in w.decided ensures Answered(w.(sems := w.sems[h := s']), c) { assert Answered(w, c); }
  }

  lemma ReleaseKeepsDelivery(w: World, h: nat, n: nat, s': Sem, calls: seq<Call>)
    requires Shaped(w) && Delivered(w) && Live(w, h) && Released(w.sems[h], s', n)
    requires CallsFor(calls, h, w.sems[h].waiters[..n])
    ensures Delivered(Decide(w.(sems := w.sems[h := s']), calls))
  {
    hide CalledOn;
    var r := Decide(w.(sems := w.sems[h := s']), calls);
    forall g | g in r.sems ensures CalledOn(r.decided, g, r.sems[g].accepted) == r.sems[g].released {
      var accepted := r.sems[g].accepted;
      CalledOnAppend(w.decided, calls, g, accepted);
      if g == h {
        CalledOnAll(calls, h, w.sems[h].waiters[..n], accepted);
      } else {
        CalledOnNone(calls, g, accepted);
      }
    }
  }

  lemma ReleaseKeepsTickets(w: World, h: nat, n: nat, s': Sem, calls: seq<Call>)
    requires Shaped(w) && Registered(w) && Delivered(w) && Live(w, h) && Released(w.sems[h], s', n)
    requires CallsFor(calls, h, w.sems[h].waiters[..n])
    ensures Registered(Decide(w.(sems := w.sems[h := s']), calls))
  {
    hide CalledOn, NobodyForgotten;
    ReleaseForgetsNobody(w, h, s', calls);
    var s := w.sems[h];
    forall i | 0 <= i < n ensures !HasCall(w.decided, calls[i].waiter.ticket) {
      NotYetCalled(w, h, s.waiters[i]);
    }
    CallsDistinct(s, calls, h, n);
    CallsKnown(w, h, n, calls);
    ReleaseKnown(w, h, s', calls);
  }

  lemma ReleaseKnown(w: World, h: nat, s': Sem, calls: seq<Call>)
    requires JoinersKnown(w) && CalledKnown(w) && Live(w, h) && s'.accepted == w.sems[h].accepted
    requires DistinctTickets(calls) && forall j :: 0 <= j < |calls| ==> !HasCall(w.decided, calls[j].waiter.ticket)
    requires forall c :: c in calls ==> CallKnown(w, c)
    ensures var r := Decide(w.(sems := w.sems[h := s']), calls); JoinersKnown(r) && CalledKnown(r)
  {
    hide Ascending, HasCall, DistinctTickets;
    DistinctAppend(w.decided, calls);
    var r := Decide(w.(sems := w.sems[h := s']), calls);
    assert forall g :: g in w.sems ==> r.sems[g].accepted == w.sems[g].accepted;
    forall c | c in r.decided ensures CallKnown(r, c) { assert CallKnown(w, c); }
  }

  lemma ReleaseForgetsNobody(w: World, h: nat, s': Sem, calls: seq<Call>)
    requires NobodyForgotten(w) && Live(w, h) && s'.accepted == w.sems[h].accepted
    ensures NobodyForgotten(Decide(w.(sems := w.sems[h := s']), calls))
  {
    hide HasTicket, HasCall;
    var r := Decide(w.(sems := w.sems[h := s']), calls);
    forall t | 0 <= t < |r.asked| ensures Remembered(r, r.asked[t].handle, t) {
      assert Remembered(w, w.asked[t].handle, t);
      HasCallGrows(w.decided, calls, t);
    }
  }

  lemma HasCallGrows(xs: seq<Call>, ys: seq<Call>, t: nat)
    ensures HasCall(xs, t) ==> HasCall(xs + ys, t)
  {
    if HasCall(xs, t) {
      var c :| c in xs && c.waiter.ticket == t;
      assert c in xs + ys;
    }
  }

  lemma CallsDistinct(s: Sem, calls: seq<Call>, h: nat, n: nat)
    requires Orderly(s) && Ascending(s.accepted) && n <= |s.waiters| && CallsFor(calls, h, s.waiters[..n])
    ensures DistinctTickets(calls)
  {
    forall i, j | 0 <= i < j < n ensures calls[i].waiter.ticket != calls[j].waiter.ticket {
      assert s.accepted[|s.released| + i] == s.waiters[i] && s.accepted[|s.released| + j] == s.waiters[j];
    }
  }

  lemma DistinctAppend(xs: seq<Call>, ys: seq<Call>)
    requires DistinctTickets(xs) && DistinctTickets(ys)
    requires forall j :: 0 <= j < |ys| ==> !HasCall(xs, ys[j].waiter.ticket)
    ensures DistinctTickets(xs + ys)
  {
    forall i, j | 0 <= i < |xs| && 0 <= j < |ys| ensures xs[i].waiter.ticket != ys[j].waiter.ticket {
      assert xs[i] in xs;
    }
  }

  lemma CallsKnown(w: World, h: nat, n: nat, calls: seq<Call>)
    requires Shaped(w) && JoinersKnown(w) && Live(w, h) && n <= |w.sems[h].waiters|
    requires CallsFor(calls, h, w.sems[h].waiters[..n])
    ensures forall c :: c in calls ==> CallKnown(w, c)
  {
    var s := w.sems[h];
    forall c | c in calls ensures CallKnown(w, c) {
      var i :| 0 <= i < n && calls[i] == c;
      assert s.waiters[i] in s.accepted;
    }
  }

  /** Only the semaphore `h` moved: it let its first `n` waiters go, and decided to call them. */
  lemma ReleaseKeepsInv(w: World, h: nat, n: nat, s': Sem, calls: seq<Call>)
    requires Inv(w) && Live(w, h) && Released(w.sems[h], s', n) && CallsFor(calls, h, w.sems[h].waiters[..n])
    requires forall c :: c in calls ==> Answered(w.(sems := w.sems[h := s']), c)
    ensures Inv(Decide(w.(sems := w.sems[h := s']), calls))
  {
    hide Replied, Registered, Delivered, Balanced, Answered;
    var v := w.(sems := w.sems[h := s']);
    ReleaseKeepsReplies(w, h, s', calls);
    ReleaseKeepsDelivery(w, h, n, s', calls);
    ReleaseKeepsTickets(w, h, n, s', calls);
    SameBalance(w, v);
    DecideKeepsBalance(v, calls);
  }

  lemma SameBalance(w: World, v: World)
    requires Balanced(w) && v.decided == w.decided && v.fired == w.fired && v.hands == w.hands
    ensures Balanced(v)
  {
  }

  lemma OrderlyAt(w: World, h: nat)
    requires Inv(w) && h in w.sems
    ensures Orderly(w.sems[h])
  {
  }

  lemma SignalKeepsInv(w: World, h: nat, v: nat)
    requires Inv(w)
    ensures Inv(Signal(w, h, v))
  {
    hide Inv;
    if Live(w, h) && v > w.sems[h].value {
      var s := w.sems[h];
      var n := ReadyCount(s.waiters, v);
      OrderlyAt(w, h);
      assert s.waiters[..n] + s.waiters[n..] == s.waiters;
      ReleaseKeepsInv(w, h, n, Release(s, n).(value := v), SignalCalls(h, s.waiters[..n], v));
    }
  }

  lemma DestroyKeepsInv(w: World, h: nat)
    requires Inv(w)
    ensures Inv(Destroy(w, h))
  {
    hide Inv;
    if Live(w, h) {
      var s := w.sems[h];
      var n := |s.waiters|;
      OrderlyAt(w, h);
      assert s.waiters[..n] == s.waiters && s.waiters + [] == s.waiters;
      ReleaseKeepsInv(w, h, n, Release(s, n).(destroyed := true), DestroyCalls(h, s.waiters));
    }
  }

  /** A wait call that is answered at once. */
  lemma AnswerKeepsInv(w: World, h: nat, x: Waiter)
    requires Inv(w) && Live(w, h) && x.ticket == |w.asked| && x.expected <= w.sems[h].value
    ensures Inv(Decide(w.(asked := w.asked + [Ask(h, x.expected, x.user)]), [Call(h, x, w.sems[h].value)]))
  {
    hide Flatten, CalledOn, Orderly, Registered;
    var w1, c := w.(asked := w.asked + [Ask(h, x.expected, x.user)]), Call(h, x, w.sems[h].value);
    var r := Decide(w1, [c]);
    SameBalance(w, w1);
    DecideKeepsBalance(w1, [c]);
    forall d | d in w.decided ensures Answered(r, d) { assert Answered(w, d); }
    AnswerKeepsTickets(w, h, x);
    forall g | g in r.sems ensures CalledOn(r.decided, g, r.sems[g].accepted) == r.sems[g].released {
      CalledOnAppend(w.decided, [c], g, r.sems[g].accepted);
      NeverJoined(w, g, x);
      CalledOnNone([c], g, r.sems[g].accepted);
    }
  }

  lemma NeverJoined(w: World, g: nat, x: Waiter)
    requires Registered(w) && g in w.sems && x.ticket == |w.asked|
    ensures x !in w.sems[g].accepted
  {
  }

  lemma AnswerKeepsTickets(w: World, h: nat, x: Waiter)
    requires Registered(w) && Live(w, h) && x.ticket == |w.asked|
    ensures Registered(Decide(w.(asked := w.asked + [Ask(h, x.expected, x.user)]), [Call(h, x, w.sems[h].value)]))
  {
    hide Ascending;
    var c := Call(h, x, w.sems[h].value);
    var r := Decide(w.(asked := w.asked + [Ask(h, x.expected, x.user)]), [c]);
    DistinctAppend(w.decided, [c]);
    forall d | d in r.decided ensures CallKnown(r, d) { assert d != c ==> CallKnown(w, d); }
    forall t | 0 <= t < |r.asked| ensures Remembered(r, r.asked[t].handle, t) {
      if t < |w.asked| {
        assert Remembered(w, w.asked[t].handle, t);
        HasCallGrows(w.decided, [c], t);
      } else {
        assert c in r.decided;
      }
    }
  }

  lemma JoinKeepsDelivery(w: World, h: nat, x: Waiter)
    requires Registered(w) && Delivered(w) && Live(w, h) && x.ticket == |w.asked|
    ensures Delivered(w.(asked := w.asked + [Ask(h, x.expected, x.user)], sems := w.sems[h := Joined(w.sems[h], x)]))
  {
    hide CalledOn;
    CalledOnGrows(w.decided, h, w.sems[h].accepted, x);
  }

  lemma JoinKeepsTickets(w: World, h: nat, x: Waiter)
    requires Registered(w) && Live(w, h) && x.ticket == |w.asked|
    ensures Registered(w.(asked := w.asked + [Ask(h, x.expected, x.user)], sems := w.sems[h := Joined(w.sems[h], x)]))
  {
    hide Ascending, HasTicket, HasCall, DistinctTickets;
    var r := w.(asked := w.asked + [Ask(h, x.expected, x.user)], sems := w.sems[h := Joined(w.sems[h], x)]);
    LastTicket(w.sems[h].accepted, x);
    forall d | d in r.decided ensures CallKnown(r, d) { assert CallKnown(w, d); }
    forall t | 0 <= t < |r.asked| ensures Remembered(r, r.asked[t].handle, t) {
      if t < |w.asked| {
        assert Remembered(w, w.asked[t].handle, t);
        HasTicketGrows(w.sems[h].accepted, x, t);
      } else {
        TicketOf(r.sems[h].accepted, x);
      }
    }
  }

  lemma HasTicketGrows(ws: seq<Waiter>, x: Waiter, t: nat)
    ensures HasTicket(ws, t) ==> HasTicket(ws + [x], t)
  {
    if HasTicket(ws, t) {
      var y :| y in ws && y.ticket == t;
      assert y in ws + [x];
    }
  }

  lemma TicketOf(ws: seq<Waiter>, x: Waiter)
    requires x in ws
    ensures HasTicket(ws, x.ticket)
  {
  }

  lemma LastTicket(ws: seq<Waiter>, x: Waiter)
    requires Ascending(ws) && forall y :: y in ws ==> y.ticket < x.ticket
    ensures Ascending(ws + [x])
  {
    forall i | 0 <= i < |ws| ensures ws[i].ticket < x.ticket { assert ws[i] in ws; }
  }

  /** A wait call that joins the queue. */
  lemma JoinKeepsInv(w: World, h: nat, x: Waiter)
    requires Inv(w) && Live(w, h) && x.ticket == |w.asked| && x.expected > w.sems[h].value
    ensures Inv(w.(asked := w.asked + [Ask(h, x.expected, x.user)], sems := w.sems[h := Joined(w.sems[h], x)]))
  {
    hide Flatten, CalledOn, Registered, Delivered;
    var s := w.sems[h];
    var r := w.(asked := w.asked + [Ask(h, x.expected, x.user)], sems := w.sems[h := Joined(s, x)]);
    SameBalance(w, r);
    assert s.released + (s.waiters + [x]) == s.accepted + [x];
    forall d | d in w.decided ensures Answered(r, d) { assert Answered(w, d); }
    JoinKeepsDelivery(w, h, x);
    JoinKeepsTickets(w, h, x);
  }

  lemma WaitKeepsInv(w: World, h: nat, expected: nat, user: nat)
    requires Inv(w)
    ensures Inv(Wait(w, h, expected, user))
  {
    hide Inv;
    if Live(w, h) {
      var x := Waiter(|w.asked|, expected, user);
      if w.sems[h].value >= expected {
        AnswerKeepsInv(w, h, x);
      } else {
        JoinKeepsInv(w, h, x);
      }
    }
  }

  lemma CreateKeepsTickets(w: World, initial: nat)
    requires Shaped(w) && Registered(w)
    ensures Registered(Create(w, initial))
  {
    hide HasTicket, HasCall, DistinctTickets;
    var r := Create(w, initial);
    assert forall g :: g in w.sems ==> r.sems[g] == w.sems[g];
    forall d | d in r.decided ensures CallKnown(r, d) { assert CallKnown(w, d); }
    forall t | 0 <= t < |r.asked| ensures Remembered(r, r.asked[t].handle, t) { assert Remembered(w, w.asked[t].handle, t); }
  }

  lemma CreateKeepsInv(w: World, initial: nat)
    requires Inv(w)
    ensures Inv(Create(w, initial))
  {
    hide Flatten, CalledOn, Registered;
    var r := Create(w, initial);
    SameBalance(w, r);
    forall c | c in w.decided ensures Answered(r, c) { assert Answered(w, c); }
    CalledOnNone(w.decided, w.next, []);
    CreateKeepsTickets(w, initial);
  }

  lemma FireKeepsInv(w: World, k: nat)
    requires Inv(w)
    ensures Inv(Fire(w, k))
  {
    hide Balanced, CalledOn;
    FireKeepsBalance(w, k);
  }

  lemma StepKeepsInv(w: World, a: Action)
    requires Inv(w)
    ensures Inv(Step(w, a))
  {
    hide Inv;
    match a {
      case Creating(initial) => CreateKeepsInv(w, initial);
      case Signalling(h, value) => SignalKeepsInv(w, h, value);
      case Waiting(h, expected, user) => WaitKeepsInv(w, h, expected, user);
      case Destroying(h) => DestroyKeepsInv(w, h);
      case Firing(k) => FireKeepsInv(w, k);
    }
  }

  /** In every interleaving of calls and callbacks. */
  lemma {:induction false} RunKeepsInv(w: World, run: seq<Action>)
    requires Inv(w)
    ensures Inv(Run(w, run))
    decreases |run|
  {
    hide Inv, Step;
    if run != [] {
      StepKeepsInv(w, run[0]);
      RunKeepsInv(Step(w, run[0]), run[1..]);
    }
  }

  // ---------- what the callers asked for, from the actions alone ----------

  datatype Status = Missing | Alive(value: nat) | Dead

  /** How many semaphores have been created; they are numbered from one. */
  function Made(run: seq<Action>): nat {
    if run == [] then 0 else Made(run[..|run| - 1]) + if run[|run| - 1].Creating? then 1 else 0
  }

  /** What has become of semaphore `h`. */
  function StatusOf(run: seq<Action>, h: nat): Status {
    if run == [] then Missing
    else
      var prev := run[..|run| - 1];
      var was := StatusOf(prev, h);
      match run[|run| - 1]
      case Creating(initial) => if h == Made(prev) + 1 then Alive(initial) else was
      case Signalling(g, v) => if g == h && was.Alive? && v > was.value then Alive(v) else was
      case Destroying(g) => if g == h && was.Alive? then Dead else was
      case _ => was
  }

  /** The wait calls that named a living semaphore. */
  function Asks(run: seq<Action>): seq<Ask> {
    if run == [] then []
    else
      var prev, a := run[..|run| - 1], run[|run| - 1];
      if a.Waiting? && StatusOf(prev, a.h).Alive? then Asks(prev) + [Ask(a.h, a.expected, a.user)] else Asks(prev)
  }

  ghost function Now(w: World, h: nat): Status {
    if h !in w.sems then Missing else if w.sems[h].destroyed then Dead else Alive(w.sems[h].value)
  }

  ghost predicate Tracks(w: World, run: seq<Action>) {
    w.next == 1 + Made(run) && w.asked == Asks(run) && forall h :: Now(w, h) == StatusOf(run, h)
  }

  lemma StepTracks(w: World, run: seq<Action>, a: Action)
    requires Shaped(w) && Tracks(w, run)
    ensures Tracks(Step(w, a), run + [a])
  {
    hide ReadyCount, Orderly;
    Longer(run, a);
    var r := Step(w, a);
    forall h ensures Now(r, h) == StatusOf(run + [a], h) { assert Now(w, h) == StatusOf(run, h); }
    if a.Waiting? { assert Now(w, a.h) == StatusOf(run, a.h); }
  }

  /** The action list after one more action. */
  lemma Longer(run: seq<Action>, a: Action)
    ensures (run + [a])[..|run + [a]| - 1] == run && (run + [a])[|run + [a]| - 1] == a
  {
  }

  lemma {:induction false} RunLast(w: World, run: seq<Action>)
    requires run != []
    ensures Run(w, run) == Step(Run(w, run[..|run| - 1]), run[|run| - 1])
    decreases |run|
  {
    hide Step;
    if |run| > 1 {
      RunLast(Step(w, run[0]), run[1..]);
      assert run[1..][..|run| - 2] == run[..|run| - 1][1..];
    } else {
      assert run[..0] == [] && run[1..] == [];
    }
  }

  /** After every run each semaphore created, and no other, is there with the highest value it was
      created with or signalled, or dead once destroyed; and the waits accepted are those that
      named a living semaphore, with the callers' arguments. */
  lemma {:induction false} RunTracks(run: seq<Action>)
    ensures Tracks(Run(Initial(), run), run)
  {
    hide Step, Tracks, Inv;
    if run == [] {
      StartTracks();
    } else {
      var prev := run[..|run| - 1];
      RunTracks(prev);
      InitialInv();
      RunKeepsInv(Initial(), prev);
      ShapedAt(Run(Initial(), prev));
      RunLast(Initial(), run);
      StepTracks(Run(Initial(), prev), prev, run[|run| - 1]);
      assert prev + [run[|run| - 1]] == run;
    }
  }

  lemma StartTracks()
    ensures Tracks(Run(Initial(), []), [])
  {
  }

  lemma ShapedAt(w: World)
    requires Inv(w)
    ensures Shaped(w)
  {
  }

  /** A callback decided on by a destruction gets its waiter's own datum, any other the value the
      semaphore has at that moment. */
  lemma DecidedArguments(w: World, a: Action, i: nat)
    requires |w.decided| <= i < |Step(w, a).decided|
    ensures w.decided <= Step(w, a).decided
    ensures var r := Step(w, a);
            var c := r.decided[i];
            c.handle in r.sems && c.arg == if a.Destroying? then c.waiter.user else r.sems[c.handle].value
  {
  }

  /** A call that has callbacks left runs the next of them. */
  lemma FireAdvances(w: World, k: nat)
    requires k < |w.hands| && w.hands[k] != []
    ensures var r := Step(w, Firing(k));
            r.fired == w.fired + [w.hands[k][0]] && |Flatten(r.hands)| == |Flatten(w.hands)| - 1
  {
    hide Flatten;
    FlattenFired(w.hands, k);
  }

  // ---------- everybody is called once ----------

  lemma {:induction false} DistinctCounts(calls: seq<Call>, c: Call)
    requires DistinctTickets(calls)
    ensures multiset(calls)[c] <= 1
  {
    if calls != [] {
      var n := |calls| - 1;
      DistinctCounts(calls[..n], c);
      assert calls == calls[..n] + [calls[n]];
      if c == calls[n] { assert c !in calls[..n]; }
    }
  }

  /** Reordering callbacks gives nobody a second one. */
  lemma DistinctPermuted(xs: seq<Call>, ys: seq<Call>)
    requires DistinctTickets(xs) && multiset(xs) == multiset(ys)
    ensures DistinctTickets(ys)
  {
    forall i, j | 0 <= i < j < |ys| ensures ys[i].waiter.ticket != ys[j].waiter.ticket {
      var c, d := ys[i], ys[j];
      assert c in multiset(ys) && d in multiset(ys);
      if c == d {
        assert ys == ys[..j] + [d] + ys[j + 1..] && c in ys[..j];
        DistinctCounts(xs, c);
        assert false;
      } else {
        assert c in xs && d in xs;
      }
    }
  }

  /** After every run, each accepted wait call is in exactly one of three places: in the queue of
      the semaphore it named, in the hand of a call about to run its callback, or called; and
      no waiter is called twice. */
  lemma ExactlyOnce(run: seq<Action>, t: nat)
    requires t < |Run(Initial(), run).asked|
    ensures var w := Run(Initial(), run);
            && w.asked == Asks(run) && w.asked[t].handle in w.sems
            && var queued, handed, called := HasTicket(w.sems[w.asked[t].handle].waiters, t), HasCall(Flatten(w.hands), t), HasCall(w.fired, t);
               (queued || handed || called) && !(queued && handed) && !(queued && called) && !(handed && called)
    ensures var w := Run(Initial(), run); DistinctTickets(w.fired + Flatten(w.hands))
  {
    hide Run, Flatten;
    InitialInv();
    RunKeepsInv(Initial(), run);
    RunTracks(run);
    OneOfThree(Run(Initial(), run), t);
  }

  lemma OneOfThree(w: World, t: nat)
    requires Inv(w) && t < |w.asked|
    ensures var queued, handed, called := HasTicket(w.sems[w.asked[t].handle].waiters, t), HasCall(Flatten(w.hands), t), HasCall(w.fired, t);
            (queued || handed || called) && !(queued && handed) && !(queued && called) && !(handed && called)
    ensures DistinctTickets(w.fired + Flatten(w.hands))
  {
    hide Flatten, CalledOn, Answered;
    var hands := Flatten(w.hands);
    DistinctPermuted(w.decided, w.fired + hands);
    assert forall c :: c in w.decided <==> c in w.fired || c in hands by {
      forall c ensures c in w.decided <==> c in w.fired || c in hands { assert c in w.decided <==> c in multiset(w.decided); }
    }
    assert HasCall(w.decided, t) <==> HasCall(w.fired, t) || HasCall(hands, t);
    forall x, y | x in w.fired && y in hands ensures x.waiter.ticket != y.waiter.ticket {
      NotInBoth(w.fired, hands, x, y);
    }
    QueuedOrCalled(w, t);
  }

  lemma NotInBoth(xs: seq<Call>, ys: seq<Call>, x: Call, y: Call)
    requires DistinctTickets(xs + ys) && x in xs && y in ys
    ensures x.waiter.ticket != y.waiter.ticket
  {
    var i, j :| 0 <= i < |xs| && 0 <= j < |ys| && xs[i] == x && ys[j] == y;
    assert (xs + ys)[i] == x && (xs + ys)[|xs| + j] == y;
  }

  lemma QueuedOrCalled(w: World, t: nat)
    requires Inv(w) && t < |w.asked|
    ensures w.asked[t].handle in w.sems && (HasTicket(w.sems[w.asked[t].handle].waiters, t) <==> !HasCall(w.decided, t))
  {
    hide CalledOn, Answered, Balanced;
    var h := w.asked[t].handle;
    var s := w.sems[h];
    if HasTicket(s.waiters, t) {
      var x :| x in s.waiters && x.ticket == t;
      NotYetCalled(w, h, x);
    } else if HasTicket(s.accepted, t) {
      var x :| x in s.accepted && x.ticket == t;
      assert x in s.released;
      var c := CalledOnIn(w.decided, h, s.accepted, x);
    }
  }

  /** Values only grow, and only by a signal of exactly the new value. */
  lemma ValuesGrow(w: World, a: Action, h: nat)
    requires Inv(w) && h in w.sems
    ensures h in Step(w, a).sems && Step(w, a).sems[h].value >= w.sems[h].value
    ensures Step(w, a).sems[h].value != w.sems[h].value ==> a == Signalling(h, Step(w, a).sems[h].value)
  {
  }

  // ---------- who is woken ----------

  /** A signal takes a waiter off the queue exactly when it satisfies that waiter and every one
      before it. */
  lemma WokenIff(w: World, h: nat, v: nat, k: nat)
    requires Live(w, h) && v > w.sems[h].value && k < |w.sems[h].waiters|
    ensures Signal(w, h, v).sems[h].released
            == w.sems[h].released + w.sems[h].waiters[..ReadyCount(w.sems[h].waiters, v)]
    ensures k < ReadyCount(w.sems[h].waiters, v)
            <==> forall j :: 0 <= j <= k ==> w.sems[h].waiters[j].expected <= v
  {
  }

  ghost predicate Nondecreasing(ws: seq<Waiter>) {
    forall i, j :: 0 <= i < j < |ws| ==> ws[i].expected <= ws[j].expected
  }

  ghost predicate NoneReady(s: Sem) { forall x :: x in s.waiters ==> x.expected > s.value }

  /** Nobody waits for a value already reached. */
  ghost predicate NobodyReady(w: World) { forall h :: h in w.sems ==> NoneReady(w.sems[h]) }

  /** The value satisfies a waiter that stands behind one it does not satisfy. */
  ghost predicate PassesBy(ws: seq<Waiter>, v: nat) {
    exists i, j :: 0 <= i < j < |ws| && ws[j].expected <= v < ws[i].expected
  }

  ghost predicate Strands(w: World, a: Action) {
    a.Signalling? && Live(w, a.h) && a.value > w.sems[a.h].value && PassesBy(w.sems[a.h].waiters, a.value)
  }

  /** Exactly such a signal leaves somebody waiting for a value already reached. */
  lemma StrandedIff(w: World, a: Action)
    requires NobodyReady(w)
    ensures NobodyReady(Step(w, a)) <==> !Strands(w, a)
  {
    if a.Signalling? && Live(w, a.h) && a.value > w.sems[a.h].value {
      SignalStrands(w, a.h, a.value);
    }
  }

  lemma SignalStrands(w: World, h: nat, v: nat)
    requires NobodyReady(w) && Live(w, h) && v > w.sems[h].value
    ensures NobodyReady(Signal(w, h, v)) <==> !PassesBy(w.sems[h].waiters, v)
  {
    hide NoneReady, PassesBy, ReadyCount;
    var s := w.sems[h];
    var s' := Release(s, ReadyCount(s.waiters, v)).(value := v);
    var r := Signal(w, h, v);
    assert r.sems == w.sems[h := s'];
    BehindHead(s, v);
    assert h in r.sems && r.sems[h] == s';
  }

  /** Behind the head a value does not satisfy, it satisfies a waiter exactly when it passes one
      by. */
  lemma BehindHead(s: Sem, v: nat)
    ensures NoneReady(Release(s, ReadyCount(s.waiters, v)).(value := v)) <==> !PassesBy(s.waiters, v)
  {
    hide PassesBy;
    var n := ReadyCount(s.waiters, v);
    if PassesBy(s.waiters, v) {
      PassedStays(s.waiters, n, v);
    } else {
      forall x | x in s.waiters[n..] ensures x.expected > v { LeftIsPassed(s.waiters, n, v, x); }
    }
  }

  lemma PassedStays(ws: seq<Waiter>, n: nat, v: nat)
    requires n <= |ws| && PassesBy(ws, v) && forall i :: 0 <= i < n ==> ws[i].expected <= v
    ensures exists x :: x in ws[n..] && x.expected <= v
  {
    var i, j :| 0 <= i < j < |ws| && ws[j].expected <= v < ws[i].expected;
    assert ws[n..][j - n] == ws[j];
  }

  lemma LeftIsPassed(ws: seq<Waiter>, n: nat, v: nat, x: Waiter)
    requires n < |ws| && ws[n].expected > v && x in ws[n..] && !PassesBy(ws, v)
    ensures x.expected > v
  {
    var k :| 0 <= k < |ws| - n && ws[n..][k] == x;
    assert ws[n + k] == x;
  }

  ghost predicate NeverReady(w: World, run: seq<Action>)
    decreases |run|
  {
    NobodyReady(w) && (run != [] ==> NeverReady(Step(w, run[0]), run[1..]))
  }

  ghost predicate NoneStrands(w: World, run: seq<Action>)
    decreases |run|
  {
    run != [] ==> !Strands(w, run[0]) && NoneStrands(Step(w, run[0]), run[1..])
  }

  /** Over every run: nobody ever waits for a value already reached exactly when no signal
      passes one by. */
  lemma {:induction false} NeverReadyIff(w: World, run: seq<Action>)
    requires NobodyReady(w)
    ensures NeverReady(w, run) <==> NoneStrands(w, run)
    decreases |run|
  {
    hide NobodyReady, Strands, Step;
    if run != [] {
      StrandedIff(w, run[0]);
      if !Strands(w, run[0]) { NeverReadyIff(Step(w, run[0]), run[1..]); }
    }
  }

  /** A queue is safe from every signal exactly when its waiters want nondecreasing values. */
  lemma SafeQueueIff(w: World, h: nat)
    requires NobodyReady(w) && Live(w, h)
    ensures Nondecreasing(w.sems[h].waiters) <==> forall v :: !Strands(w, Signalling(h, v))
  {
    var ws := w.sems[h].waiters;
    if !Nondecreasing(ws) {
      var i, j :| 0 <= i < j < |ws| && ws[i].expected > ws[j].expected;
      assert ws[j] in ws;
      assert Strands(w, Signalling(h, ws[j].expected));
    }
  }

  /** If the waiters of a semaphore registered with nondecreasing values, none that is satisfied
      is ever left waiting. */
  lemma NobodyStuck(run: seq<Action>, h: nat, k: nat)
    requires var w := Run(Initial(), run);
             h in w.sems && Nondecreasing(w.sems[h].accepted) && k < |w.sems[h].waiters|
    ensures var w := Run(Initial(), run); w.sems[h].waiters[k].expected > w.sems[h].value
  {
    hide Inv, Run;
    InitialInv();
    RunKeepsInv(Initial(), run);
    OrderlyAt(Run(Initial(), run), h);
    var s := Run(Initial(), run).sems[h];
    var n := |s.released|;
    assert s.accepted[n] == s.waiters[0] && s.accepted[n + k] == s.waiters[k];
  }

  /** Otherwise one can be: behind a head that wants more, a satisfied waiter stays. */
  lemma StuckBehind(w: World, h: nat, high: nat, low: nat, v: nat)
    requires Live(w, h) && w.sems[h].waiters == []
    requires w.sems[h].value < low <= v < high
    ensures var r := Step(Step(Step(w, Waiting(h, high, 0)), Waiting(h, low, 0)), Signalling(h, v));
            Live(r, h) && r.sems[h].value == v && |r.sems[h].waiters| == 2 && r.sems[h].waiters[1].expected <= v
  {
    var w1 := Step(w, Waiting(h, high, 0));
    assert |w1.sems[h].waiters| == 1 && w1.sems[h].waiters[0].expected == high;
    var w2 := Step(w1, Waiting(h, low, 0));
    assert |w2.sems[h].waiters| == 2 && w2.sems[h].waiters[0].expected == high && w2.sems[h].waiters[1].expected == low;
    assert ReadyCount(w2.sems[h].waiters, v) == 0;
  }

  // ---------- the order callbacks run in ----------

  /** A callback runs while one decided on earlier is still to come. */
  ghost predicate Overtakes(w: World, a: Action) {
    a.Firing? && a.k < |w.hands| && w.hands[a.k] != [] && exists j :: 0 <= j < a.k && w.hands[j] != []
  }

  /** What has run and what is left to run are, in this order, what was decided on. */
  ghost predicate InOrder(w: World) { w.decided == w.fired + Flatten(w.hands) }

  lemma {:induction false} FlattenEmpty(hands: seq<seq<Call>>)
    ensures Flatten(hands) == [] <==> forall k :: 0 <= k < |hands| ==> hands[k] == []
  {
    if hands != [] {
      var n := |hands| - 1;
      FlattenEmpty(hands[..n]);
      assert forall k :: 0 <= k < n ==> hands[..n][k] == hands[k];
      assert Flatten(hands) == [] <==> Flatten(hands[..n]) == [] && hands[n] == [];
    }
  }

  /** A step takes the callbacks out of order exactly when it overtakes: what has run is then no
      longer how the decisions began. */
  lemma StepInOrderIff(w: World, a: Action)
    requires Inv(w) && InOrder(w)
    ensures InOrder(Step(w, a)) <==> !Overtakes(w, a)
    ensures Overtakes(w, a) ==> !(Step(w, a).fired <= Step(w, a).decided)
  {
    hide Flatten, Inv;
    match a {
      case Creating(initial) =>
      case Signalling(h, value) => if Signal(w, h, value) != w { FlattenAppend(w.hands, Signal(w, h, value).hands[|w.hands|]); }
      case Waiting(h, expected, user) => if Wait(w, h, expected, user) != w { WaitInOrder(w, h, expected, user); }
      case Destroying(h) => if Live(w, h) { FlattenAppend(w.hands, DestroyCalls(h, w.sems[h].waiters)); }
      case Firing(k) => if k < |w.hands| && w.hands[k] != [] { FireInOrderIff(w, k); }
    }
  }

  lemma WaitInOrder(w: World, h: nat, expected: nat, user: nat)
    requires InOrder(w)
    ensures InOrder(Wait(w, h, expected, user))
  {
    hide Flatten;
    if Live(w, h) {
      FlattenAppend(w.hands, [Call(h, Waiter(|w.asked|, expected, user), w.sems[h].value)]);
    }
  }

  lemma FireInOrderIff(w: World, k: nat)
    requires Inv(w) && InOrder(w) && k < |w.hands| && w.hands[k] != []
    ensures InOrder(Fire(w, k)) <==> forall j :: 0 <= j < k ==> w.hands[j] == []
    ensures (exists j :: 0 <= j < k && w.hands[j] != []) ==> !(Fire(w, k).fired <= Fire(w, k).decided)
  {
    hide Flatten, CalledOn, Orderly, Answered;
    var c, before := w.hands[k][0], Flatten(w.hands[..k]);
    FlattenFired(w.hands, k);
    FlattenEmpty(w.hands[..k]);
    assert forall j :: 0 <= j < k ==> w.hands[..k][j] == w.hands[j];
    if before != [] {
      assert w.decided[|w.fired|] == before[0];
      assert w.decided[|w.fired| + |before|] == c;
      assert Fire(w, k).fired[|w.fired|] == c;
    }
  }

  ghost predicate NoneOvertakes(w: World, run: seq<Action>)
    decreases |run|
  {
    run != [] ==> !Overtakes(w, run[0]) && NoneOvertakes(Step(w, run[0]), run[1..])
  }

  /** Both records only grow. */
  lemma RecordsGrow(w: World, a: Action)
    ensures w.fired <= Step(w, a).fired && w.decided <= Step(w, a).decided
  {
  }

  lemma {:induction false} OnceOutOfOrder(w: World, run: seq<Action>)
    requires Inv(w) && !(w.fired <= w.decided)
    ensures !(Run(w, run).fired <= Run(w, run).decided)
    decreases |run|
  {
    hide Inv, Step;
    if run != [] {
      var r := Step(w, run[0]);
      StepKeepsInv(w, run[0]);
      RecordsGrow(w, run[0]);
      FiredIsDecided(w);
      OnceOutOfOrder(r, run[1..]);
    }
  }

  lemma FiredIsDecided(w: World)
    requires Inv(w)
    ensures |w.fired| <= |w.decided|
  {
    hide Flatten;
    assert |multiset(w.decided)| == |multiset(w.fired)| + |multiset(Flatten(w.hands))|;
  }

  lemma {:induction false} InOrderFromIff(w: World, run: seq<Action>)
    requires Inv(w) && InOrder(w)
    ensures Run(w, run).fired <= Run(w, run).decided <==> NoneOvertakes(w, run)
    decreases |run|
  {
    hide Inv, Step, Overtakes;
    if run != [] {
      StepKeepsInv(w, run[0]);
      StepInOrderIff(w, run[0]);
      if Overtakes(w, run[0]) {
        OnceOutOfOrder(Step(w, run[0]), run[1..]);
      } else {
        InOrderFromIff(Step(w, run[0]), run[1..]);
      }
    }
  }

  /** The callbacks of a run ran in the order they were decided on exactly when none overtook. */
  lemma InOrderIff(run: seq<Action>)
    ensures var w := Run(Initial(), run);
            w.fired <= w.decided <==> NoneOvertakes(Initial(), run)
  {
    InitialInv();
    InOrderFromIff(Initial(), run);
  }

  /** No call starts before the callbacks of the one before are done. */
  ghost predicate OneAtATime(w: World, run: seq<Action>)
    decreases |run|
  {
    run != [] ==> (run[0].Firing? || Flatten(w.hands) == []) && OneAtATime(Step(w, run[0]), run[1..])
  }

  /** One call at a time, callbacks run in the order they were decided on. */
  lemma {:induction false} OneAtATimeInOrder(w: World, run: seq<Action>)
    requires OneAtATime(w, run) && forall k :: 0 <= k < |w.hands| - 1 ==> w.hands[k] == []
    ensures NoneOvertakes(w, run)
    decreases |run|
  {
    hide Flatten;
    if run != [] {
      FlattenEmpty(w.hands);
      OneAtATimeInOrder(Step(w, run[0]), run[1..]);
    }
  }

  /** Two overlapping signals can run the callbacks of the later registered waiter first. */
  lemma OverlapReorders(w: World, h: nat)
    requires Inv(w) && Live(w, h) && w.hands == [] && |w.sems[h].waiters| == 2
    requires w.sems[h].waiters[0].expected < w.sems[h].waiters[1].expected
    ensures var x, y := w.sems[h].waiters[0], w.sems[h].waiters[1];
            var r := Step(Step(Step(Step(w, Signalling(h, x.expected)), Signalling(h, y.expected)), Firing(1)), Firing(0));
            r.fired == w.fired + [Call(h, y, y.expected), Call(h, x, x.expected)]
  {
    hide Inv, Signal;
    var x, y := w.sems[h].waiters[0], w.sems[h].waiters[1];
    OrderlyAt(w, h);
    var w1 := Step(w, Signalling(h, x.expected));
    HeadSignalled(w, h, x.expected);
    HeadSignalled(w1, h, y.expected);
  }

  /** A signal that satisfies only the head of the queue decides on one callback. */
  lemma HeadSignalled(w: World, h: nat, v: nat)
    requires Live(w, h) && w.sems[h].value < v && w.sems[h].waiters != []
    requires w.sems[h].waiters[0].expected == v && (|w.sems[h].waiters| > 1 ==> w.sems[h].waiters[1].expected > v)
    ensures var r := Signal(w, h, v);
            && Live(r, h) && r.sems[h].value == v && r.sems[h].waiters == w.sems[h].waiters[1..]
            && r.hands == w.hands + [[Call(h, w.sems[h].waiters[0], v)]] && r.fired == w.fired
  {
    var ws := w.sems[h].waiters;
    assert ReadyCount(ws, v) == 1;
    assert SignalCalls(h, ws[..1], v) == [Call(h, ws[0], v)];
  }
}
