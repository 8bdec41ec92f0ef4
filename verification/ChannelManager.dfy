/** The channel scheduler (plugins/gpu_driver/sim/hardware/channel_manager.cpp) for channels of
    the default context type: three priority queues that hold stale entries until a scan drops
    them, and a counter that forces a low-priority pick. */
module ChannelManager {
  import opened Collections

  const MAX_CHANNELS: nat := 32
  const STARVATION_THRESHOLD: nat := 10
  const HIGH: nat := 0
  const NORMAL: nat := 1
  const LOW: nat := 2

  datatype Choice = Nobody | Chosen(id: nat)

  datatype Outcome = Outcome(state: State, choice: Choice)

  datatype Channel = Channel(
    registered: bool,
    inFlight: bool,
    priority: nat,
    address: nat,
    total: nat,
    index: nat,
    fence: nat)

  datatype State = State(
    channels: seq<Channel>,
    queues: seq<seq<nat>>,
    active: nat,
    last: nat,
    starvation: nat)

  const UNREGISTERED := Channel(false, false, NORMAL, 0, 0, 0, 0)

  function Initial(): State {
    State(seq(MAX_CHANNELS, i => UNREGISTERED), [[], [], []], 0, MAX_CHANNELS - 1, 0)
  }

  predicate Sized(s: State) { |s.channels| == MAX_CHANNELS && |s.queues| == 3 }

  predicate Known(s: State, q: seq<nat>) { forall i :: 0 <= i < |q| ==> q[i] < |s.channels| }

  predicate Registered(s: State, id: nat) { id < |s.channels| && s.channels[id].registered }

  predicate InFlight(s: State, id: nat) { id < |s.channels| && s.channels[id].inFlight }

  // ---------- the operations on values ----------

  function Push(s: State, p: nat, id: nat): State
    requires p < |s.queues|
  {
    s.(queues := s.queues[p := s.queues[p] + [id]])
  }

  function Register(s: State, id: nat, priority: nat): State
    requires Sized(s) && priority < 3
  {
    if id >= MAX_CHANNELS || s.channels[id].registered then s
    else
      var c := Channel(true, false, priority, s.channels[id].address, 0, 0, 0);
      Push(s.(channels := s.channels[id := c], active := s.active + 1), priority, id)
  }

  function Submit(s: State, id: nat, address: nat, count: nat, fence: nat): State
    requires Sized(s) && (Registered(s, id) ==> s.channels[id].priority < 3)
  {
    if !Registered(s, id) then s
    else
      var c := s.channels[id];
      var s' := s.(channels := s.channels[id := c.(inFlight := true, address := address, total := count, index := 0, fence := fence)]);
      if c.inFlight then s' else Push(s', c.priority, id)
  }

  function Yield(s: State, id: nat): State {
    if Registered(s, id) then s.(channels := s.channels[id := s.channels[id].(inFlight := false)]) else s
  }

  /** What is left of a queue once the stale entries at its head are dropped. */
  function Skip(s: State, q: seq<nat>): seq<nat> {
    if q == [] || InFlight(s, q[0]) then q else Skip(s, q[1..])
  }

  /** The scan in priority order; the pick stays at the head of its queue. */
  function Scan(s: State, p: nat): Outcome
    requires |s.queues| == 3 && p <= 3
    decreases 3 - p
  {
    if p == 3 then Outcome(s, Nobody)
    else
      var q := Skip(s, s.queues[p]);
      var s' := s.(queues := s.queues[p := q]);
      if q == [] then Scan(s', p + 1)
      else Outcome(s'.(last := q[0], starvation := if p == LOW then 0 else s.starvation + 1), Chosen(q[0]))
  }

  /** The forced pick is removed from the low queue. */
  function Next(s: State): Outcome
    requires |s.queues| == 3
  {
    if s.active == 0 then Outcome(s, Nobody)
    else if s.starvation >= STARVATION_THRESHOLD then
      var q := Skip(s, s.queues[LOW]);
      if q != [] then Outcome(s.(queues := s.queues[LOW := q[1..]], starvation := 0, last := q[0]), Chosen(q[0]))
      else Scan(s.(queues := s.queues[LOW := []], starvation := 0), HIGH)
    else Scan(s, HIGH)
  }

  // ---------- the class ----------

  class Manager {
    const channels: array<Channel>
    const queues: array<seq<nat>>
    var active: nat
    var last: nat
    var starvation: nat

    ghost predicate Valid()
      reads this, channels, queues
    {
      && channels.Length == MAX_CHANNELS && queues.Length == 3
      && Inv(St())
    }

    ghost function St(): State
      reads this, channels, queues
    {
      State(channels[..], queues[..], active, last, starvation)
    }

    constructor ()
      ensures Valid() && fresh(channels) && fresh(queues) && St() == Initial()
    {
      var cs := new Channel[MAX_CHANNELS](i => UNREGISTERED);
      var qs := new seq<nat>[3](i => []);
      channels, queues := cs, qs;
      active, last, starvation := 0, MAX_CHANNELS - 1, 0;
      new;
      assert channels[..] == Initial().channels;
      assert queues[..] == Initial().queues;
    }

    method RegisterChannel(id: nat, priority: nat) returns (ok: bool)
      requires Valid() && priority < 3
      modifies this, channels, queues
      ensures Valid() && St() == Register(old(St()), id, priority)
      ensures ok == (id < MAX_CHANNELS && !old(St()).channels[id].registered)
    {
      ghost var s := St();
      RegisterKeepsInv(s, id, priority);
      if id >= MAX_CHANNELS || channels[id].registered { return false; }
      channels[id] := Channel(true, false, priority, channels[id].address, 0, 0, 0);
      queues[priority] := queues[priority] + [id];
      active := active + 1;
      assert channels[..] == Register(s, id, priority).channels;
      return true;
    }

    method SubmitBatch(id: nat, address: nat, count: nat, fence: nat)
      requires Valid()
      modifies channels, queues
      ensures Valid() && St() == Submit(old(St()), id, address, count, fence)
    {
      ghost var s := St();
      SubmitKeepsInv(s, id, address, count, fence);
      if id >= MAX_CHANNELS || !channels[id].registered { return; }
      var c := channels[id];
      channels[id] := c.(inFlight := true, address := address, total := count, index := 0, fence := fence);
      if !c.inFlight {
        queues[c.priority] := queues[c.priority] + [id];
      }
      assert channels[..] == Submit(s, id, address, count, fence).channels;
    }

    method YieldChannel(id: nat)
      requires Valid()
      modifies channels
      ensures Valid() && St() == Yield(old(St()), id)
    {
      YieldKeepsInv(St(), id);
      if id < MAX_CHANNELS && channels[id].registered {
        channels[id] := channels[id].(inFlight := false);
      }
    }

    /** Drops the stale entries at the head of one queue. */
    method DropStale(p: nat)
      requires channels.Length == MAX_CHANNELS && queues.Length == 3 && p < 3 && Known(St(), queues[p])
      modifies queues
      ensures St() == old(St()).(queues := old(queues[..])[p := Skip(old(St()), old(queues[p]))])
    {
      ghost var s := St();
      ghost var q := queues[p];
      while queues[p] != [] && !channels[queues[p][0]].inFlight
        invariant Known(s, queues[p]) && Skip(s, queues[p]) == Skip(s, q)
        invariant St() == s.(queues := s.queues[p := queues[p]])
        decreases |queues[p]|
      {
        queues[p] := queues[p][1..];
      }
    }

    /** The dequeue loop over the levels. */
    method ScanLevels() returns (r: Choice)
      requires channels.Length == MAX_CHANNELS && queues.Length == 3
      requires Known(St(), queues[HIGH]) && Known(St(), queues[NORMAL]) && Known(St(), queues[LOW])
      modifies this, queues
      ensures Outcome(St(), r) == Scan(old(St()), HIGH)
    {
      ghost var s := St();
      hide Scan, Skip, Known, InFlight;
      var p := HIGH;
      while p <= LOW
        invariant p <= 3 && Sized(St()) && Scan(St(), p) == Scan(s, HIGH)
        invariant Known(St(), queues[HIGH]) && Known(St(), queues[NORMAL]) && Known(St(), queues[LOW])
        decreases 3 - p
      {
        ScanTurn(St(), p);
        DropStale(p);
        if queues[p] != [] {
          last := queues[p][0];
          starvation := if p == LOW then 0 else starvation + 1;
          return Chosen(queues[p][0]);
        }
        p := p + 1;
      }
      ScanEnds(St());
      return Nobody;
    }

    method NextReadyChannel() returns (r: Choice)
      requires Valid()
      modifies this, queues
      ensures Valid() && Outcome(St(), r) == Next(old(St()))
    {
      ghost var s := St();
      hide Inv, Scan;
      NextKeepsInv(s);
      QueuesKnown(s);
      if active == 0 { return Nobody; }
      if starvation >= STARVATION_THRESHOLD {
        DropStale(LOW);
        if queues[LOW] != [] {
          var id := queues[LOW][0];
          queues[LOW] := queues[LOW][1..];
          starvation, last := 0, id;
          assert queues[..] == s.queues[LOW := queues[LOW]];
          return Chosen(id);
        }
        starvation := 0;
        assert queues[..] == s.queues[LOW := []];
      }
      r := ScanLevels();
    }
  }

  // ---------- what every operation keeps ----------

  ghost function Taken(s: State): set<nat> {
    set id | 0 <= id < |s.channels| && s.channels[id].registered
  }

  ghost predicate Entries(s: State, p: nat, q: seq<nat>) {
    forall id: nat :: id in q ==> Registered(s, id) && s.channels[id].priority == p
  }

  /** Queue entries are registered channels of that level, only registered channels are in
      flight, and the counters stay small. */
  ghost predicate Inv(s: State) {
    && Sized(s)
    && (forall p :: 0 <= p < 3 ==> Entries(s, p, s.queues[p]))
    && (forall id :: 0 <= id < MAX_CHANNELS ==> s.channels[id].priority < 3)
    && (forall id :: 0 <= id < MAX_CHANNELS && s.channels[id].inFlight ==> s.channels[id].registered)
    && s.active == |Taken(s)|
    && s.starvation <= STARVATION_THRESHOLD
  }

  lemma QueuesKnown(s: State)
    requires Inv(s)
    ensures Sized(s) && forall p :: 0 <= p < 3 ==> Known(s, s.queues[p])
  {
    forall p | 0 <= p < 3 ensures Known(s, s.queues[p]) {
      assert Entries(s, p, s.queues[p]);
      forall i | 0 <= i < |s.queues[p]| ensures s.queues[p][i] < |s.channels| { assert s.queues[p][i] in s.queues[p]; }
    }
  }

  lemma RegisterKeepsInv(s: State, id: nat, priority: nat)
    requires Inv(s) && priority < 3
    ensures Inv(Register(s, id, priority))
  {
    var r := Register(s, id, priority);
    if r != s {
      assert Taken(r) == Taken(s) + {id};
      forall p | 0 <= p < 3 ensures Entries(r, p, r.queues[p]) {
        assert Entries(s, p, s.queues[p]);
      }
    }
  }

  lemma SubmitKeepsInv(s: State, id: nat, address: nat, count: nat, fence: nat)
    requires Inv(s)
    ensures Inv(Submit(s, id, address, count, fence))
  {
    var r := Submit(s, id, address, count, fence);
    if Registered(s, id) {
      assert Taken(r) == Taken(s);
      forall p | 0 <= p < 3 ensures Entries(r, p, r.queues[p]) {
        assert Entries(s, p, s.queues[p]);
      }
    }
  }

  lemma YieldKeepsInv(s: State, id: nat)
    requires Inv(s)
    ensures Inv(Yield(s, id))
  {
    var r := Yield(s, id);
    assert Taken(r) == Taken(s);
    forall p | 0 <= p < 3 ensures Entries(r, p, r.queues[p]) {
      assert Entries(s, p, s.queues[p]);
    }
  }

  lemma {:induction false} SkipIsSuffix(s: State, q: seq<nat>)
    ensures exists k :: 0 <= k <= |q| && Skip(s, q) == q[k..]
    ensures forall id :: id in Skip(s, q) ==> id in q
    ensures forall id :: id in q && InFlight(s, id) ==> id in Skip(s, q)
  {
    if q == [] || InFlight(s, q[0]) {
      assert q[0..] == q;
    } else {
      SkipIsSuffix(s, q[1..]);
      var k :| 0 <= k <= |q[1..]| && Skip(s, q[1..]) == q[1..][k..];
      assert q[1..][k..] == q[k + 1..];
    }
  }

  /** One turn of the dequeue loop. */
  lemma ScanTurn(s: State, p: nat)
    requires Sized(s) && p < 3 && forall l :: 0 <= l < 3 ==> Known(s, s.queues[l])
    ensures var q := Skip(s, s.queues[p]);
            var s' := s.(queues := s.queues[p := q]);
            && (forall l :: 0 <= l < 3 ==> Known(s', s'.queues[l]))
            && Scan(s, p) == if q == [] then Scan(s', p + 1)
                             else Outcome(s'.(last := q[0], starvation := if p == LOW then 0 else s.starvation + 1), Chosen(q[0]))
  {
    SkipIsSuffix(s, s.queues[p]);
  }

  lemma ScanEnds(s: State)
    requires |s.queues| == 3
    ensures Scan(s, 3) == Outcome(s, Nobody)
  {
  }

  /** What a scan from level `p` finds: the first channel in flight of the first level, from
      `p` on, that has one. */
  ghost predicate Found(s: State, p: nat, id: nat)
    requires |s.queues| == 3
  {
    exists l: nat, i: nat :: FoundAt(s, p, id, l, i)
  }

  ghost predicate FoundAt(s: State, p: nat, id: nat, l: nat, i: nat)
    requires |s.queues| == 3
  {
    && p <= l < 3 && i < |s.queues[l]| && s.queues[l][i] == id && InFlight(s, id)
    && (forall k :: 0 <= k < i ==> !InFlight(s, s.queues[l][k]))
    && (forall m, k :: p <= m < l && k in s.queues[m] ==> !InFlight(s, k))
  }

  ghost predicate FoundCounting(s: State, p: nat, id: nat, starvation: nat)
    requires |s.queues| == 3
  {
    exists l: nat, i: nat :: FoundAt(s, p, id, l, i) && starvation == (if l == LOW then 0 else s.starvation + 1)
  }

  /** A scan only drops stale entries. */
  ghost predicate OnlyStaleDropped(s: State, r: State)
  {
    && |r.queues| == 3 == |s.queues| && r.channels == s.channels && r.active == s.active
    && (forall m, k :: 0 <= m < 3 && k in r.queues[m] ==> k in s.queues[m])
    && (forall m, k :: 0 <= m < 3 && k in s.queues[m] && InFlight(s, k) ==> k in r.queues[m])
  }

  lemma {:induction false} SkipHead(s: State, q: seq<nat>) returns (i: nat)
    requires Skip(s, q) != []
    ensures i < |q| && q[i] == Skip(s, q)[0] && InFlight(s, q[i])
    ensures forall k :: 0 <= k < i ==> !InFlight(s, q[k])
  {
    if InFlight(s, q[0]) {
      i := 0;
    } else {
      var j := SkipHead(s, q[1..]);
      i := j + 1;
      forall k | 0 <= k < i ensures !InFlight(s, q[k]) {
        if k > 0 { assert q[k] == q[1..][k - 1]; }
      }
    }
  }

  lemma FoundEarlier(s: State, t: State, p: nat, p': nat, id: nat, l: nat, i: nat)
    requires |s.queues| == 3 && |t.queues| == 3 && t.channels == s.channels && p <= p' && FoundAt(t, p', id, l, i)
    requires forall m :: p' <= m <= l ==> t.queues[m] == s.queues[m]
    requires forall m, k :: p <= m < p' && m < 3 && k in s.queues[m] ==> !InFlight(s, k)
    ensures FoundAt(s, p, id, l, i)
  {
    assert forall k: nat :: InFlight(t, k) == InFlight(s, k);
  }

  /** What a scan returns and leaves behind. */
  lemma {:induction false} ScanFinds(s: State, p: nat)
    requires |s.queues| == 3 && p <= 3
    ensures OnlyStaleDropped(s, Scan(s, p).state)
    ensures Scan(s, p).choice == Nobody ==> Scan(s, p).state.starvation == s.starvation
    ensures Scan(s, p).choice == Nobody ==> forall m, k :: p <= m < 3 && k in s.queues[m] ==> !InFlight(s, k)
    ensures Scan(s, p).choice.Chosen? ==> FoundCounting(s, p, Scan(s, p).choice.id, Scan(s, p).state.starvation)
    decreases 3 - p
  {
    if p < 3 {
      var q := s.queues[p];
      SkipIsSuffix(s, q);
      var s' := s.(queues := s.queues[p := Skip(s, q)]);
      if Skip(s, q) == [] {
        ScanFinds(s', p + 1);
        assert forall k: nat :: InFlight(s', k) == InFlight(s, k);
        if Scan(s', p + 1).choice.Chosen? {
          var l: nat, i: nat :| FoundAt(s', p + 1, Scan(s', p + 1).choice.id, l, i)
            && Scan(s', p + 1).state.starvation == (if l == LOW then 0 else s'.starvation + 1);
          FoundEarlier(s, s', p, p + 1, Scan(s', p + 1).choice.id, l, i);
        }
      } else {
        var i := SkipHead(s, q);
        assert FoundAt(s, p, q[i], p, i);
      }
    }
  }

  /** In flight with an entry in its queue. */
  predicate Ready(s: State, id: nat)
    requires |s.queues| == 3
  {
    InFlight(s, id) && s.channels[id].priority < 3 && id in s.queues[s.channels[id].priority]
  }

  /** In flight without an entry in its queue: no scan can find it. */
  predicate Lost(s: State, id: nat)
    requires |s.queues| == 3
  {
    InFlight(s, id) && !Ready(s, id)
  }

  ghost predicate LowReady(s: State)
    requires |s.queues| == 3
  {
    exists id: nat :: Ready(s, id) && s.channels[id].priority == LOW
  }

  /** The next call takes the starvation path. */
  ghost predicate Forced(s: State)
    requires |s.queues| == 3
  {
    s.starvation >= STARVATION_THRESHOLD && LowReady(s)
  }

  lemma LowSkips(s: State)
    requires Inv(s)
    ensures Skip(s, s.queues[LOW]) != [] <==> LowReady(s)
  {
    SkipIsSuffix(s, s.queues[LOW]);
    if Skip(s, s.queues[LOW]) != [] {
      var i := SkipHead(s, s.queues[LOW]);
      assert Ready(s, s.queues[LOW][i]);
    }
  }

  lemma NobodyRegistered(s: State, id: nat)
    requires Inv(s) && s.active == 0
    ensures !InFlight(s, id)
  {
    assert InFlight(s, id) ==> id in Taken(s);
  }

  /** The state the normal scan starts from. */
  ghost function ScanFrom(s: State): State
    requires |s.queues| == 3
  {
    if s.starvation >= STARVATION_THRESHOLD then s.(queues := s.queues[LOW := []], starvation := 0) else s
  }

  /** What the normal path returns and leaves behind. */
  lemma NextUnforced(s: State)
    requires Inv(s) && !Forced(s)
    ensures OnlyStaleDropped(s, Next(s).state)
    ensures Next(s).choice == Nobody ==> forall id: nat :: !Ready(s, id)
    ensures Next(s).choice.Chosen? ==> Found(s, HIGH, Next(s).choice.id) && Ready(s, Next(s).choice.id)
    ensures Next(s).state.starvation <= STARVATION_THRESHOLD
    ensures Next(s).choice.Chosen? && LowReady(s) && s.channels[Next(s).choice.id].priority != LOW
            ==> Next(s).state.starvation == s.starvation + 1
  {
    if s.active == 0 {
      forall id: nat ensures !Ready(s, id) { NobodyRegistered(s, id); }
    } else {
      LowSkips(s);
      SkipIsSuffix(s, s.queues[LOW]);
      var t := ScanFrom(s);
      assert forall k: nat :: InFlight(t, k) == InFlight(s, k);
      assert forall k :: k in s.queues[LOW] && s.starvation >= STARVATION_THRESHOLD ==> !InFlight(s, k);
      ScanFinds(t, HIGH);
      if Next(s).choice.Chosen? {
        var id := Next(s).choice.id;
        var l: nat, i: nat :| FoundAt(t, HIGH, id, l, i) && Next(s).state.starvation == (if l == LOW then 0 else t.starvation + 1);
        assert t.queues[l] == s.queues[l];
        assert id in s.queues[l];
        FoundEarlier(s, t, HIGH, HIGH, id, l, i);
      }
    }
  }

  /** What the starvation path returns and leaves behind. */
  lemma NextForced(s: State)
    requires Inv(s) && Forced(s)
    ensures Next(s).choice.Chosen? && Ready(s, Next(s).choice.id) && s.channels[Next(s).choice.id].priority == LOW
    ensures Next(s).state.channels == s.channels && Next(s).state.active == s.active && Next(s).state.starvation == 0
    ensures |Next(s).state.queues| == 3 && Next(s).state.queues[HIGH] == s.queues[HIGH] && Next(s).state.queues[NORMAL] == s.queues[NORMAL]
    ensures forall k :: k in Next(s).state.queues[LOW] ==> k in s.queues[LOW]
    ensures forall k :: k in s.queues[LOW] && InFlight(s, k) && k != Next(s).choice.id ==> k in Next(s).state.queues[LOW]
  {
    LowSkips(s);
    var q := s.queues[LOW];
    SkipIsSuffix(s, q);
    var i := SkipHead(s, q);
    assert q[i] in q;
    if s.active == 0 { NobodyRegistered(s, q[i]); }
    assert Skip(s, q) == [q[i]] + Skip(s, q)[1..];
  }

  lemma NextKeepsInv(s: State)
    requires Inv(s)
    ensures Inv(Next(s).state)
  {
    hide Next, Skip, Found;
    var r := Next(s).state;
    if Forced(s) { NextForced(s); } else { NextUnforced(s); }
    assert Taken(r) == Taken(s);
    forall p | 0 <= p < 3 ensures Entries(r, p, r.queues[p]) {
      assert Entries(s, p, s.queues[p]);
    }
  }

  // ---------- what a pick means ----------

  /** A call returns null exactly when every channel in flight has lost its queue entry. */
  lemma NullIff(s: State)
    requires Inv(s)
    ensures Next(s).choice == Nobody <==> forall id: nat :: InFlight(s, id) ==> Lost(s, id)
  {
    hide Next, Found;
    if Forced(s) { NextForced(s); } else { NextUnforced(s); }
  }

  /** A pick is a channel in flight; unless the starvation path fires it has the highest
      priority among those that can be found, and it is the first of its level. */
  lemma PickIsBest(s: State)
    requires Inv(s) && Next(s).choice.Chosen?
    ensures Ready(s, Next(s).choice.id)
    ensures Forced(s) ==> s.channels[Next(s).choice.id].priority == LOW
    ensures !Forced(s) ==> Found(s, HIGH, Next(s).choice.id)
    ensures !Forced(s) ==> forall k: nat :: Ready(s, k) ==> s.channels[Next(s).choice.id].priority <= s.channels[k].priority
  {
    hide Next;
    if Forced(s) {
      NextForced(s);
    } else {
      NextUnforced(s);
      var id := Next(s).choice.id;
      var l: nat, i: nat :| FoundAt(s, HIGH, id, l, i);
      assert id in s.queues[l];
    }
  }

  /** The first entry of the queue that is in flight. */
  ghost predicate First(s: State, q: seq<nat>, id: nat) {
    exists i :: 0 <= i < |q| && q[i] == id && InFlight(s, id) && forall k :: 0 <= k < i ==> !InFlight(s, q[k])
  }

  lemma {:induction false} SkipStartsAtFirst(s: State, q: seq<nat>, id: nat)
    ensures First(s, q, id) <==> Skip(s, q) != [] && Skip(s, q)[0] == id
    ensures Skip(s, q) != [] && Skip(s, q)[0] == id ==> multiset(q)[id] == 1 + multiset(Skip(s, q)[1..])[id]
  {
    if q != [] {
      assert q == [q[0]] + q[1..];
      if !InFlight(s, q[0]) {
        SkipStartsAtFirst(s, q[1..], id);
        FirstOfTail(s, q, id);
      }
    }
  }

  lemma FirstOfTail(s: State, q: seq<nat>, id: nat)
    requires q != [] && !InFlight(s, q[0])
    ensures First(s, q, id) <==> First(s, q[1..], id)
  {
    if First(s, q, id) {
      var i :| 0 <= i < |q| && q[i] == id && InFlight(s, id) && forall k :: 0 <= k < i ==> !InFlight(s, q[k]);
      assert q[1..][i - 1] == id;
    }
    if First(s, q[1..], id) {
      var i :| 0 <= i < |q[1..]| && q[1..][i] == id && InFlight(s, id) && forall k :: 0 <= k < i ==> !InFlight(s, q[1..][k]);
      assert q[i + 1] == id;
      forall k | 0 <= k < i + 1 ensures !InFlight(s, q[k]) { assert k > 0 ==> q[k] == q[1..][k - 1]; }
    }
  }

  /** A call loses a channel exactly when it takes the starvation path and the channel is the
      first in flight of the low queue, with this one entry. */
  lemma LostByForce(s: State, id: nat)
    requires Inv(s)
    ensures Lost(Next(s).state, id) <==>
              Lost(s, id) || (Forced(s) && First(s, s.queues[LOW], id) && multiset(s.queues[LOW])[id] == 1)
  {
    hide Found, First;
    if Forced(s) {
      hide Skip;
      NextForced(s);
      ForcedPick(s);
      SkipStartsAtFirst(s, s.queues[LOW], id);
    } else {
      hide Next;
      NextUnforced(s);
    }
  }

  /** The manager remembers its pick. */
  lemma PickRemembered(s: State)
    requires Inv(s) && Next(s).choice.Chosen?
    ensures Next(s).state.last == Next(s).choice.id
  {
    ScanRemembers(ScanFrom(s), HIGH);
  }

  lemma {:induction false} ScanRemembers(s: State, p: nat)
    requires |s.queues| == 3 && p <= 3
    ensures Scan(s, p).choice.Chosen? ==> Scan(s, p).state.last == Scan(s, p).choice.id
    decreases 3 - p
  {
    if p < 3 { ScanRemembers(s.(queues := s.queues[p := Skip(s, s.queues[p])]), p + 1); }
  }

  lemma ForcedPick(s: State)
    requires Inv(s) && Forced(s)
    ensures var q := Skip(s, s.queues[LOW]);
            q != [] && Next(s).choice == Chosen(q[0]) && Next(s).state.queues[LOW] == q[1..]
  {
    LowSkips(s);
    var i := SkipHead(s, s.queues[LOW]);
    if s.active == 0 { NobodyRegistered(s, s.queues[LOW][i]); }
  }

  // ---------- runs ----------

  datatype Action =
    | Registering(id: nat, priority: nat)
    | Submitting(id: nat, address: nat, count: nat, fence: nat)
    | Picking
    | Yielding(id: nat)

  predicate Allowed(a: Action) { a.Registering? ==> a.priority < 3 }

  ghost function Step(s: State, a: Action): (r: State)
    requires Inv(s) && Allowed(a)
    ensures Inv(r)
  {
    match a
    case Registering(id, priority) => RegisterKeepsInv(s, id, priority); Register(s, id, priority)
    case Submitting(id, address, count, fence) => SubmitKeepsInv(s, id, address, count, fence); Submit(s, id, address, count, fence)
    case Picking => NextKeepsInv(s); Next(s).state
    case Yielding(id) => YieldKeepsInv(s, id); Yield(s, id)
  }

  ghost function Run(s: State, run: seq<Action>): (r: State)
    requires Inv(s) && forall i :: 0 <= i < |run| ==> Allowed(run[i])
    ensures Inv(r)
    decreases |run|
  {
    if run == [] then s else Run(Step(s, run[0]), run[1..])
  }

  lemma InitialInv()
    ensures Inv(Initial())
  {
    assert Taken(Initial()) == {};
  }

  // ---------- what the callers asked for, from the actions alone ----------

  datatype Batch = Batch(address: nat, count: nat, fence: nat)

  /** The priority channel `id` was first registered with, if it was. */
  function PriorityOf(run: seq<Action>, id: nat): Option<nat> {
    if run == [] then None
    else
      var was, a := PriorityOf(run[..|run| - 1], id), run[|run| - 1];
      if was.None? && a.Registering? && a.id == id < MAX_CHANNELS then Some(a.priority) else was
  }

  /** The batch last submitted to the channel and not yielded since, if any. */
  function Flying(run: seq<Action>, id: nat): Option<Batch> {
    if run == [] then None
    else
      var prev := run[..|run| - 1];
      match run[|run| - 1]
      case Submitting(k, address, count, fence) =>
        if k == id && PriorityOf(prev, id).Some? then Some(Batch(address, count, fence)) else Flying(prev, id)
      case Yielding(k) => if k == id then None else Flying(prev, id)
      case _ => Flying(prev, id)
  }

  /** The channel is as the actions have it. */
  ghost predicate ChannelTracks(s: State, run: seq<Action>, id: nat) {
    && (Registered(s, id) <==> PriorityOf(run, id).Some?)
    && (InFlight(s, id) <==> Flying(run, id).Some?)
    && (Registered(s, id) ==> s.channels[id].priority == PriorityOf(run, id).value)
    && (InFlight(s, id) ==>
          && Batch(s.channels[id].address, s.channels[id].total, s.channels[id].fence) == Flying(run, id).value
          && s.channels[id].index == 0)
  }

  ghost predicate Tracks(s: State, run: seq<Action>) { forall id :: ChannelTracks(s, run, id) }

  lemma PriorityLonger(run: seq<Action>, a: Action, id: nat)
    ensures PriorityOf(run + [a], id)
            == if PriorityOf(run, id).None? && a.Registering? && a.id == id < MAX_CHANNELS then Some(a.priority) else PriorityOf(run, id)
  {
    assert (run + [a])[..|run + [a]| - 1] == run;
  }

  lemma FlyingLonger(run: seq<Action>, a: Action, id: nat)
    ensures Flying(run + [a], id)
            == if a.Submitting? && a.id == id && PriorityOf(run, id).Some? then Some(Batch(a.address, a.count, a.fence))
               else if a == Yielding(id) then None
               else Flying(run, id)
  {
    assert (run + [a])[..|run + [a]| - 1] == run;
  }

  lemma StepTracks(s: State, run: seq<Action>, a: Action, id: nat)
    requires Inv(s) && Allowed(a) && ChannelTracks(s, run, id)
    ensures ChannelTracks(Step(s, a), run + [a], id)
  {
    hide Next, Inv, PriorityOf, Flying;
    PriorityLonger(run, a, id);
    FlyingLonger(run, a, id);
    InFlightRegistered(s, id);
    if a == Picking { PickKeepsChannels(s); }
  }

  lemma InFlightRegistered(s: State, id: nat)
    requires Inv(s)
    ensures Sized(s) && (InFlight(s, id) ==> Registered(s, id))
    ensures forall k: nat :: Registered(s, k) ==> s.channels[k].priority < 3
  {
    assert forall k: nat :: Registered(s, k) ==> k < MAX_CHANNELS;
  }

  /** A call touches only the queues and counters. */
  lemma PickKeepsChannels(s: State)
    requires Inv(s)
    ensures Next(s).state.channels == s.channels
  {
    hide Next, Found;
    if Forced(s) { NextForced(s); } else { NextUnforced(s); }
  }

  lemma {:induction false} RunLast(s: State, run: seq<Action>)
    requires Inv(s) && run != [] && forall i :: 0 <= i < |run| ==> Allowed(run[i])
    ensures Run(s, run) == Step(Run(s, run[..|run| - 1]), run[|run| - 1])
    decreases |run|
  {
    hide Inv, Step, Allowed;
    if |run| > 1 {
      RunLast(Step(s, run[0]), run[1..]);
      assert run[1..][..|run| - 2] == run[..|run| - 1][1..];
    } else {
      assert run[..0] == [] && run[1..] == [];
    }
  }

  /** After every run each channel is registered with the priority it was given, is in flight
      exactly when a batch was submitted to it and not yielded since, and holds the batch
      submitted last. */
  lemma {:induction false} RunTracks(run: seq<Action>)
    requires forall i :: 0 <= i < |run| ==> Allowed(run[i])
    ensures Inv(Initial()) && Tracks(Run(Initial(), run), run)
  {
    hide Inv, Step, Allowed, ChannelTracks;
    InitialInv();
    if run == [] {
      StartTracks();
    } else {
      var prev := run[..|run| - 1];
      RunTracks(prev);
      RunLast(Initial(), run);
      forall id ensures ChannelTracks(Run(Initial(), run), run, id) {
        assert ChannelTracks(Run(Initial(), prev), prev, id);
        StepTracks(Run(Initial(), prev), prev, run[|run| - 1], id);
        assert prev + [run[|run| - 1]] == run;
      }
    }
  }

  lemma StartTracks()
    requires Inv(Initial())
    ensures Tracks(Run(Initial(), []), [])
  {
  }

  /** So a call hands out the batch submitted last to the channel it picks. */
  lemma PicksLastSubmitted(run: seq<Action>)
    requires forall i :: 0 <= i < |run| ==> Allowed(run[i])
    ensures Inv(Initial())
    ensures var s := Run(Initial(), run);
            Next(s).choice.Chosen? ==>
              var id := Next(s).choice.id;
              id < |s.channels| && Flying(run, id).Some?
              && Batch(s.channels[id].address, s.channels[id].total, s.channels[id].fence) == Flying(run, id).value
  {
    hide Next, Run, Allowed;
    RunTracks(run);
    var s := Run(Initial(), run);
    if Next(s).choice.Chosen? {
      PickIsBest(s);
      assert ChannelTracks(s, run, Next(s).choice.id);
    }
  }

  /** A registration, and a submission to a channel not in flight, queue the channel last at its
      own level; whatever else is submitted or yielded leaves the queues alone. */
  lemma QueuedLast(s: State, a: Action)
    requires Inv(s) && Allowed(a) && a != Picking
    ensures var r := Step(s, a);
            |r.queues| == 3 &&
            forall p :: 0 <= p < 3 ==>
              r.queues[p] == s.queues[p]
                             + if (a.Registering? && a.id < MAX_CHANNELS && !Registered(s, a.id) && a.priority == p)
                                  || (a.Submitting? && Registered(s, a.id) && !InFlight(s, a.id) && s.channels[a.id].priority == p)
                               then [a.id] else []
  {
    hide Entries, Taken;
  }

  /** The pick, if any, is not of low priority. */
  ghost predicate PicksAbove(s: State)
    requires |s.queues| == 3
  {
    Next(s).choice.Chosen? && Next(s).choice.id < |s.channels| && s.channels[Next(s).choice.id].priority != LOW
  }

  /** Every call in the run passes over a low-priority channel that is waiting. */
  ghost predicate SkipsLow(s: State, run: seq<Action>)
    requires Inv(s) && forall i :: 0 <= i < |run| ==> Allowed(run[i])
    decreases |run|
  {
    run != [] ==>
      && (run[0] == Picking ==> LowReady(s) && PicksAbove(s))
      && SkipsLow(Step(s, run[0]), run[1..])
  }

  function Picks(run: seq<Action>): nat
    decreases |run|
  {
    if run == [] then 0 else (if run[0] == Picking then 1 else 0) + Picks(run[1..])
  }

  lemma {:induction false} SkipsCount(s: State, run: seq<Action>)
    requires Inv(s) && forall i :: 0 <= i < |run| ==> Allowed(run[i])
    requires SkipsLow(s, run)
    ensures Run(s, run).starvation == s.starvation + Picks(run)
    decreases |run|
  {
    hide Next, LowReady, Found, OnlyStaleDropped;
    if run != [] {
      if run[0] == Picking {
        if Forced(s) { NextForced(s); }
        NextUnforced(s);
      }
      SkipsCount(Step(s, run[0]), run[1..]);
    }
  }

  /** From any reachable state, at most ten calls in a row pass over a waiting low-priority
      channel, whatever is registered, submitted and yielded between them. */
  lemma LowWaitsTen(s: State, run: seq<Action>)
    requires Inv(s) && forall i :: 0 <= i < |run| ==> Allowed(run[i])
    requires SkipsLow(s, run)
    ensures Picks(run) <= STARVATION_THRESHOLD
  {
    SkipsCount(s, run);
  }

  /** A lost channel is never picked, and stays lost, until it is yielded, however often
      batches are submitted to it. */
  lemma {:induction false} LostForGood(s: State, run: seq<Action>, id: nat)
    requires Inv(s) && forall i :: 0 <= i < |run| ==> Allowed(run[i])
    requires Lost(s, id) && Yielding(id) !in run
    ensures Lost(Run(s, run), id)
    ensures run != [] && run[0] == Picking ==> Next(s).choice != Chosen(id)
    decreases |run|
  {
    if run != [] {
      StaysLost(s, run[0], id);
      LostForGood(Step(s, run[0]), run[1..], id);
    }
  }

  lemma StaysLost(s: State, a: Action, id: nat)
    requires Inv(s) && Allowed(a) && Lost(s, id) && a != Yielding(id)
    ensures Lost(Step(s, a), id)
    ensures a == Picking ==> Next(s).choice != Chosen(id)
  {
    hide Next, Found;
    if a == Picking {
      LostByForce(s, id);
      if Next(s).choice.Chosen? { PickIsBest(s); }
    }
  }

  /** Yielding each pick before the next call keeps every channel in flight findable. */
  ghost predicate NoneLost(s: State)
    requires |s.queues| == 3
  {
    forall id: nat :: !Lost(s, id)
  }

  lemma YieldedPickLosesNone(s: State)
    requires Inv(s) && NoneLost(s) && Next(s).choice.Chosen?
    ensures NoneLost(Yield(Next(s).state, Next(s).choice.id))
    ensures !InFlight(Yield(Next(s).state, Next(s).choice.id), Next(s).choice.id)
  {
    hide Next, Found;
    NextKeepsInv(s);
    var r := Next(s).state;
    var id := Next(s).choice.id;
    PickIsBest(s);
    assert InFlight(s, id) && Registered(s, id);
    if Forced(s) { NextForced(s); } else { NextUnforced(s); }
    forall k: nat ensures !Lost(Yield(r, id), k) {
      LostByForce(s, k);
      assert !Lost(s, k);
    }
  }

  lemma OthersLoseNone(s: State, a: Action)
    requires Inv(s) && Allowed(a) && NoneLost(s) && a != Picking
    ensures NoneLost(Step(s, a))
  {
    var r := Step(s, a);
    forall k: nat ensures !Lost(r, k) {
      assert !Lost(s, k);
    }
  }

  /** Every pick in the run is yielded before anything else happens. */
  ghost predicate Disciplined(s: State, run: seq<Action>)
    requires Inv(s) && forall i :: 0 <= i < |run| ==> Allowed(run[i])
    decreases |run|
  {
    if run == [] then true
    else if run[0] == Picking && Next(s).choice.Chosen? then
      |run| > 1 && run[1] == Yielding(Next(s).choice.id) && Disciplined(Step(Step(s, run[0]), run[1]), run[2..])
    else Disciplined(Step(s, run[0]), run[1..])
  }

  /** Under that discipline no channel is lost in any run, so a call returns null exactly when
      nothing is in flight. */
  lemma {:induction false} DisciplineLosesNone(s: State, run: seq<Action>)
    requires Inv(s) && forall i :: 0 <= i < |run| ==> Allowed(run[i])
    requires NoneLost(s) && Disciplined(s, run)
    ensures NoneLost(Run(s, run))
    ensures Next(Run(s, run)).choice == Nobody <==> forall id: nat :: !InFlight(Run(s, run), id)
    decreases |run|
  {
    hide Next, NoneLost;
    if run == [] {
      NullOnlyIdle(s);
    } else if run[0] == Picking && Next(s).choice.Chosen? {
      YieldedPickLosesNone(s);
      var t := Step(Step(s, run[0]), run[1]);
      assert Run(s, run) == Run(t, run[2..]) by { assert run[1..][0] == run[1] && run[1..][1..] == run[2..]; }
      DisciplineLosesNone(t, run[2..]);
    } else {
      if run[0] == Picking { IdlePickLosesNone(s); } else { OthersLoseNone(s, run[0]); }
      DisciplineLosesNone(Step(s, run[0]), run[1..]);
    }
  }

  lemma NullOnlyIdle(s: State)
    requires Inv(s) && NoneLost(s)
    ensures Next(s).choice == Nobody <==> forall id: nat :: !InFlight(s, id)
  {
    hide Next;
    NullIff(s);
    assert forall id: nat :: !Lost(s, id);
  }

  lemma IdlePickLosesNone(s: State)
    requires Inv(s) && NoneLost(s) && Next(s).choice == Nobody
    ensures NoneLost(Next(s).state)
  {
    hide Next;
    NextKeepsInv(s);
    if Forced(s) { NextForced(s); }
    forall id: nat ensures !Lost(Next(s).state, id) {
      LostByForce(s, id);
      assert !Lost(s, id);
    }
  }

  // ---------- what is not promised ----------

  ghost predicate AllAllowed(run: seq<Action>) { forall i :: 0 <= i < |run| ==> Allowed(run[i]) }

  /** Some run from the initial state ends in `s`. */
  ghost predicate Reachable(s: State) {
    Inv(Initial()) && exists run :: AllAllowed(run) && Run(Initial(), run) == s
  }

  lemma {:induction false} Extend(s: State, run: seq<Action>, a: Action)
    requires Inv(s) && AllAllowed(run) && Allowed(a)
    ensures AllAllowed(run + [a]) && Run(s, run + [a]) == Step(Run(s, run), a)
    decreases |run|
  {
    hide Inv, Step, Allowed;
    if run == [] {
      assert run + [a] == [a];
    } else {
      Extend(Step(s, run[0]), run[1..], a);
      assert (run + [a])[1..] == run[1..] + [a];
    }
  }

  lemma Then(s: State, a: Action) returns (r: State)
    requires Reachable(s) && Allowed(a)
    ensures Inv(s) && r == Step(s, a) && Reachable(r)
  {
    hide Inv, Step, Allowed;
    var run :| AllAllowed(run) && Run(Initial(), run) == s;
    Extend(Initial(), run, a);
    r := Step(s, a);
  }

  /** Both channels are in flight, the low one with a single entry, and `n` calls have passed
      it over. */
  ghost predicate PassedOver(s: State, a: nat, b: nat, n: nat) {
    && Reachable(s) && Inv(s) && s.queues == [[], [a], [b]] && InFlight(s, a) && InFlight(s, b) && s.starvation == n
    && s.active > 0
  }

  lemma RegisteredBoth(a: nat, b: nat, p: nat) returns (s: State)
    requires a < MAX_CHANNELS && b < MAX_CHANNELS && a != b && NORMAL <= p <= LOW
    ensures Reachable(s) && Sized(s) && s.active == 2 && s.starvation == 0
    ensures s.channels[a] == Channel(true, false, NORMAL, 0, 0, 0, 0) && s.channels[b] == Channel(true, false, p, 0, 0, 0, 0)
    ensures s.queues == if p == LOW then [[], [a], [b]] else [[], [a, b], []]
    ensures forall id: nat :: !InFlight(s, id)
  {
    hide Inv, Reachable;
    s := Initial();
    assert Reachable(s) by { InitialReachable(); }
    s := Then(s, Registering(a, NORMAL));
    s := Then(s, Registering(b, p));
    LevelsAre(s.queues, [], if p == LOW then [a] else [a, b], if p == LOW then [b] else []);
  }

  lemma InitialReachable()
    ensures Reachable(Initial())
  {
    InitialInv();
    assert AllAllowed([]) && Run(Initial(), []) == Initial();
  }

  lemma PassedOverFirst(a: nat, b: nat) returns (s: State)
    requires a < MAX_CHANNELS && b < MAX_CHANNELS && a != b
    ensures PassedOver(s, a, b, 0)
  {
    hide Inv, Reachable;
    s := RegisteredBoth(a, b, LOW);
    IdlePickEmpties(s, a, b);
    s := Then(s, Picking);
    hide Next;
    s := Then(s, Submitting(a, 0, 1, 0));
    s := Then(s, Submitting(b, 0, 1, 0));
    LevelsAre(s.queues, [], [a], [b]);
  }

  lemma LevelsAre(queues: seq<seq<nat>>, high: seq<nat>, normal: seq<nat>, low: seq<nat>)
    requires |queues| == 3 && queues[HIGH] == high && queues[NORMAL] == normal && queues[LOW] == low
    ensures queues == [high, normal, low]
  {
  }

  /** A call that finds nobody in flight drops the entries made by registering. */
  lemma IdlePickEmpties(s: State, a: nat, b: nat)
    requires s.queues == [[], [a], [b]] && s.active > 0 && s.starvation == 0 && !InFlight(s, a) && !InFlight(s, b)
    ensures Next(s).state == s.(queues := [[], [], []])
  {
    var s1 := s.(queues := s.queues[HIGH := []]);
    var s2 := s1.(queues := s1.queues[NORMAL := []]);
    var s3 := s2.(queues := s2.queues[LOW := []]);
    assert Skip(s1, [a]) == [] && Skip(s2, [b]) == [];
    assert Scan(s, HIGH) == Scan(s1, NORMAL) == Scan(s2, LOW) == Scan(s3, 3);
    assert s3.queues == [[], [], []];
  }

  lemma PassedOverAgain(s: State, a: nat, b: nat, n: nat) returns (r: State)
    requires PassedOver(s, a, b, n) && n < STARVATION_THRESHOLD
    ensures PassedOver(r, a, b, n + 1)
  {
    hide Inv, Reachable;
    var s1 := s.(queues := s.queues[HIGH := []]);
    assert s1 == s && Scan(s, HIGH) == Scan(s1, NORMAL);
    assert s1.queues[NORMAL := [a]] == s.queues;
    r := Then(s, Picking);
  }

  lemma {:induction false} PassedOverTimes(a: nat, b: nat, n: nat) returns (s: State)
    requires a < MAX_CHANNELS && b < MAX_CHANNELS && a != b && n <= STARVATION_THRESHOLD
    ensures PassedOver(s, a, b, n)
  {
    hide PassedOver;
    if n == 0 {
      s := PassedOverFirst(a, b);
    } else {
      s := PassedOverTimes(a, b, n - 1);
      s := PassedOverAgain(s, a, b, n - 1);
    }
  }

  /** Any low-priority channel can be lost: passed over ten times it is picked by force, and a
      second pick without a yield between finds it gone. */
  lemma ChannelLost(a: nat, b: nat) returns (s: State)
    requires a < MAX_CHANNELS && b < MAX_CHANNELS && a != b
    ensures Reachable(s) && Inv(s) && Lost(s, b)
  {
    hide Inv, Reachable;
    s := PassedOverTimes(a, b, STARVATION_THRESHOLD);
    s := Then(s, Picking);
  }

  /** A channel at the head of its level with a peer in flight. */
  lemma LeadReached(a: nat, b: nat) returns (s: State)
    requires a < MAX_CHANNELS && b < MAX_CHANNELS && a != b
    ensures Reachable(s) && Inv(s) && Leads(s, a) && InFlight(s, b) && s.channels[b].priority == NORMAL
  {
    hide Inv, Reachable;
    s := RegisteredBoth(a, b, NORMAL);
    s := Then(s, Submitting(a, 0, 1, 0));
    s := Then(s, Submitting(b, 0, 1, 0));
  }

  /** One round: pick, yield `a`, submit the next batch to `a`. */
  ghost function Rounds(s: State, a: nat, n: nat): (r: State)
    requires Inv(s)
    ensures Inv(r)
    decreases n
  {
    if n == 0 then s else Rounds(Round(s, a), a, n - 1)
  }

  ghost function Round(s: State, a: nat): (r: State)
    requires Inv(s)
    ensures Inv(r)
  {
    Step(Step(Step(s, Picking), Yielding(a)), Submitting(a, 0, 1, 0))
  }

  /** `a` is at the head of its level and nothing of higher priority is in flight. */
  ghost predicate Leads(s: State, a: nat)
    requires |s.queues| == 3
  {
    && InFlight(s, a) && s.channels[a].priority == NORMAL
    && s.queues[NORMAL] != [] && s.queues[NORMAL][0] == a
    && (forall k :: k in s.queues[HIGH] ==> !InFlight(s, k))
    && !LowReady(s)
  }

  lemma LeaderIsPicked(s: State, a: nat)
    requires Inv(s) && Leads(s, a)
    ensures Next(s).choice == Chosen(a) && Leads(Next(s).state, a)
  {
    NextUnforced(s);
    LowSkips(s);
    SkipIsSuffix(s, s.queues[HIGH]);
    if s.active == 0 { NobodyRegistered(s, a); }
    var t := ScanFrom(s);
    assert forall k: nat :: InFlight(t, k) == InFlight(s, k);
    NothingReady(t, s.queues[HIGH]);
    var t' := t.(queues := t.queues[HIGH := []]);
    assert Scan(t, HIGH) == Scan(t', NORMAL);
    assert Skip(t', t'.queues[NORMAL]) == s.queues[NORMAL];
    assert forall k: nat :: Ready(Next(s).state, k) ==> Ready(s, k);
  }

  lemma {:induction false} NothingReady(s: State, q: seq<nat>)
    requires forall k :: k in q ==> !InFlight(s, k)
    ensures Skip(s, q) == []
    decreases |q|
  {
    if q != [] { NothingReady(s, q[1..]); }
  }

  lemma RoundKeepsLead(s: State, a: nat)
    requires Inv(s) && Leads(s, a)
    ensures Leads(Round(s, a), a)
    ensures forall k: nat :: k != a && InFlight(s, k) ==> InFlight(Round(s, a), k)
  {
    hide Next;
    LeaderIsPicked(s, a);
    NextUnforced(s);
    var t := Next(s).state;
    assert Registered(t, a);
    var r := Round(s, a);
    forall k: nat ensures Ready(r, k) && r.channels[k].priority == LOW ==> Ready(t, k) && t.channels[k].priority == LOW { }
  }

  /** Equal priorities do not rotate: a channel that submits again as soon as it is yielded is
      picked every time, for any number of rounds, while its peers stay in flight. */
  lemma {:induction false} PeersStarve(s: State, a: nat, n: nat)
    requires Inv(s) && Leads(s, a)
    ensures Next(Rounds(s, a, n)).choice == Chosen(a)
    ensures forall k: nat :: k != a && InFlight(s, k) ==> InFlight(Rounds(s, a, n), k)
    decreases n
  {
    hide Next, Leads, Round;
    if n == 0 {
      LeaderIsPicked(s, a);
    } else {
      RoundKeepsLead(s, a);
      PeersStarve(Round(s, a), a, n - 1);
    }
  }

  /** So of any two channels one can be starved by the other for any number of rounds. */
  lemma PeerStarves(a: nat, b: nat) returns (s: State)
    requires a < MAX_CHANNELS && b < MAX_CHANNELS && a != b
    ensures Reachable(s) && Inv(s) && s.channels[a].priority == s.channels[b].priority
    ensures forall n: nat :: Next(Rounds(s, a, n)).choice == Chosen(a) && InFlight(Rounds(s, a, n), b)
  {
    s := LeadReached(a, b);
    hide Inv, Reachable, Next, Leads, Rounds;
    forall n: nat ensures Next(Rounds(s, a, n)).choice == Chosen(a) && InFlight(Rounds(s, a, n), b) {
      PeersStarve(s, a, n);
    }
  }
}
