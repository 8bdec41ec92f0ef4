/** The command puller's state machine (plugins/gpu_driver/sim/hardware/hardware_puller_emu.cpp)
    on the direct submission path: no channel manager, ring queues, preemption or timeline
    semaphores. */
module Puller {
  import opened FenceIds

  const ENTRY_SIZE: nat := 109

  datatype Kind = Memcpy | SemWait | Barrier | OtherMethod

  datatype Entry = Entry(kind: Kind, release: bool)

  datatype Phase = Idle | ChannelSwitch | Fetch | Decode | Schedule | Dispatch | Semaphore | Complete

  /** What the machine finds outside itself during one step: the entry in memory, whether the
      semaphore an entry waits for has its value, and whether a copy succeeds. */
  datatype Env = Env(entry: Entry, reached: bool, copied: bool)

  /** What became of an entry: put off by a barrier or an unmet wait, or completed, with a
      failed copy, after a dispatch, or as a semaphore release. */
  datatype Fate = Deferred | CopyFailed | Dispatched | Released

  /** A batch as submitted, and what became of its entries so far. */
  datatype Batch = Batch(address: nat, total: nat, fence: nat, fates: seq<Fate>)

  /** The current batch, the entry addresses read for it, what the current entry is heading
      for, the batches before it, and the calls that signalled a fence. */
  datatype History = History(batch: Batch, fetched: seq<nat>, heading: Fate, past: seq<Batch>, signals: seq<nat>)

  /** The machine's own fields, the fence table, and the history. */
  datatype State = State(
    phase: Phase,
    address: nat,
    index: nat,
    total: nat,
    fence: nat,
    entry: Entry,
    rung: bool,
    polled: bool,
    fences: Fences,
    hist: History)

  function Initial(): State {
    State(Idle, 0, 0, 0, 0, Entry(OtherMethod, false), false, false, NoFences(),
          History(Batch(0, 0, 0, []), [], Dispatched, [], []))
  }

  function Waits(e: Entry): bool { e.kind == SemWait || e.kind == Barrier }

  /** The worker's wait predicate; it can step whenever this holds. */
  predicate Awake(s: State) { s.phase != Idle || s.rung || s.polled }

  function Settle(h: History, fate: Fate): History { h.(batch := h.batch.(fates := h.batch.fates + [fate])) }

  /** To the next entry, or out of the batch. */
  function Advance(s: State, fate: Fate): State {
    s.(index := s.index + 1, phase := if s.index + 1 >= s.total then ChannelSwitch else Fetch, hist := Settle(s.hist, fate))
  }

  /** handleComplete. */
  function FinishEntry(s: State): State {
    if s.fence != 0 && s.index + 1 >= s.total then
      s.(fences := Signal(s.fences, s.fence), hist := s.hist.(signals := s.hist.signals + [s.fence]), fence := 0)
    else s
  }

  function TurnFetch(s: State, env: Env): State {
    if s.index >= s.total then s.(phase := Idle)
    else s.(phase := Decode, entry := env.entry, hist := s.hist.(fetched := s.hist.fetched + [s.address + s.index * ENTRY_SIZE]))
  }

  function TurnDecode(s: State, env: Env): State {
    if Waits(s.entry) then
      if s.entry.kind == SemWait && env.reached then s.(phase := Schedule) else Advance(s, Deferred)
    else s.(phase := if s.entry.release then Semaphore else Schedule)
  }

  function TurnDispatch(s: State, env: Env): State {
    if s.entry.kind == Memcpy && !env.copied then s.(phase := Complete, fence := 0, hist := s.hist.(heading := CopyFailed))
    else s.(phase := Complete, hist := s.hist.(heading := Dispatched))
  }

  function TurnSemaphore(s: State, env: Env): State {
    if s.entry.release then s.(phase := Complete, hist := s.hist.(heading := Released))
    else s.(phase := if env.reached then Dispatch else Idle)
  }

  /** One turn of the loop in runLoop. */
  function Turn(s: State, env: Env): State {
    match s.phase
    case Idle => s.(phase := ChannelSwitch)
    case ChannelSwitch =>
      if s.rung || s.polled then s.(phase := Fetch, rung := false, polled := false) else s.(phase := Idle)
    case Fetch => TurnFetch(s, env)
    case Decode => TurnDecode(s, env)
    case Schedule => s.(phase := Dispatch)
    case Dispatch => TurnDispatch(s, env)
    case Semaphore => TurnSemaphore(s, env)
    case Complete => Advance(FinishEntry(s), s.hist.heading)
  }

  function Submit(s: State, address: nat, total: nat, fence: nat): State {
    s.(address := address, index := 0, total := total, fence := fence,
       hist := s.hist.(batch := Batch(address, total, fence, []), fetched := [], past := s.hist.past + [s.hist.batch]))
  }

  class HardwarePuller {
    var phase: Phase
    var address: nat
    var index: nat
    var total: nat
    var fence: nat
    var entry: Entry
    var rung: bool
    var polled: bool
    const fences: FenceTable
    ghost var hist: History

    ghost function St(): State
      reads this, fences
    {
      State(phase, address, index, total, fence, entry, rung, polled, fences.Contents(), hist)
    }

    constructor ()
      ensures St() == Initial() && fresh(fences)
    {
      phase, address, index, total, fence := Idle, 0, 0, 0, 0;
      entry, rung, polled := Entry(OtherMethod, false), false, false;
      fences := new FenceTable();
      hist := History(Batch(0, 0, 0, []), [], Dispatched, [], []);
    }

    /** One turn of the loop in runLoop. */
    method Step(env: Env)
      modifies this, fences
      ensures St() == Turn(old(St()), env)
    {
      hide TurnFetch, TurnDecode, TurnDispatch, TurnSemaphore, Advance, FinishEntry;
      match phase {
        case Idle => phase := ChannelSwitch;
        case ChannelSwitch =>
          if rung || polled {
            rung, polled := false, false;
            phase := Fetch;
          } else {
            phase := Idle;
          }
        case Fetch => FetchEntry(env);
        case Decode => DecodeEntry(env);
        case Schedule => phase := Dispatch;
        case Dispatch => DispatchEntry(env);
        case Semaphore => SemaphoreEntry(env);
        case Complete =>
          ghost var fate := hist.heading;
          HandleComplete();
          NextEntry(fate);
      }
    }

    method FetchEntry(env: Env)
      modifies this
      ensures St() == TurnFetch(old(St()), env)
    {
      if index >= total {
        phase := Idle;
      } else {
        hist := hist.(fetched := hist.fetched + [address + index * ENTRY_SIZE]);
        entry := env.entry;
        phase := Decode;
      }
    }

    method DecodeEntry(env: Env)
      modifies this
      ensures St() == TurnDecode(old(St()), env)
    {
      if Waits(entry) {
        if entry.kind == SemWait && env.reached {
          phase := Schedule;
        } else {
          NextEntry(Deferred);
        }
      } else {
        phase := if entry.release then Semaphore else Schedule;
      }
    }

    method DispatchEntry(env: Env)
      modifies this
      ensures St() == TurnDispatch(old(St()), env)
    {
      hist := hist.(heading := Dispatched);
      if entry.kind == Memcpy && !env.copied {
        fence := 0;
        hist := hist.(heading := CopyFailed);
      }
      phase := Complete;
    }

    method SemaphoreEntry(env: Env)
      modifies this
      ensures St() == TurnSemaphore(old(St()), env)
    {
      if entry.release {
        hist := hist.(heading := Released);
        phase := Complete;
      } else {
        phase := if env.reached then Dispatch else Idle;
      }
    }

    method NextEntry(ghost fate: Fate)
      modifies this
      ensures St() == Advance(old(St()), fate)
    {
      hist := Settle(hist, fate);
      index := index + 1;
      phase := if index >= total then ChannelSwitch else Fetch;
    }

    method HandleComplete()
      modifies this, fences
      ensures St() == FinishEntry(old(St()))
    {
      if fence != 0 && index + 1 >= total {
        fences.SignalId(fence);
        hist := hist.(signals := hist.signals + [fence]);
        fence := 0;
      }
    }

    method SubmitBatch(address: nat, total: nat, fence: nat)
      modifies this
      ensures St() == Submit(old(St()), address, total, fence)
    {
      hist := hist.(batch := Batch(address, total, fence, []), fetched := [], past := hist.past + [hist.batch]);
      this.address, index, this.total, this.fence := address, 0, total, fence;
    }

    method OnDoorbell(queue: nat)
      modifies this
      ensures St() == old(St()).(rung := true, polled := old(polled) || queue == 0)
    {
      rung := true;
      if queue == 0 { polled := true; }
    }
  }

  // ---------- what a batch deserves ----------

  /** The batch has run to its end, its last entry completed, and no copy in it failed. */
  ghost predicate Earned(b: Batch) {
    && b.fence != 0 && b.total > 0 && |b.fates| == b.total
    && b.fates[b.total - 1] != Deferred && CopyFailed !in b.fates
  }

  /** The fences of the batches that earned them, in order. */
  ghost function Due(bs: seq<Batch>): seq<nat> {
    if bs == [] then []
    else Due(bs[..|bs| - 1]) + (if Earned(bs[|bs| - 1]) then [bs[|bs| - 1].fence] else [])
  }

  /** The addresses of the first `n` entries. */
  function Addresses(address: nat, n: nat): seq<nat> {
    if n == 0 then [] else Addresses(address, n - 1) + [address + (n - 1) * ENTRY_SIZE]
  }

  predicate Busy(p: Phase) { p != Idle && p != ChannelSwitch && p != Fetch }

  /** A copy of the batch has failed, counting the entry about to complete. */
  ghost predicate Spoiled(s: State) {
    CopyFailed in s.hist.batch.fates || (s.phase == Complete && s.hist.heading == CopyFailed)
  }

  ghost predicate Inv(s: State) {
    && s.address == s.hist.batch.address && s.total == s.hist.batch.total
    && |s.hist.batch.fates| == s.index <= s.total
    && (Busy(s.phase) ==> s.index < s.total)
    && s.hist.fetched == Addresses(s.address, if Busy(s.phase) then s.index + 1 else s.index)
    && (s.phase == Semaphore ==> s.entry.release)
    && (s.phase == Schedule || s.phase == Dispatch ==> s.entry.kind != Barrier)
    && s.hist.heading != Deferred
    && s.fence == (if Spoiled(s) || Earned(s.hist.batch) then 0 else s.hist.batch.fence)
    && s.hist.signals == Due(s.hist.past + [s.hist.batch])
  }

  datatype Action =
    | Turning(env: Env)
    | Submitting(address: nat, total: nat, fence: nat)
    | Ringing(queue: nat)
    | Allocating

  /** A batch is submitted only when the one before has run to its end. */
  predicate Allowed(s: State, a: Action) {
    match a
    case Turning(env) => Awake(s)
    case Submitting(address, total, fence) => s.index >= s.total
    case Ringing(queue) => true
    case Allocating => true
  }

  function After(s: State, a: Action): State {
    match a
    case Turning(env) => Turn(s, env)
    case Submitting(address, total, fence) => Submit(s, address, total, fence)
    case Ringing(queue) => s.(rung := true, polled := s.polled || queue == 0)
    case Allocating => s.(fences := FenceIds.Allocate(s.fences))
  }

  lemma DueLast(past: seq<Batch>, b: Batch)
    ensures Due(past + [b]) == Due(past) + (if Earned(b) then [b.fence] else [])
  {
    assert (past + [b])[..|past|] == past;
  }

  lemma DecodeKeepsInv(s: State, env: Env)
    requires Inv(s) && s.phase == Decode
    ensures Inv(TurnDecode(s, env))
  {
    hide Due, Addresses;
    var r := TurnDecode(s, env);
    DueLast(s.hist.past, s.hist.batch);
    DueLast(s.hist.past, r.hist.batch);
    if s.hist.batch != r.hist.batch {
      assert r.hist.batch.fates[s.index] == Deferred;
      assert CopyFailed in s.hist.batch.fates <==> CopyFailed in r.hist.batch.fates;
    }
  }

  lemma CompleteKeepsInv(s: State)
    requires Inv(s) && s.phase == Complete
    ensures Inv(Advance(FinishEntry(s), s.hist.heading))
  {
    hide Due, Addresses;
    var r := Advance(FinishEntry(s), s.hist.heading);
    DueLast(s.hist.past, s.hist.batch);
    DueLast(s.hist.past, r.hist.batch);
    assert r.hist.batch.fates[s.index] == s.hist.heading;
    assert CopyFailed in r.hist.batch.fates <==> CopyFailed in s.hist.batch.fates || s.hist.heading == CopyFailed;
    assert Earned(r.hist.batch) <==> s.fence != 0 && s.index + 1 >= s.total;
    assert Due(s.hist.past) + [] == Due(s.hist.past);
  }

  lemma TurnKeepsInv(s: State, env: Env)
    requires Inv(s)
    ensures Inv(Turn(s, env))
  {
    if s.phase == Decode {
      hide Inv;
      DecodeKeepsInv(s, env);
    } else if s.phase == Complete {
      hide Inv;
      CompleteKeepsInv(s);
    } else if s.phase == Fetch {
      FetchKeepsInv(s, env);
    } else {
      MoveKeepsInv(s, env);
    }
  }

  lemma FetchKeepsInv(s: State, env: Env)
    requires Inv(s)
    requires s.phase == Fetch
    ensures Inv(TurnFetch(s, env))
  {
    hide Due, Earned;
  }

  /** The phases between reading an entry and finishing it touch neither batch nor signals. */
  lemma MoveKeepsInv(s: State, env: Env)
    requires Inv(s) && s.phase != Decode && s.phase != Complete && s.phase != Fetch
    ensures Inv(Turn(s, env))
  {
    hide Due, Earned, Addresses;
  }

  lemma SubmitKeepsInv(s: State, address: nat, total: nat, fence: nat)
    requires Inv(s) && s.index >= s.total
    ensures Inv(Submit(s, address, total, fence))
  {
    hide Due;
    var r := Submit(s, address, total, fence);
    DueLast(r.hist.past, r.hist.batch);
    assert Due(r.hist.past) + [] == Due(r.hist.past);
  }

  lemma StepKeepsInv(s: State, a: Action)
    requires Inv(s) && Allowed(s, a)
    ensures Inv(After(s, a))
  {
    hide Due;
    match a {
      case Turning(env) => TurnKeepsInv(s, env);
      case Submitting(address, total, fence) => SubmitKeepsInv(s, address, total, fence);
      case Ringing(queue) =>
      case Allocating =>
    }
  }

  // ---------- what the fence table shows ----------

  /** No check reports a fence that was never signalled. */
  ghost predicate Sound(s: State) {
    forall id: nat :: Signalled(s.fences, id) ==> id in s.hist.signals && InRange(id)
  }

  lemma StepKeepsSound(s: State, a: Action)
    requires Sound(s)
    ensures Sound(After(s, a))
  {
    if a.Turning? && s.phase == Complete {
      hide Turn;
      CompleteTurn(s, a.env);
      assert Sound(FinishEntry(s));
    } else if !a.Allocating? {
      hide Signalled, FinishEntry, InRange;
    }
  }

  ghost predicate TableInv(s: State) {
    && s.fences.next >= FENCE_BASE
    && s.fences.next <= FENCE_MAX + 1
    && (s.fence == 0 || FENCE_BASE <= s.fence < s.fences.next)
    && (forall id :: id in s.hist.signals ==> FENCE_BASE <= id < s.fences.next)
    && (forall id: nat :: Signalled(s.fences, id) <==> id in s.hist.signals)
  }

  /** Batches carry fences that have been allocated, or none, and ids have not run out. */
  predicate Fenced(s: State, a: Action) {
    && (a.Submitting? ==> a.fence == 0 || FENCE_BASE <= a.fence < s.fences.next)
    && (a.Allocating? ==> s.fences.next <= FENCE_MAX)
  }

  lemma StepKeepsTable(s: State, a: Action)
    requires TableInv(s) && Fenced(s, a)
    ensures TableInv(After(s, a))
  {
    if a.Turning? && s.phase == Complete {
      hide Turn;
      FinishKeepsTable(s);
      CompleteTurn(s, a.env);
    } else if !a.Allocating? {
      hide Signalled, FinishEntry;
    }
  }

  lemma CompleteTurn(s: State, env: Env)
    requires s.phase == Complete
    ensures Turn(s, env) == Advance(FinishEntry(s), s.hist.heading)
  {
  }

  lemma FinishKeepsTable(s: State)
    requires TableInv(s)
    ensures TableInv(FinishEntry(s))
  {
  }

  lemma {:induction false} DueIsEarned(bs: seq<Batch>, id: nat)
    ensures id in Due(bs) <==> exists b :: b in bs && b.fence == id && Earned(b)
    decreases |bs|
  {
    hide Earned;
    if bs != [] {
      var n := |bs| - 1;
      DueIsEarned(bs[..n], id);
      assert bs == bs[..n] + [bs[n]];
    }
  }

  // ---------- every run ----------

  ghost predicate Runs(s: State, run: seq<Action>)
    decreases |run|
  {
    run == [] || (Allowed(s, run[0]) && Runs(After(s, run[0]), run[1..]))
  }

  ghost function Final(s: State, run: seq<Action>): State
    decreases |run|
  {
    if run == [] then s else Final(After(s, run[0]), run[1..])
  }

  ghost predicate AllFenced(s: State, run: seq<Action>)
    decreases |run|
  {
    run != [] ==> Fenced(s, run[0]) && AllFenced(After(s, run[0]), run[1..])
  }

  lemma InitialInv()
    ensures Inv(Initial()) && Sound(Initial()) && TableInv(Initial())
  {
    DueLast([], Initial().hist.batch);
    assert Addresses(0, 0) == [];
  }

  lemma {:induction false} RunKeeps(s: State, run: seq<Action>)
    requires Inv(s) && Sound(s) && Runs(s, run)
    ensures Inv(Final(s, run)) && Sound(Final(s, run))
    decreases |run|
  {
    hide Inv, Sound, After, Allowed;
    if run != [] {
      StepKeepsInv(s, run[0]);
      StepKeepsSound(s, run[0]);
      RunKeeps(After(s, run[0]), run[1..]);
    }
  }

  lemma {:induction false} RunKeepsTable(s: State, run: seq<Action>)
    requires TableInv(s) && AllFenced(s, run)
    ensures TableInv(Final(s, run))
    decreases |run|
  {
    hide TableInv, After, Fenced;
    if run != [] {
      StepKeepsTable(s, run[0]);
      RunKeepsTable(After(s, run[0]), run[1..]);
    }
  }

  lemma {:induction false} LastStep(s: State, run: seq<Action>)
    requires run != [] && Runs(s, run)
    ensures var prev, a := run[..|run| - 1], run[|run| - 1];
            Runs(s, prev) && Allowed(Final(s, prev), a) && Final(s, run) == After(Final(s, prev), a)
    decreases |run|
  {
    hide Allowed, After;
    if |run| > 1 {
      LastStep(After(s, run[0]), run[1..]);
      assert run[1..][..|run| - 2] == run[..|run| - 1][1..];
    } else {
      assert run[..0] == [] && run[1..] == [];
    }
  }

  // ---------- what the callers asked for, from the actions alone ----------

  /** What the callers submitted, in order, after the empty batch the machine starts with. */
  function Submitted(run: seq<Action>): (r: seq<Batch>)
    ensures r != []
  {
    if run == [] then [Batch(0, 0, 0, [])]
    else
      Submitted(run[..|run| - 1])
      + match run[|run| - 1]
        case Submitting(address, total, fence) => [Batch(address, total, fence, [])]
        case _ => []
  }

  /** How many fence ids the callers asked for. */
  function IdsAsked(run: seq<Action>): nat {
    if run == [] then 0 else IdsAsked(run[..|run| - 1]) + if run[|run| - 1].Allocating? then 1 else 0
  }

  /** The same batches, whatever became of their entries. */
  ghost predicate SameBatches(bs: seq<Batch>, cs: seq<Batch>) {
    && |bs| == |cs|
    && forall i :: 0 <= i < |bs| ==> bs[i].(fates := []) == cs[i].(fates := [])
  }

  /** The machine works on what was submitted. */
  ghost predicate Tracks(s: State, run: seq<Action>) {
    && SameBatches(s.hist.past + [s.hist.batch], Submitted(run))
    && s.fences.next == FENCE_BASE + IdsAsked(run)
  }

  lemma TurnKeepsBatch(s: State, env: Env)
    ensures var r := Turn(s, env);
            && r.hist.past == s.hist.past && r.hist.batch.(fates := []) == s.hist.batch.(fates := [])
            && r.fences.next == s.fences.next
  {
  }

  lemma StepTracks(s: State, run: seq<Action>, a: Action)
    requires Tracks(s, run)
    ensures Tracks(After(s, a), run + [a])
  {
    hide Turn;
    assert (run + [a])[..|run + [a]| - 1] == run && (run + [a])[|run + [a]| - 1] == a;
    if a.Turning? { TurnKeepsBatch(s, a.env); }
  }

  lemma {:induction false} RunTracks(run: seq<Action>)
    requires Runs(Initial(), run)
    ensures Tracks(Final(Initial(), run), run)
  {
    hide Tracks, After, Allowed, Runs, Final;
    if run == [] {
      StartTracks();
    } else {
      var prev := run[..|run| - 1];
      LastStep(Initial(), run);
      RunTracks(prev);
      StepTracks(Final(Initial(), prev), prev, run[|run| - 1]);
      assert prev + [run[|run| - 1]] == run;
    }
  }

  lemma StartTracks()
    ensures Tracks(Final(Initial(), []), [])
  {
  }

  /** In every run, whatever fences the batches carry: the fences signalled are, in order and
      once each, those of the submitted batches that ran to their end with the last entry
      completed and no failed copy; the machine works on the batch submitted last, and has read
      its entries in index order, each once. */
  lemma SignalsAreDue(run: seq<Action>)
    requires Runs(Initial(), run)
    ensures var s := Final(Initial(), run);
            var bs, last := s.hist.past + [s.hist.batch], Submitted(run)[|Submitted(run)| - 1];
            && SameBatches(bs, Submitted(run)) && s.hist.signals == Due(bs)
            && s.address == last.address && s.total == last.total && s.index == |s.hist.batch.fates| <= s.total
            && s.hist.fetched == Addresses(last.address, if Busy(s.phase) then s.index + 1 else s.index)
  {
    InitialInv();
    RunKeeps(Initial(), run);
    RunTracks(run);
  }

  /** A fresh id has never been handed out, and is not signalled. */
  lemma AllocationFresh(run: seq<Action>)
    requires Runs(Initial(), run)
    ensures var s := Final(Initial(), run);
            && s.fences.next == FENCE_BASE + IdsAsked(run)
            && !Signalled(After(s, Allocating).fences, s.fences.next)
            && After(s, Allocating).fences.next == s.fences.next + 1
  {
    RunTracks(run);
  }

  /** A batch submitted with this fence has earned it. */
  ghost predicate EarnedBy(submitted: seq<Batch>, bs: seq<Batch>, id: nat) {
    exists i :: 0 <= i < |submitted| && i < |bs| && submitted[i].fence == id && Earned(bs[i])
  }

  /** In every run a check reports a fence signalled only if a batch submitted with it has earned
      it, and if the batches carry allocated fences, exactly then. */
  lemma CheckedIffEarned(run: seq<Action>, id: nat)
    requires Runs(Initial(), run)
    ensures var s := Final(Initial(), run);
            var bs := s.hist.past + [s.hist.batch];
            && SameBatches(bs, Submitted(run))
            && (Signalled(s.fences, id) ==> EarnedBy(Submitted(run), bs, id))
            && (AllFenced(Initial(), run) ==> (Signalled(s.fences, id) <==> EarnedBy(Submitted(run), bs, id)))
  {
    hide Runs, Final, AllFenced;
    InitialInv();
    RunKeeps(Initial(), run);
    RunTracks(run);
    if AllFenced(Initial(), run) { RunKeepsTable(Initial(), run); }
    var s := Final(Initial(), run);
    DueIsEarned(s.hist.past + [s.hist.batch], id);
    EarnedEither(Submitted(run), s.hist.past + [s.hist.batch], id);
  }

  lemma EarnedEither(submitted: seq<Batch>, bs: seq<Batch>, id: nat)
    requires SameBatches(bs, submitted)
    ensures EarnedBy(submitted, bs, id) <==> exists b :: b in bs && b.fence == id && Earned(b)
  {
    hide Earned;
    forall i | 0 <= i < |bs| ensures bs[i].fence == submitted[i].fence {
      assert bs[i].(fates := []) == submitted[i].(fates := []);
    }
    if b :| b in bs && b.fence == id && Earned(b) {
      var i :| 0 <= i < |bs| && bs[i] == b;
      assert submitted[i].fence == id;
    }
  }

  /** Nothing but handing its id out again clears a signal. */
  lemma SignalClearedIff(s: State, a: Action, id: nat)
    requires Signalled(s.fences, id)
    ensures Signalled(After(s, a).fences, id) <==> !(a.Allocating? && id == s.fences.next)
  {
    if a.Turning? && s.phase == Complete {
      hide Turn;
      CompleteTurn(s, a.env);
    } else if a.Allocating? {
      AllocateKeepsSignal(s.fences, id);
    } else {
      hide Signalled, FinishEntry;
    }
  }

  /** Every state of the run has the fence signalled. */
  ghost predicate AlwaysSignalled(s: State, run: seq<Action>, id: nat)
    decreases |run|
  {
    Signalled(s.fences, id) && (run != [] ==> AlwaysSignalled(After(s, run[0]), run[1..], id))
  }

  ghost predicate HandedOut(s: State, run: seq<Action>, id: nat)
    decreases |run|
  {
    run != [] && ((run[0].Allocating? && id == s.fences.next) || HandedOut(After(s, run[0]), run[1..], id))
  }

  /** A signalled fence stays signalled through a run, from any state and for any id, exactly
      when the run does not hand its id out. */
  lemma {:induction false} StaysSignalledIff(s: State, run: seq<Action>, id: nat)
    requires Signalled(s.fences, id)
    ensures AlwaysSignalled(s, run, id) <==> !HandedOut(s, run, id)
    decreases |run|
  {
    hide After, Signalled;
    if run != [] {
      SignalClearedIff(s, run[0], id);
      if Signalled(After(s, run[0]).fences, id) { StaysSignalledIff(After(s, run[0]), run[1..], id); }
    }
  }

  /** So a fence that was allocated before it was signalled stays signalled for good. */
  lemma {:induction false} StaysSignalled(s: State, run: seq<Action>, id: nat)
    requires Signalled(s.fences, id) && id < s.fences.next
    ensures AlwaysSignalled(s, run, id)
    decreases |run|
  {
    hide Signalled;
    if run != [] {
      SignalClearedIff(s, run[0], id);
      NextGrows(s, run[0]);
      StaysSignalled(After(s, run[0]), run[1..], id);
    }
  }

  lemma NextGrows(s: State, a: Action)
    ensures After(s, a).fences.next >= s.fences.next
  {
    hide Signalled;
  }

  /** How many turns the current batch still takes at most. */
  function Remaining(s: State): nat
    requires s.index <= s.total
  {
    8 * (s.total - s.index) +
    match s.phase
    case Idle => 8
    case ChannelSwitch => 7
    case Fetch => 6
    case Decode => 5
    case Schedule => 4
    case Semaphore => 3
    case Dispatch => 3
    case Complete => 2
  }

  /** A batch whose doorbell has rung runs to its end: the worker can always turn, and every
      turn brings the end nearer, whatever it finds. */
  lemma BatchAdvances(s: State, env: Env)
    requires Inv(s) && s.index < s.total && (s.rung || s.polled || s.phase == Fetch || Busy(s.phase))
    ensures Awake(s)
    ensures var r := Turn(s, env);
            && r.index <= r.total && Remaining(r) < Remaining(s)
            && (r.index == r.total || r.rung || r.polled || r.phase == Fetch || Busy(r.phase))
  {
    hide Due, Addresses;
  }

  /** A doorbell wakes the worker, and with a batch in hand starts it on its way. */
  lemma RingStarts(s: State, queue: nat)
    requires Inv(s)
    ensures var r := After(s, Ringing(queue));
            Awake(r) && Inv(r) && r.index == s.index && r.total == s.total && r.rung
  {
    hide Due, Addresses;
  }

  /** Turns taken one after the other. */
  ghost function Turns(s: State, envs: seq<Env>): State
    decreases |envs|
  {
    if envs == [] then s else Turns(Turn(s, envs[0]), envs[1..])
  }

  /** Whatever the machine finds on the way, the batch is through all its entries after at most
      `Remaining` turns. */
  lemma {:induction false} BatchEnds(s: State, envs: seq<Env>) returns (k: nat)
    requires Inv(s) && (s.index == s.total || s.rung || s.polled || s.phase == Fetch || Busy(s.phase))
    requires Remaining(s) <= |envs|
    ensures k <= |envs| && Turns(s, envs[..k]).index == s.total == Turns(s, envs[..k]).total
    decreases |envs|
  {
    if s.index == s.total {
      k := 0;
      assert envs[..k] == [];
    } else {
      BatchAdvances(s, envs[0]);
      TurnKeepsInv(s, envs[0]);
      hide Inv, Turn;
      TotalKept(s, envs[0]);
      var k' := BatchEnds(Turn(s, envs[0]), envs[1..]);
      k := k' + 1;
      assert envs[..k][0] == envs[0] && envs[..k][1..] == envs[1..][..k'];
    }
  }

  lemma TotalKept(s: State, env: Env)
    ensures Turn(s, env).total == s.total
  {
  }

  /** With the batch through, the worker uses up the doorbells pending and falls asleep within
      four turns. */
  lemma FallsAsleep(s: State, envs: seq<Env>) returns (k: nat)
    requires Inv(s) && s.index == s.total && |envs| >= 4
    ensures k <= 4
    ensures var r := Turns(s, envs[..k]); !Awake(r) && r.index == r.total == s.total && r.fences == s.fences
  {
    hide Due, Addresses, Turns;
    NoTurns(s);
    assert envs[..0] == [];
    TurnTo(s, envs, 0);
    TurnTo(s, envs, 1);
    TurnTo(s, envs, 2);
    TurnTo(s, envs, 3);
    var rung := s.rung || s.polled;
    match s.phase
    case Idle => k := if rung then 3 else 0;
    case ChannelSwitch => k := if rung then 2 else 1;
    case Fetch => k := if rung then 4 else 1;
    case _ =>
  }

  /** What becomes of an entry, given what the machine finds when it decodes it and when it
      dispatches it.  Unless it waits, an entry with its release bit set completes without its
      copy or launch having been dispatched. */
  function FateOf(e: Entry, decoding: Env, dispatching: Env): Fate {
    match e.kind
    case Barrier => Deferred
    case SemWait => if decoding.reached then Dispatched else Deferred
    case Memcpy => if e.release then Released else if dispatching.copied then Dispatched else CopyFailed
    case OtherMethod => if e.release then Released else Dispatched
  }

  lemma {:induction false} TurnsOneMore(s: State, envs: seq<Env>, env: Env)
    ensures Turns(s, envs + [env]) == Turn(Turns(s, envs), env)
    decreases |envs|
  {
    hide Turn;
    if envs == [] {
      assert envs + [env] == [env];
    } else {
      TurnsOneMore(Turn(s, envs[0]), envs[1..], env);
      assert (envs + [env])[1..] == envs[1..] + [env];
    }
  }

  /** From reading an entry to the next one: the entry at hand, and only it, meets its fate. */
  lemma EntryMeetsFate(s: State, envs: seq<Env>) returns (k: nat)
    requires Inv(s) && s.phase == Fetch && s.index < s.total && |envs| >= 5
    ensures k <= 5
    ensures var r := Turns(s, envs[..k]);
            && r.index == s.index + 1 && r.total == s.total && r.phase == (if r.index < r.total then Fetch else ChannelSwitch)
            && r.hist.batch.fates == s.hist.batch.fates + [FateOf(envs[0].entry, envs[1], envs[3])]
  {
    hide Inv, Turn, Turns;
    assert Turns(s, envs[..0]) == s by { NoTurns(s); }
    var s1 := Turn(s, envs[0]);
    TurnTo(s, envs, 0);
    ToDecode(s, envs[0]);
    TurnTo(s, envs, 1);
    var s2 := Turn(s1, envs[1]);
    FromDecode(s1, envs[1]);
    TurnTo(s, envs, 2);
    TurnTo(s, envs, 3);
    TurnTo(s, envs, 4);
    if s2.phase == Schedule {
      FromSchedule(s2, envs[2], envs[3], envs[4]);
      k := 5;
    } else if s2.phase == Semaphore {
      FromSemaphore(s2, envs[2], envs[3]);
      k := 4;
    } else {
      k := 2;
    }
  }

  lemma NoTurns(s: State)
    ensures Turns(s, []) == s
  {
  }

  lemma TurnTo(s: State, envs: seq<Env>, k: nat)
    requires k < |envs|
    ensures Turns(s, envs[..k + 1]) == Turn(Turns(s, envs[..k]), envs[k])
  {
    TurnsOneMore(s, envs[..k], envs[k]);
    assert envs[..k + 1] == envs[..k] + [envs[k]];
  }

  lemma ToDecode(s: State, env: Env)
    requires s.phase == Fetch && s.index < s.total
    ensures var r := Turn(s, env);
            && r.phase == Decode && r.entry == env.entry && r.index == s.index && r.total == s.total
            && r.hist.batch == s.hist.batch
  {
  }

  lemma FromDecode(s: State, env: Env)
    requires s.phase == Decode
    ensures var r := Turn(s, env);
            if Waits(s.entry) && !(s.entry.kind == SemWait && env.reached) then
              && r.index == s.index + 1 && r.total == s.total && r.phase == (if r.index < r.total then Fetch else ChannelSwitch)
              && r.hist.batch.fates == s.hist.batch.fates + [Deferred]
            else
              r == s.(phase := if s.entry.release && !Waits(s.entry) then Semaphore else Schedule)
  {
  }

  lemma FromSchedule(s: State, env0: Env, env1: Env, env2: Env)
    requires s.phase == Schedule
    ensures var r := Turn(Turn(Turn(s, env0), env1), env2);
            && r.index == s.index + 1 && r.total == s.total && r.phase == (if r.index < r.total then Fetch else ChannelSwitch)
            && r.hist.batch.fates == s.hist.batch.fates + [if s.entry.kind == Memcpy && !env1.copied then CopyFailed else Dispatched]
  {
    hide Signal;
  }

  lemma FromSemaphore(s: State, env0: Env, env1: Env)
    requires s.phase == Semaphore && s.entry.release
    ensures var r := Turn(Turn(s, env0), env1);
            && r.index == s.index + 1 && r.total == s.total && r.phase == (if r.index < r.total then Fetch else ChannelSwitch)
            && r.hist.batch.fates == s.hist.batch.fates + [Released]
  {
    hide Signal;
  }
}
