/** The process registry (plugins/gpu_driver/drv/kfd/kfd_process.c) over the PASID allocator. */
module KfdProcess {
  import opened KfdPasid
  import opened Collections

  // ---------- on values ----------

  datatype Entry = Entry(pid: int, pasid: nat)

  /** The list is kept newest first. */
  datatype World = World(ids: Ids, live: seq<Entry>, count: int, initialized: bool)

  /** The outcomes of the three memory allocations of a create. */
  datatype Memory = Memory(entry: bool, process: bool, shim: bool)

  datatype Status = OK | EBUSY | ENOMEM | ENOSPC | ENOENT

  predicate HasPid(live: seq<Entry>, pid: int) { exists i :: 0 <= i < |live| && live[i].pid == pid }

  function Create(w: World, pid: int, m: Memory): (World, Status) {
    if HasPid(w.live, pid) then (w, EBUSY)
    else if !m.entry || !m.process then (w, ENOMEM)
    else
      var (ids, id) := Allocate(w.ids);
      if id == 0 then (w.(ids := ids), ENOSPC)
      else if !m.shim then (w.(ids := Free(ids, id).0), ENOMEM)
      else (w.(ids := ids, live := [Entry(pid, id)] + w.live, count := w.count + 1), OK)
  }

  /** Destroys the process at position `k` of the list. */
  function Destroy(w: World, k: nat): (World, Status) {
    if k >= |w.live| then (w, ENOENT)
    else (w.(ids := Free(w.ids, w.live[k].pasid).0, live := w.live[..k] + w.live[k + 1..], count := w.count - 1), OK)
  }

  function DestroyAll(w: World): World
    decreases |w.live|
  {
    if w.live == [] then w else DestroyAll(Destroy(w, 0).0)
  }

  function InitRegistry(w: World): World {
    if w.initialized then w else w.(live := [], count := 0, initialized := true)
  }

  function ExitRegistry(w: World): World {
    if w.initialized then DestroyAll(w).(initialized := false) else w
  }

  // ---------- the class ----------

  class Process {
    const pid: int
    const pasid: nat

    constructor (pid: int, pasid: nat)
      ensures this.pid == pid && this.pasid == pasid
    {
      this.pid, this.pasid := pid, pasid;
    }
  }

  function Entries(ps: seq<Process>): (es: seq<Entry>)
    ensures |es| == |ps| && forall i :: 0 <= i < |ps| ==> es[i] == Entry(ps[i].pid, ps[i].pasid)
  {
    seq(|ps|, i requires 0 <= i < |ps| => Entry(ps[i].pid, ps[i].pasid))
  }

  class Registry {
    const pasids: PasidTable
    var processes: seq<Process>
    var count: int
    var initialized: bool

    ghost predicate Good()
      reads this, pasids, pasids.bitmap
    {
      pasids.Good()
    }

    ghost function St(): World
      requires Good()
      reads this, pasids, pasids.bitmap
    {
      World(pasids.Contents(), Entries(processes), count, initialized)
    }

    constructor ()
      ensures Good() && fresh(pasids) && fresh(pasids.bitmap)
      ensures St() == World(Ids({}, 0, 1, false, false), [], 0, false)
    {
      pasids := new PasidTable();
      processes, count, initialized := [], 0, false;
    }

    method InitProcesses()
      requires Good()
      modifies this
      ensures Good() && St() == InitRegistry(old(St()))
    {
      if !initialized {
        processes, count, initialized := [], 0, true;
        assert Entries([]) == [];
      }
    }

    method ExitProcesses()
      requires Good()
      modifies this, pasids, pasids.bitmap
      ensures Good() && St() == ExitRegistry(old(St()))
    {
      if !initialized { return; }
      while processes != []
        invariant Good() && initialized && DestroyAll(St()) == DestroyAll(old(St()))
        decreases |processes|
      {
        ghost var w := St();
        var p := processes[0];
        processes := processes[1..];
        count := count - 1;
        var _ := pasids.FreePasid(p.pasid);
        assert Entries(processes) == w.live[..0] + w.live[1..];
        assert St() == Destroy(w, 0).0;
      }
      initialized := false;
    }

    method CreateProcess(pid: int, m: Memory) returns (err: Status, p: Process?)
      requires Good()
      modifies this, pasids, pasids.bitmap
      ensures Good() && (St(), err) == Create(old(St()), pid, m)
      ensures err == OK <==> p != null
      ensures p != null ==> fresh(p) && processes == [p] + old(processes)
    {
      hide Allocate, Free, Valid, Marked;
      p := null;
      var i := 0;
      while i < |processes|
        invariant i <= |processes| && forall k :: 0 <= k < i ==> processes[k].pid != pid
      {
        if processes[i].pid == pid {
          assert St().live[i].pid == pid;
          return EBUSY, null;
        }
        i := i + 1;
      }
      assert !HasPid(St().live, pid);
      if !m.entry { return ENOMEM, null; }
      if !m.process { return ENOMEM, null; }
      var ok, pasid := pasids.AllocatePasid();
      if !ok { return ENOSPC, null; }
      if !m.shim {
        var _ := pasids.FreePasid(pasid);
        return ENOMEM, null;
      }
      var q := new Process(pid, pasid);
      p := q;
      processes := [q] + processes;
      count := count + 1;
      err := OK;
      assert Entries(processes) == [Entry(pid, pasid)] + old(Entries(processes));
    }

    /** `k` is where the process is in the list, or the length of the list. */
    method DestroyProcess(p: Process) returns (err: Status, ghost k: nat)
      requires Good()
      modifies this, pasids, pasids.bitmap
      ensures Good() && k <= |old(processes)| && (St(), err) == Destroy(old(St()), k)
      ensures forall j :: 0 <= j < k ==> old(processes)[j] != p
      ensures k < |old(processes)| ==> old(processes)[k] == p && processes == old(processes)[..k] + old(processes)[k + 1..]
    {
      var i := 0;
      while i < |processes| && processes[i] != p
        invariant i <= |processes| && forall j :: 0 <= j < i ==> processes[j] != p
      {
        i := i + 1;
      }
      k := i;
      if i == |processes| { return ENOENT, k; }
      ghost var w := St();
      processes := processes[..i] + processes[i + 1..];
      count := count - 1;
      var _ := pasids.FreePasid(p.pasid);
      assert Entries(processes) == w.live[..i] + w.live[i + 1..];
      err := OK;
    }

    method FindByPid(pid: int) returns (p: Process?)
      requires Good()
      ensures p != null ==> p in processes && p.pid == pid
      ensures p == null <==> !HasPid(St().live, pid)
    {
      var i := 0;
      while i < |processes|
        invariant i <= |processes| && forall k :: 0 <= k < i ==> processes[k].pid != pid
      {
        if processes[i].pid == pid {
          assert St().live[i].pid == pid;
          return processes[i];
        }
        i := i + 1;
      }
      p := null;
    }
  }

  // ---------- what every safe operation keeps ----------

  ghost function PasidsOf(live: seq<Entry>): set<nat> { set i | 0 <= i < |live| :: live[i].pasid }

  ghost predicate DistinctPids(live: seq<Entry>) {
    forall i, j :: 0 <= i < j < |live| ==> live[i].pid != live[j].pid
  }

  ghost predicate DistinctPasids(live: seq<Entry>) {
    forall i, j :: 0 <= i < j < |live| ==> live[i].pasid != live[j].pasid
  }

  /** Live processes have distinct pids and distinct PASIDs, and the allocator's ids are exactly
      theirs. */
  ghost predicate Inv(w: World) {
    && Valid(w.ids)
    && DistinctPids(w.live) && DistinctPasids(w.live)
    && (forall i :: 0 <= i < |w.live| ==> w.live[i].pasid != 0)
    && w.count == |w.live|
    && (if w.ids.ready then w.ids.taken == {0} + PasidsOf(w.live) else w.live == [])
  }

  datatype Action =
    | InitIds
    | ExitIds
    | InitList
    | ExitList
    | Creating(pid: int, m: Memory)
    | Destroying(k: nat)

  function Step(w: World, a: Action): World {
    match a
    case InitIds => w.(ids := Init(w.ids))
    case ExitIds => w.(ids := Exit(w.ids))
    case InitList => InitRegistry(w)
    case ExitList => ExitRegistry(w)
    case Creating(pid, m) => Create(w, pid, m).0
    case Destroying(k) => Destroy(w, k).0
  }

  /** The two steps that can strand live processes. */
  predicate Safe(w: World, a: Action) {
    && (a == ExitIds ==> w.live == [])
    && (a == InitList ==> w.initialized || w.live == [])
  }

  lemma CreateKeepsInv(w: World, pid: int, m: Memory)
    requires Inv(w)
    ensures Inv(Create(w, pid, m).0)
  {
    hide LeastFree, PasidsOf, DistinctPids, DistinctPasids;
    if HasPid(w.live, pid) || !m.entry || !m.process {
    } else {
      var (ids, id) := Allocate(w.ids);
      NoLiveNoPasids(w.live);
      if id == 0 {
        AllocateKeepsValid(w.ids);
      } else {
        AllocatedIsFree(w.ids);
        if m.shim { NewcomerKeepsInv(w, pid, ids, id); } else { RollbackKeepsInv(w, ids, id); }
      }
    }
  }

  lemma NewcomerKeepsInv(w: World, pid: int, ids: Ids, id: nat)
    requires Inv(w) && !HasPid(w.live, pid) && (ids, id) == Allocate(w.ids) && id != 0 && id !in LazyInit(w.ids).taken
    ensures Inv(w.(ids := ids, live := [Entry(pid, id)] + w.live, count := w.count + 1))
  {
    hide LeastFree, PasidsOf, DistinctPids, DistinctPasids, HasPid;
    AllocateKeepsValid(w.ids);
    NoLiveNoPasids(w.live);
    AddPasid(w.live, Entry(pid, id));
    FreshStaysDistinct(w.live, Entry(pid, id));
    assert ids.taken == {0} + PasidsOf(w.live) + {id};
  }

  lemma RollbackKeepsInv(w: World, ids: Ids, id: nat)
    requires Inv(w) && (ids, id) == Allocate(w.ids) && id != 0 && id !in LazyInit(w.ids).taken
    ensures Inv(w.(ids := Free(ids, id).0))
  {
    hide LeastFree, PasidsOf, DistinctPids, DistinctPasids;
    AllocateKeepsValid(w.ids);
    FreeKeepsValid(ids, id);
    NoLiveNoPasids(w.live);
    assert LazyInit(w.ids).taken + {id} - {id} == LazyInit(w.ids).taken;
  }

  lemma NoLiveNoPasids(live: seq<Entry>)
    ensures live == [] ==> PasidsOf(live) == {} && DistinctPids(live) && DistinctPasids(live)
  {
  }

  lemma AllocatedIsFree(r: Ids)
    requires Valid(r) && Allocate(r).1 != 0
    ensures Allocate(r).1 !in LazyInit(r).taken
  {
  }

  lemma FreshStaysDistinct(live: seq<Entry>, e: Entry)
    requires DistinctPids(live) && DistinctPasids(live)
    ensures !HasPid(live, e.pid) ==> DistinctPids([e] + live)
    ensures e.pasid !in PasidsOf(live) ==> DistinctPasids([e] + live)
  {
    assert forall i :: 0 <= i < |live| ==> live[i].pasid in PasidsOf(live);
  }

  lemma AddPasid(live: seq<Entry>, e: Entry)
    ensures PasidsOf([e] + live) == PasidsOf(live) + {e.pasid}
  {
    var r := [e] + live;
    forall x | x in PasidsOf(live) + {e.pasid} ensures x in PasidsOf(r) {
      if x == e.pasid {
        assert r[0].pasid == x;
      } else {
        var i :| 0 <= i < |live| && live[i].pasid == x;
        assert r[i + 1].pasid == x;
      }
    }
    forall x | x in PasidsOf(r) ensures x in PasidsOf(live) + {e.pasid} {
      var i :| 0 <= i < |r| && r[i].pasid == x;
      if i > 0 { assert live[i - 1].pasid == x; }
    }
  }

  lemma DropPasid(live: seq<Entry>, k: nat)
    requires k < |live| && DistinctPasids(live)
    ensures PasidsOf(live[..k] + live[k + 1..]) == PasidsOf(live) - {live[k].pasid}
  {
    var r := live[..k] + live[k + 1..];
    forall x | x in PasidsOf(live) - {live[k].pasid} ensures x in PasidsOf(r) {
      var i :| 0 <= i < |live| && live[i].pasid == x;
      assert r[if i < k then i else i - 1].pasid == x;
    }
    forall x | x in PasidsOf(r) ensures x in PasidsOf(live) - {live[k].pasid} {
      var i :| 0 <= i < |r| && r[i].pasid == x;
      assert live[if i < k then i else i + 1].pasid == x;
    }
  }

  lemma DestroyKeepsInv(w: World, k: nat)
    requires Inv(w)
    ensures Inv(Destroy(w, k).0)
  {
    if k < |w.live| {
      var id := w.live[k].pasid;
      FreeKeepsValid(w.ids, id);
      DropPasid(w.live, k);
      assert id in PasidsOf(w.live);
    }
  }

  lemma {:induction false} DestroyAllKeepsInv(w: World)
    requires Inv(w)
    ensures Inv(DestroyAll(w)) && DestroyAll(w).live == []
    decreases |w.live|
  {
    hide Inv;
    if w.live != [] {
      DestroyKeepsInv(w, 0);
      DestroyAllKeepsInv(Destroy(w, 0).0);
    }
  }

  lemma StepKeepsInv(w: World, a: Action)
    requires Inv(w) && Safe(w, a)
    ensures Inv(Step(w, a))
  {
    hide Create, Destroy, DestroyAll;
    if a.Creating? {
      CreateKeepsInv(w, a.pid, a.m);
    } else if a.Destroying? {
      DestroyKeepsInv(w, a.k);
    } else if a == ExitList {
      DestroyAllKeepsInv(w);
    }
  }

  ghost predicate SafeRun(w: World, run: seq<Action>)
    decreases |run|
  {
    run == [] || (Safe(w, run[0]) && SafeRun(Step(w, run[0]), run[1..]))
  }

  ghost function Run(w: World, run: seq<Action>): World
    decreases |run|
  {
    if run == [] then w else Run(Step(w, run[0]), run[1..])
  }

  /** Over every run that never tears the allocator down, or initialises the list, under live
      processes. */
  lemma {:induction false} RunKeepsInv(w: World, run: seq<Action>)
    requires Inv(w) && SafeRun(w, run)
    ensures Inv(Run(w, run))
    decreases |run|
  {
    hide Inv, Step, Safe;
    if run != [] {
      StepKeepsInv(w, run[0]);
      RunKeepsInv(Step(w, run[0]), run[1..]);
    }
  }

  /** A create that fails changes neither the processes nor the ids handed out. */
  lemma FailedCreateKeeps(w: World, pid: int, m: Memory)
    requires Valid(w.ids) && Create(w, pid, m).1 != OK
    ensures var r := Create(w, pid, m).0;
            && r.live == w.live && r.count == w.count
            && Allocated(r.ids) == Allocated(w.ids) && r.ids.count == w.ids.count
  {
    hide LeastFree;
    var (ids, id) := Allocate(w.ids);
    var taken := LazyInit(w.ids).taken;
    if id != 0 { assert taken + {id} - {id} == taken; }
  }

  lemma {:induction false} CountPasids(live: seq<Entry>)
    requires DistinctPasids(live)
    ensures |PasidsOf(live)| == |live|
    decreases |live|
  {
    if live == [] {
      assert PasidsOf(live) == {};
    } else {
      hide PasidsOf;
      CountPasids(live[1..]);
      assert live == [live[0]] + live[1..];
      AddPasid(live[1..], live[0]);
    }
  }

  lemma FullMeansAll(s: set<nat>, n: nat)
    requires s <= Range(n) && |s| == n
    ensures s == Range(n)
  {
    FitsIn(Range(n) - s, Range(n));
    assert Range(n) == s + (Range(n) - s);
  }

  lemma {:induction false} FitsIn(s: set<nat>, t: set<nat>)
    requires s <= t
    ensures |s| <= |t|
    decreases |s|
  {
    if s != {} {
      var k :| k in s;
      FitsIn(s - {k}, t - {k});
    }
  }

  /** A create succeeds exactly when the pid is free, memory can be had, the allocator is not
      shut down, and fewer than 65535 processes are live. */
  lemma CreateSucceedsIff(w: World, pid: int, m: Memory)
    requires Inv(w)
    ensures Create(w, pid, m).1 == OK
            <==> !HasPid(w.live, pid) && m.entry && m.process && m.shim && !w.ids.exited && |w.live| < MAX_PASID
  {
    var r := LazyInit(w.ids);
    if !r.exited {
      NoLiveNoPasids(w.live);
      assert r.taken == {0} + PasidsOf(w.live) && 0 !in PasidsOf(w.live);
      CountPasids(w.live);
      hide PasidsOf;
      var n := MAX_PASID + 1;
      RoomLeft(r, w.live, n);
    }
  }

  lemma RoomLeft(r: Ids, live: seq<Entry>, n: nat)
    requires Valid(r) && r.ready && n == MAX_PASID + 1
    requires r.taken == {0} + PasidsOf(live) && |PasidsOf(live)| == |live| && 0 !in PasidsOf(live)
    ensures LeastFree(r.taken, 1) == 0 <==> |live| >= MAX_PASID
  {
    hide LeastFree, Range, PasidsOf;
    var least := LeastFree(r.taken, 1);
    assert |r.taken| == |live| + 1;
    if least == 0 {
      assert Range(n) <= r.taken;
      FitsIn(Range(n), r.taken);
    } else if |live| >= MAX_PASID {
      FitsIn(r.taken, Range(n));
      FullMeansAll(r.taken, n);
      assert false;
    }
  }

  // ---------- what an unsafe step breaks ----------

  /** Distinct new pids, none of them live. */
  ghost predicate NewPids(live: seq<Entry>, pids: seq<int>) {
    && (forall i, j :: 0 <= i < j < |pids| ==> pids[i] != pids[j])
    && (forall i :: 0 <= i < |pids| ==> !HasPid(live, pids[i]))
  }

  ghost function CreateEach(w: World, pids: seq<int>): World {
    if pids == [] then w
    else Create(CreateEach(w, pids[..|pids| - 1]), pids[|pids| - 1], Memory(true, true, true)).0
  }

  /** Entries made by a run of creates that numbers its processes from one. */
  ghost predicate Numbered(v: World, w: World, pids: seq<int>) {
    && |v.live| == |pids| + |w.live| && v.live[|pids|..] == w.live
    && (forall i :: 0 <= i < |pids| ==> v.live[i] == Entry(pids[|pids| - 1 - i], |pids| - i))
    && v.ids.taken == Range(|pids| + 1) && v.ids.ready && !v.ids.exited
  }

  /** Starting from an empty table, the n-th create gets PASID n. */
  lemma {:induction false} NumberedFromOne(w: World, pids: seq<int>)
    requires w.ids == Fresh() && NewPids(w.live, pids) && |pids| <= MAX_PASID
    ensures Numbered(CreateEach(w, pids), w, pids)
    decreases |pids|
  {
    if pids == [] {
      assert Range(|pids| + 1) == {0};
    } else {
      hide Numbered, Create;
      var n := |pids| - 1;
      NumberedFromOne(w, pids[..n]);
      NextNumber(CreateEach(w, pids[..n]), w, pids);
    }
  }

  lemma NotNumberedYet(v: World, w: World, pids: seq<int>)
    requires pids != [] && NewPids(w.live, pids) && Numbered(v, w, pids[..|pids| - 1])
    ensures !HasPid(v.live, pids[|pids| - 1])
  {
    hide Range;
    var n := |pids| - 1;
    forall i | 0 <= i < |v.live| ensures v.live[i].pid != pids[n] {
      if i >= n { assert v.live[n..][i - n] == v.live[i]; }
    }
  }

  lemma NextNumber(v: World, w: World, pids: seq<int>)
    requires pids != [] && NewPids(w.live, pids) && |pids| <= MAX_PASID && Numbered(v, w, pids[..|pids| - 1])
    ensures Numbered(Create(v, pids[|pids| - 1], Memory(true, true, true)).0, w, pids)
  {
    hide LeastFree, Allocate, Range, HasPid, NewPids;
    var n := |pids| - 1;
    NotNumberedYet(v, w, pids);
    GrantsLeast(v.ids, n + 1);
    var r := Create(v, pids[n], Memory(true, true, true)).0;
    assert r.live == [Entry(pids[n], n + 1)] + v.live;
    assert r.live[|pids|..] == v.live[n..];
    assert Range(n + 2) == Range(n + 1) + {n + 1};
  }

  /** Tearing the allocator down and up again under live processes hands their PASIDs out
      again: with as many new processes as the PASID of a live one, two live processes share it. */
  lemma RestartDuplicates(w: World, k: nat, pids: seq<int>)
    requires Inv(w) && k < |w.live| && NewPids(w.live, pids) && |pids| == w.live[k].pasid
    ensures !DistinctPasids(CreateEach(Step(Step(w, ExitIds), InitIds), pids).live)
  {
    var v := Step(Step(w, ExitIds), InitIds);
    assert w.live[k].pasid in PasidsOf(w.live);
    NumberedFromOne(v, pids);
    var r := CreateEach(v, pids);
    assert r.live[|pids|..][k] == w.live[k];
    assert r.live[0].pasid == r.live[|pids| + k].pasid;
  }

  /** An unsafe step breaks the invariant, whatever the state. */
  lemma UnsafeBreaks(w: World, a: Action)
    requires Inv(w) && !Safe(w, a)
    ensures !Inv(Step(w, a))
  {
    assert w.live[0].pasid in PasidsOf(w.live);
    assert PasidsOf([]) == {};
  }
}
