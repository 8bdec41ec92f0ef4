/** Page migration between system and device memory (plugins/gpu_driver/sim/page_migration.cpp)
    with the IOMMU mapping table beside it (plugins/iommu_driver/dma_remap.cpp).  Unmapping a
    page calls back into the tracker through the domain's flush hook, also when the tracker
    itself is in the middle of a migration. */
module PageMigration {
  import opened Collections

  const PAGE: nat := 4096
  const WORD: nat := 0x1_0000_0000_0000_0000

  type byte = x: int | 0 <= x < 256

  datatype PageState = Clean | Dirty | Evicted

  datatype Rc = OK | EINVAL | EFAULT | EREMOTEIO | ENOKEY

  // ---------- on values ----------

  datatype Pages = Pages(
    memory: seq<byte>,
    states: map<nat, PageState>,
    table: map<nat, nat>,
    dirty: map<nat, bool>,
    count: nat)

  /** `attached`: the tracker maps through the domain; `bound`: the domain flushes into the
      tracker; `hooked`: the domain has the default flush hook; `vfio`: the hook hands the
      flush to a real device instead. */
  datatype World = World(pages: Pages, phys: map<nat, nat>, attached: bool, bound: bool, hooked: bool, vfio: bool)

  predicate OnDevice(p: Pages, offset: nat) { offset in p.states && p.states[offset] != Evicted }

  predicate MarkedDirty(p: Pages, offset: nat) { offset in p.dirty && p.dirty[offset] }

  function Copy(memory: seq<byte>, offset: nat, src: seq<byte>): seq<byte>
    requires offset + |src| <= |memory|
  {
    memory[..offset] + src + memory[offset + |src|..]
  }

  function Map(w: World, iova: nat, paddr: nat, size: nat): (World, Rc) {
    if size != PAGE || iova % PAGE != 0 || paddr % PAGE != 0 then (w, EINVAL)
    else if iova in w.phys then (w, EREMOTEIO)
    else (w.(phys := w.phys[iova := paddr]), OK)
  }

  function Invalidate(p: Pages, offset: nat): Pages {
    if OnDevice(p, offset) then
      p.(states := p.states[offset := Evicted], table := p.table - {offset}, dirty := p.dirty - {offset})
    else p
  }

  function Unmap(w: World, iova: nat, size: nat): (World, Rc) {
    if size != PAGE then (w, EINVAL)
    else if iova !in w.phys then (w, ENOKEY)
    else
      var w' := w.(phys := w.phys - {iova});
      (if w.hooked && !w.vfio && w.bound then w'.(pages := Invalidate(w.pages, iova)) else w', OK)
  }

  function ToDevice(w: World, offset: nat, src: seq<byte>): (World, Rc) {
    if offset + |src| > |w.pages.memory| then (w, EFAULT)
    else
      var p := w.pages;
      var w' := w.(pages := Pages(Copy(p.memory, offset, src), p.states[offset := Clean],
                                  p.table[offset := offset / PAGE], p.dirty, p.count + 1));
      (if w.attached then Map(w', offset, offset / PAGE * PAGE, |src|).0 else w', OK)
  }

  function ToSystem(w: World, offset: nat, size: nat): (World, Rc) {
    if offset + size > |w.pages.memory| then (w, EFAULT)
    else
      var w' := if w.attached then Unmap(w, offset, size).0 else w;
      var p := w'.pages;
      (w'.(pages := p.(states := p.states[offset := Evicted], table := p.table - {offset}, count := p.count + 1)), OK)
  }

  function MarkDirty(p: Pages, offset: nat): Pages {
    if OnDevice(p, offset) then p.(states := p.states[offset := Dirty], dirty := p.dirty[offset := true]) else p
  }

  // ---------- the classes ----------

  class Domain {
    var phys: map<nat, nat>
    var tracker: Tracker?
    const hooked: bool
    const vfio: bool

    constructor (hooked: bool, vfio: bool)
      ensures phys == map[] && tracker == null && this.hooked == hooked && this.vfio == vfio
    {
      phys, tracker := map[], null;
      this.hooked, this.vfio := hooked, vfio;
    }

    method MapPage(iova: nat, paddr: nat, size: nat, ghost t: Tracker) returns (rc: Rc)
      modifies this`phys
      ensures (t.St(this), rc) == Map(old(t.St(this)), iova, paddr, size)
    {
      if size != PAGE { return EINVAL; }
      if iova % PAGE != 0 { return EINVAL; }
      if paddr % PAGE != 0 { return EINVAL; }
      if iova in phys { return EREMOTEIO; }
      phys := phys[iova := paddr];
      rc := OK;
    }

    method UnmapPage(iova: nat, size: nat, ghost t: Tracker) returns (rc: Rc)
      requires tracker == null || tracker == t
      modifies this`phys, t`states, t`table, t`dirty
      ensures (t.St(this), rc) == Unmap(old(t.St(this)), iova, size)
    {
      if size != PAGE { return EINVAL; }
      if iova !in phys { return ENOKEY; }
      var flushed := [iova];
      phys := phys - {iova};
      if hooked {
        FlushIotlb(flushed, t);
      }
      rc := OK;
    }

    /** The default hook, for the one entry an unmap evicts. */
    method FlushIotlb(flushed: seq<nat>, ghost t: Tracker)
      requires |flushed| == 1 && (tracker == null || tracker == t)
      modifies t`states, t`table, t`dirty
      ensures t.Value() == if !vfio && tracker == t then Invalidate(old(t.Value()), flushed[0]) else old(t.Value())
    {
      if vfio { return; }
      if tracker != null {
        tracker.InvalidatePage(flushed[0]);
      }
    }
  }

  class Tracker {
    const memory: array<byte>
    var states: map<nat, PageState>
    var table: map<nat, nat>
    var dirty: map<nat, bool>
    var count: nat
    var domain: Domain?

    ghost function Value(): Pages
      reads this, memory
    {
      Pages(memory[..], states, table, dirty, count)
    }

    /** The tracker seen together with domain `d`. */
    ghost function St(d: Domain): World
      reads this, memory, d
    {
      World(Value(), d.phys, domain == d, d.tracker == this, d.hooked, d.vfio)
    }

    constructor (size: nat)
      requires size > 0
      ensures fresh(memory) && memory.Length == size && forall i :: 0 <= i < size ==> memory[i] == 0
      ensures states == map[] && table == map[] && dirty == map[] && count == 0 && domain == null
    {
      memory := new byte[size](i => 0);
      states, table, dirty, count, domain := map[], map[], map[], 0, null;
    }

    method AttachDomain(d: Domain?)
      modifies this`domain
      ensures domain == d
    {
      domain := d;
    }

    method InvalidatePage(offset: nat)
      modifies this`states, this`table, this`dirty
      ensures Value() == Invalidate(old(Value()), offset)
    {
      if offset in states && states[offset] != Evicted {
        states := states[offset := Evicted];
        table := table - {offset};
        dirty := dirty - {offset};
      }
    }

    method MarkPageDirty(offset: nat)
      modifies this`states, this`dirty
      ensures Value() == MarkDirty(old(Value()), offset)
    {
      if offset in states && states[offset] != Evicted {
        states := states[offset := Dirty];
        dirty := dirty[offset := true];
      }
    }

    /** `d` is the domain the tracker may be attached to. */
    method MigrateToDevice(offset: nat, src: seq<byte>, ghost d: Domain) returns (rc: Rc)
      requires offset + |src| < WORD && (domain == null || domain == d)
      modifies this, memory, d`phys
      ensures domain == old(domain) && (St(d), rc) == ToDevice(old(St(d)), offset, src)
    {
      if offset + |src| > memory.Length { return EFAULT; }
      forall i | 0 <= i < |src| { memory[offset + i] := src[i]; }
      assert memory[..] == Copy(old(memory[..]), offset, src);
      states := states[offset := Clean];
      table := table[offset := offset / PAGE];
      count := count + 1;
      if domain != null {
        var _ := domain.MapPage(offset, table[offset] * PAGE, |src|, this);
      }
      rc := OK;
    }

    method MigrateToSystem(offset: nat, size: nat, ghost d: Domain) returns (rc: Rc, dst: seq<byte>)
      requires offset + size < WORD && (domain == null || domain == d) && (d.tracker == null || d.tracker == this)
      modifies this, d`phys
      ensures domain == old(domain) && (St(d), rc) == ToSystem(old(St(d)), offset, size)
      ensures rc == OK ==> offset + size <= memory.Length && dst == memory[offset..offset + size]
    {
      if offset + size > memory.Length { return EFAULT, []; }
      if domain != null {
        var _ := domain.UnmapPage(offset, size, this);
      }
      dst := memory[offset..offset + size];
      states := states[offset := Evicted];
      table := table - {offset};
      count := count + 1;
      rc := OK;
    }
  }

  // ---------- one set of pages ----------

  /** Pages on the device, the page table and the IOMMU agree on which pages there are and
      where, and the dirty flags agree with the page states. */
  ghost predicate Coherent(w: World) {
    && w.phys.Keys == w.pages.table.Keys
    && (forall o: nat :: OnDevice(w.pages, o) <==> o in w.pages.table)
    && (forall o: nat :: o in w.phys ==> o % PAGE == 0 && w.phys[o] == o && w.pages.table[o] == o / PAGE)
    && (forall o: nat :: MarkedDirty(w.pages, o) <==> o in w.pages.states && w.pages.states[o] == Dirty)
  }

  /** Tracker and domain are bound to each other and the default hook is at work. */
  predicate Linked(w: World) { w.attached && w.bound && w.hooked && !w.vfio }

  datatype Action =
    | ToDev(offset: nat, src: seq<byte>)
    | ToSys(offset: nat, size: nat)
    | Marking(offset: nat)
    | Unmapping(iova: nat, size: nat)
    | Mapping(iova: nat, paddr: nat, size: nat)
    | Invalidating(offset: nat)

  function Step(w: World, a: Action): World {
    match a
    case ToDev(offset, src) => ToDevice(w, offset, src).0
    case ToSys(offset, size) => ToSystem(w, offset, size).0
    case Marking(offset) => w.(pages := MarkDirty(w.pages, offset))
    case Unmapping(iova, size) => Unmap(w, iova, size).0
    case Mapping(iova, paddr, size) => Map(w, iova, paddr, size).0
    case Invalidating(offset) => w.(pages := Invalidate(w.pages, offset))
  }

  /** When a step leaves the tables in agreement.  A page must not be dirty when it is sent to
      the device again, since its flag survives; a page must be sent as one aligned page unless
      it is there already, and taken back as one page if it is there; only the tracker may map
      pages; and only the flush may invalidate pages on the device. */
  predicate Keeps(w: World, a: Action) {
    match a
    case ToDev(offset, src) =>
      offset + |src| > |w.pages.memory|
      || (!MarkedDirty(w.pages, offset) && (OnDevice(w.pages, offset) || (offset % PAGE == 0 && |src| == PAGE)))
    case ToSys(offset, size) =>
      offset + size > |w.pages.memory| || !OnDevice(w.pages, offset) || size == PAGE
    case Marking(offset) => true
    case Unmapping(iova, size) => true
    case Mapping(iova, paddr, size) => size != PAGE || iova % PAGE != 0 || paddr % PAGE != 0 || iova in w.phys
    case Invalidating(offset) => !OnDevice(w.pages, offset)
  }

  lemma ToDeviceKeepsIff(w: World, offset: nat, src: seq<byte>)
    requires Linked(w) && Coherent(w)
    ensures Coherent(ToDevice(w, offset, src).0) <==> Keeps(w, ToDev(offset, src))
  {
    hide Copy;
    if offset + |src| <= |w.pages.memory| {
      var r := ToDevice(w, offset, src).0;
      assert OnDevice(r.pages, offset);
      if MarkedDirty(w.pages, offset) { assert MarkedDirty(r.pages, offset); }
      assert offset in r.pages.table.Keys;
      if Keeps(w, ToDev(offset, src)) {
        forall o: nat ensures MarkedDirty(r.pages, o) <==> o in r.pages.states && r.pages.states[o] == Dirty {
          assert MarkedDirty(r.pages, o) == MarkedDirty(w.pages, o);
        }
        forall o: nat ensures OnDevice(r.pages, o) <==> o in r.pages.table { assert OnDevice(w.pages, o) <==> o in w.pages.table; }
      }
    }
  }

  lemma ToSystemKeepsIff(w: World, offset: nat, size: nat)
    requires Linked(w) && Coherent(w)
    ensures Coherent(ToSystem(w, offset, size).0) <==> Keeps(w, ToSys(offset, size))
  {
    if offset + size <= |w.pages.memory| {
      assert OnDevice(w.pages, offset) <==> offset in w.phys.Keys;
      if Keeps(w, ToSys(offset, size)) {
        ToSystemKeeps(w, offset, size);
      } else {
        var r := ToSystem(w, offset, size).0;
        assert offset in r.phys.Keys && offset !in r.pages.table.Keys;
      }
    }
  }

  lemma ToSystemKeeps(w: World, offset: nat, size: nat)
    requires Linked(w) && Coherent(w) && offset + size <= |w.pages.memory| && Keeps(w, ToSys(offset, size))
    ensures Coherent(ToSystem(w, offset, size).0)
  {
    hide ToSystem, Keeps;
    var r := ToSystem(w, offset, size).0;
    TakenBack(w, offset, size);
    forall o: nat ensures MarkedDirty(r.pages, o) <==> o in r.pages.states && r.pages.states[o] == Dirty {
      assert MarkedDirty(r.pages, o) <==> o != offset && MarkedDirty(w.pages, o);
    }
    forall o: nat ensures OnDevice(r.pages, o) <==> o in r.pages.table { assert OnDevice(w.pages, o) <==> o in w.pages.table; }
  }

  /** What a migration out that keeps the tables in agreement does to them. */
  lemma TakenBack(w: World, offset: nat, size: nat)
    requires Linked(w) && Coherent(w) && offset + size <= |w.pages.memory| && Keeps(w, ToSys(offset, size))
    ensures var r := ToSystem(w, offset, size).0;
            && r.phys == w.phys - {offset} && r.pages.table == w.pages.table - {offset}
            && r.pages.states == w.pages.states[offset := Evicted]
            && forall o: nat :: MarkedDirty(r.pages, o) <==> o != offset && MarkedDirty(w.pages, o)
  {
    assert OnDevice(w.pages, offset) <==> offset in w.phys.Keys;
    assert offset !in w.phys ==> w.phys - {offset} == w.phys;
    assert !OnDevice(w.pages, offset) ==> !MarkedDirty(w.pages, offset);
  }

  /** A step of any kind, by anyone, keeps the tables in agreement exactly when `Keeps` says. */
  lemma StepKeepsIff(w: World, a: Action)
    requires Linked(w) && Coherent(w)
    ensures Linked(Step(w, a))
    ensures Coherent(Step(w, a)) <==> Keeps(w, a)
  {
    var r := Step(w, a);
    match a {
      case ToDev(offset, src) => hide Coherent; ToDeviceKeepsIff(w, offset, src);
      case ToSys(offset, size) => hide Coherent; ToSystemKeepsIff(w, offset, size);
      case Marking(offset) =>
        forall o: nat ensures OnDevice(r.pages, o) == OnDevice(w.pages, o) { }
        forall o: nat ensures MarkedDirty(r.pages, o) <==> o in r.pages.states && r.pages.states[o] == Dirty {
          assert MarkedDirty(w.pages, o) <==> o in w.pages.states && w.pages.states[o] == Dirty;
        }
      case Unmapping(iova, size) => UnmapKeeps(w, iova, size);
      case Mapping(iova, paddr, size) =>
        if r != w { assert iova in r.phys.Keys && iova !in r.pages.table.Keys; }
      case Invalidating(offset) =>
        if r != w { assert offset in r.phys.Keys && offset !in r.pages.table.Keys; }
    }
  }

  lemma UnmapKeeps(w: World, iova: nat, size: nat)
    requires Linked(w) && Coherent(w)
    ensures Coherent(Unmap(w, iova, size).0)
  {
    var r := Unmap(w, iova, size).0;
    if r != w {
      assert OnDevice(w.pages, iova);
      forall o: nat ensures OnDevice(r.pages, o) <==> o in r.pages.table { assert OnDevice(w.pages, o) <==> o in w.pages.table; }
      forall o: nat ensures MarkedDirty(r.pages, o) <==> o in r.pages.states && r.pages.states[o] == Dirty {
        assert MarkedDirty(w.pages, o) <==> o in w.pages.states && w.pages.states[o] == Dirty;
      }
    }
  }

  ghost predicate AllKeep(w: World, run: seq<Action>)
    decreases |run|
  {
    run == [] || (Keeps(w, run[0]) && AllKeep(Step(w, run[0]), run[1..]))
  }

  ghost function Run(w: World, run: seq<Action>): World
    decreases |run|
  {
    if run == [] then w else Run(Step(w, run[0]), run[1..])
  }

  lemma {:induction false} RunKeepsCoherent(w: World, run: seq<Action>)
    requires Linked(w) && Coherent(w) && AllKeep(w, run)
    ensures Coherent(Run(w, run)) && Linked(Run(w, run))
    decreases |run|
  {
    hide Coherent, Linked, Step, Keeps;
    if run != [] {
      StepKeepsIff(w, run[0]);
      RunKeepsCoherent(Step(w, run[0]), run[1..]);
    }
  }

  /** A mapping that is made translates the address as asked, touches no other, and is undone by
      the unmap. */
  lemma MapThenUnmap(w: World, iova: nat, paddr: nat)
    ensures var (r, rc) := Map(w, iova, paddr, PAGE);
            && (rc == OK <==> iova % PAGE == 0 && paddr % PAGE == 0 && iova !in w.phys)
            && (rc != OK ==> r == w)
            && (rc == OK ==>
                  && iova in r.phys && r.phys[iova] == paddr
                  && (forall o :: o != iova ==> (o in r.phys <==> o in w.phys) && (o in w.phys ==> r.phys[o] == w.phys[o]))
                  && Unmap(r, iova, PAGE).1 == OK && Unmap(r, iova, PAGE).0.phys == w.phys)
  {
    if iova !in w.phys { assert w.phys[iova := paddr] - {iova} == w.phys; }
  }

  /** Whoever is bound to whom: a migration not refused leaves its page where it was sent, and an
      unmap takes a page off the device exactly when the flush reaches the tracker. */
  lemma PageGoes(w: World, offset: nat, src: seq<byte>, size: nat)
    ensures ToDevice(w, offset, src).1 == OK <==> offset + |src| <= |w.pages.memory|
    ensures ToDevice(w, offset, src).1 == OK ==> OnDevice(ToDevice(w, offset, src).0.pages, offset)
    ensures ToSystem(w, offset, size).1 == OK <==> offset + size <= |w.pages.memory|
    ensures ToSystem(w, offset, size).1 == OK ==> !OnDevice(ToSystem(w, offset, size).0.pages, offset)
    ensures OnDevice(w.pages, offset) && offset in w.phys ==>
              (OnDevice(Unmap(w, offset, PAGE).0.pages, offset) <==> !(w.hooked && w.bound && !w.vfio))
  {
    hide Copy;
  }

  // ---------- what the callers asked for, from the actions alone ----------

  /** Whether page `o` of a memory of `n` bytes is on the device, and if so whether it is dirty. */
  function PageOf(run: seq<Action>, n: nat, o: nat): Option<bool> {
    if run == [] then None
    else
      var was := PageOf(run[..|run| - 1], n, o);
      match run[|run| - 1]
      case ToDev(offset, src) => if offset == o && offset + |src| <= n then Some(false) else was
      case ToSys(offset, size) => if offset == o && offset + size <= n then None else was
      case Marking(offset) => if offset == o && was.Some? then Some(true) else was
      case Unmapping(iova, size) => if iova == o && size == PAGE then None else was
      case _ => was
  }

  /** The migrations that are not refused. */
  function Migrations(run: seq<Action>, n: nat): nat {
    if run == [] then 0
    else
      Migrations(run[..|run| - 1], n)
      + match run[|run| - 1]
        case ToDev(offset, src) => if offset + |src| <= n then 1 else 0
        case ToSys(offset, size) => if offset + size <= n then 1 else 0
        case _ => 0
  }

  ghost predicate PageTracks(w: World, run: seq<Action>, o: nat) {
    && (OnDevice(w.pages, o) <==> PageOf(run, |w.pages.memory|, o).Some?)
    && (MarkedDirty(w.pages, o) <==> PageOf(run, |w.pages.memory|, o) == Some(true))
  }

  ghost predicate Tracks(w: World, run: seq<Action>) {
    && w.pages.count == Migrations(run, |w.pages.memory|)
    && forall o: nat :: PageTracks(w, run, o)
  }

  lemma PageLonger(run: seq<Action>, a: Action, n: nat, o: nat)
    ensures var was := PageOf(run, n, o);
            PageOf(run + [a], n, o) ==
            match a
            case ToDev(offset, src) => if offset == o && offset + |src| <= n then Some(false) else was
            case ToSys(offset, size) => if offset == o && offset + size <= n then None else was
            case Marking(offset) => if offset == o && was.Some? then Some(true) else was
            case Unmapping(iova, size) => if iova == o && size == PAGE then None else was
            case _ => was
  {
    assert (run + [a])[..|run + [a]| - 1] == run;
  }

  lemma MigrationsLonger(run: seq<Action>, a: Action, n: nat)
    ensures Migrations(run + [a], n) == Migrations(run, n)
            + match a
              case ToDev(offset, src) => if offset + |src| <= n then 1 else 0
              case ToSys(offset, size) => if offset + size <= n then 1 else 0
              case _ => 0
  {
    assert (run + [a])[..|run + [a]| - 1] == run;
  }

  lemma StepKeepsSize(w: World, a: Action)
    ensures |Step(w, a).pages.memory| == |w.pages.memory|
  {
  }

  /** The page an action is about. */
  function PageNamed(a: Action): nat {
    match a
    case ToDev(offset, _) => offset
    case ToSys(offset, _) => offset
    case Marking(offset) => offset
    case Unmapping(iova, _) => iova
    case Mapping(iova, _, _) => iova
    case Invalidating(offset) => offset
  }

  lemma StepTracksPage(w: World, run: seq<Action>, a: Action, o: nat)
    requires Linked(w) && Coherent(w) && Keeps(w, a) && PageTracks(w, run, o)
    ensures PageTracks(Step(w, a), run + [a], o)
  {
    hide PageOf, Copy, Coherent;
    StepKeepsSize(w, a);
    PageLonger(run, a, |w.pages.memory|, o);
    AgreeAt(w, o);
    if PageNamed(a) != o { OthersStay(w, a, o); }
  }

  /** An action is about one page. */
  lemma OthersStay(w: World, a: Action, o: nat)
    requires PageNamed(a) != o
    ensures OnDevice(Step(w, a).pages, o) == OnDevice(w.pages, o) && MarkedDirty(Step(w, a).pages, o) == MarkedDirty(w.pages, o)
  {
    hide Copy, Unmap, Map;
    match a {
      case ToDev(offset, src) => if offset + |src| <= |w.pages.memory| { SentOthers(w, offset, src, o); }
      case ToSys(offset, size) => UnmapOthers(w, offset, size, o);
      case Unmapping(iova, size) => UnmapOthers(w, iova, size, o);
      case Mapping(iova, paddr, size) => MapKeeps(w, iova, paddr, size);
      case _ =>
    }
  }

  lemma UnmapOthers(w: World, iova: nat, size: nat, o: nat)
    requires iova != o
    ensures var r := Unmap(w, iova, size).0;
            OnDevice(r.pages, o) == OnDevice(w.pages, o) && MarkedDirty(r.pages, o) == MarkedDirty(w.pages, o)
  {
  }

  lemma SentOthers(w: World, offset: nat, src: seq<byte>, o: nat)
    requires offset != o && offset + |src| <= |w.pages.memory|
    ensures var r := ToDevice(w, offset, src).0;
            OnDevice(r.pages, o) == OnDevice(w.pages, o) && MarkedDirty(r.pages, o) == MarkedDirty(w.pages, o)
  {
    hide Copy;
  }

  /** What agreement says about one page. */
  lemma AgreeAt(w: World, o: nat)
    requires Coherent(w)
    ensures (OnDevice(w.pages, o) <==> o in w.phys) && (MarkedDirty(w.pages, o) ==> OnDevice(w.pages, o))
  {
    assert o in w.phys.Keys <==> o in w.pages.table.Keys;
  }

  lemma StepTracks(w: World, run: seq<Action>, a: Action)
    requires Linked(w) && Coherent(w) && Keeps(w, a) && Tracks(w, run)
    ensures Tracks(Step(w, a), run + [a])
  {
    StepKeepsSize(w, a);
    MigrationsLonger(run, a, |w.pages.memory|);
    hide Coherent, PageTracks, Linked, Keeps, Migrations;
    forall o: nat ensures PageTracks(Step(w, a), run + [a], o) { StepTracksPage(w, run, a, o); }
  }

  lemma {:induction false} LastStep(w: World, run: seq<Action>)
    requires run != [] && AllKeep(w, run)
    ensures var prev, a := run[..|run| - 1], run[|run| - 1];
            AllKeep(w, prev) && Keeps(Run(w, prev), a) && Run(w, run) == Step(Run(w, prev), a)
    decreases |run|
  {
    hide Step, Keeps;
    if |run| > 1 {
      LastStep(Step(w, run[0]), run[1..]);
      assert run[1..][..|run| - 2] == run[..|run| - 1][1..];
    } else {
      assert run[..0] == [] && run[1..] == [];
    }
  }

  /** After every run that keeps the tables in agreement, from a state with no page on the device:
      a page is on the device exactly when it was sent there and not fetched or unmapped since,
      dirty exactly when it was marked since, and every migration not refused is counted. */
  lemma {:induction false} RunTracks(w: World, run: seq<Action>)
    requires Linked(w) && Coherent(w) && AllKeep(w, run) && Tracks(w, [])
    ensures Tracks(Run(w, run), run)
  {
    hide Coherent, Linked, Step, Keeps, Tracks;
    if run == [] {
    } else {
      var prev := run[..|run| - 1];
      LastStep(w, run);
      RunTracks(w, prev);
      RunKeepsCoherent(w, prev);
      StepTracks(Run(w, prev), prev, run[|run| - 1]);
      assert prev + [run[|run| - 1]] == run;
    }
  }

  // ---------- what the device holds ----------

  /** The step writes no byte of offset..offset+size. */
  predicate Spares(a: Action, offset: nat, size: nat) {
    a.ToDev? ==> a.offset + |a.src| <= offset || offset + size <= a.offset
  }

  predicate Holds(w: World, offset: nat, bytes: seq<byte>) {
    offset + |bytes| <= |w.pages.memory| && w.pages.memory[offset..offset + |bytes|] == bytes
  }

  lemma StepKeepsBytes(w: World, a: Action, offset: nat, bytes: seq<byte>)
    requires Holds(w, offset, bytes) && Spares(a, offset, |bytes|)
    ensures Holds(Step(w, a), offset, bytes)
  {
    hide Map, Unmap, MarkDirty, Copy;
    match a {
      case ToDev(o, src) =>
        if o + |src| <= |w.pages.memory| {
          MapKeepsMemory(w, o, src);
          CopySpares(w.pages.memory, o, src, offset, |bytes|);
        }
      case ToSys(o, size) => UnmapKeepsMemory(w, o, size);
      case Marking(o) => assert MarkDirty(w.pages, o).memory == w.pages.memory by { MarkKeepsMemory(w.pages, o); }
      case Unmapping(o, size) => UnmapKeepsMemory(w, o, size);
      case Mapping(o, paddr, size) => MapKeeps(w, o, paddr, size);
      case Invalidating(o) =>
    }
  }

  lemma CopySpares(memory: seq<byte>, o: nat, src: seq<byte>, offset: nat, size: nat)
    requires o + |src| <= |memory| && offset + size <= |memory| && (o + |src| <= offset || offset + size <= o)
    ensures |Copy(memory, o, src)| == |memory| && Copy(memory, o, src)[offset..offset + size] == memory[offset..offset + size]
  {
    var r := Copy(memory, o, src);
    forall i | 0 <= i < |memory| && (i < o || o + |src| <= i) ensures r[i] == memory[i] {
      if i >= o + |src| { assert r[i] == memory[o + |src|..][i - (o + |src|)]; }
    }
  }

  lemma SentBytes(memory: seq<byte>, offset: nat, src: seq<byte>)
    requires offset + |src| <= |memory|
    ensures |Copy(memory, offset, src)| == |memory| && Copy(memory, offset, src)[offset..offset + |src|] == src
  {
  }

  lemma MapKeeps(w: World, iova: nat, paddr: nat, size: nat)
    ensures Map(w, iova, paddr, size).0.pages == w.pages
  {
  }

  lemma MapKeepsMemory(w: World, offset: nat, src: seq<byte>)
    requires offset + |src| <= |w.pages.memory|
    ensures ToDevice(w, offset, src).0.pages.memory == Copy(w.pages.memory, offset, src)
  {
    hide Copy;
  }

  lemma UnmapKeepsMemory(w: World, iova: nat, size: nat)
    ensures Unmap(w, iova, size).0.pages.memory == w.pages.memory
  {
  }

  lemma MarkKeepsMemory(p: Pages, offset: nat)
    ensures MarkDirty(p, offset).memory == p.memory
  {
  }

  lemma {:induction false} RunKeepsBytes(w: World, run: seq<Action>, offset: nat, bytes: seq<byte>)
    requires Holds(w, offset, bytes)
    requires forall i :: 0 <= i < |run| ==> Spares(run[i], offset, |bytes|)
    ensures Holds(Run(w, run), offset, bytes)
    decreases |run|
  {
    hide Step, Holds;
    if run != [] {
      StepKeepsBytes(w, run[0], offset, bytes);
      RunKeepsBytes(Step(w, run[0]), run[1..], offset, bytes);
    }
  }

  /** What was sent to the device is what comes back, after anything that does not write over
      it: migrations of other pages, unmaps, flushes, even its own eviction. */
  lemma RoundTrip(w: World, offset: nat, src: seq<byte>, run: seq<Action>)
    requires ToDevice(w, offset, src).1 == OK
    requires forall i :: 0 <= i < |run| ==> Spares(run[i], offset, |src|)
    ensures var r := Run(ToDevice(w, offset, src).0, run);
            ToSystem(r, offset, |src|).1 == OK && Holds(r, offset, src)
  {
    hide Run, Copy;
    var v := ToDevice(w, offset, src).0;
    SentBytes(w.pages.memory, offset, src);
    MapKeepsMemory(w, offset, src);
    RunKeepsBytes(v, run, offset, src);
  }
}
