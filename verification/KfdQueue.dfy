/** Queue buffer references (plugins/gpu_driver/drv/kfd/kfd_queue.c), built without SVM: the
    acquire path with its error gotos, and the two halves of the release path.  Several of a
    queue's addresses may fall into one buffer object, so references are counted in multisets. */
module KfdQueue {
  import opened Collections

  type Bo = nat

  const PAGE_SIZE: nat := 4096
  const EINVAL: int := 22

  /** A range of GPU pages and the buffer object behind it. */
  datatype Mapping = Mapping(start: nat, last: nat, bo: Bo)

  datatype Node = Node(eopSize: nat, ctlStackSize: nat, cwsrSize: nat, debugSize: nat)

  datatype Request = Request(
    compute: bool,
    writePtr: nat, readPtr: nat, ring: nat, ringSize: nat,
    eop: nat, eopSize: nat, ctlStackSize: nat,
    cwsr: nat, cwsrSize: nat)

  /** The buffer object fields of the queue properties. */
  datatype Slots = Slots(wptr: Option<Bo>, rptr: Option<Bo>, ring: Option<Bo>, eop: Option<Bo>, cwsr: Option<Bo>)

  /** One occurrence per unit of queue_refcount of the object's bo_va, and of the object's own
      reference count. */
  datatype Books = Books(queueRefs: multiset<Bo>, boRefs: multiset<Bo>)

  const EMPTY := Slots(None, None, None, None, None)

  datatype Field = WptrBo | RptrBo | RingBo | EopBo | CwsrBo

  function Get(s: Slots, f: Field): Option<Bo> {
    match f
    case WptrBo => s.wptr
    case RptrBo => s.rptr
    case RingBo => s.ring
    case EopBo => s.eop
    case CwsrBo => s.cwsr
  }

  function Put(s: Slots, f: Field, bo: Option<Bo>): Slots {
    match f
    case WptrBo => s.(wptr := bo)
    case RptrBo => s.(rptr := bo)
    case RingBo => s.(ring := bo)
    case EopBo => s.(eop := bo)
    case CwsrBo => s.(cwsr := bo)
  }

  function One(o: Option<Bo>): multiset<Bo> { if o.None? then multiset{} else multiset{o.value} }

  function Held(s: Slots): multiset<Bo> { One(s.wptr) + One(s.rptr) + One(s.ring) + One(s.eop) + One(s.cwsr) }

  function Lookup(ms: seq<Mapping>, page: nat): Option<Mapping> {
    if ms == [] then None
    else if ms[0].start <= page <= ms[0].last then Some(ms[0])
    else Lookup(ms[1..], page)
  }

  /** The object a request for a buffer gets: the request must start where the mapping starts
      and, unless it is shorter than a page, end where it ends. */
  function Buffer(ms: seq<Mapping>, address: nat, expected: nat): Option<Bo> {
    var page, size := address / PAGE_SIZE, expected / PAGE_SIZE;
    var m := Lookup(ms, page);
    if m.None? || page != m.value.start || (size != 0 && page + size - 1 != m.value.last) then None
    else Some(m.value.bo)
  }

  /** The save area's size: a 32-bit sum rounded up to pages, also in 32 bits. */
  function SaveAreaSize(n: Node): nat {
    ((n.cwsrSize + n.debugSize) % 0x1_0000_0000 + PAGE_SIZE - 1) / PAGE_SIZE * PAGE_SIZE % 0x1_0000_0000
  }

  /** Mappings of different pages. */
  ghost predicate Apart(ms: seq<Mapping>) {
    forall i, j :: 0 <= i < j < |ms| ==> ms[i].last < ms[j].start || ms[j].last < ms[i].start
  }

  lemma {:induction false} LookupFinds(ms: seq<Mapping>, page: nat)
    requires Apart(ms)
    ensures Lookup(ms, page).None? ==> forall m :: m in ms ==> !(m.start <= page <= m.last)
    ensures Lookup(ms, page).Some? ==> Lookup(ms, page).value in ms
                                       && Lookup(ms, page).value.start <= page <= Lookup(ms, page).value.last
    ensures forall m :: m in ms && m.start <= page <= m.last ==> Lookup(ms, page) == Some(m)
  {
    if ms != [] {
      assert Apart(ms[1..]);
      LookupFinds(ms[1..], page);
      forall m | m in ms && m.start <= page <= m.last ensures Lookup(ms, page) == Some(m) {
        var i :| 0 <= i < |ms| && ms[i] == m;
        if i > 0 {
          assert ms[1..][i - 1] == m;
          assert ms[0].last < ms[i].start || ms[i].last < ms[0].start;
        }
      }
    }
  }

  /** A request gets an object exactly when a mapping to it starts at the request's page and,
      unless less than a page is asked for, has just the length asked for. */
  lemma BufferIff(ms: seq<Mapping>, address: nat, expected: nat, bo: Bo)
    requires Apart(ms)
    ensures Buffer(ms, address, expected) == Some(bo)
            <==> exists m :: m in ms && m.bo == bo && m.start == address / PAGE_SIZE <= m.last
                             && (expected < PAGE_SIZE || m.last + 1 == address / PAGE_SIZE + expected / PAGE_SIZE)
  {
    LookupFinds(ms, address / PAGE_SIZE);
  }

  /** The save area is a whole number of pages, and as large as its two parts together exactly
      when their sum is within a page of 2^32. */
  lemma SaveAreaCovers(n: Node)
    ensures SaveAreaSize(n) % PAGE_SIZE == 0
    ensures SaveAreaSize(n) >= n.cwsrSize + n.debugSize <==> n.cwsrSize + n.debugSize <= 0x1_0000_0000 - PAGE_SIZE
    ensures SaveAreaSize(n) < n.cwsrSize + n.debugSize + PAGE_SIZE
  {
    var sum := (n.cwsrSize + n.debugSize) % 0x1_0000_0000;
    var pages := (sum + PAGE_SIZE - 1) / PAGE_SIZE;
    assert pages <= 0x10_0000;
    if pages == 0x10_0000 {
      assert SaveAreaSize(n) == 0;
    } else {
      assert SaveAreaSize(n) == pages * PAGE_SIZE;
    }
  }

  // ---------- where an acquire stops ----------

  const DONE: nat := 6

  /** The first step of an acquire that fails: 0 to 2 the write pointer, read pointer and ring
      buffers, 3 the end-of-pipe buffer, 4 the size checks, 5 the save area. */
  function Stage(ms: seq<Mapping>, n: Node, r: Request): nat {
    if Buffer(ms, r.writePtr, PAGE_SIZE).None? then 0
    else if Buffer(ms, r.readPtr, PAGE_SIZE).None? then 1
    else if Buffer(ms, r.ring, r.ringSize).None? then 2
    else if !r.compute then DONE
    else if r.eop != 0 && (r.eopSize != n.eopSize || Buffer(ms, r.eop, r.eopSize).None?) then 3
    else if r.ctlStackSize != n.ctlStackSize || r.cwsrSize != n.cwsrSize then 4
    else if Buffer(ms, r.cwsr, SaveAreaSize(n)).None? then 5
    else DONE
  }

  predicate AsksEop(ms: seq<Mapping>, n: Node, r: Request) {
    Stage(ms, n, r) >= 3 && r.compute && r.eop != 0 && r.eopSize == n.eopSize
  }

  predicate AsksCwsr(ms: seq<Mapping>, n: Node, r: Request) { Stage(ms, n, r) >= 5 && r.compute }

  /** The fields when the acquire stops. */
  function Filled(ms: seq<Mapping>, n: Node, r: Request, s: Slots): Slots {
    var stage := Stage(ms, n, r);
    Slots(
      Buffer(ms, r.writePtr, PAGE_SIZE),
      if stage >= 1 then Buffer(ms, r.readPtr, PAGE_SIZE) else s.rptr,
      if stage >= 2 then Buffer(ms, r.ring, r.ringSize) else s.ring,
      if AsksEop(ms, n, r) then Buffer(ms, r.eop, r.eopSize) else s.eop,
      if AsksCwsr(ms, n, r) then Buffer(ms, r.cwsr, SaveAreaSize(n)) else s.cwsr)
  }

  /** The objects the acquire took references to. */
  function Gained(ms: seq<Mapping>, n: Node, r: Request): multiset<Bo> { Held(Filled(ms, n, r, EMPTY)) }

  /** What stood in the fields the acquire did not reach. */
  function Stale(ms: seq<Mapping>, n: Node, r: Request, s: Slots): multiset<Bo> {
    var stage := Stage(ms, n, r);
    Held(Slots(None, if stage >= 1 then None else s.rptr, if stage >= 2 then None else s.ring,
               if AsksEop(ms, n, r) then None else s.eop, if AsksCwsr(ms, n, r) then None else s.cwsr))
  }

  /** Each field of `a` comes from `b` or from `c`. */
  predicate SplitField(a: Option<Bo>, b: Option<Bo>, c: Option<Bo>) { (a == b && c == None) || (a == c && b == None) }

  lemma SplitHolds(a: Slots, b: Slots, c: Slots)
    requires SplitField(a.wptr, b.wptr, c.wptr) && SplitField(a.rptr, b.rptr, c.rptr)
    requires SplitField(a.ring, b.ring, c.ring) && SplitField(a.eop, b.eop, c.eop) && SplitField(a.cwsr, b.cwsr, c.cwsr)
    ensures Held(a) == Held(b) + Held(c)
  {
    SplitOne(a.wptr, b.wptr, c.wptr);
    SplitOne(a.rptr, b.rptr, c.rptr);
    SplitOne(a.ring, b.ring, c.ring);
    SplitOne(a.eop, b.eop, c.eop);
    SplitOne(a.cwsr, b.cwsr, c.cwsr);
    hide One;
  }

  lemma SplitOne(a: Option<Bo>, b: Option<Bo>, c: Option<Bo>)
    requires SplitField(a, b, c)
    ensures One(a) == One(b) + One(c)
  {
  }

  /** When the acquire stops, the fields hold what it gained and what it did not reach. */
  lemma FilledHolds(ms: seq<Mapping>, n: Node, r: Request, s: Slots)
    ensures Held(Filled(ms, n, r, s)) == Gained(ms, n, r) + Stale(ms, n, r, s)
    ensures Stale(ms, n, r, EMPTY) == multiset{}
  {
    hide Buffer, Held, One;
    var stage := Stage(ms, n, r);
    SplitHolds(Filled(ms, n, r, s), Filled(ms, n, r, EMPTY),
      Slots(None, if stage >= 1 then None else s.rptr, if stage >= 2 then None else s.ring,
            if AsksEop(ms, n, r) then None else s.eop, if AsksCwsr(ms, n, r) then None else s.cwsr));
    EmptyHolds();
  }

  lemma EmptyHolds()
    ensures Held(EMPTY) == multiset{}
  {
  }

  // ---------- the code ----------

  class Vm {
    var mappings: seq<Mapping>
    var queueRefs: multiset<Bo>
    var boRefs: multiset<Bo>
    var reserved: bool  // the root buffer object is reserved by this thread

    constructor (mappings: seq<Mapping>, queueRefs: multiset<Bo>, boRefs: multiset<Bo>)
      ensures this.mappings == mappings && Entries() == Books(queueRefs, boRefs) && !reserved
    {
      this.mappings, this.queueRefs, this.boRefs, reserved := mappings, queueRefs, boRefs, false;
    }

    function Entries(): Books
      reads this
    {
      Books(queueRefs, boRefs)
    }

    /** `b` and `got` account for the counts: what they were, and what was gained since. */
    method BufferGet(q: Queue, f: Field, address: nat, expected: nat, ghost b: Books, ghost got: Slots) returns (err: int)
      requires reserved && Get(got, f) == None
      requires queueRefs == b.queueRefs + Held(got) && boRefs == b.boRefs + Held(got)
      modifies this`queueRefs, this`boRefs, q
      ensures q.slots == Put(old(q.slots), f, Buffer(mappings, address, expected))
      ensures err == if Buffer(mappings, address, expected).Some? then 0 else -EINVAL
      ensures var got' := Put(got, f, Buffer(mappings, address, expected));
              queueRefs == b.queueRefs + Held(got') && boRefs == b.boRefs + Held(got')
    {
      hide Held;
      ghost var got' := Put(got, f, Buffer(mappings, address, expected));
      Grow(b.queueRefs, got, f, Get(got', f));
      Grow(b.boRefs, got, f, Get(got', f));
      var page := address / PAGE_SIZE;
      var size := expected / PAGE_SIZE;
      var mapping := Lookup(mappings, page);
      if mapping.None? || page != mapping.value.start || (size != 0 && page + size - 1 != mapping.value.last) {
        q.slots := Put(q.slots, f, None);
        assert Put(got, f, None) == got;
        return -EINVAL;
      }
      q.slots := Put(q.slots, f, Some(mapping.value.bo));
      boRefs := boRefs + multiset{mapping.value.bo};
      queueRefs := queueRefs + multiset{mapping.value.bo};
      err := 0;
    }

    /** The counter never goes below zero. */
    method UnrefVa(bo: Option<Bo>)
      requires reserved
      modifies this`queueRefs
      ensures queueRefs == old(queueRefs) - One(bo)
    {
      if bo.Some? && bo.value in queueRefs {
        queueRefs := queueRefs - multiset{bo.value};
      }
    }

    method BoUnref(bo: Option<Bo>)
      requires One(bo) <= boRefs
      modifies this`boRefs
      ensures boRefs == old(boRefs) - One(bo)
    {
      if bo.Some? {
        boRefs := boRefs - multiset{bo.value};
      }
    }
  }

  class Queue {
    var slots: Slots
    const request: Request

    constructor (request: Request)
      ensures slots == EMPTY && this.request == request
    {
      slots := EMPTY;
      this.request := request;
    }
  }

  lemma UnrefOneByOne(m: multiset<Bo>, s: Slots)
    ensures m - One(s.wptr) - One(s.rptr) - One(s.ring) - One(s.eop) - One(s.cwsr) == m - Held(s)
  {
  }

  method UnrefBoVasLocked(vm: Vm, q: Queue)
    requires vm.reserved
    modifies vm`queueRefs
    ensures vm.queueRefs == old(vm.queueRefs) - Held(q.slots)
  {
    vm.UnrefVa(q.slots.wptr);
    vm.UnrefVa(q.slots.rptr);
    vm.UnrefVa(q.slots.ring);
    vm.UnrefVa(q.slots.eop);
    vm.UnrefVa(q.slots.cwsr);
    UnrefOneByOne(old(vm.queueRefs), q.slots);
  }

  /** `reserve` is the outcome of reserving the root buffer object. */
  method UnrefBoVas(vm: Vm, q: Queue, reserve: int) returns (err: int)
    requires !vm.reserved
    modifies vm`queueRefs, vm`reserved
    ensures !vm.reserved && err == reserve
    ensures vm.queueRefs == if reserve == 0 then old(vm.queueRefs) - Held(q.slots) else old(vm.queueRefs)
  {
    if reserve != 0 { return reserve; }
    vm.reserved := true;
    UnrefBoVasLocked(vm, q);
    vm.reserved := false;
    return 0;
  }

  lemma EachHeld(m: multiset<Bo>, s: Slots)
    requires Held(s) <= m
    ensures One(s.wptr) <= m
    ensures One(s.rptr) <= m - One(s.wptr)
    ensures One(s.ring) <= m - One(s.wptr) - One(s.rptr)
    ensures One(s.eop) <= m - One(s.wptr) - One(s.rptr) - One(s.ring)
    ensures One(s.cwsr) <= m - One(s.wptr) - One(s.rptr) - One(s.ring) - One(s.eop)
  {
  }

  method ReleaseBuffers(vm: Vm, node: Option<Node>, q: Queue) returns (err: int)
    requires Held(q.slots) <= vm.boRefs
    modifies vm`boRefs, q
    ensures vm.boRefs == old(vm.boRefs) - Held(old(q.slots)) && q.slots == EMPTY
    ensures err == if node.None? then -EINVAL else 0
  {
    hide Held, One;
    EachHeld(vm.boRefs, q.slots);
    UnrefOneByOne(vm.boRefs, q.slots);
    vm.BoUnref(q.slots.wptr);
    q.slots := q.slots.(wptr := None);
    vm.BoUnref(q.slots.rptr);
    q.slots := q.slots.(rptr := None);
    vm.BoUnref(q.slots.ring);
    q.slots := q.slots.(ring := None);
    vm.BoUnref(q.slots.eop);
    q.slots := q.slots.(eop := None);
    vm.BoUnref(q.slots.cwsr);
    q.slots := q.slots.(cwsr := None);
    return if node.None? then -EINVAL else 0;
  }

  /** What an acquire does to the counts and the fields. */
  datatype Outcome = Outcome(books: Books, slots: Slots, err: int)

  function Acquire(b: Books, ms: seq<Mapping>, node: Option<Node>, r: Request, s: Slots, reserve: int, again: int): Outcome {
    if node.None? then Outcome(b, s, -EINVAL)
    else if reserve != 0 then Outcome(b, s, reserve)
    else
      var stage := Stage(ms, node.value, r);
      var gained := Gained(ms, node.value, r);
      var stale := Stale(ms, node.value, r, s);
      if stage == DONE then
        Outcome(Books(b.queueRefs + gained, b.boRefs + gained), Filled(ms, node.value, r, s), 0)
      else if stage == 5 && again != 0 then
        Outcome(Books(b.queueRefs + gained, b.boRefs - stale), EMPTY, -EINVAL)
      else
        Outcome(Books(b.queueRefs - stale, b.boRefs - stale), EMPTY, -EINVAL)
  }

  lemma AcquireSucceeds(b: Books, ms: seq<Mapping>, n: Node, r: Request, s: Slots, again: int)
    requires Stage(ms, n, r) == DONE
    ensures var gained := Gained(ms, n, r);
            Acquire(b, ms, Some(n), r, s, 0, again)
            == Outcome(Books(b.queueRefs + gained, b.boRefs + gained), Filled(ms, n, r, s), 0)
  {
  }

  lemma AcquireFails(b: Books, ms: seq<Mapping>, n: Node, r: Request, s: Slots, again: int)
    requires Stage(ms, n, r) != DONE
    ensures var stale := Stale(ms, n, r, s);
            Acquire(b, ms, Some(n), r, s, 0, again)
            == Outcome(Books(if Stage(ms, n, r) == 5 && again != 0 then b.queueRefs + Gained(ms, n, r) else b.queueRefs - stale,
                             b.boRefs - stale), EMPTY, -EINVAL)
  {
  }

  lemma Grow(m: multiset<Bo>, got: Slots, f: Field, bo: Option<Bo>)
    requires Get(got, f) == None
    ensures m + Held(got) + One(bo) == m + Held(Put(got, f, bo))
  {
    assert One(None) == multiset{};
    hide One;
  }

  /** out_err_unreserve. */
  method FailReserved(vm: Vm, node: Option<Node>, q: Queue, ghost b: Books, ghost gained: multiset<Bo>, ghost stale: multiset<Bo>)
    requires vm.reserved && vm.queueRefs == b.queueRefs + gained && vm.boRefs == b.boRefs + gained
    requires Held(q.slots) == gained + stale && stale <= b.boRefs
    modifies vm, q
    ensures vm.mappings == old(vm.mappings) && !vm.reserved
    ensures q.slots == EMPTY && vm.Entries() == Books(b.queueRefs - stale, b.boRefs - stale)
  {
    hide Held, One;
    UnrefBoVasLocked(vm, q);
    vm.reserved := false;
    var _ := ReleaseBuffers(vm, node, q);
  }

  /** out_err_release. */
  method FailUnreserved(vm: Vm, node: Option<Node>, q: Queue, again: int, ghost b: Books, ghost gained: multiset<Bo>, ghost stale: multiset<Bo>)
    requires !vm.reserved && vm.queueRefs == b.queueRefs + gained && vm.boRefs == b.boRefs + gained
    requires Held(q.slots) == gained + stale && stale <= b.boRefs
    modifies vm, q
    ensures vm.mappings == old(vm.mappings) && !vm.reserved && q.slots == EMPTY
    ensures vm.Entries() == Books(if again == 0 then b.queueRefs - stale else b.queueRefs + gained, b.boRefs - stale)
  {
    hide Held, One;
    var _ := UnrefBoVas(vm, q, again);
    var _ := ReleaseBuffers(vm, node, q);
  }

  /** The end of the acquire for compute queues. */
  method AcquireSaveArea(vm: Vm, node: Option<Node>, q: Queue, again: int, ghost b: Books, ghost s: Slots) returns (err: int)
    requires vm.reserved && node.Some? && q.request.compute && Stage(vm.mappings, node.value, q.request) >= 5
    requires var got := Filled(vm.mappings, node.value, q.request, EMPTY).(cwsr := None);
             vm.queueRefs == b.queueRefs + Held(got) && vm.boRefs == b.boRefs + Held(got)
    requires q.slots == Filled(vm.mappings, node.value, q.request, s).(cwsr := s.cwsr)
    requires Stale(vm.mappings, node.value, q.request, s) <= b.boRefs
    modifies vm, q
    ensures !vm.reserved && vm.mappings == old(vm.mappings)
    ensures Outcome(vm.Entries(), q.slots, err) == Acquire(b, vm.mappings, node, q.request, s, 0, again)
  {
    hide Held, One, Buffer, SaveAreaSize, AsksEop, Stale, Acquire;
    ghost var filled := Filled(vm.mappings, node.value, q.request, EMPTY);
    ghost var gained, stale := Held(filled), Stale(vm.mappings, node.value, q.request, s);
    FilledHolds(vm.mappings, node.value, q.request, s);
    err := vm.BufferGet(q, CwsrBo, q.request.cwsr, SaveAreaSize(node.value), b, filled.(cwsr := None));
    vm.reserved := false;
    assert q.slots == Filled(vm.mappings, node.value, q.request, s);
    if err == 0 {
      AcquireSucceeds(b, vm.mappings, node.value, q.request, s, again);
      return 0;
    }
    AcquireFails(b, vm.mappings, node.value, q.request, s, again);
    // Without SVM there is no other place to look for the save area.
    FailUnreserved(vm, node, q, again, b, gained, stale);
    return -EINVAL;
  }

  /** The part of the acquire only compute queues need. */
  method AcquireCompute(vm: Vm, node: Option<Node>, q: Queue, again: int, ghost b: Books, ghost s: Slots) returns (err: int)
    requires vm.reserved && node.Some? && q.request.compute && Stage(vm.mappings, node.value, q.request) >= 3
    requires var got := Filled(vm.mappings, node.value, q.request, EMPTY).(eop := None, cwsr := None);
             vm.queueRefs == b.queueRefs + Held(got) && vm.boRefs == b.boRefs + Held(got)
    requires q.slots == Filled(vm.mappings, node.value, q.request, s).(eop := s.eop, cwsr := s.cwsr)
    requires Stale(vm.mappings, node.value, q.request, s) <= b.boRefs
    modifies vm, q
    ensures !vm.reserved && vm.mappings == old(vm.mappings)
    ensures Outcome(vm.Entries(), q.slots, err) == Acquire(b, vm.mappings, node, q.request, s, 0, again)
  {
    hide Held, One, Buffer, SaveAreaSize, Stale;
    ghost var r, n := q.request, node.value;
    ghost var filled := Filled(vm.mappings, n, r, EMPTY);
    ghost var gained, stale := Held(filled), Stale(vm.mappings, n, r, s);
    ghost var got := filled.(eop := None, cwsr := None);
    FilledHolds(vm.mappings, n, r, s);
    if q.request.eop != 0 {
      if q.request.eopSize != node.value.eopSize {
        FailReserved(vm, node, q, b, gained, stale);
        return -EINVAL;
      }
      err := vm.BufferGet(q, EopBo, q.request.eop, q.request.eopSize, b, got);
      got := Put(got, EopBo, Buffer(vm.mappings, q.request.eop, q.request.eopSize));
      if err != 0 { FailReserved(vm, node, q, b, gained, stale); return; }
    }
    assert Stage(vm.mappings, n, r) >= 4;
    assert got == filled.(cwsr := None) && q.slots == Filled(vm.mappings, n, r, s).(cwsr := s.cwsr);
    if q.request.ctlStackSize != node.value.ctlStackSize || q.request.cwsrSize != node.value.cwsrSize {
      FailReserved(vm, node, q, b, gained, stale);
      return -EINVAL;
    }
    err := AcquireSaveArea(vm, node, q, again, b, s);
  }

  /** The part of the acquire every queue needs. */
  method AcquireCommon(vm: Vm, node: Option<Node>, q: Queue, again: int, ghost b: Books, ghost s: Slots) returns (err: int)
    requires vm.reserved && node.Some? && q.slots == s
    requires vm.queueRefs == b.queueRefs + Held(EMPTY) && vm.boRefs == b.boRefs + Held(EMPTY)
    requires Stale(vm.mappings, node.value, q.request, s) <= b.boRefs
    modifies vm, q
    ensures !vm.reserved && vm.mappings == old(vm.mappings)
    ensures Outcome(vm.Entries(), q.slots, err) == Acquire(b, vm.mappings, node, q.request, s, 0, again)
  {
    hide Held, One, Buffer, SaveAreaSize, Stale;
    ghost var r, n := q.request, node.value;
    ghost var filled := Filled(vm.mappings, n, r, EMPTY);
    ghost var gained, stale := Held(filled), Stale(vm.mappings, n, r, s);
    FilledHolds(vm.mappings, n, r, s);
    err := vm.BufferGet(q, WptrBo, q.request.writePtr, PAGE_SIZE, b, EMPTY);
    ghost var got := Put(EMPTY, WptrBo, Buffer(vm.mappings, q.request.writePtr, PAGE_SIZE));
    if err != 0 { FailReserved(vm, node, q, b, gained, stale); return; }
    err := vm.BufferGet(q, RptrBo, q.request.readPtr, PAGE_SIZE, b, got);
    got := Put(got, RptrBo, Buffer(vm.mappings, q.request.readPtr, PAGE_SIZE));
    if err != 0 { FailReserved(vm, node, q, b, gained, stale); return; }
    err := vm.BufferGet(q, RingBo, q.request.ring, q.request.ringSize, b, got);
    got := Put(got, RingBo, Buffer(vm.mappings, q.request.ring, q.request.ringSize));
    if err != 0 { FailReserved(vm, node, q, b, gained, stale); return; }
    assert Stage(vm.mappings, n, r) >= 3;
    assert got == filled.(eop := None, cwsr := None);
    assert q.slots == Filled(vm.mappings, n, r, s).(eop := s.eop, cwsr := s.cwsr);
    if !q.request.compute {
      vm.reserved := false;
      return 0;
    }
    err := AcquireCompute(vm, node, q, again, b, s);
  }

  /** `reserve` and `again` are the outcomes of reserving the root buffer object, the second
      time after the save area was not found. */
  method AcquireBuffers(vm: Vm, node: Option<Node>, q: Queue, reserve: int, again: int) returns (err: int)
    requires !vm.reserved && Held(q.slots) <= vm.boRefs
    modifies vm, q
    ensures !vm.reserved && vm.mappings == old(vm.mappings)
    ensures Outcome(vm.Entries(), q.slots, err)
            == Acquire(old(vm.Entries()), vm.mappings, node, q.request, old(q.slots), reserve, again)
  {
    hide Held, Gained, Stale, Filled, Stage;
    if node.None? { return -EINVAL; }
    if reserve != 0 { return reserve; }
    vm.reserved := true;
    StaleHeld(vm.mappings, node.value, q.request, q.slots);
    EmptyHolds();
    assert vm.queueRefs + multiset{} == vm.queueRefs && vm.boRefs + multiset{} == vm.boRefs;
    err := AcquireCommon(vm, node, q, again, vm.Entries(), q.slots);
  }

  lemma StaleHeld(ms: seq<Mapping>, n: Node, r: Request, s: Slots)
    ensures Stale(ms, n, r, s) <= Held(s)
  {
    hide Buffer, Held, One;
    var stage := Stage(ms, n, r);
    var kept := Slots(None, if stage >= 1 then None else s.rptr, if stage >= 2 then None else s.ring,
            if AsksEop(ms, n, r) then None else s.eop, if AsksCwsr(ms, n, r) then None else s.cwsr);
    SplitHolds(s, kept, Slots(s.wptr, if stage >= 1 then s.rptr else None, if stage >= 2 then s.ring else None,
            if AsksEop(ms, n, r) then s.eop else None, if AsksCwsr(ms, n, r) then s.cwsr else None));
  }

  // ---------- what an acquire means ----------

  /** The request can be served: every buffer it needs is mapped as asked, and a compute
      queue's sizes are the node's. */
  predicate Servable(ms: seq<Mapping>, n: Node, r: Request) {
    && Buffer(ms, r.writePtr, PAGE_SIZE).Some?
    && Buffer(ms, r.readPtr, PAGE_SIZE).Some?
    && Buffer(ms, r.ring, r.ringSize).Some?
    && (r.compute ==>
          && (r.eop != 0 ==> r.eopSize == n.eopSize && Buffer(ms, r.eop, r.eopSize).Some?)
          && r.ctlStackSize == n.ctlStackSize && r.cwsrSize == n.cwsrSize
          && Buffer(ms, r.cwsr, SaveAreaSize(n)).Some?)
  }

  lemma AcquireSucceedsIff(b: Books, ms: seq<Mapping>, node: Option<Node>, r: Request, s: Slots, reserve: int, again: int)
    ensures Acquire(b, ms, node, r, s, reserve, again).err == 0
            <==> node.Some? && reserve == 0 && Servable(ms, node.value, r)
  {
    hide Gained, Stale, Filled, Buffer, SaveAreaSize;
  }

  /** A mapping to the object starts at the address's page and, unless less than a page is asked
      for, has just the length asked for. */
  ghost predicate MappedAs(ms: seq<Mapping>, address: nat, expected: nat, bo: Option<Bo>) {
    bo.Some? && exists m :: m in ms && m.bo == bo.value && m.start == address / PAGE_SIZE <= m.last
                            && (expected < PAGE_SIZE || m.last + 1 == address / PAGE_SIZE + expected / PAGE_SIZE)
  }

  lemma BufferMapped(ms: seq<Mapping>, address: nat, expected: nat)
    requires Apart(ms) && Buffer(ms, address, expected).Some?
    ensures MappedAs(ms, address, expected, Buffer(ms, address, expected))
  {
    hide Buffer;
    BufferIff(ms, address, expected, Buffer(ms, address, expected).value);
  }

  /** After an acquire that succeeds each field holds the object mapped at its own address, the
      ones not asked for what they held before, and each of these objects has one reference of
      either kind more. */
  lemma AcquireServes(b: Books, ms: seq<Mapping>, n: Node, r: Request, s: Slots, again: int)
    requires Apart(ms) && Acquire(b, ms, Some(n), r, s, 0, again).err == 0
    ensures var o := Acquire(b, ms, Some(n), r, s, 0, again);
            && MappedAs(ms, r.writePtr, PAGE_SIZE, o.slots.wptr) && MappedAs(ms, r.readPtr, PAGE_SIZE, o.slots.rptr)
            && MappedAs(ms, r.ring, r.ringSize, o.slots.ring)
            && (if r.compute && r.eop != 0 then MappedAs(ms, r.eop, n.eopSize, o.slots.eop) else o.slots.eop == s.eop)
            && (if r.compute then MappedAs(ms, r.cwsr, SaveAreaSize(n), o.slots.cwsr) else o.slots.cwsr == s.cwsr)
            && var held := Held(Slots(o.slots.wptr, o.slots.rptr, o.slots.ring,
                                      if r.compute && r.eop != 0 then o.slots.eop else None,
                                      if r.compute then o.slots.cwsr else None));
            o.books == Books(b.queueRefs + held, b.boRefs + held)
  {
    hide Buffer, SaveAreaSize, Held, MappedAs;
    BufferMapped(ms, r.writePtr, PAGE_SIZE);
    BufferMapped(ms, r.readPtr, PAGE_SIZE);
    BufferMapped(ms, r.ring, r.ringSize);
    if r.compute {
      if r.eop != 0 { BufferMapped(ms, r.eop, r.eopSize); }
      BufferMapped(ms, r.cwsr, SaveAreaSize(n));
    }
  }

  /** A failed acquire leaves all counts as they were exactly when no field it did not reach
      held a reference and the root buffer object could be reserved for the rollback. */
  lemma FailureRestoresIff(b: Books, ms: seq<Mapping>, n: Node, r: Request, s: Slots, again: int)
    requires !Servable(ms, n, r) && Held(s) <= b.boRefs
    ensures Acquire(b, ms, Some(n), r, s, 0, again).books == b
            <==> Stale(ms, n, r, s) == multiset{} && (Stage(ms, n, r) == 5 ==> again == 0)
    ensures Acquire(b, ms, Some(n), r, s, 0, again).slots == EMPTY
  {
    hide Acquire, Stale, Gained, Filled, Held, Buffer, SaveAreaSize;
    AcquireSucceedsIff(b, ms, Some(n), r, s, 0, again);
    var stale, gained := Stale(ms, n, r, s), Gained(ms, n, r);
    AcquireFailsElsewhere(b, ms, n, r, s, again);
    StaleHeld(ms, n, r, s);
    if Stage(ms, n, r) == 5 { GainedSome(ms, n, r); GrewBy(b.queueRefs, gained); }
    if stale == multiset{} { assert b.queueRefs - stale == b.queueRefs; }
  }

  lemma AcquireFailsElsewhere(b: Books, ms: seq<Mapping>, n: Node, r: Request, s: Slots, again: int)
    requires !Servable(ms, n, r)
    ensures Stage(ms, n, r) != DONE
    ensures var stale := Stale(ms, n, r, s);
            Acquire(b, ms, Some(n), r, s, 0, again)
            == Outcome(Books(if Stage(ms, n, r) == 5 && again != 0 then b.queueRefs + Gained(ms, n, r) else b.queueRefs - stale,
                             b.boRefs - stale), EMPTY, -EINVAL)
  {
    hide Stale, Gained, Filled, Buffer, SaveAreaSize;
  }

  lemma GrewBy(m: multiset<Bo>, x: multiset<Bo>)
    requires x != multiset{}
    ensures m + x != m
  {
    var e :| e in x;
    assert (m + x)[e] > m[e];
  }

  lemma GainedSome(ms: seq<Mapping>, n: Node, r: Request)
    requires Stage(ms, n, r) == 5
    ensures Gained(ms, n, r) != multiset{}
  {
    hide SaveAreaSize;
    var bo := Buffer(ms, r.writePtr, PAGE_SIZE);
    assert bo.value in One(bo);
    assert bo.value in Held(Filled(ms, n, r, EMPTY));
  }

  // ---------- many queues ----------

  /** The counts, the queues that hold buffers, and what was left behind in queue_refcount by
      rollbacks and teardowns that could not reserve the root buffer object. */
  datatype System = System(books: Books, live: seq<Slots>, leaked: seq<multiset<Bo>>)

  datatype Action =
    | Acquiring(ms: seq<Mapping>, node: Option<Node>, r: Request, reserve: int, again: int)
    | Releasing(which: nat, reserve: int)

  /** kfd_queue_unref_bo_vas followed by kfd_queue_release_buffers. */
  function Release(b: Books, s: Slots, reserve: int): Books {
    Books(if reserve == 0 then b.queueRefs - Held(s) else b.queueRefs, b.boRefs - Held(s))
  }

  method ReleaseQueue(vm: Vm, node: Option<Node>, q: Queue, reserve: int)
    requires !vm.reserved && Held(q.slots) <= vm.boRefs
    modifies vm, q
    ensures !vm.reserved && vm.mappings == old(vm.mappings) && q.slots == EMPTY
    ensures vm.Entries() == Release(old(vm.Entries()), old(q.slots), reserve)
  {
    hide Held;
    var _ := UnrefBoVas(vm, q, reserve);
    var _ := ReleaseBuffers(vm, node, q);
  }

  /** Every new queue starts with null fields. */
  function Step(y: System, a: Action): System {
    match a
    case Acquiring(ms, node, r, reserve, again) =>
      var o := Acquire(y.books, ms, node, r, EMPTY, reserve, again);
      if o.err == 0 then y.(books := o.books, live := y.live + [o.slots])
      else if node.Some? && reserve == 0 && Stage(ms, node.value, r) == 5 && again != 0 then
        y.(books := o.books, leaked := y.leaked + [Gained(ms, node.value, r)])
      else y.(books := o.books)
    case Releasing(which, reserve) =>
      if which >= |y.live| then y
      else
        System(Release(y.books, y.live[which], reserve), y.live[..which] + y.live[which + 1..],
               if reserve == 0 then y.leaked else y.leaked + [Held(y.live[which])])
  }

  function Run(y: System, run: seq<Action>): System
    decreases |run|
  {
    if run == [] then y else Run(Step(y, run[0]), run[1..])
  }

  function Holdings(live: seq<Slots>): multiset<Bo> {
    if live == [] then multiset{} else Holdings(live[..|live| - 1]) + Held(live[|live| - 1])
  }

  function Sum(xs: seq<multiset<Bo>>): multiset<Bo> {
    if xs == [] then multiset{} else Sum(xs[..|xs| - 1]) + xs[|xs| - 1]
  }

  /** Every unit of every count belongs to the initial counts, to a live queue, or to a
      recorded leak. */
  ghost predicate Balanced(y: System, base: Books) {
    && y.books.queueRefs == base.queueRefs + Holdings(y.live) + Sum(y.leaked)
    && y.books.boRefs == base.boRefs + Holdings(y.live)
  }

  lemma {:induction false} HoldingsWithout(live: seq<Slots>, k: nat)
    requires k < |live|
    ensures Holdings(live) == Holdings(live[..k] + live[k + 1..]) + Held(live[k])
    decreases |live|
  {
    hide Held;
    var n := |live| - 1;
    if k == n {
      assert live[..k] + live[k + 1..] == live[..n];
    } else {
      HoldingsWithout(live[..n], k);
      var rest := live[..k] + live[k + 1..];
      assert rest[..|rest| - 1] == live[..n][..k] + live[..n][k + 1..];
      assert rest[|rest| - 1] == live[n];
    }
  }

  lemma HoldingsOneMore(live: seq<Slots>, s: Slots)
    ensures Holdings(live + [s]) == Holdings(live) + Held(s)
  {
    assert (live + [s])[..|live|] == live;
  }

  lemma SumOneMore(xs: seq<multiset<Bo>>, x: multiset<Bo>)
    ensures Sum(xs + [x]) == Sum(xs) + x
  {
    assert (xs + [x])[..|xs|] == xs;
  }

  lemma AcquireBalances(y: System, a: Action, base: Books)
    requires Balanced(y, base) && a.Acquiring?
    ensures Balanced(Step(y, a), base)
  {
    hide Held, Stale, Filled, Buffer, SaveAreaSize, Holdings, Sum;
    var o := Acquire(y.books, a.ms, a.node, a.r, EMPTY, a.reserve, a.again);
    if a.node.Some? && a.reserve == 0 {
      var gained := Gained(a.ms, a.node.value, a.r);
      FilledHolds(a.ms, a.node.value, a.r, EMPTY);
      HoldingsOneMore(y.live, o.slots);
      SumOneMore(y.leaked, gained);
      Grown(base.queueRefs, Holdings(y.live), Sum(y.leaked), gained);
      Grown(base.boRefs, Holdings(y.live), multiset{}, gained);
    }
  }

  lemma Grown(m: multiset<Bo>, x: multiset<Bo>, y: multiset<Bo>, g: multiset<Bo>)
    ensures m + x + y + g == m + (x + g) + y == m + x + (y + g)
    ensures m + x + g == m + (x + g)
    ensures m + x + y - multiset{} == m + x + y && m + x - multiset{} == m + x
  {
  }

  lemma ReleaseBalances(y: System, a: Action, base: Books)
    requires Balanced(y, base) && a.Releasing? && a.which < |y.live|
    ensures Balanced(Step(y, a), base)
  {
    hide Held, Holdings, Sum;
    var s := y.live[a.which];
    var rest := y.live[..a.which] + y.live[a.which + 1..];
    HoldingsWithout(y.live, a.which);
    SumOneMore(y.leaked, Held(s));
    ReleaseShrinks(y.books, s, a.reserve, base, Holdings(rest), Sum(y.leaked));
  }

  lemma ReleaseShrinks(b: Books, s: Slots, reserve: int, base: Books, rest: multiset<Bo>, leaked: multiset<Bo>)
    requires b.queueRefs == base.queueRefs + (rest + Held(s)) + leaked && b.boRefs == base.boRefs + (rest + Held(s))
    ensures var r := Release(b, s, reserve);
            && r.queueRefs == base.queueRefs + rest + (if reserve == 0 then leaked else leaked + Held(s))
            && r.boRefs == base.boRefs + rest
  {
    hide Held;
    Shrunk(base.queueRefs, rest, leaked, Held(s));
    Shrunk(base.boRefs, rest, multiset{}, Held(s));
  }

  lemma Shrunk(m: multiset<Bo>, x: multiset<Bo>, y: multiset<Bo>, h: multiset<Bo>)
    ensures m + (x + h) + y - h == m + x + y
    ensures m + (x + h) - h == m + x
    ensures m + (x + h) + y == m + x + (y + h)
  {
  }

  /** In every run of acquires and releases, over changing mappings and buffers shared within
      and between queues, the counts stay balanced. */
  lemma {:induction false} RunBalances(y: System, run: seq<Action>, base: Books)
    requires Balanced(y, base)
    ensures Balanced(Run(y, run), base)
    decreases |run|
  {
    hide Balanced;
    if run != [] {
      StepBalances(y, run[0], base);
      RunBalances(Step(y, run[0]), run[1..], base);
    }
  }

  lemma StepBalances(y: System, a: Action, base: Books)
    requires Balanced(y, base)
    ensures Balanced(Step(y, a), base)
  {
    hide Balanced, Acquire, Release;
    if a.Acquiring? {
      AcquireBalances(y, a, base);
    } else if a.which < |y.live| {
      ReleaseBalances(y, a, base);
    }
  }

  // ---------- exactly when everything is given back ----------

  /** The step cannot reserve the root buffer object when it would have to give units of
      queue_refcount back: a teardown, or the rollback after the save area was not found. */
  predicate Leaks(y: System, a: Action) {
    match a
    case Acquiring(ms, node, r, reserve, again) =>
      node.Some? && reserve == 0 && Stage(ms, node.value, r) == 5 && again != 0
    case Releasing(which, reserve) => which < |y.live| && reserve != 0
  }

  predicate NoneLeaks(y: System, run: seq<Action>)
    decreases |run|
  {
    run != [] ==> !Leaks(y, run[0]) && NoneLeaks(Step(y, run[0]), run[1..])
  }

  /** Every live queue holds its write pointer at least, and every recorded leak is real. */
  ghost predicate Holding(y: System) {
    && (forall i :: 0 <= i < |y.live| ==> y.live[i].wptr.Some?)
    && (forall i :: 0 <= i < |y.leaked| ==> y.leaked[i] != multiset{})
  }

  lemma HeldSome(s: Slots)
    requires s.wptr.Some?
    ensures Held(s) != multiset{}
  {
    assert s.wptr.value in One(s.wptr);
  }

  lemma FilledHasWptr(ms: seq<Mapping>, n: Node, r: Request, s: Slots)
    requires Stage(ms, n, r) == DONE
    ensures Filled(ms, n, r, s).wptr.Some?
  {
    hide SaveAreaSize;
  }

  lemma StepLeaks(y: System, a: Action)
    requires Holding(y)
    ensures var r := Step(y, a);
            && Holding(r) && |r.leaked| == |y.leaked| + (if Leaks(y, a) then 1 else 0)
  {
    hide Held, Filled, Stage, Stale, Gained;
    match a {
      case Acquiring(ms, node, r, reserve, again) =>
        if node.Some? && reserve == 0 {
          if Stage(ms, node.value, r) == DONE { FilledHasWptr(ms, node.value, r, EMPTY); }
          if Stage(ms, node.value, r) == 5 { GainedSome(ms, node.value, r); }
        }
      case Releasing(which, reserve) =>
        if which < |y.live| { HeldSome(y.live[which]); }
    }
  }

  lemma {:induction false} RunLeaks(y: System, run: seq<Action>)
    requires Holding(y)
    ensures Holding(Run(y, run)) && |Run(y, run).leaked| >= |y.leaked|
    ensures |Run(y, run).leaked| == |y.leaked| <==> NoneLeaks(y, run)
    decreases |run|
  {
    hide Holding, Step, Leaks;
    if run != [] {
      StepLeaks(y, run[0]);
      RunLeaks(Step(y, run[0]), run[1..]);
    }
  }

  lemma SumEmptyIff(xs: seq<multiset<Bo>>)
    requires forall i :: 0 <= i < |xs| ==> xs[i] != multiset{}
    ensures Sum(xs) == multiset{} <==> xs == []
  {
    if xs != [] {
      var n := |xs| - 1;
      var e :| e in xs[n];
      assert (Sum(xs[..n]) + xs[n])[e] > 0;
    }
  }

  lemma SameIff(m: multiset<Bo>, x: multiset<Bo>)
    ensures m + multiset{} + x == m <==> x == multiset{}
  {
    if x != multiset{} {
      var e :| e in x;
      assert (m + multiset{} + x)[e] > m[e];
    }
  }

  /** Over every run: once every queue is released, all counts are what they were exactly when
      no step failed to reserve what it had to give back. */
  lemma AllReleasedRestoresIff(base: Books, run: seq<Action>)
    ensures var y0 := System(base, [], []);
            var y := Run(y0, run);
            y.live == [] ==> (y.books == base <==> NoneLeaks(y0, run))
  {
    hide Run, Sum, Held, NoneLeaks;
    var y0 := System(base, [], []);
    var y := Run(y0, run);
    StartsBalanced(base);
    RunBalances(y0, run, base);
    RunLeaks(y0, run);
    if y.live == [] {
      SumEmptyIff(y.leaked);
      SameIff(base.queueRefs, Sum(y.leaked));
    }
  }

  lemma StartsBalanced(base: Books)
    ensures Balanced(System(base, [], []), base)
  {
    assert base.queueRefs + multiset{} + multiset{} == base.queueRefs && base.boRefs + multiset{} == base.boRefs;
  }

  /** Every reservation the run asks for succeeds. */
  predicate AllReserved(run: seq<Action>) {
    forall i :: 0 <= i < |run| ==> run[i].reserve == 0 && (run[i].Acquiring? ==> run[i].again == 0)
  }

  lemma {:induction false} ReservedLeaksNothing(y: System, run: seq<Action>)
    requires AllReserved(run)
    ensures NoneLeaks(y, run)
    decreases |run|
  {
    hide Step, Stage;
    if run != [] {
      assert run[0].reserve == 0 && (run[0].Acquiring? ==> run[0].again == 0);
      ReservedLeaksNothing(Step(y, run[0]), run[1..]);
    }
  }

  /** In particular when every reservation succeeds. */
  lemma AllReleasedRestores(base: Books, run: seq<Action>)
    requires AllReserved(run)
    ensures var y := Run(System(base, [], []), run);
            y.live == [] ==> y.books == base
  {
    hide NoneLeaks, Run, AllReserved;
    ReservedLeaksNothing(System(base, [], []), run);
    AllReleasedRestoresIff(base, run);
  }
}
