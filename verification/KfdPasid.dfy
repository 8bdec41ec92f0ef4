/** The process address space id allocator (plugins/gpu_driver/drv/kfd/kfd_pasid.c): a bitmap of
    64-bit words scanned from a hint with wrap-around, and the set it stands for. */
module KfdPasid {
  import opened Bits

  const MAX_PASID: nat := 0xFFFF
  const BITMAP_WORDS: nat := 1024
  const BITMAP_BITS: nat := 0x1_0000

  // ---------- on values ----------

  /** `ready` and `exited` are the source's two flags; `taken` is what the bitmap says. */
  datatype Ids = Ids(taken: set<nat>, count: int, hint: nat, ready: bool, exited: bool)

  function Fresh(): Ids { Ids({0}, 0, 1, true, false) }

  function LazyInit(r: Ids): Ids { if r.exited || r.ready then r else Fresh() }

  /** The least id in from..MAX_PASID that is not taken; 0 if there is none. */
  function LeastFree(taken: set<nat>, from: nat): (id: nat)
    ensures id == 0 ==> from == 0 || forall k :: from <= k <= MAX_PASID ==> k in taken
    ensures id != 0 ==> from <= id <= MAX_PASID && id !in taken && forall k :: from <= k < id ==> k in taken
    decreases MAX_PASID + 1 - from
  {
    if from > MAX_PASID then 0 else if from !in taken then from else LeastFree(taken, from + 1)
  }

  /** The id is 0 when the allocation fails. */
  function Allocate(r: Ids): (Ids, nat) {
    var r' := LazyInit(r);
    var id := LeastFree(r'.taken, 1);
    if r'.exited || id == 0 then (r', 0)
    else (Grant(r', id), id)
  }

  /** What an allocation does once the least free id is known. */
  function Grant(r: Ids, id: nat): Ids {
    Ids(r.taken + {id}, r.count + 1, if id + 1 > MAX_PASID then 1 else id + 1, true, false)
  }

  function Free(r: Ids, id: nat): (Ids, bool) {
    if id == 0 || id > MAX_PASID || !r.ready || id !in r.taken then (r, false)
    else (r.(taken := r.taken - {id}, count := r.count - 1, hint := if id < r.hint then id else r.hint), true)
  }

  function Exit(r: Ids): Ids { r.(ready := false, exited := true, count := 0, hint := 1) }

  function Init(r: Ids): Ids { LazyInit(r.(exited := false)) }

  /** The ids handed out; before the first use and after the shutdown the bitmap says nothing. */
  ghost function Allocated(r: Ids): set<nat> { if r.ready then r.taken - {0} else {} }

  /** Every id below the hint is taken, so the scan never finds anything after it wraps. */
  ghost predicate Valid(r: Ids) {
    && 1 <= r.hint <= MAX_PASID
    && (forall id :: id in r.taken ==> id <= MAX_PASID)
    && (!r.ready ==> r.count == 0)
    && (r.ready ==>
          && !r.exited && 0 in r.taken && r.count == |r.taken| - 1
          && forall id :: 1 <= id < r.hint ==> id in r.taken)
  }

  lemma AllocateKeepsValid(r: Ids)
    requires Valid(r)
    ensures Valid(Allocate(r).0)
  {
  }

  lemma FreeKeepsValid(r: Ids, id: nat)
    requires Valid(r)
    ensures Valid(Free(r, id).0)
  {
  }

  lemma GrantsLeast(r: Ids, id: nat)
    requires !r.exited && 1 <= id <= MAX_PASID && id !in LazyInit(r).taken
    requires forall k :: 1 <= k < id ==> k in LazyInit(r).taken
    ensures Allocate(r) == (Grant(LazyInit(r), id), id)
  {
    var least := LeastFree(LazyInit(r).taken, 1);
    assert id <= least <= id;
  }

  lemma GrantsNothing(r: Ids)
    requires r.exited || forall k :: 1 <= k <= MAX_PASID ==> k in LazyInit(r).taken
    ensures Allocate(r) == (LazyInit(r), 0)
  {
    hide LeastFree;
  }

  // ---------- on the bitmap ----------

  /** The ids whose bit is set. */
  ghost function Marked(words: seq<nat>): set<nat>
    requires |words| == BITMAP_WORDS
  {
    set id | 0 <= id < BITMAP_BITS && Bit(words[id / 64], id % 64)
  }

  lemma MarkSets(words: seq<nat>, id: nat)
    requires |words| == BITMAP_WORDS && id < BITMAP_BITS
    ensures Marked(words[id / 64 := Or(words[id / 64], Pow2(id % 64))]) == Marked(words) + {id}
  {
    var r := words[id / 64 := Or(words[id / 64], Pow2(id % 64))];
    forall k | 0 <= k < BITMAP_BITS
      ensures Bit(r[k / 64], k % 64) <==> Bit(words[k / 64], k % 64) || k == id
    {
      OrBit(words[id / 64], Pow2(id % 64), k % 64);
      Pow2Bit(id % 64, k % 64);
    }
  }

  lemma MarkClears(words: seq<nat>, id: nat)
    requires |words| == BITMAP_WORDS && id < BITMAP_BITS
    ensures Marked(words[id / 64 := AndNot(words[id / 64], Pow2(id % 64))]) == Marked(words) - {id}
  {
    var r := words[id / 64 := AndNot(words[id / 64], Pow2(id % 64))];
    forall k | 0 <= k < BITMAP_BITS
      ensures Bit(r[k / 64], k % 64) <==> Bit(words[k / 64], k % 64) && k != id
    {
      AndNotBit(words[id / 64], Pow2(id % 64), k % 64);
      Pow2Bit(id % 64, k % 64);
    }
  }

  lemma MarkNone(words: seq<nat>)
    requires |words| == BITMAP_WORDS && forall i :: 0 <= i < BITMAP_WORDS ==> words[i] == 0
    ensures Marked(words) == {}
  {
    forall k | 0 <= k < BITMAP_BITS ensures !Bit(words[k / 64], k % 64) { ZeroBits(k % 64); }
  }

  class PasidTable {
    const bitmap: array<nat>
    var initialized: bool
    var exited: bool
    var count: int
    var hint: nat

    ghost predicate Good()
      reads this, bitmap
    {
      bitmap.Length == BITMAP_WORDS && Valid(Contents())
    }

    ghost function Contents(): Ids
      requires bitmap.Length == BITMAP_WORDS
      reads this, bitmap
    {
      Ids(Marked(bitmap[..]), count, hint, initialized, exited)
    }

    constructor ()
      ensures Good() && fresh(bitmap) && Contents() == Ids({}, 0, 1, false, false)
    {
      bitmap := new nat[BITMAP_WORDS](i => 0);
      initialized, exited, count, hint := false, false, 0, 1;
      new;
      MarkNone(bitmap[..]);
    }

    method TestBit(bit: nat) returns (set_: bool)
      requires bitmap.Length == BITMAP_WORDS && bit < BITMAP_BITS
      ensures set_ <==> bit in Contents().taken
    {
      BitShift(bitmap[bit / 64], bit % 64, 0);
      set_ := Shr(bitmap[bit / 64], bit % 64) % 2 == 1;
    }

    method SetBit(bit: nat)
      requires bitmap.Length == BITMAP_WORDS && bit < BITMAP_BITS
      modifies bitmap
      ensures Contents() == old(Contents()).(taken := old(Contents()).taken + {bit})
    {
      MarkSets(bitmap[..], bit);
      bitmap[bit / 64] := Or(bitmap[bit / 64], Pow2(bit % 64));
      assert bitmap[..] == old(bitmap[..])[bit / 64 := bitmap[bit / 64]];
    }

    method ClearBit(bit: nat)
      requires bitmap.Length == BITMAP_WORDS && bit < BITMAP_BITS
      modifies bitmap
      ensures Contents() == old(Contents()).(taken := old(Contents()).taken - {bit})
    {
      MarkClears(bitmap[..], bit);
      bitmap[bit / 64] := AndNot(bitmap[bit / 64], Pow2(bit % 64));
      assert bitmap[..] == old(bitmap[..])[bit / 64 := bitmap[bit / 64]];
    }

    method LazyInitialize()
      requires bitmap.Length == BITMAP_WORDS
      modifies this, bitmap
      ensures Contents() == LazyInit(old(Contents()))
    {
      if exited { return; }
      if !initialized {
        forall i | 0 <= i < bitmap.Length { bitmap[i] := 0; }
        MarkNone(bitmap[..]);
        SetBit(0);
        count, hint, initialized := 0, 1, true;
      }
    }

    method InitTable()
      requires Good()
      modifies this, bitmap
      ensures Good() && Contents() == Init(old(Contents()))
    {
      exited := false;
      LazyInitialize();
    }

    method ExitTable()
      requires Good()
      modifies this
      ensures Good() && Contents() == Exit(old(Contents()))
    {
      initialized, exited, count, hint := false, true, 0, 1;
    }

    /** The scan from the hint finds the least free id, or shows that all are taken. */
    method AllocatePasid() returns (ok: bool, pasid: nat)
      requires Good()
      modifies this, bitmap
      ensures Good()
      ensures (Contents(), if ok then pasid else 0) == Allocate(old(Contents()))
      ensures ok ==> pasid != 0
    {
      hide Marked, Allocate, LeastFree;
      ghost var r := Contents();
      AllocateKeepsValid(r);
      LazyInitialize();
      if exited {
        GrantsNothing(r);
        return false, 0;
      }
      var probe := hint;
      var i := 0;
      while i < BITMAP_BITS
        invariant i <= BITMAP_BITS && Good() && Contents() == LazyInit(r)
        invariant 1 <= probe <= MAX_PASID
        invariant hint + i <= MAX_PASID ==> probe == hint + i
        invariant forall id :: 1 <= id < hint + i && id <= MAX_PASID ==> id in Contents().taken
        decreases BITMAP_BITS - i
      {
        var idx := probe;
        if idx > MAX_PASID { idx := 1; }
        if idx == 0 { idx := 1; }
        var used := TestBit(idx);
        if !used {
          GrantsLeast(r, idx);
          SetBit(idx);
          count := count + 1;
          hint := idx + 1;
          if hint > MAX_PASID { hint := 1; }
          return true, idx;
        }
        probe := probe + 1;
        if probe > MAX_PASID { probe := 1; }
        i := i + 1;
      }
      GrantsNothing(r);
      return false, 0;
    }

    method FreePasid(pasid: nat) returns (ok: bool)
      requires Good()
      modifies this, bitmap
      ensures Good() && (Contents(), ok) == Free(old(Contents()), pasid)
    {
      hide Marked;
      FreeKeepsValid(Contents(), pasid);
      if pasid == 0 || pasid > MAX_PASID { return false; }
      if !initialized { return false; }
      var used := TestBit(pasid);
      if !used { return false; }
      ClearBit(pasid);
      count := count - 1;
      if pasid < hint {
        hint := pasid;
      }
      return true;
    }
  }
}
