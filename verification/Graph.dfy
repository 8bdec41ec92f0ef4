/** Graphs and their executables (plugins/gpu_driver/sim/graph.cpp): recorded nodes compiled
    into command entries that live in an append-only heap. */
module Graph {
  import opened Bits
  import opened Collections

  const ENTRY_SIZE: nat := 109
  const HEAP_BASE: nat := 0x2000_0000
  const KERNARGS_BASE: nat := 0x3000_0000
  const KERNEL_BASE: nat := 0x4000_0000
  const STRIDE: nat := 0x1000
  const WORD: nat := 0x1_0000_0000_0000_0000
  const HALF: nat := 0x1_0000_0000

  newtype uint32 = x: int | 0 <= x < 0x1_0000_0000
  newtype uint64 = x: int | 0 <= x < 0x1_0000_0000_0000_0000
  newtype int32 = x: int | -0x8000_0000 <= x < 0x8000_0000

  datatype Dim = Dim(x: uint32, y: uint32, z: uint32)

  datatype Node =
    | Kernel(index: uint32, grid: Dim, block: Dim, kernargs: uint64)
    | Memcpy(src: uint64, dst: uint64, size: uint64, h2d: int32)

  datatype Method = LaunchKernel | MemcpyMethod

  /** A command entry: its method and the payload words that are not always zero. */
  datatype Entry = Entry(method_: Method, p0: nat, p1: nat, p2: nat, p3: nat)

  // ---------- compiling ----------

  function PackGrid(d: Dim): nat { Or(Or(d.x as nat, d.y as nat * 0x1_0000), d.z as nat * 0x100_0000) }

  function PackBlock(d: Dim): nat { Or(Or(d.x as nat, d.y as nat * 0x100), d.z as nat * 0x1_0000) }

  function KernargsVa(handle: uint64): nat {
    if handle == 0 then 0 else (KERNARGS_BASE + handle as nat * STRIDE) % WORD
  }

  function KernelVa(index: uint32): nat { KERNEL_BASE + index as nat * STRIDE }

  function Compile(n: Node): Entry {
    match n
    case Kernel(index, grid, block, kernargs) =>
      Entry(LaunchKernel, KernelVa(index), PackGrid(grid), PackBlock(block), KernargsVa(kernargs))
    case Memcpy(src, dst, size, h2d) =>
      Entry(MemcpyMethod, src as nat, dst as nat, size as nat, (h2d as int) % WORD)
  }

  function CompileAll(nodes: seq<Node>): (es: seq<Entry>)
    ensures |es| == |nodes| && forall i :: 0 <= i < |nodes| ==> es[i] == Compile(nodes[i])
  {
    seq(|nodes|, i requires 0 <= i < |nodes| => Compile(nodes[i]))
  }

  predicate ArgsGiven(nodes: seq<Node>) {
    forall i :: 0 <= i < |nodes| ==> nodes[i].Kernel? ==> nodes[i].kernargs != 0
  }

  // ---------- reading the entries back ----------

  function UnpackGrid(p: nat): (nat, nat, nat) { (p % 0x1_0000, p / 0x1_0000 % 0x100, p / 0x100_0000) }

  function UnpackBlock(p: nat): (nat, nat, nat) { (p % 0x100, p / 0x100 % 0x100, p / 0x1_0000) }

  function Parts(d: Dim): (nat, nat, nat) { (d.x as nat, d.y as nat, d.z as nat) }

  /** Or-ing in a word whose low `k` bits are clear adds it to a word of `k` bits. */
  lemma {:induction false} OrAbove(a: nat, b: nat, k: nat)
    requires a < Pow2(k)
    ensures Or(a, b * Pow2(k)) == a + b * Pow2(k)
    decreases k
  {
    if k == 0 {
      OrZero(b);
    } else {
      var p := Pow2(k - 1);
      assert b * Pow2(k) == 2 * (b * p);
      OrAbove(a / 2, b, k - 1);
    }
  }

  lemma {:induction false} OrZero(b: nat)
    ensures Or(0, b) == b
  {
    if b > 0 { OrZero(b / 2); }
  }

  lemma Widths()
    ensures Pow2(8) == 0x100 && Pow2(16) == 0x1_0000 && Pow2(24) == 0x100_0000
  {
    Pow2Add(8, 8);
    Pow2Add(16, 8);
  }

  lemma OrsAdd(a: nat, b: nat, c: nat, j: nat, k: nat)
    requires j <= k && a < Pow2(j) && a + b * Pow2(j) < Pow2(k)
    ensures Or(Or(a, b * Pow2(j)), c * Pow2(k)) == a + b * Pow2(j) + c * Pow2(k)
  {
    hide Or, Pow2;
    OrAbove(a, b, j);
    OrAbove(a + b * Pow2(j), c, k);
  }

  lemma GridDigits(a: nat, b: nat, c: nat)
    requires a < 0x1_0000 && b < 0x100
    ensures UnpackGrid(a + b * 0x1_0000 + c * 0x100_0000) == (a, b, c)
  {
    var p := a + b * 0x1_0000 + c * 0x100_0000;
    var q := b + c * 0x100;
    assert p == a + q * 0x1_0000;
    assert p % 0x1_0000 == a && p / 0x1_0000 == q;
    assert q % 0x100 == b && p / 0x100_0000 == c;
  }

  /** Packing keeps a grid's dimensions exactly when x fits in 16 bits and y in 8. */
  lemma GridKeptIff(d: Dim)
    ensures UnpackGrid(PackGrid(d)) == Parts(d) <==> d.x < 0x1_0000 && d.y < 0x100
  {
    hide Or, Pow2;
    if d.x < 0x1_0000 && d.y < 0x100 {
      Widths();
      OrsAdd(d.x as nat, d.y as nat, d.z as nat, 16, 24);
      GridDigits(d.x as nat, d.y as nat, d.z as nat);
    }
  }

  lemma BlockDigits(a: nat, b: nat, c: nat)
    requires a < 0x100 && b < 0x100
    ensures UnpackBlock(a + b * 0x100 + c * 0x1_0000) == (a, b, c)
  {
    var p := a + b * 0x100 + c * 0x1_0000;
    var q := b + c * 0x100;
    assert p == a + q * 0x100;
    assert p % 0x100 == a && p / 0x100 == q;
    assert q % 0x100 == b && p / 0x1_0000 == c;
  }

  /** Packing keeps a block's dimensions exactly when x and y fit in 8 bits. */
  lemma BlockKeptIff(d: Dim)
    ensures UnpackBlock(PackBlock(d)) == Parts(d) <==> d.x < 0x100 && d.y < 0x100
  {
    hide Or, Pow2;
    if d.x < 0x100 && d.y < 0x100 {
      Widths();
      OrsAdd(d.x as nat, d.y as nat, d.z as nat, 8, 16);
      BlockDigits(d.x as nat, d.y as nat, d.z as nat);
    }
  }

  /** The handle whose argument buffer is at this address. */
  function KernargsHandle(va: nat): nat { (va + WORD - KERNARGS_BASE) % WORD / STRIDE }

  /** Argument buffers of different handles are told apart exactly below 2^52; beyond, the
      address wraps. */
  lemma KernargsKeptIff(handle: uint64)
    requires handle != 0
    ensures KernargsHandle(KernargsVa(handle)) == handle as nat <==> handle < 0x10_0000_0000_0000
  {
    var h := handle as nat;
    var va := KernargsVa(handle);
    if h < 0x10_0000_0000_0000 {
      if KERNARGS_BASE + h * STRIDE < WORD {
        assert va == KERNARGS_BASE + h * STRIDE;
      } else {
        assert va == KERNARGS_BASE + h * STRIDE - WORD;
      }
      assert (va + WORD - KERNARGS_BASE) % WORD == h * STRIDE;
    }
  }

  // ---------- compilation loses nothing in range ----------

  /** The node keeps all its fields when compiled. */
  predicate InRange(n: Node) {
    n.Kernel? ==>
      && n.grid.x < 0x1_0000 && n.grid.y < 0x100 && n.block.x < 0x100 && n.block.y < 0x100
      && 0 < n.kernargs < 0x10_0000_0000_0000
  }

  /** What a reader of the entry recovers: the method and the fields' values. */
  datatype Reading =
    | KernelReading(index: nat, grid: (nat, nat, nat), block: (nat, nat, nat), kernargs: nat)
    | MemcpyReading(src: nat, dst: nat, size: nat, h2d: int)

  function Read(e: Entry): Reading {
    match e.method_
    case LaunchKernel =>
      KernelReading(if e.p0 >= KERNEL_BASE then (e.p0 - KERNEL_BASE) / STRIDE else 0,
                    UnpackGrid(e.p1), UnpackBlock(e.p2), KernargsHandle(e.p3))
    case MemcpyMethod => MemcpyReading(e.p0, e.p1, e.p2, if e.p3 < WORD / 2 then e.p3 else e.p3 - WORD)
  }

  function Fields(n: Node): Reading {
    match n
    case Kernel(index, grid, block, kernargs) => KernelReading(index as nat, Parts(grid), Parts(block), kernargs as nat)
    case Memcpy(src, dst, size, h2d) => MemcpyReading(src as nat, dst as nat, size as nat, h2d as int)
  }

  /** Of the nodes an executable can be made of, exactly those in range read back unchanged. */
  lemma ReadBackIff(n: Node)
    requires n.Kernel? ==> n.kernargs != 0
    ensures Read(Compile(n)) == Fields(n) <==> InRange(n)
  {
    hide PackGrid, PackBlock, UnpackGrid, UnpackBlock, KernargsVa, KernargsHandle, Parts;
    if n.Kernel? {
      GridKeptIff(n.grid);
      BlockKeptIff(n.block);
      KernargsKeptIff(n.kernargs);
    }
  }

  lemma FieldsTell(m: Node, n: Node)
    requires Fields(m) == Fields(n)
    ensures m == n
  {
    if m.Kernel? { PartsTell(m.grid, n.grid); PartsTell(m.block, n.block); }
  }

  lemma PartsTell(c: Dim, d: Dim)
    requires Parts(c) == Parts(d)
    ensures c == d
  {
  }

  /** Compilation is injective on lists of nodes in range. */
  lemma CompileInjective(ms: seq<Node>, ns: seq<Node>)
    requires forall i :: 0 <= i < |ms| ==> InRange(ms[i])
    requires forall i :: 0 <= i < |ns| ==> InRange(ns[i])
    requires CompileAll(ms) == CompileAll(ns)
    ensures ms == ns
  {
    hide Compile, InRange, Fields, Read;
    assert |ms| == |CompileAll(ms)| == |CompileAll(ns)| == |ns|;
    forall i | 0 <= i < |ms| ensures ms[i] == ns[i] {
      assert CompileAll(ms)[i] == Compile(ms[i]) && CompileAll(ns)[i] == Compile(ns[i]);
      Same(ms[i], ns[i]);
    }
  }

  lemma Same(m: Node, n: Node)
    requires InRange(m) && InRange(n) && Compile(m) == Compile(n)
    ensures m == n
  {
    hide Compile, Fields, Read;
    ReadBackIff(m);
    ReadBackIff(n);
    FieldsTell(m, n);
  }

  // ---------- the tables and the heap ----------

  /** `nodes` records the graph's nodes when the executable was made. */
  datatype Exec = Exec(source: nat, entries: seq<Entry>, address: nat, count: nat, nodes: seq<Node>)

  /** The heap in units of one entry. */
  datatype Tables = Tables(graphs: map<nat, seq<Node>>, execs: map<nat, Exec>, nextGraph: nat, nextExec: nat, heap: seq<Entry>)

  function Empty(): Tables { Tables(map[], map[], 1, 1, []) }

  function CreateGraph(t: Tables): Tables { t.(graphs := t.graphs[t.nextGraph := []], nextGraph := t.nextGraph + 1) }

  function DestroyGraph(t: Tables, g: nat): Tables {
    if g !in t.graphs then t
    else t.(graphs := t.graphs - {g}, execs := map e | e in t.execs && t.execs[e].source != g :: t.execs[e])
  }

  function AddNode(t: Tables, g: nat, n: Node): Tables {
    if g !in t.graphs then t else t.(graphs := t.graphs[g := t.graphs[g] + [n]])
  }

  /** The entry count is kept in 32 bits. */
  function Instantiate(t: Tables, g: nat): Tables {
    if g !in t.graphs || !ArgsGiven(t.graphs[g]) then t
    else
      var entries := CompileAll(t.graphs[g]);
      var count := |entries| % HALF;
      var address := if count > 0 then HEAP_BASE + |t.heap| * ENTRY_SIZE else 0;
      t.(execs := t.execs[t.nextExec := Exec(g, entries, address, count, t.graphs[g])],
         nextExec := t.nextExec + 1,
         heap := if count > 0 then t.heap + entries else t.heap)
  }

  function DestroyExec(t: Tables, e: nat): Tables { t.(execs := t.execs - {e}) }

  class GraphTables {
    var graphs: map<nat, seq<Node>>
    var execs: map<nat, Exec>
    var nextGraph: nat
    var nextExec: nat
    var heap: seq<Entry>

    function St(): Tables
      reads this
    {
      Tables(graphs, execs, nextGraph, nextExec, heap)
    }

    constructor ()
      ensures St() == Empty()
    {
      graphs, execs, nextGraph, nextExec, heap := map[], map[], 1, 1, [];
    }

    method Create() returns (g: nat)
      modifies this
      ensures St() == CreateGraph(old(St())) && g == old(nextGraph)
    {
      g := nextGraph;
      nextGraph := nextGraph + 1;
      graphs := graphs[g := []];
    }

    method Destroy(g: nat) returns (ok: bool)
      modifies this
      ensures ok == (g in old(graphs)) && St() == DestroyGraph(old(St()), g)
    {
      if g !in graphs { return false; }
      graphs := graphs - {g};
      var rest := execs.Keys;
      while rest != {}
        invariant graphs == old(graphs) - {g} && nextGraph == old(nextGraph) && nextExec == old(nextExec) && heap == old(heap)
        invariant rest <= old(execs).Keys
        invariant execs == map e | e in old(execs) && (e in rest || old(execs)[e].source != g) :: old(execs)[e]
        decreases |rest|
      {
        var e :| e in rest;
        rest := rest - {e};
        if execs[e].source == g {
          execs := execs - {e};
        }
      }
      return true;
    }

    method Add(g: nat, n: Node) returns (ok: bool)
      modifies this
      ensures ok == (g in old(graphs)) && St() == AddNode(old(St()), g, n)
    {
      if g !in graphs { return false; }
      graphs := graphs[g := graphs[g] + [n]];
      return true;
    }

    method ValidateKernargs(nodes: seq<Node>) returns (ok: bool)
      ensures ok <==> ArgsGiven(nodes)
    {
      for i := 0 to |nodes|
        invariant ArgsGiven(nodes[..i])
      {
        if nodes[i].Kernel? && nodes[i].kernargs == 0 { return false; }
      }
      assert nodes[..|nodes|] == nodes;
      return true;
    }

    method GraphToGpfifo(nodes: seq<Node>) returns (out: seq<Entry>)
      ensures out == CompileAll(nodes)
    {
      out := [];
      for i := 0 to |nodes|
        invariant |out| == i && forall k :: 0 <= k < i ==> out[k] == Compile(nodes[k])
      {
        out := out + [Compile(nodes[i])];
      }
    }

    method InstantiateGraph(g: nat) returns (ok: bool, e: nat)
      modifies this
      ensures ok == (g in old(graphs) && ArgsGiven(old(graphs)[g]))
      ensures St() == Instantiate(old(St()), g) && (ok ==> e == old(nextExec))
    {
      if g !in graphs { return false, 0; }
      var valid := ValidateKernargs(graphs[g]);
      if !valid { return false, 0; }
      var entries := GraphToGpfifo(graphs[g]);
      var count := |entries| % HALF;
      var address := 0;
      if count > 0 {
        address := HEAP_BASE + |heap| * ENTRY_SIZE;
        heap := heap + entries;
      }
      e := nextExec;
      nextExec := nextExec + 1;
      execs := execs[e := Exec(g, entries, address, count, graphs[g])];
      ok := true;
    }

    method Launch(e: nat) returns (ok: bool, address: nat, count: nat)
      ensures ok == (e in execs)
      ensures ok ==> address == execs[e].address && count == execs[e].count
    {
      if e !in execs { return false, 0, 0; }
      return true, execs[e].address, execs[e].count;
    }

    method Remove(e: nat) returns (ok: bool)
      modifies this
      ensures ok == (e in old(execs)) && St() == DestroyExec(old(St()), e)
    {
      if e !in execs { return false; }
      execs := execs - {e};
      return true;
    }
  }

  // ---------- every reachable state ----------

  /** Where the executable's entries start in the heap. */
  function Slot(x: Exec): int { (x.address - HEAP_BASE) / ENTRY_SIZE }

  /** The executable's source graph is there and has only grown; its entries are in the heap,
      unless it has none. */
  ghost predicate Placed(t: Tables, x: Exec) {
    && x.source in t.graphs && x.nodes <= t.graphs[x.source] && ArgsGiven(x.nodes)
    && x.entries == CompileAll(x.nodes) && x.count == |x.entries| % HALF
    && (x.count == 0 ==> x.address == 0)
    && (x.count > 0 ==>
          && x.address == HEAP_BASE + Slot(x) * ENTRY_SIZE
          && 0 <= Slot(x) && Slot(x) + |x.entries| <= |t.heap|
          && t.heap[Slot(x)..Slot(x) + |x.entries|] == x.entries)
  }

  ghost predicate Apart(x: Exec, y: Exec) {
    x.count > 0 && y.count > 0 ==> Slot(x) + |x.entries| <= Slot(y) || Slot(y) + |y.entries| <= Slot(x)
  }

  ghost predicate Inv(t: Tables) {
    && (forall g :: g in t.graphs ==> g < t.nextGraph)
    && (forall e :: e in t.execs ==> e < t.nextExec && Placed(t, t.execs[e]))
    && (forall d, e :: d in t.execs && e in t.execs && d != e ==> Apart(t.execs[d], t.execs[e]))
  }

  datatype Action = Creating | Destroying(g: nat) | Adding(g: nat, n: Node) | Instantiating(g: nat) | Removing(e: nat)

  function Step(t: Tables, a: Action): Tables {
    match a
    case Creating => CreateGraph(t)
    case Destroying(g) => DestroyGraph(t, g)
    case Adding(g, n) => AddNode(t, g, n)
    case Instantiating(g) => Instantiate(t, g)
    case Removing(e) => DestroyExec(t, e)
  }

  function Run(t: Tables, run: seq<Action>): Tables
    decreases |run|
  {
    if run == [] then t else Run(Step(t, run[0]), run[1..])
  }

  lemma InstantiateKeepsInv(t: Tables, g: nat)
    requires Inv(t)
    ensures Inv(Instantiate(t, g))
  {
    hide Placed, Apart, ArgsGiven, CompileAll;
    var r := Instantiate(t, g);
    if r != t {
      NewIsPlaced(t, g);
      forall e | e in t.execs
        ensures Placed(r, t.execs[e])
        ensures Apart(t.execs[e], r.execs[t.nextExec]) && Apart(r.execs[t.nextExec], t.execs[e])
      {
        NewIsBeyond(t, g, e);
      }
    }
  }

  /** A graph is instantiated exactly when it is there and every kernel node in it has an argument
      buffer. */
  lemma InstantiatesIff(t: Tables, g: nat)
    ensures Instantiate(t, g) != t <==>
              g in t.graphs && forall n :: n in t.graphs[g] && n.Kernel? ==> n.kernargs != 0
    ensures Instantiate(t, g) != t <==> Instantiate(t, g).nextExec == t.nextExec + 1
  {
    hide CompileAll;
    if g in t.graphs && !ArgsGiven(t.graphs[g]) {
      var i :| 0 <= i < |t.graphs[g]| && t.graphs[g][i].Kernel? && t.graphs[g][i].kernargs == 0;
      assert t.graphs[g][i] in t.graphs[g];
    }
  }

  lemma NewIsPlaced(t: Tables, g: nat)
    requires Instantiate(t, g) != t
    ensures var r := Instantiate(t, g);
            r.execs == t.execs[t.nextExec := r.execs[t.nextExec]] && Placed(r, r.execs[t.nextExec])
  {
    hide ArgsGiven, CompileAll;
  }

  /** A new executable leaves an older one in its place, and lies apart from it. */
  lemma NewIsBeyond(t: Tables, g: nat, e: nat)
    requires Inv(t) && Instantiate(t, g) != t && e in t.execs
    ensures var r := Instantiate(t, g);
            && t.nextExec in r.execs && Placed(r, t.execs[e])
            && Apart(t.execs[e], r.execs[t.nextExec]) && Apart(r.execs[t.nextExec], t.execs[e])
  {
    hide ArgsGiven, CompileAll;
    assert Placed(t, t.execs[e]);
  }

  lemma StepKeepsInv(t: Tables, a: Action)
    requires Inv(t)
    ensures Inv(Step(t, a)) && Step(t, a).nextExec >= t.nextExec && t.heap <= Step(t, a).heap
  {
    if a.Instantiating? {
      InstantiateKeepsInv(t, a.g);
    } else {
      hide Placed, Apart;
      var r := Step(t, a);
      forall e | e in r.execs ensures Placed(r, r.execs[e]) { SourceStays(t, a, e); }
    }
  }

  lemma SourceStays(t: Tables, a: Action, e: nat)
    requires Inv(t) && !a.Instantiating? && e in Step(t, a).execs
    ensures Placed(Step(t, a), Step(t, a).execs[e])
  {
    assert t.execs[e] == Step(t, a).execs[e];
    assert Placed(t, t.execs[e]);
  }

  /** In every run executables have their sources, lie apart in the heap, get handles never
      used before, and the heap is only appended to. */
  lemma {:induction false} RunKeepsInv(t: Tables, run: seq<Action>)
    requires Inv(t)
    ensures Inv(Run(t, run)) && Run(t, run).nextExec >= t.nextExec && t.heap <= Run(t, run).heap
    decreases |run|
  {
    hide Inv, Step;
    if run != [] {
      StepKeepsInv(t, run[0]);
      RunKeepsInv(Step(t, run[0]), run[1..]);
    }
  }

  // ---------- what the callers asked for, from the actions alone ----------

  /** An executable as its maker meant it. */
  datatype Made = Made(source: nat, nodes: seq<Node>)

  /** How many graphs have been created; they are numbered from one. */
  function GraphCount(run: seq<Action>): nat {
    if run == [] then 0 else GraphCount(run[..|run| - 1]) + if run[|run| - 1].Creating? then 1 else 0
  }

  /** The nodes of graph `g`, if it is there. */
  function NodesOf(run: seq<Action>, g: nat): Option<seq<Node>> {
    if run == [] then None
    else
      var prev := run[..|run| - 1];
      var was := NodesOf(prev, g);
      match run[|run| - 1]
      case Creating => if g == GraphCount(prev) + 1 then Some([]) else was
      case Destroying(h) => if h == g then None else was
      case Adding(h, n) => if h == g && was.Some? then Some(was.value + [n]) else was
      case _ => was
  }

  /** The action makes an executable: its graph is there, with an argument buffer for every
      kernel node. */
  predicate Makes(run: seq<Action>, a: Action) {
    a.Instantiating? && NodesOf(run, a.g).Some? && ArgsGiven(NodesOf(run, a.g).value)
  }

  function ExecCount(run: seq<Action>): nat {
    if run == [] then 0 else ExecCount(run[..|run| - 1]) + if Makes(run[..|run| - 1], run[|run| - 1]) then 1 else 0
  }

  /** Executable `e`, if it is there. */
  function ExecOf(run: seq<Action>, e: nat): Option<Made> {
    if run == [] then None
    else
      var prev, a := run[..|run| - 1], run[|run| - 1];
      var was := ExecOf(prev, e);
      if Makes(prev, a) && e == ExecCount(prev) + 1 then Some(Made(a.g, NodesOf(prev, a.g).value))
      else if a == Removing(e) || (a.Destroying? && was.Some? && was.value.source == a.g) then None
      else was
  }

  function GraphNow(t: Tables, g: nat): Option<seq<Node>> { if g in t.graphs then Some(t.graphs[g]) else None }

  function ExecNow(t: Tables, e: nat): Option<Made> {
    if e in t.execs then Some(Made(t.execs[e].source, t.execs[e].nodes)) else None
  }

  ghost predicate Tracks(t: Tables, run: seq<Action>) {
    && t.nextGraph == 1 + GraphCount(run) && t.nextExec == 1 + ExecCount(run)
    && (forall g :: GraphNow(t, g) == NodesOf(run, g))
    && (forall e :: ExecNow(t, e) == ExecOf(run, e))
  }

  lemma StepTracks(t: Tables, run: seq<Action>, a: Action)
    requires Inv(t) && Tracks(t, run)
    ensures Tracks(Step(t, a), run + [a])
  {
    hide CompileAll, ArgsGiven;
    Longer(run, a);
    var r := Step(t, a);
    if a.Instantiating? { assert GraphNow(t, a.g) == NodesOf(run, a.g); }
    forall g ensures GraphNow(r, g) == NodesOf(run + [a], g) { assert GraphNow(t, g) == NodesOf(run, g); }
    forall e ensures ExecNow(r, e) == ExecOf(run + [a], e) { ExecTracks(t, run, a, e); }
  }

  lemma ExecTracks(t: Tables, run: seq<Action>, a: Action, e: nat)
    requires Inv(t) && Tracks(t, run)
    ensures ExecNow(Step(t, a), e) == ExecOf(run + [a], e)
  {
    hide CompileAll, ArgsGiven, NodesOf, ExecCount;
    Longer(run, a);
    assert ExecNow(t, e) == ExecOf(run, e);
    if e in t.execs { assert Placed(t, t.execs[e]); }
    if a.Instantiating? { assert GraphNow(t, a.g) == NodesOf(run, a.g); }
  }

  /** The action list after one more action. */
  lemma Longer(run: seq<Action>, a: Action)
    ensures (run + [a])[..|run + [a]| - 1] == run && (run + [a])[|run + [a]| - 1] == a
  {
  }

  lemma {:induction false} RunLast(t: Tables, run: seq<Action>)
    requires run != []
    ensures Run(t, run) == Step(Run(t, run[..|run| - 1]), run[|run| - 1])
    decreases |run|
  {
    hide Step;
    if |run| > 1 {
      RunLast(Step(t, run[0]), run[1..]);
      assert run[1..][..|run| - 2] == run[..|run| - 1][1..];
    } else {
      assert run[..0] == [] && run[1..] == [];
    }
  }

  /** After every run the tables hold the graphs and executables the actions call for. */
  lemma {:induction false} RunTracks(run: seq<Action>)
    ensures Tracks(Run(Empty(), run), run)
  {
    hide Step, Tracks;
    if run == [] {
      StartTracks();
    } else {
      var prev := run[..|run| - 1];
      RunTracks(prev);
      RunKeepsInv(Empty(), prev);
      RunLast(Empty(), run);
      StepTracks(Run(Empty(), prev), prev, run[|run| - 1]);
      assert prev + [run[|run| - 1]] == run;
    }
  }

  lemma StartTracks()
    ensures Tracks(Run(Empty(), []), [])
  {
  }

  /** In every run, whatever was added, instantiated and destroyed since: the address a launch
      returns holds, entry by entry, the compilation of the nodes the callers had given its
      graph when it was instantiated, and the graph is still there. */
  lemma LaunchReads(run: seq<Action>, e: nat, k: nat)
    requires ExecOf(run, e).Some? && k < |ExecOf(run, e).value.nodes|
    requires |ExecOf(run, e).value.nodes| % HALF != 0
    ensures var t, made := Run(Empty(), run), ExecOf(run, e).value;
            && e in t.execs && NodesOf(run, made.source).Some? && made.nodes <= NodesOf(run, made.source).value
            && var x := t.execs[e];
            && 0 <= Slot(x) && x.address == HEAP_BASE + Slot(x) * ENTRY_SIZE && Slot(x) + k < |t.heap|
            && t.heap[Slot(x) + k] == Compile(made.nodes[k])
  {
    hide Run;
    RunKeepsInv(Empty(), run);
    RunTracks(run);
    var t := Run(Empty(), run);
    assert ExecNow(t, e) == ExecOf(run, e);
    var x := t.execs[e];
    assert GraphNow(t, x.source) == NodesOf(run, x.source);
    assert Placed(t, x);
    assert t.heap[Slot(x)..Slot(x) + |x.entries|][k] == x.entries[k];
  }

  /** The record of the nodes is made when the executable is, and never changes. */
  lemma NodesRecorded(t: Tables, a: Action, e: nat)
    requires Inv(t) && e in Step(t, a).execs
    ensures e in t.execs ==> Step(t, a).execs[e] == t.execs[e]
    ensures e !in t.execs ==> a.Instantiating? && a.g in t.graphs && Step(t, a).execs[e].nodes == t.graphs[a.g]
  {
    hide Placed, Apart;
  }
}
