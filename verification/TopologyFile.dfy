/** The topology loader and writer (sim_hardware/src/topology.cpp) over JSON trees. */
module TopologyFile {
  import opened TopologyText
  import opened Collections

  const MAX_DEVICES: nat := 16
  const MAX_BARS: nat := 6
  const KIND_SIZE: nat := 32

  type uint8 = x: int | 0 <= x < 0x100
  type uint16 = x: int | 0 <= x < 0x1_0000
  type uint32 = x: int | 0 <= x < 0x1_0000_0000
  type uint64 = x: int | 0 <= x < 0x1_0000_0000_0000_0000

  /** The integers a JSON text can hold without becoming floating point. */
  type JsonInt = x: int | -0x8000_0000_0000_0000 <= x < 0x1_0000_0000_0000_0000

  /** The contents of a fixed array of characters. */
  type Kind = s: string | |s| < KIND_SIZE && '\0' !in s

  datatype Json =
    | Null
    | Bool(bool_: bool)
    | Num(int_: JsonInt)
    | Float
    | Str(str: string)
    | Arr(items: seq<Json>)
    | Obj(fields: map<string, Json>)

  datatype BypassMode = Full | Bypass | Partial

  datatype DrainPolicy = GracefulDrain | ImmediateAbort

  datatype Bar = Bar(index: uint8, size: uint64, prefetchable: bool, mmio: bool, wide: bool)

  datatype Device = Device(bdf: uint16, vendor: uint16, device: uint16, class_: uint32, kind: Kind, bars: seq<Bar>)

  datatype Topology = Topology(
    version: uint32,
    platform: string,
    rootComplex: bool,
    linkLayer: bool,
    phy: bool,
    mode: BypassMode,
    drain: DrainPolicy,
    devices: seq<Device>)

  // ---------- reading ----------

  predicate Has(j: Json, key: string) { j.Obj? && key in j.fields }

  predicate HasStr(j: Json, key: string) { Has(j, key) && j.fields[key].Str? }

  predicate HasInt(j: Json, key: string) { Has(j, key) && j.fields[key].Num? }

  predicate HasBool(j: Json, key: string) { Has(j, key) && j.fields[key].Bool? }

  predicate HasObj(j: Json, key: string) { Has(j, key) && j.fields[key].Obj? }

  predicate HasArr(j: Json, key: string) { Has(j, key) && j.fields[key].Arr? }

  predicate KnownKeys(j: Json, keys: set<string>) { j.Obj? && j.fields.Keys <= keys }

  const TOP_KEYS := {"schema_version", "platform", "pcie", "devices"}
  const PCIE_KEYS := {"root_complex", "link_layer", "phy", "bypass_mux"}
  const DEVICE_KEYS := {"bdf", "vendor_id", "device_id", "class_code", "endpoint_kind", "bars"}
  const BAR_KEYS := {"index", "size_bytes", "prefetchable", "is_mmio", "is_64bit"}

  /** A C int made of a JSON integer keeps its low 32 bits. */
  function ToInt32(v: int): (r: int)
    ensures -0x8000_0000 <= r < 0x8000_0000 && (v - r) % 0x1_0000_0000 == 0
  {
    (v + 0x8000_0000) % 0x1_0000_0000 - 0x8000_0000
  }

  /** An optional flag: absent it has its default, and it may only be a boolean. */
  function Flag(j: Json, key: string, default: bool): Option<bool> {
    if !Has(j, key) then Some(default) else if j.fields[key].Bool? then Some(j.fields[key].bool_) else None
  }

  function ParseBar(j: Json): Option<Bar> {
    if !KnownKeys(j, BAR_KEYS) || !HasInt(j, "index") || !HasInt(j, "size_bytes") then None
    else
      var index, size := ToInt32(j.fields["index"].int_), j.fields["size_bytes"].int_;
      var prefetchable, mmio, wide := Flag(j, "prefetchable", false), Flag(j, "is_mmio", true), Flag(j, "is_64bit", false);
      if index < 0 || index > 5 || size <= 0 || prefetchable.None? || mmio.None? || wide.None? || (wide.value && index == 5) then None
      else Some(Bar(index, size, prefetchable.value, mmio.value, wide.value))
  }

  /** The slots a BAR takes: a 64-bit one takes two. */
  function Footprint(b: Bar): set<int> { if b.wide then {b.index, b.index + 1} else {b.index} }

  predicate Disjoint(bars: seq<Bar>) {
    forall i, j :: 0 <= i < j < |bars| ==> Footprint(bars[i]) !! Footprint(bars[j])
  }

  predicate AllBars(js: seq<Json>) { forall i :: 0 <= i < |js| ==> ParseBar(js[i]).Some? }

  function BarsOf(js: seq<Json>): (bars: seq<Bar>)
    requires AllBars(js)
    ensures |bars| == |js| && forall i :: 0 <= i < |js| ==> bars[i] == ParseBar(js[i]).value
  {
    seq(|js|, i requires 0 <= i < |js| => ParseBar(js[i]).value)
  }

  /** A list of BARs is accepted when each is well formed and their footprints are disjoint. */
  function ParseBars(js: seq<Json>): Option<seq<Bar>> {
    if |js| > MAX_BARS || !AllBars(js) || !Disjoint(BarsOf(js)) then None else Some(BarsOf(js))
  }

  /** As much of a string as the fixed array holds, up to a NUL. */
  function Truncate(s: string): (k: Kind)
    ensures |k| <= |s| && k == s[..|k|]
    ensures |k| == |s| || s[|k|] == '\0' || |k| == KIND_SIZE - 1
  {
    var c := CString(s);
    if |c| < KIND_SIZE then c else c[..KIND_SIZE - 1]
  }

  function ParseDevice(j: Json): Option<Device> {
    if !KnownKeys(j, DEVICE_KEYS) || !HasStr(j, "bdf") || !HasStr(j, "vendor_id") || !HasStr(j, "device_id")
       || !HasStr(j, "class_code") || !HasStr(j, "endpoint_kind") || !HasArr(j, "bars") then None
    else
      var bdf := ParseBdf(j.fields["bdf"].str);
      var vendor, device := ParseU16(j.fields["vendor_id"].str), ParseU16(j.fields["device_id"].str);
      var class_ := ParseU32(j.fields["class_code"].str);
      var kind := j.fields["endpoint_kind"].str;
      var bars := ParseBars(j.fields["bars"].items);
      if bdf.None? || vendor.None? || device.None? || class_.None? || kind == "" || bars.None? then None
      else Some(Device(bdf.value, vendor.value, device.value, class_.value, Truncate(kind), bars.value))
  }

  predicate AllDevices(js: seq<Json>) { forall i :: 0 <= i < |js| ==> ParseDevice(js[i]).Some? }

  /** Devices are told apart by the text of their address. */
  predicate DistinctTexts(js: seq<Json>) {
    forall i, j :: 0 <= i < j < |js| && HasStr(js[i], "bdf") && HasStr(js[j], "bdf") ==> js[i].fields["bdf"] != js[j].fields["bdf"]
  }

  function DevicesOf(js: seq<Json>): (ds: seq<Device>)
    requires AllDevices(js)
    ensures |ds| == |js| && forall i :: 0 <= i < |js| ==> ds[i] == ParseDevice(js[i]).value
  {
    seq(|js|, i requires 0 <= i < |js| => ParseDevice(js[i]).value)
  }

  function ParseDevices(js: seq<Json>): Option<seq<Device>> {
    if |js| > MAX_DEVICES || !AllDevices(js) || !DistinctTexts(js) then None else Some(DevicesOf(js))
  }

  function ParseMode(s: string): Option<BypassMode> {
    if s == "Full" then Some(Full) else if s == "Bypass" then Some(Bypass) else if s == "Partial" then Some(Partial) else None
  }

  function ParseDrain(s: string): Option<DrainPolicy> {
    if s == "GracefulDrain" then Some(GracefulDrain) else if s == "ImmediateAbort" then Some(ImmediateAbort) else None
  }

  /** A nested flag that is ignored unless it is well formed. */
  function Enabled(j: Json, key: string, default: bool): bool {
    if HasObj(j, key) && HasBool(j.fields[key], "enabled") then j.fields[key].fields["enabled"].bool_ else default
  }

  function Load(j: Json): Option<Topology> {
    if !KnownKeys(j, TOP_KEYS) || !HasInt(j, "schema_version") || !HasStr(j, "platform") || !HasObj(j, "pcie") || !HasArr(j, "devices")
    then None
    else
      var pcie := j.fields["pcie"];
      if j.fields["schema_version"].int_ % HALF != 1 || j.fields["platform"].str == ""
         || !KnownKeys(pcie, PCIE_KEYS) || !HasObj(pcie, "root_complex") || !HasBool(pcie.fields["root_complex"], "enabled")
         || !HasObj(pcie, "bypass_mux") || !HasStr(pcie.fields["bypass_mux"], "default_mode")
         || !HasStr(pcie.fields["bypass_mux"], "default_drain_policy") then None
      else
        var mux := pcie.fields["bypass_mux"];
        var mode, drain := ParseMode(mux.fields["default_mode"].str), ParseDrain(mux.fields["default_drain_policy"].str);
        var devices := ParseDevices(j.fields["devices"].items);
        if mode.None? || drain.None? || devices.None? then None
        else
          Some(Topology(1, j.fields["platform"].str, pcie.fields["root_complex"].fields["enabled"].bool_,
                        Enabled(pcie, "link_layer", true), Enabled(pcie, "phy", false),
                        mode.value, drain.value, devices.value))
  }

  // ---------- the loader's loops ----------

  method OnlyKnownKeys(fields: map<string, Json>, keys: set<string>) returns (ok: bool)
    ensures ok <==> fields.Keys <= keys
  {
    var rest := fields.Keys;
    while rest != {}
      invariant rest <= fields.Keys && fields.Keys - rest <= keys
      decreases |rest|
    {
      var k :| k in rest;
      if k !in keys { return false; }
      rest := rest - {k};
    }
    return true;
  }

  /** The slots the first `n` BARs take. */
  ghost function Taken(bars: seq<Bar>): set<int> {
    if bars == [] then {} else Taken(bars[..|bars| - 1]) + Footprint(bars[|bars| - 1])
  }

  lemma {:induction false} TakenBy(bars: seq<Bar>, slot: int)
    ensures slot in Taken(bars) <==> exists i :: 0 <= i < |bars| && slot in Footprint(bars[i])
    decreases |bars|
  {
    if bars != [] {
      var n := |bars| - 1;
      TakenBy(bars[..n], slot);
      assert forall i :: 0 <= i < n ==> bars[..n][i] == bars[i];
    }
  }

  lemma OneMoreBar(bars: seq<Bar>, b: Bar)
    requires Disjoint(bars)
    ensures Disjoint(bars + [b]) <==> Footprint(b) !! Taken(bars)
    ensures Taken(bars + [b]) == Taken(bars) + Footprint(b)
  {
    var r := bars + [b];
    assert r[..|bars|] == bars;
    forall slot ensures slot in Taken(bars) <==> exists i :: 0 <= i < |bars| && slot in Footprint(bars[i]) { TakenBy(bars, slot); }
    if Disjoint(r) {
      forall i | 0 <= i < |bars| ensures Footprint(bars[i]) !! Footprint(b) { assert Footprint(r[i]) !! Footprint(r[|bars|]); }
    }
  }

  lemma NoBars()
    ensures Disjoint([]) && Taken([]) == {}
  {
  }

  /** The BAR loop: the slots seen so far are kept in a set. */
  method LoadBars(js: seq<Json>) returns (bars: Option<seq<Bar>>)
    ensures bars == ParseBars(js)
  {
    hide ParseBar, Disjoint, Taken;
    if |js| > MAX_BARS { return None; }
    var out: seq<Bar> := [];
    var seen: set<int> := {};
    NoBars();
    var i := 0;
    while i < |js|
      invariant i <= |js| && |out| == i && forall k :: 0 <= k < i ==> ParseBar(js[k]) == Some(out[k])
      invariant Disjoint(out) && seen == Taken(out)
    {
      var bar := ParseBar(js[i]);
      if bar.None? { return None; }
      var b := bar.value;
      OneMoreBar(out, b);
      ghost var longer := out + [b];
      if b.index in seen {
        ClashStays(js, longer);
        return None;
      }
      seen := seen + {b.index};
      if b.wide {
        if b.index + 1 in seen {
          ClashStays(js, longer);
          return None;
        }
        seen := seen + {b.index + 1};
      }
      out := out + [b];
      i := i + 1;
    }
    assert AllBars(js) && BarsOf(js) == out;
    return Some(out);
  }

  /** A clash among the first BARs rejects the list. */
  lemma ClashStays(js: seq<Json>, some: seq<Bar>)
    requires |some| <= |js| && !Disjoint(some) && forall k :: 0 <= k < |some| ==> ParseBar(js[k]) == Some(some[k])
    ensures ParseBars(js) == None
  {
    if AllBars(js) {
      var i, j :| 0 <= i < j < |some| && !(Footprint(some[i]) !! Footprint(some[j]));
      assert BarsOf(js)[i] == some[i] && BarsOf(js)[j] == some[j];
    }
  }

  method LoadDevice(j: Json) returns (d: Option<Device>)
    ensures d == ParseDevice(j)
  {
    if !j.Obj? { return None; }
    var known := OnlyKnownKeys(j.fields, DEVICE_KEYS);
    if !known { return None; }
    if !HasStr(j, "bdf") { return None; }
    var bdf := ParseBdf(j.fields["bdf"].str);
    if bdf.None? { return None; }
    if !HasStr(j, "vendor_id") || !HasStr(j, "device_id") { return None; }
    var vendor := ParseU16(j.fields["vendor_id"].str);
    if vendor.None? { return None; }
    var device := ParseU16(j.fields["device_id"].str);
    if device.None? { return None; }
    if !HasStr(j, "class_code") { return None; }
    var class_ := ParseU32(j.fields["class_code"].str);
    if class_.None? { return None; }
    if !HasStr(j, "endpoint_kind") || j.fields["endpoint_kind"].str == "" { return None; }
    if !HasArr(j, "bars") { return None; }
    var bars := LoadBars(j.fields["bars"].items);
    if bars.None? { return None; }
    return Some(Device(bdf.value, vendor.value, device.value, class_.value, Truncate(j.fields["endpoint_kind"].str), bars.value));
  }

  /** The device loop: the address texts seen so far are kept in a set. */
  method LoadDevices(js: seq<Json>) returns (ds: Option<seq<Device>>)
    ensures ds == ParseDevices(js)
  {
    hide ParseDevice;
    if |js| > MAX_DEVICES { return None; }
    var out: seq<Device> := [];
    var seen: set<string> := {};
    var i := 0;
    while i < |js|
      invariant i <= |js| && |out| == i && forall k :: 0 <= k < i ==> ParseDevice(js[k]) == Some(out[k])
      invariant forall k :: 0 <= k < i ==> HasStr(js[k], "bdf") && js[k].fields["bdf"].str in seen
      invariant forall t :: t in seen ==> exists k :: 0 <= k < i && HasStr(js[k], "bdf") && js[k].fields["bdf"].str == t
      invariant DistinctTexts(js[..i])
    {
      ParsedHasBdf(js[i]);
      if !HasStr(js[i], "bdf") { return None; }
      var text := js[i].fields["bdf"].str;
      if text in seen {
        ghost var k :| 0 <= k < i && HasStr(js[k], "bdf") && js[k].fields["bdf"].str == text;
        assert js[k].fields["bdf"] == js[i].fields["bdf"];
        return None;
      }
      var d := LoadDevice(js[i]);
      if d.None? { return None; }
      seen := seen + {text};
      out := out + [d.value];
      i := i + 1;
    }
    assert js[..i] == js;
    assert AllDevices(js) && DevicesOf(js) == out;
    return Some(out);
  }

  lemma ParsedHasBdf(j: Json)
    ensures ParseDevice(j).Some? ==> HasStr(j, "bdf")
  {
  }

  method LoadJson(j: Json) returns (t: Option<Topology>)
    ensures t == Load(j)
  {
    hide ParseDevices;
    if !j.Obj? { return None; }
    var known := OnlyKnownKeys(j.fields, TOP_KEYS);
    if !known { return None; }
    if !HasInt(j, "schema_version") || j.fields["schema_version"].int_ % HALF != 1 { return None; }
    if !HasStr(j, "platform") || j.fields["platform"].str == "" { return None; }
    if !HasObj(j, "pcie") { return None; }
    var pcie := j.fields["pcie"];
    known := OnlyKnownKeys(pcie.fields, PCIE_KEYS);
    if !known { return None; }
    if !HasObj(pcie, "root_complex") || !HasBool(pcie.fields["root_complex"], "enabled") { return None; }
    if !HasObj(pcie, "bypass_mux") { return None; }
    var mux := pcie.fields["bypass_mux"];
    if !HasStr(mux, "default_mode") || !HasStr(mux, "default_drain_policy") { return None; }
    var mode, drain := ParseMode(mux.fields["default_mode"].str), ParseDrain(mux.fields["default_drain_policy"].str);
    if mode.None? || drain.None? { return None; }
    if !HasArr(j, "devices") { return None; }
    var devices := LoadDevices(j.fields["devices"].items);
    if devices.None? { return None; }
    return Some(Topology(1, j.fields["platform"].str, pcie.fields["root_complex"].fields["enabled"].bool_,
                         Enabled(pcie, "link_layer", true), Enabled(pcie, "phy", false),
                         mode.value, drain.value, devices.value));
  }

  // ---------- writing ----------

  function WriteBar(b: Bar): Json {
    Obj(map["index" := Num(b.index), "size_bytes" := Num(b.size), "prefetchable" := Bool(b.prefetchable),
            "is_mmio" := Bool(b.mmio), "is_64bit" := Bool(b.wide)])
  }

  function WriteBars(bars: seq<Bar>): (js: seq<Json>)
    ensures |js| == |bars| && forall i :: 0 <= i < |bars| ==> js[i] == WriteBar(bars[i])
  {
    seq(|bars|, i requires 0 <= i < |bars| => WriteBar(bars[i]))
  }

  function WriteDevice(d: Device): Json {
    Obj(map["bdf" := Str(BdfText(d.bdf)), "vendor_id" := Str("0x" + Hex(d.vendor, 4, true)),
            "device_id" := Str("0x" + Hex(d.device, 4, true)), "class_code" := Str("0x" + Hex(d.class_, 8, true)),
            "endpoint_kind" := Str(d.kind), "bars" := Arr(WriteBars(d.bars))])
  }

  function WriteDevices(ds: seq<Device>): (js: seq<Json>)
    ensures |js| == |ds| && forall i :: 0 <= i < |ds| ==> js[i] == WriteDevice(ds[i])
  {
    seq(|ds|, i requires 0 <= i < |ds| => WriteDevice(ds[i]))
  }

  function ModeText(m: BypassMode): string {
    match m case Full => "Full" case Bypass => "Bypass" case Partial => "Partial"
  }

  function DrainText(p: DrainPolicy): string {
    match p case GracefulDrain => "GracefulDrain" case ImmediateAbort => "ImmediateAbort"
  }

  function WriteNode(kind: string, enabled: bool): Json { Obj(map["type" := Str(kind), "enabled" := Bool(enabled)]) }

  function WritePcie(t: Topology): Json {
    Obj(map["root_complex" := WriteNode("PcieRootComplexMock", t.rootComplex),
            "link_layer" := WriteNode("PcieLinkLayer", t.linkLayer),
            "phy" := WriteNode("PciePhyDigitalCtrl", t.phy),
            "bypass_mux" := Obj(map["default_mode" := Str(ModeText(t.mode)), "default_drain_policy" := Str(DrainText(t.drain))])])
  }

  function Write(t: Topology): Json {
    Obj(map["schema_version" := Num(1), "platform" := Str(t.platform), "pcie" := WritePcie(t), "devices" := Arr(WriteDevices(t.devices))])
  }

  /** The writer's loops. */
  method WriteJson(t: Topology) returns (j: Json)
    ensures j == Write(t)
  {
    var devices: seq<Json> := [];
    for i := 0 to |t.devices|
      invariant |devices| == i && forall k :: 0 <= k < i ==> devices[k] == WriteDevice(t.devices[k])
    {
      var d := t.devices[i];
      var bars: seq<Json> := [];
      for k := 0 to |d.bars|
        invariant |bars| == k && forall n :: 0 <= n < k ==> bars[n] == WriteBar(d.bars[n])
      {
        bars := bars + [WriteBar(d.bars[k])];
      }
      assert bars == WriteBars(d.bars);
      devices := devices + [Obj(map[
        "bdf" := Str(BdfText(d.bdf)), "vendor_id" := Str("0x" + Hex(d.vendor, 4, true)),
        "device_id" := Str("0x" + Hex(d.device, 4, true)), "class_code" := Str("0x" + Hex(d.class_, 8, true)),
        "endpoint_kind" := Str(d.kind), "bars" := Arr(bars)])];
    }
    assert devices == WriteDevices(t.devices);
    j := Obj(map["schema_version" := Num(1), "platform" := Str(t.platform), "pcie" := WritePcie(t), "devices" := Arr(devices)]);
  }

  // ---------- what is accepted ----------

  predicate Fits(b: Bar) { b.size > 0 && Footprint(b) <= {0, 1, 2, 3, 4, 5} }

  lemma ParsedFits(j: Json)
    ensures ParseBar(j).Some? ==> Fits(ParseBar(j).value)
  {
  }

  lemma {:induction false} FootprintsCount(bars: seq<Bar>)
    requires Disjoint(bars) && forall i :: 0 <= i < |bars| ==> Fits(bars[i])
    ensures |Taken(bars)| >= |bars| && Taken(bars) <= {0, 1, 2, 3, 4, 5}
    decreases |bars|
  {
    hide Disjoint;
    if bars != [] {
      var n := |bars| - 1;
      assert bars == bars[..n] + [bars[n]];
      DisjointPrefix(bars, n);
      FootprintsCount(bars[..n]);
      OneMoreBar(bars[..n], bars[n]);
      assert bars[n].index in Footprint(bars[n]);
      assert |Footprint(bars[n])| >= 1;
    }
  }

  lemma DisjointPrefix(bars: seq<Bar>, n: nat)
    requires Disjoint(bars) && n <= |bars|
    ensures Disjoint(bars[..n])
  {
  }

  /** More than six BARs never have disjoint footprints in the six slots. */
  lemma AtMostSix(bars: seq<Bar>)
    requires Disjoint(bars) && forall i :: 0 <= i < |bars| ==> Fits(bars[i])
    ensures |bars| <= MAX_BARS
  {
    FootprintsCount(bars);
    SixAtMost(Taken(bars));
  }

  lemma SixAtMost(s: set<int>)
    requires s <= {0, 1, 2, 3, 4, 5}
    ensures |s| <= 6
  {
    var rest := {0, 1, 2, 3, 4, 5} - s;
    assert s + rest == {0, 1, 2, 3, 4, 5};
    assert |s + rest| == |s| + |rest|;
    assert |{0, 1, 2, 3, 4, 5}| == 6;
  }

  /** A BAR list is accepted exactly when every BAR is well formed and their footprints, all
      within slots 0 to 5, are pairwise disjoint; the bound on the list's length never decides. */
  lemma BarsAcceptedIff(js: seq<Json>)
    ensures ParseBars(js).Some? <==> AllBars(js) && Disjoint(BarsOf(js))
    ensures ParseBars(js).Some? ==> forall i :: 0 <= i < |js| ==> Fits(ParseBars(js).value[i])
  {
    hide ParseBar, Disjoint;
    if AllBars(js) {
      var bars := BarsOf(js);
      forall i | 0 <= i < |js| ensures Fits(bars[i]) { ParsedFits(js[i]); }
      if Disjoint(bars) { AtMostSix(bars); }
    }
  }

  // ---------- the format, as tables of fields ----------

  datatype Sort = Number | Text | Truth | Object | List

  predicate OfSort(j: Json, s: Sort) {
    match s
    case Number => j.Num?
    case Text => j.Str?
    case Truth => j.Bool?
    case Object => j.Obj?
    case List => j.Arr?
  }

  /** The object has the fields in `needed`; the ones there are of the sorts in the two tables;
      and, if it is closed, it has no others. */
  predicate Shaped(j: Json, needed: map<string, Sort>, optional: map<string, Sort>, closed: bool) {
    && j.Obj?
    && (forall k :: k in needed ==> k in j.fields && OfSort(j.fields[k], needed[k]))
    && (forall k :: k in optional && k in j.fields ==> OfSort(j.fields[k], optional[k]))
    && (closed ==> forall k :: k in j.fields ==> k in needed || k in optional)
  }

  /** A flag's value, or its default where the file does not give it. */
  function Given(j: Json, key: string, default: bool): bool
    requires j.Obj? && (key in j.fields ==> j.fields[key].Bool?)
  {
    if key in j.fields then j.fields[key].bool_ else default
  }

  /** A BAR is read exactly when it has the shape, a slot from 0 to 5, or to 4 for a 64-bit one,
      and a positive size; its fields are then the ones given or their defaults. */
  lemma BarReadIff(j: Json)
    ensures var shaped := Shaped(j, map["index" := Number, "size_bytes" := Number],
                                 map["prefetchable" := Truth, "is_mmio" := Truth, "is_64bit" := Truth], true);
            && (ParseBar(j).Some? <==>
                  && shaped && j.fields["size_bytes"].int_ > 0
                  && 0 <= ToInt32(j.fields["index"].int_) <= (if Given(j, "is_64bit", false) then 4 else 5))
            && (ParseBar(j).Some? ==>
                  ParseBar(j).value == Bar(ToInt32(j.fields["index"].int_), j.fields["size_bytes"].int_,
                                           Given(j, "prefetchable", false), Given(j, "is_mmio", true), Given(j, "is_64bit", false)))
  {
    hide ToInt32;
  }

  /** A device is read exactly when it has the shape, its texts parse, its kind is not empty and
      its BARs are accepted. */
  lemma DeviceReadIff(j: Json)
    ensures var shaped := Shaped(j, map["bdf" := Text, "vendor_id" := Text, "device_id" := Text, "class_code" := Text,
                                        "endpoint_kind" := Text, "bars" := List], map[], true);
            && (ParseDevice(j).Some? <==>
                  && shaped && ParseBdf(j.fields["bdf"].str).Some?
                  && ParseU16(j.fields["vendor_id"].str).Some? && ParseU16(j.fields["device_id"].str).Some?
                  && ParseU32(j.fields["class_code"].str).Some? && j.fields["endpoint_kind"].str != ""
                  && ParseBars(j.fields["bars"].items).Some?)
            && (ParseDevice(j).Some? ==>
                  var d := ParseDevice(j).value;
                  && Some(d.bdf) == ParseBdf(j.fields["bdf"].str)
                  && Some(d.vendor) == ParseU16(j.fields["vendor_id"].str) && Some(d.device) == ParseU16(j.fields["device_id"].str)
                  && Some(d.class_) == ParseU32(j.fields["class_code"].str)
                  && d.kind <= j.fields["endpoint_kind"].str && Some(d.bars) == ParseBars(j.fields["bars"].items))
  {
    hide ParseBdf, ParseU16, ParseU32, ParseBars, Truncate;
    assert {"bdf", "vendor_id", "device_id", "class_code", "endpoint_kind", "bars"} == DEVICE_KEYS;
  }

  /** The device list is accepted exactly when it has at most sixteen, each is read, and no two
      have the same address text. */
  lemma DevicesReadIff(js: seq<Json>)
    ensures ParseDevices(js).Some? <==>
              && |js| <= 16 && (forall i :: 0 <= i < |js| ==> ParseDevice(js[i]).Some?)
              && forall i, j :: 0 <= i < j < |js| ==> HasStr(js[i], "bdf") && HasStr(js[j], "bdf") && js[i].fields["bdf"].str != js[j].fields["bdf"].str
    ensures ParseDevices(js).Some? ==>
              |ParseDevices(js).value| == |js| && forall i :: 0 <= i < |js| ==> ParseDevice(js[i]) == Some(ParseDevices(js).value[i])
  {
    hide ParseDevice;
    forall i | 0 <= i < |js| && ParseDevice(js[i]).Some? ensures HasStr(js[i], "bdf") { ParsedHasBdf(js[i]); }
  }

  /** The value of a nested flag if it is there and well formed, else its default. */
  function Nested(pcie: Json, key: string, default: bool): bool
    requires pcie.Obj?
  {
    if key in pcie.fields && Shaped(pcie.fields[key], map["enabled" := Truth], map[], false)
    then pcie.fields[key].fields["enabled"].bool_ else default
  }

  predicate PcieShaped(pcie: Json) {
    && pcie.Obj? && (forall k :: k in pcie.fields ==> k in {"root_complex", "link_layer", "phy", "bypass_mux"})
    && "root_complex" in pcie.fields && Shaped(pcie.fields["root_complex"], map["enabled" := Truth], map[], false)
    && "bypass_mux" in pcie.fields
    && Shaped(pcie.fields["bypass_mux"], map["default_mode" := Text, "default_drain_policy" := Text], map[], false)
  }

  predicate TopShaped(j: Json) {
    && Shaped(j, map["schema_version" := Number, "platform" := Text, "pcie" := Object, "devices" := List], map[], true)
    && PcieShaped(j.fields["pcie"])
  }

  function MuxOf(pcie: Json, key: string): string
    requires PcieShaped(pcie) && key in {"default_mode", "default_drain_policy"}
  {
    pcie.fields["bypass_mux"].fields[key].str
  }

  lemma PcieShapedIff(pcie: Json)
    ensures PcieShaped(pcie) <==>
              && KnownKeys(pcie, PCIE_KEYS)
              && HasObj(pcie, "root_complex") && HasBool(pcie.fields["root_complex"], "enabled")
              && HasObj(pcie, "bypass_mux") && HasStr(pcie.fields["bypass_mux"], "default_mode")
              && HasStr(pcie.fields["bypass_mux"], "default_drain_policy")
  {
    assert PCIE_KEYS == {"root_complex", "link_layer", "phy", "bypass_mux"};
  }

  lemma TopShapedIff(j: Json)
    ensures TopShaped(j) <==>
              && KnownKeys(j, TOP_KEYS) && HasInt(j, "schema_version") && HasStr(j, "platform")
              && HasObj(j, "pcie") && HasArr(j, "devices") && PcieShaped(j.fields["pcie"])
  {
    hide PcieShaped;
    assert TOP_KEYS == {"schema_version", "platform", "pcie", "devices"};
  }

  lemma NamesKnown(s: string)
    ensures ParseMode(s).Some? <==> s in {"Full", "Bypass", "Partial"}
    ensures ParseMode(s).Some? ==> ModeText(ParseMode(s).value) == s
    ensures ParseDrain(s).Some? <==> s in {"GracefulDrain", "ImmediateAbort"}
    ensures ParseDrain(s).Some? ==> DrainText(ParseDrain(s).value) == s
  {
  }

  /** A tree is loaded exactly when it and its parts have the shape, its version is 1 modulo 2^32,
      its platform is not empty, the two modes are known names and the device list is accepted. */
  lemma LoadsIff(j: Json)
    ensures Load(j).Some? <==>
              && TopShaped(j)
              && (j.fields["schema_version"].int_ - 1) % HALF == 0 && j.fields["platform"].str != ""
              && MuxOf(j.fields["pcie"], "default_mode") in {"Full", "Bypass", "Partial"}
              && MuxOf(j.fields["pcie"], "default_drain_policy") in {"GracefulDrain", "ImmediateAbort"}
              && ParseDevices(j.fields["devices"].items).Some?
  {
    hide ParseDevices, PcieShaped, TopShaped, ParseMode, ParseDrain, KnownKeys, Enabled;
    TopShapedIff(j);
    VersionOne(j);
    if HasObj(j, "pcie") {
      var pcie := j.fields["pcie"];
      PcieShapedIff(pcie);
      if TopShaped(j) {
        NamesKnown(pcie.fields["bypass_mux"].fields["default_mode"].str);
        NamesKnown(pcie.fields["bypass_mux"].fields["default_drain_policy"].str);
      }
    }
  }

  /** The topology loaded is the one the fields name. */
  lemma LoadedFields(j: Json)
    requires Load(j).Some?
    ensures TopShaped(j)
    ensures var t, pcie := Load(j).value, j.fields["pcie"];
            && t.version == 1 && t.platform == j.fields["platform"].str
            && t.rootComplex == pcie.fields["root_complex"].fields["enabled"].bool_
            && t.linkLayer == Nested(pcie, "link_layer", true) && t.phy == Nested(pcie, "phy", false)
            && ModeText(t.mode) == MuxOf(pcie, "default_mode") && DrainText(t.drain) == MuxOf(pcie, "default_drain_policy")
            && Some(t.devices) == ParseDevices(j.fields["devices"].items)
  {
    hide ParseDevices, PcieShaped, TopShaped, ParseMode, ParseDrain, ModeText, DrainText, KnownKeys, Enabled, Shaped;
    LoadsIff(j);
    TopShapedIff(j);
    var pcie := j.fields["pcie"];
    PcieShapedIff(pcie);
    NestedIsEnabled(pcie, "link_layer", true);
    NestedIsEnabled(pcie, "phy", false);
    NamesKnown(pcie.fields["bypass_mux"].fields["default_mode"].str);
    NamesKnown(pcie.fields["bypass_mux"].fields["default_drain_policy"].str);
  }

  lemma NestedIsEnabled(pcie: Json, key: string, default: bool)
    requires pcie.Obj?
    ensures Nested(pcie, key, default) == Enabled(pcie, key, default)
  {
  }

  lemma VersionOne(j: Json)
    ensures HasInt(j, "schema_version") ==>
              var v := j.fields["schema_version"].int_; v % HALF == 1 <==> (v - 1) % HALF == 0
  {
  }

  /** Footprints alone decide, not positions. */
  ghost predicate ClashFree(bars: multiset<Bar>) {
    && (forall x :: x in bars ==> bars[x] == 1)
    && (forall x, y :: x in bars && y in bars && x != y ==> Footprint(x) !! Footprint(y))
  }

  lemma {:induction false} DisjointIffClashFree(bars: seq<Bar>)
    ensures Disjoint(bars) <==> ClashFree(multiset(bars))
    decreases |bars|
  {
    if bars != [] {
      hide Disjoint, ClashFree, Taken, Footprint;
      var n := |bars| - 1;
      assert bars == bars[..n] + [bars[n]];
      DisjointIffClashFree(bars[..n]);
      JoinsIff(bars[..n], bars[n]);
      OneMoreClashFree(multiset(bars[..n]), bars[n]);
      assert multiset(bars) == multiset(bars[..n]) + multiset{bars[n]};
    } else {
      assert multiset(bars) == multiset{};
    }
  }

  lemma JoinsIff(bars: seq<Bar>, b: Bar)
    ensures Disjoint(bars + [b]) <==> Disjoint(bars) && forall x :: x in multiset(bars) ==> Footprint(x) !! Footprint(b)
  {
    hide Footprint;
    var r := bars + [b];
    if Disjoint(r) {
      assert r[..|bars|] == bars;
      DisjointPrefix(r, |bars|);
      forall x | x in multiset(bars) ensures Footprint(x) !! Footprint(b) {
        assert x in bars;
        var i :| 0 <= i < |bars| && bars[i] == x;
        assert r[i] == x && r[|bars|] == b;
      }
    } else if Disjoint(bars) {
      var i, j :| 0 <= i < j < |r| && !(Footprint(r[i]) !! Footprint(r[j]));
      assert j == |bars| && bars[i] in multiset(bars);
    }
  }

  lemma OneMoreClashFree(part: multiset<Bar>, b: Bar)
    ensures ClashFree(part + multiset{b}) <==> ClashFree(part) && forall x :: x in part ==> Footprint(x) !! Footprint(b)
  {
    assert b.index in Footprint(b);
    hide Footprint;
    var whole := part + multiset{b};
    assert b in whole && forall x :: x in part ==> x in whole && whole[x] >= part[x];
    if ClashFree(whole) {
      assert b !in part by { assert whole[b] == 1; }
      assert forall x :: x in part ==> x != b && part[x] == whole[x];
    }
    if ClashFree(part) && forall x :: x in part ==> Footprint(x) !! Footprint(b) {
      assert b !in part;
      forall x | x in whole ensures whole[x] == 1 { if x != b { assert x in part; } }
    }
  }

  lemma {:induction false} SameBars(js: seq<Json>, ks: seq<Json>)
    requires multiset(js) == multiset(ks) && AllBars(js) && AllBars(ks)
    ensures multiset(BarsOf(js)) == multiset(BarsOf(ks))
    decreases |js|
  {
    hide ParseBar;
    if js == [] {
      assert |multiset(ks)| == |ks|;
    } else {
      assert js[0] in multiset(js);
      assert js[0] in multiset(ks);
      var k :| 0 <= k < |ks| && ks[k] == js[0];
      RemoveAtCounts(js, 0);
      RemoveAtCounts(ks, k);
      SameBars(RemoveAt(js, 0), RemoveAt(ks, k));
      OneBarOut(js, 0);
      OneBarOut(ks, k);
    }
  }

  lemma OneBarOut(js: seq<Json>, k: nat)
    requires k < |js| && AllBars(js)
    ensures AllBars(RemoveAt(js, k))
    ensures multiset(BarsOf(js)) == multiset(BarsOf(RemoveAt(js, k))) + multiset{ParseBar(js[k]).value}
  {
    hide ParseBar;
    RemoveAtCounts(BarsOf(js), k);
    assert BarsOf(RemoveAt(js, k)) == RemoveAt(BarsOf(js), k);
  }

  lemma SameMembers(js: seq<Json>, ks: seq<Json>)
    requires multiset(js) == multiset(ks) && AllBars(js)
    ensures AllBars(ks)
  {
    forall i | 0 <= i < |ks| ensures ParseBar(ks[i]).Some? {
      assert ks[i] in multiset(js);
    }
  }

  /** Whether a BAR list is accepted does not depend on its order. */
  lemma OrderIrrelevant(js: seq<Json>, ks: seq<Json>)
    requires multiset(js) == multiset(ks)
    ensures ParseBars(js).Some? == ParseBars(ks).Some?
  {
    hide ParseBar, Disjoint, ClashFree, ParseBars;
    BarsAcceptedIff(js);
    BarsAcceptedIff(ks);
    if AllBars(js) {
      SameMembers(js, ks);
      SameBars(js, ks);
      DisjointIffClashFree(BarsOf(js));
      DisjointIffClashFree(BarsOf(ks));
    } else if AllBars(ks) {
      SameMembers(ks, js);
    }
  }

  // ---------- writing and loading ----------

  predicate DistinctBdfs(ds: seq<Device>) { forall i, j :: 0 <= i < j < |ds| ==> ds[i].bdf != ds[j].bdf }

  predicate ValidDevice(d: Device) {
    d.bdf < 0x2000 && d.kind != "" && Disjoint(d.bars) && forall i :: 0 <= i < |d.bars| ==> Fits(d.bars[i])
  }

  predicate Valid(t: Topology) {
    && t.version == 1 && t.platform != "" && |t.devices| <= MAX_DEVICES
    && DistinctBdfs(t.devices) && forall i :: 0 <= i < |t.devices| ==> ValidDevice(t.devices[i])
  }

  lemma BarKeptIff(b: Bar)
    ensures ParseBar(WriteBar(b)) == if Fits(b) then Some(b) else None
  {
    var j := WriteBar(b);
    assert j.fields.Keys == BAR_KEYS;
    assert b.index in Footprint(b);
    if b.wide { assert b.index + 1 in Footprint(b); }
  }

  lemma BarsKept(bars: seq<Bar>)
    ensures ParseBars(WriteBars(bars)) == if Disjoint(bars) && forall i :: 0 <= i < |bars| ==> Fits(bars[i]) then Some(bars) else None
  {
    hide ParseBar, WriteBar, Disjoint, Fits;
    var js := WriteBars(bars);
    forall i | 0 <= i < |bars| ensures ParseBar(js[i]) == if Fits(bars[i]) then Some(bars[i]) else None { BarKeptIff(bars[i]); }
    if forall i :: 0 <= i < |bars| ==> Fits(bars[i]) {
      assert AllBars(js) && BarsOf(js) == bars;
      if Disjoint(bars) { AtMostSix(bars); }
    }
  }

  lemma DeviceKept(d: Device)
    ensures ParseDevice(WriteDevice(d))
            == if ValidDevice(d.(bdf := d.bdf % 0x2000)) then Some(d.(bdf := d.bdf % 0x2000)) else None
  {
    hide ParseBdf, ParseU16, ParseU32, BdfText, Hex, ParseBars, WriteBars, Disjoint, Fits;
    var j := WriteDevice(d);
    assert j.fields.Keys == DEVICE_KEYS;
    PrintedBdf(d.bdf);
    PrintedU16(d.vendor);
    PrintedU16(d.device);
    PrintedU32(d.class_);
    BarsKept(d.bars);
    CStringOf(d.kind);
  }

  lemma TextsTell(ds: seq<Device>)
    ensures DistinctTexts(WriteDevices(ds)) <==> forall i, j :: 0 <= i < j < |ds| ==> ds[i].bdf % 0x2000 != ds[j].bdf % 0x2000
  {
    hide BdfText, Hex, WriteBars;
    var js := WriteDevices(ds);
    forall i, j | 0 <= i < j < |ds|
      ensures js[i].fields["bdf"] == js[j].fields["bdf"] <==> ds[i].bdf % 0x2000 == ds[j].bdf % 0x2000
    {
      BdfTextTells(ds[i].bdf, ds[j].bdf);
    }
  }

  lemma DevicesKeptIff(ds: seq<Device>)
    ensures ParseDevices(WriteDevices(ds)) == Some(ds)
            <==> |ds| <= MAX_DEVICES && DistinctBdfs(ds) && forall i :: 0 <= i < |ds| ==> ValidDevice(ds[i])
  {
    hide ParseDevice, WriteDevice, DistinctTexts, Disjoint, Fits;
    var js := WriteDevices(ds);
    forall i | 0 <= i < |ds| ensures ParseDevice(js[i]) == Some(ds[i]) <==> ValidDevice(ds[i]) {
      DeviceKept(ds[i]);
    }
    TextsTell(ds);
    if forall i :: 0 <= i < |ds| ==> ValidDevice(ds[i]) {
      assert AllDevices(js) && DevicesOf(js) == ds;
    } else if AllDevices(js) {
      var i :| 0 <= i < |ds| && !ValidDevice(ds[i]);
      assert DevicesOf(js)[i] != ds[i];
    }
  }

  lemma NamesKept(m: BypassMode, p: DrainPolicy)
    ensures ParseMode(ModeText(m)) == Some(m) && ParseDrain(DrainText(p)) == Some(p)
  {
  }

  /** Loading what is written for a topology gives that topology exactly when it is valid: its
      BARs fit, its packed addresses are in range and distinct, its names are not empty. */
  lemma RoundTripIff(t: Topology)
    ensures Load(Write(t)) == Some(t) <==> Valid(t)
  {
    NamesKept(t.mode, t.drain);
    hide ParseDevices, WriteDevices, ValidDevice, DistinctBdfs, ParseMode, ParseDrain, ModeText, DrainText;
    var j := Write(t);
    assert j.fields.Keys == TOP_KEYS;
    assert WritePcie(t).fields.Keys == PCIE_KEYS;
    DevicesKeptIff(t.devices);
  }

  /** What was loaded can be written and loaded again, unchanged, exactly when its packed
      addresses are distinct, for the loader compares their texts only, and no device kind was
      cut to nothing by a leading NUL. */
  lemma LoadedRoundTripIff(j: Json, t: Topology)
    requires Load(j) == Some(t)
    ensures Load(Write(t)) == Some(t)
            <==> DistinctBdfs(t.devices) && forall i :: 0 <= i < |t.devices| ==> t.devices[i].kind != ""
  {
    hide Write, ParseDevice, DistinctBdfs, ValidDevice;
    RoundTripIff(t);
    var js := j.fields["devices"].items;
    forall i | 0 <= i < |js| ensures ValidDevice(t.devices[i]) <==> t.devices[i].kind != "" { LoadedDevice(js[i]); }
  }

  lemma LoadedDevice(j: Json)
    ensures ParseDevice(j).Some? ==> (ValidDevice(ParseDevice(j).value) <==> ParseDevice(j).value.kind != "")
  {
    hide ParseBars, ParseU16, ParseU32, PackBdf, ParseBar, Disjoint, Fits, Truncate;
    if ParseDevice(j).Some? {
      BarsAcceptedIff(j.fields["bars"].items);
      AcceptedBars(j.fields["bars"].items);
    }
  }

  lemma AcceptedBars(js: seq<Json>)
    requires ParseBars(js).Some?
    ensures Disjoint(ParseBars(js).value) && |ParseBars(js).value| == |js|
  {
  }
}
