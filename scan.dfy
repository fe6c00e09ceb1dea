/** `list_driverless` and `free_di`: the scan of present USB devices that
    builds a singly linked list of `driver_info` records, one per device
    whose driver-key read fails, in enumeration order. The SetupAPI and
    Cfgmgr32 answers for each device come in as an `Entry`. */
module DriverScan {
  import opened Common
  import opened DeviceIdentity

  /** What the enumeration reports for the device at one index. */
  datatype Entry = Entry(
    hasDriver: bool,               // the SPDRP_DRIVER registry read succeeds
    allocFails: bool,              // calloc for this device's record returns NULL
    deviceId: Option<string>,      // CM_Get_Device_IDA; None when it does not return CR_SUCCESS
    registryDesc: Option<string>,  // SPDRP_DEVICEDESC, None when the read fails
    busDesc: Option<string>)       // DEVPKEY_Device_BusReportedDeviceDesc, None when the read fails

  /** `build` is the build number GetVersionEx reports (None when the call
      fails); `hasDeviceProperty` says whether SetupDiGetDeviceProperty
      was found in Setupapi.dll. */
  datatype Platform = Platform(build: Option<nat>, hasDeviceProperty: bool)

  /** A `driver_info` record without its `next` link. A device whose
      identity lookup fails keeps NULL `device_id` and `desc`. */
  datatype DeviceRecord = DeviceRecord(deviceId: Option<string>, desc: Option<string>,
                                       vid: string, pid: string, mi: string)

  const ZeroRecord := DeviceRecord(None, None, "", "", "")

  /** The description policy: the registry description before build 7000,
      the bus-reported description otherwise; a failed read gives "". */
  function Description(e: Entry, plat: Platform): string {
    if plat.build.Some? && plat.build.value < 7000 then e.registryDesc.GetOr("")
    else if !plat.hasDeviceProperty then ""
    else e.busDesc.GetOr("")
  }

  /** The record the loop leaves for a driverless device. `_strdup` and
      `strtok` both stop at the first NUL of the id buffer, so only its
      `strlen` prefix is stored and tokenised. */
  function RecordFor(e: Entry, plat: Platform, sizes: FieldSizes): (r: DeviceRecord)
    ensures e.deviceId.None? ==> r == ZeroRecord
    ensures e.deviceId.Some? ==> r.deviceId.Some? && r.desc.Some?
  {
    match e.deviceId
    case None => ZeroRecord
    case Some(raw) =>
      var path := CString(raw);
      var id := IdentityOf(path, sizes);
      DeviceRecord(Some(path), Some(Description(e, plat)), id.vid, id.pid, id.mi)
  }

  /** A field of a filled record is empty when no token of the stored id
      carries its prefix, and otherwise the bounded copy of the last token
      that does. */
  predicate FieldIsLastMatch(ts: seq<string>, p: string, size: FieldSize, f: string) {
    && ((forall i :: 0 <= i < |ts| ==> !HasPrefix(ts[i], p)) ==> f == "")
    && (forall i :: 0 <= i < |ts| && HasPrefix(ts[i], p) && (forall j :: i < j < |ts| ==> !HasPrefix(ts[j], p))
                    ==> f == Bounded(ts[i], size))
    && (f == "" || exists i :: 0 <= i < |ts| && HasPrefix(ts[i], p) && f == Bounded(ts[i], size))
  }

  /** What the loop stores for a device: a failed id lookup leaves the
      zero-filled record; otherwise the NUL-free id, a description and, in
      `vid`, `pid` and `mi`, the last `VID_`, `PID_` and `MI_` token of the
      id cut to its field. */
  lemma RecordFields(e: Entry, plat: Platform, sizes: FieldSizes)
    ensures var r := RecordFor(e, plat, sizes);
      && (e.deviceId.None? <==> r.deviceId.None?)
      && (e.deviceId.None? ==> r == ZeroRecord)
      && (e.deviceId.Some? ==>
            var ts := Tokens(r.deviceId.value);
            && r.deviceId.value == CString(e.deviceId.value)
            && r.desc == Some(Description(e, plat))
            && FieldIsLastMatch(ts, VidPrefix, sizes.vid, r.vid)
            && FieldIsLastMatch(ts, PidPrefix, sizes.pid, r.pid)
            && FieldIsLastMatch(ts, MiPrefix, sizes.mi, r.mi))
  {
    if e.deviceId.Some? {
      var ts := Tokens(CString(e.deviceId.value));
      LastMatchIsLast(ts, VidPrefix);
      LastMatchIsLast(ts, PidPrefix);
      LastMatchIsLast(ts, MiPrefix);
    }
  }

  /** The list after the entries `es`, or None once an allocation failed. */
  function Scan(es: seq<Entry>, plat: Platform, sizes: FieldSizes): Option<seq<DeviceRecord>> {
    if es == [] then Some([])
    else
      var e := es[|es| - 1];
      match Scan(es[..|es| - 1], plat, sizes)
      case None => None
      case Some(rs) =>
        if e.hasDriver then Some(rs)
        else if e.allocFails then None
        else Some(rs + [RecordFor(e, plat, sizes)])
  }

  /** The whole operation: no enumeration handle gives NULL as well. */
  function ListDriverlessSpec(enumeration: Option<seq<Entry>>, plat: Platform, sizes: FieldSizes): Option<seq<DeviceRecord>> {
    match enumeration
    case None => None
    case Some(es) => Scan(es, plat, sizes)
  }

  /** An independent reading of the scan: keep the driverless entries. */
  function DriverlessEntries(es: seq<Entry>): seq<Entry> {
    if es == [] then []
    else DriverlessEntries(es[..|es| - 1]) + (if es[|es| - 1].hasDriver then [] else [es[|es| - 1]])
  }

  predicate AllocationFails(es: seq<Entry>) {
    exists i :: 0 <= i < |es| && !es[i].hasDriver && es[i].allocFails
  }

  function RecordsOf(fs: seq<Entry>, plat: Platform, sizes: FieldSizes): (rs: seq<DeviceRecord>)
    ensures |rs| == |fs| && forall k :: 0 <= k < |fs| ==> rs[k] == RecordFor(fs[k], plat, sizes)
  {
    seq(|fs|, k requires 0 <= k < |fs| => RecordFor(fs[k], plat, sizes))
  }

  /** The scan keeps exactly the driverless entries, in enumeration order,
      one record each, unless some driverless entry's allocation fails, in
      which case nothing is returned at all. */
  lemma {:induction false} ScanIsFilterMap(es: seq<Entry>, plat: Platform, sizes: FieldSizes)
    ensures Scan(es, plat, sizes) ==
              if AllocationFails(es) then None else Some(RecordsOf(DriverlessEntries(es), plat, sizes))
  {
    if es != [] {
      var init, e := es[..|es| - 1], es[|es| - 1];
      ScanIsFilterMap(init, plat, sizes);
      assert AllocationFails(es) <==> AllocationFails(init) || (!e.hasDriver && e.allocFails) by {
        if AllocationFails(init) {
          var i :| 0 <= i < |init| && !init[i].hasDriver && init[i].allocFails;
          assert es[i] == init[i];
        }
        if AllocationFails(es) {
          var i :| 0 <= i < |es| && !es[i].hasDriver && es[i].allocFails;
          if i < |init| { assert init[i] == es[i]; }
        }
      }
      var fs := DriverlessEntries(init);
      if e.hasDriver {
        assert DriverlessEntries(es) == fs + [];
        assert fs + [] == fs;
      } else if !AllocationFails(es) {
        assert DriverlessEntries(es) == fs + [e];
        assert RecordsOf(fs + [e], plat, sizes) == RecordsOf(fs, plat, sizes) + [RecordFor(e, plat, sizes)];
      }
    }
  }

  /** Once an allocation has failed, later entries change nothing. */
  lemma {:induction false} ScanFailureSticks(a: seq<Entry>, b: seq<Entry>, plat: Platform, sizes: FieldSizes)
    requires Scan(a, plat, sizes).None?
    ensures Scan(a + b, plat, sizes).None?
  {
    if b == [] {
      assert a + b == a;
    } else {
      assert (a + b)[..|a + b| - 1] == a + b[..|b| - 1];
      ScanFailureSticks(a, b[..|b| - 1], plat, sizes);
    }
  }

  /** Three driverless devices, as the code behaves: the identity
      lookup failing for the second device leaves a record with no device
      id in the middle of the list, so three records come back. */
  lemma FailedLookupKeepsNode(e0: Entry, e1: Entry, e2: Entry, plat: Platform, sizes: FieldSizes)
    requires !e0.hasDriver && !e1.hasDriver && !e2.hasDriver
    requires !e0.allocFails && !e1.allocFails && !e2.allocFails
    requires e0.deviceId.Some? && e1.deviceId.None? && e2.deviceId.Some?
    ensures Scan([e0, e1, e2], plat, sizes) ==
              Some([RecordFor(e0, plat, sizes), ZeroRecord, RecordFor(e2, plat, sizes)])
  {
    assert [e0, e1, e2][..2] == [e0, e1];
    assert [e0, e1][..1] == [e0];
    assert [e0][..0] == [];
    var r0, r2 := RecordFor(e0, plat, sizes), RecordFor(e2, plat, sizes);
    assert Scan([], plat, sizes) == Some([]);
    assert Scan([e0], plat, sizes) == Some([] + [r0]);
    assert [] + [r0] == [r0];
    assert Scan([e0, e1], plat, sizes) == Some([r0] + [ZeroRecord]);
    assert [r0] + [ZeroRecord] == [r0, ZeroRecord];
    assert Scan([e0, e1, e2], plat, sizes) == Some([r0, ZeroRecord] + [r2]);
    assert [r0, ZeroRecord] + [r2] == [r0, ZeroRecord, r2];
  }

  /** One `driver_info` node of the C list. */
  class DriverInfo {
    var next: DriverInfo?
    var deviceId: Option<string>
    var desc: Option<string>
    var vid: string
    var pid: string
    var mi: string

    /** `calloc`: every field is zero. */
    constructor ()
      ensures next == null && Value() == ZeroRecord
    {
      next := null;
      deviceId, desc := None, None;
      vid, pid, mi := "", "", "";
    }

    function Value(): DeviceRecord
      reads this`deviceId, this`desc, this`vid, this`pid, this`mi
    {
      DeviceRecord(deviceId, desc, vid, pid, mi)
    }
  }

  /** The C allocator, seen through the set of records it holds live. */
  class Heap {
    var live: set<DriverInfo>

    constructor ()
      ensures live == {}
    {
      live := {};
    }

    method Calloc() returns (n: DriverInfo)
      modifies this
      ensures fresh(n) && n.next == null && n.Value() == ZeroRecord
      ensures live == old(live) + {n}
    {
      n := new DriverInfo();
      live := live + {n};
    }

    method Free(n: DriverInfo)
      requires n in live
      modifies this
      ensures live == old(live) - {n}
    {
      live := live - {n};
    }
  }

  ghost function Elems(nodes: seq<DriverInfo>): set<DriverInfo> {
    set n | n in nodes
  }

  /** `head` starts a NULL-terminated chain through `next` that visits
      exactly `nodes`, each once. */
  ghost predicate IsChain(head: DriverInfo?, nodes: seq<DriverInfo>)
    reads nodes`next
  {
    && (head == null <==> nodes == [])
    && (nodes != [] ==> head == nodes[0] && nodes[|nodes| - 1].next == null)
    && (forall i :: 0 <= i < |nodes| - 1 ==> nodes[i].next == nodes[i + 1])
    && (forall i, j :: 0 <= i < j < |nodes| ==> nodes[i] != nodes[j])
  }

  /** The nodes hold the records `rs`, in order. */
  ghost predicate Holds(nodes: seq<DriverInfo>, rs: seq<DeviceRecord>)
    reads nodes`deviceId, nodes`desc, nodes`vid, nodes`pid, nodes`mi
  {
    |nodes| == |rs| && forall i :: 0 <= i < |nodes| ==> nodes[i].Value() == rs[i]
  }

  /** `free_di`: walks the chain from `start` and frees every node on it,
      and nothing else. */
  method FreeList(heap: Heap, start: DriverInfo?, ghost nodes: seq<DriverInfo>)
    requires IsChain(start, nodes) && Elems(nodes) <= heap.live
    modifies heap
    ensures heap.live == old(heap.live) - Elems(nodes)
  {
    var cur := start;
    ghost var i := 0;
    while cur != null
      invariant 0 <= i <= |nodes|
      invariant cur == if i < |nodes| then nodes[i] else null
      invariant heap.live == old(heap.live) - Elems(nodes[..i])
      decreases |nodes| - i
    {
      var tmp := cur;
      cur := cur.next;
      assert tmp !in Elems(nodes[..i]);
      heap.Free(tmp);
      assert Elems(nodes[..i + 1]) == Elems(nodes[..i]) + {tmp};
      i := i + 1;
    }
    assert nodes[..i] == nodes;
  }

  /** The allocation and linking step of the scan loop: a zero-filled node
      from `calloc` becomes the head of an empty list or the successor of
      the current tail. */
  method Append(heap: Heap, ret: DriverInfo?, cur: DriverInfo?, ghost nodes: seq<DriverInfo>, ghost rs: seq<DeviceRecord>)
    returns (ret': DriverInfo, node: DriverInfo)
    requires IsChain(ret, nodes) && Holds(nodes, rs)
    requires cur == if nodes == [] then null else nodes[|nodes| - 1]
    modifies heap, if cur == null then {} else {cur}
    ensures fresh(node) && node.Value() == ZeroRecord && heap.live == old(heap.live) + {node}
    ensures IsChain(ret', nodes + [node]) && Holds(nodes, rs)
  {
    node := heap.Calloc();
    if cur == null {
      ret' := node;
    } else {
      cur.next := node;
      ret' := ret;
    }
  }

  /** The body of the scan loop after the node is linked in: on a failed
      identity lookup the zero-filled node is left as it is; otherwise the
      id, the description and the tokenised fields are stored. */
  method FillRecord(node: DriverInfo, e: Entry, plat: Platform, sizes: FieldSizes)
    requires node.Value() == ZeroRecord
    modifies node`deviceId, node`desc, node`vid, node`pid, node`mi
    ensures node.Value() == RecordFor(e, plat, sizes)
  {
    match e.deviceId {
      case None =>
      case Some(raw) =>
        var path := CString(raw);
        node.deviceId := Some(path);
        node.desc := Some(Description(e, plat));
        var vid, pid, mi := ParseIdentity(path, sizes);
        node.vid, node.pid, node.mi := vid, pid, mi;
    }
  }

  /** The scan after one more entry, seen from the scan before it. */
  lemma ScanStep(es: seq<Entry>, i: nat, plat: Platform, sizes: FieldSizes)
    requires i < |es| && Scan(es[..i], plat, sizes).Some?
    ensures Scan(es[..i + 1], plat, sizes) ==
              if es[i].hasDriver then Scan(es[..i], plat, sizes)
              else if es[i].allocFails then None
              else Some(Scan(es[..i], plat, sizes).value + [RecordFor(es[i], plat, sizes)])
  {
    assert es[..i + 1][..i] == es[..i];
  }

  /** One driverless device without an allocation failure: a node is
      linked in at the tail and then filled from the entry. */
  method AddRecord(heap: Heap, ret: DriverInfo?, cur: DriverInfo?, ghost nodes: seq<DriverInfo>, ghost rs: seq<DeviceRecord>,
                   e: Entry, plat: Platform, sizes: FieldSizes)
    returns (ret': DriverInfo, node: DriverInfo)
    requires IsChain(ret, nodes) && Holds(nodes, rs)
    requires cur == if nodes == [] then null else nodes[|nodes| - 1]
    modifies heap, if cur == null then {} else {cur}
    ensures fresh(node) && heap.live == old(heap.live) + {node}
    ensures IsChain(ret', nodes + [node]) && Holds(nodes + [node], rs + [RecordFor(e, plat, sizes)])
  {
    ret', node := Append(heap, ret, cur, nodes, rs);
    FillRecord(node, e, plat, sizes);
  }

  /** `list_driverless`. `enumeration` is None when SetupDiGetClassDevs
      gives no handle. The result is the head of a fresh chain holding the
      specified records; NULL, with every node built so far freed, when an
      allocation fails. */
  method ListDriverless(heap: Heap, enumeration: Option<seq<Entry>>, plat: Platform, sizes: FieldSizes)
    returns (ret: DriverInfo?, ghost nodes: seq<DriverInfo>)
    modifies heap
    ensures ListDriverlessSpec(enumeration, plat, sizes).None? ==> ret == null && heap.live == old(heap.live)
    ensures ListDriverlessSpec(enumeration, plat, sizes).Some? ==>
              && IsChain(ret, nodes)
              && Holds(nodes, ListDriverlessSpec(enumeration, plat, sizes).value)
              && (forall n :: n in nodes ==> fresh(n))
              && heap.live == old(heap.live) + Elems(nodes)
  {
    nodes := [];
    if enumeration.None? {
      return null, nodes;
    }
    var es := enumeration.value;
    ret := null;
    var cur: DriverInfo? := null;
    var i := 0;
    while i < |es|
      invariant 0 <= i <= |es|
      invariant Scan(es[..i], plat, sizes).Some?
      invariant IsChain(ret, nodes) && Holds(nodes, Scan(es[..i], plat, sizes).value)
      invariant cur == if nodes == [] then null else nodes[|nodes| - 1]
      invariant forall n :: n in nodes ==> fresh(n)
      invariant heap.live == old(heap.live) + Elems(nodes)
    {
      var e := es[i];
      ScanStep(es, i, plat, sizes);
      if e.hasDriver {
        i := i + 1;
        continue;
      }
      if e.allocFails {
        FreeList(heap, ret, nodes);
        assert Elems(nodes) !! old(heap.live);
        assert es == es[..i + 1] + es[i + 1..];
        ScanFailureSticks(es[..i + 1], es[i + 1..], plat, sizes);
        return null, [];
      }
      if cur != null { assert cur in nodes; }
      var node;
      ret, node := AddRecord(heap, ret, cur, nodes, Scan(es[..i], plat, sizes).value, e, plat, sizes);
      cur := node;
      nodes := nodes + [node];
      i := i + 1;
    }
    assert es[..i] == es;
  }
}
