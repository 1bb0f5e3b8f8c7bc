/**
 * The receiver application (main/beaconApp.c): the GAP callback `esp_gap_cb` with its static
 * scan-cycle counter `packetGroup` and its 20-slot list of heard beacon ids, which decodes,
 * deduplicates and enqueues each beacon sighting, and one pass of the `vBeaconRXTask` loop.
 *
 * `OnResult` and `Scanner.OnGapEvent` refuse a new id once the list is full and drop an
 * advertisement whose decode fails; `OnResultAsWritten` is the callback as the source has it.
 */
module BeaconApp {
  import opened Wrappers
  import opened BeaconBle
  import opened Queues
  import opened WiFi
  import opened Http
  import opened DatabaseApp

  /** DEVICEID */
  const DeviceId: int8 := 1

  /** BEACON_LIST_SIZE */
  const BeaconListSize := 20

  /** ESP_BT_STATUS_SUCCESS */
  const BtStatusSuccess := 0

  /** The GAP events the callback receives; a result's rssi is the stack's `int`. */
  datatype SearchEvt = InquiryResult | OtherSearchEvt(code: int)
  datatype GapEvent =
    | ScanParamSetComplete
    | ScanStartComplete(status: int)
    | ScanResult(searchEvt: SearchEvt, adv: seq<byte>, rssi: int32)
    | ScanStopComplete(status: int)
    | OtherGapEvent(code: int)

  /** The callback's static state and the contents of the queue it feeds. */
  datatype ScanState = ScanState(packetGroup: uint32, heard: seq<int>, queue: seq<Sighting>)

  predicate Distinct(xs: seq<int>)
  {
    forall i, j :: 0 <= i < j < |xs| ==> xs[i] != xs[j]
  }

  /** The list never exceeds its 20 slots and holds each id once; the queue stays within 10. */
  predicate Inv(s: ScanState)
  {
    |s.heard| <= BeaconListSize && Distinct(s.heard) && |s.queue| <= BeaconQueueLen
  }

  /** The record a decoded beacon becomes: its sections, the rssi, the cycle and device ids. */
  function NewRecord(f: Fields, rssi: int8, packetGroup: uint32): Sighting
  {
    Sighting(f.msd, f.uuid, f.txPower, rssi, ToInt32(packetGroup), DeviceId)
  }

  /** xQueueSend with timeout 0 on a queue of BEACON_QUEUE_LEN items. */
  function Enqueue(q: seq<Sighting>, r: Sighting): seq<Sighting>
  {
    if |q| < BeaconQueueLen then q + [r] else q
  }

  /** A scan result: a decodable beacon whose last UUID byte is new, and the list has room. */
  function OnResult(s: ScanState, adv: seq<byte>, rssi: int8): ScanState
  {
    if !IsBeacon(adv) then s
    else match DecodeFields(adv)
      case None => s
      case Some(f) =>
        var id := f.uuid[3];
        if id in s.heard || |s.heard| >= BeaconListSize then s
        else s.(heard := s.heard + [id], queue := Enqueue(s.queue, NewRecord(f, rssi, s.packetGroup)))
  }

  /** The state after `esp_gap_cb` handles one event. */
  function Step(s: ScanState, e: GapEvent): ScanState
  {
    match e
    case ScanStartComplete(status) =>
      if status != BtStatusSuccess then s
      else s.(packetGroup := (s.packetGroup + 1) % 0x1_0000_0000, heard := [])
    case ScanResult(evt, adv, rssi) =>
      if evt == InquiryResult then OnResult(s, adv, ToInt8(rssi)) else s
    case _ => s
  }

  /** The state after a run of events, handled one at a time. */
  function Run(s: ScanState, es: seq<GapEvent>): ScanState
    decreases |es|
  {
    if es == [] then s else Run(Step(s, es[0]), es[1..])
  }

  lemma {:induction false} RunSnoc(s: ScanState, es: seq<GapEvent>, e: GapEvent)
    ensures Run(s, es + [e]) == Step(Run(s, es), e)
    decreases |es|
  {
    if es != [] {
      assert (es + [e])[1..] == es[1..] + [e];
      RunSnoc(Step(s, es[0]), es[1..], e);
    }
  }

  /**
   * What one scan result does: nothing at all, or (for a decodable beacon whose last UUID byte is
   * not yet heard, with room in the list) append that byte to the list and try to enqueue the
   * decoded record, stamped with the current cycle and device id.
   */
  lemma OnResultCases(s: ScanState, adv: seq<byte>, rssi: int8)
    ensures var t := OnResult(s, adv, rssi);
      t == s ||
      (&& IsBeacon(adv) && DecodeFields(adv).Some?
       && var f := DecodeFields(adv).value;
          && f.uuid[3] !in s.heard && |s.heard| < BeaconListSize
          && t == s.(heard := s.heard + [f.uuid[3]], queue := Enqueue(s.queue, NewRecord(f, rssi, s.packetGroup))))
    ensures !IsBeacon(adv) || DecodeFields(adv).None? ==> OnResult(s, adv, rssi) == s
    ensures DecodeFields(adv).Some? && DecodeFields(adv).value.uuid[3] in s.heard ==> OnResult(s, adv, rssi) == s
  {
  }

  /** A successful scan start advances the cycle by one and empties the list; a failed one does nothing. */
  lemma ScanStart(s: ScanState, status: int)
    ensures status == BtStatusSuccess ==>
      Step(s, ScanStartComplete(status)) == ScanState((s.packetGroup + 1) % 0x1_0000_0000, [], s.queue)
    ensures status != BtStatusSuccess ==> Step(s, ScanStartComplete(status)) == s
  {
  }

  /**
   * Parameter-set and scan-stop events, other GAP events, and scan results that are not inquiry
   * results change nothing.
   */
  lemma OtherEventsIgnored(s: ScanState, e: GapEvent)
    requires !e.ScanStartComplete? && !(e.ScanResult? && e.searchEvt == InquiryResult)
    ensures Step(s, e) == s
  {
  }

  /** A new id whose record meets a full queue stays heard for the rest of the cycle. */
  lemma FullQueueDrops(s: ScanState, adv: seq<byte>, rssi: int8)
    requires |s.queue| == BeaconQueueLen && |s.heard| < BeaconListSize
    requires IsBeacon(adv) && DecodeFields(adv).Some? && DecodeFields(adv).value.uuid[3] !in s.heard
    ensures OnResult(s, adv, rssi).queue == s.queue
    ensures OnResult(s, adv, rssi).heard == s.heard + [DecodeFields(adv).value.uuid[3]]
  {
  }

  lemma StepInv(s: ScanState, e: GapEvent)
    requires Inv(s)
    ensures Inv(Step(s, e))
  {
    if e.ScanResult? && e.searchEvt == InquiryResult {
      OnResultCases(s, e.adv, ToInt8(e.rssi));
    }
  }

  /** From any state meeting the invariant, every run of events keeps it. */
  lemma {:induction false} RunInv(s: ScanState, es: seq<GapEvent>)
    requires Inv(s)
    ensures Inv(Run(s, es))
    decreases |es|
  {
    if es != [] {
      StepInv(s, es[0]);
      RunInv(Step(s, es[0]), es[1..]);
    }
  }

  /** Handling the same scan result twice is the same as handling it once. */
  lemma ResultIdempotent(s: ScanState, e: GapEvent)
    requires e.ScanResult?
    ensures Step(Step(s, e), e) == Step(s, e)
  {
    if e.searchEvt == InquiryResult {
      OnResultCases(s, e.adv, ToInt8(e.rssi));
      OnResultCases(Step(s, e), e.adv, ToInt8(e.rssi));
    }
  }

  /** Three advertisements from one beacon in one cycle yield one sighting. */
  lemma ThreeAdvertsOneSighting(s: ScanState, e: GapEvent)
    requires e.ScanResult?
    ensures Run(s, [e, e, e]) == Step(s, e)
  {
    ResultIdempotent(s, e);
    ResultIdempotent(Step(s, e), e);
    assert [e, e, e][1..] == [e, e] && [e, e][1..] == [e] && [e][1..] == [];
    assert Run(s, [e, e, e]) == Run(Step(s, e), [e, e]) == Run(Step(Step(s, e), e), [e]);
  }

  /**
   * The records queued since the cycle began (from index `base` on) carry this cycle's id, have
   * last UUID bytes that are in the list, and no two share that byte.
   */
  predicate CycleInv(s: ScanState, base: nat)
  {
    && base <= |s.queue|
    && (forall i :: base <= i < |s.queue| ==>
          s.queue[i].uuid[3] in s.heard && s.queue[i].packetGroup == ToInt32(s.packetGroup))
    && (forall i, j :: base <= i < j < |s.queue| ==> s.queue[i].uuid[3] != s.queue[j].uuid[3])
  }

  lemma ResultKeepsCycle(s: ScanState, e: GapEvent, base: nat)
    requires CycleInv(s, base) && !e.ScanStartComplete?
    ensures CycleInv(Step(s, e), base)
    ensures |s.queue| <= |Step(s, e).queue| && Step(s, e).queue[..|s.queue|] == s.queue
  {
    if e.ScanResult? && e.searchEvt == InquiryResult {
      OnResultCases(s, e.adv, ToInt8(e.rssi));
    }
  }

  lemma {:induction false} ResultsKeepCycle(s: ScanState, es: seq<GapEvent>, base: nat)
    requires CycleInv(s, base)
    requires forall k :: 0 <= k < |es| ==> !es[k].ScanStartComplete?
    ensures CycleInv(Run(s, es), base)
    ensures |s.queue| <= |Run(s, es).queue| && Run(s, es).queue[..|s.queue|] == s.queue
    decreases |es|
  {
    if es != [] {
      ResultKeepsCycle(s, es[0], base);
      var s' := Step(s, es[0]);
      ResultsKeepCycle(s', es[1..], base);
      assert Run(s, es).queue[..|s'.queue|][..|s.queue|] == Run(s, es).queue[..|s.queue|];
    }
  }

  /**
   * Within one cycle (a successful scan start followed by anything but another start), the
   * records enqueued keep everything queued before, and at most one is queued per distinct last
   * UUID byte, each stamped with the new cycle's id.
   */
  lemma AtMostOncePerCycle(s: ScanState, es: seq<GapEvent>)
    requires forall k :: 0 <= k < |es| ==> !es[k].ScanStartComplete?
    ensures var t := Run(Step(s, ScanStartComplete(BtStatusSuccess)), es);
      && |s.queue| <= |t.queue| && t.queue[..|s.queue|] == s.queue
      && (forall i, j :: |s.queue| <= i < j < |t.queue| ==> t.queue[i].uuid[3] != t.queue[j].uuid[3])
      && (forall i :: |s.queue| <= i < |t.queue| ==>
            t.queue[i].packetGroup == ToInt32((s.packetGroup + 1) % 0x1_0000_0000))
  {
    var s0 := Step(s, ScanStartComplete(BtStatusSuccess));
    assert CycleInv(s0, |s.queue|);
    ResultsKeepCycle(s0, es, |s.queue|);
    assert Run(s0, es).packetGroup == s0.packetGroup by {
      ResultsKeepPacketGroup(s0, es);
    }
  }

  lemma {:induction false} ResultsKeepPacketGroup(s: ScanState, es: seq<GapEvent>)
    requires forall k :: 0 <= k < |es| ==> !es[k].ScanStartComplete?
    ensures Run(s, es).packetGroup == s.packetGroup
    decreases |es|
  {
    if es != [] {
      ResultsKeepPacketGroup(Step(s, es[0]), es[1..]);
    }
  }

  /** A block content for events that allocate nothing. */
  const Zeroed := Sighting([0, 0, 0, 0], [0, 0, 0, 0], 0, 0, 0, 0)

  /** A scan result that decodes to a beacon. */
  predicate Decodable(e: GapEvent)
  {
    e.ScanResult? && e.searchEvt == InquiryResult && IsBeacon(e.adv) && DecodeFields(e.adv).Some?
  }

  /** The last UUID bytes of a run of decodable results. */
  function IdsOf(es: seq<GapEvent>): (ids: seq<int>)
    requires forall k :: 0 <= k < |es| ==> Decodable(es[k])
    ensures |ids| == |es|
  {
    if es == [] then []
    else
      assert Decodable(es[0]);
      [DecodeFields(es[0].adv).value.uuid[3]] + IdsOf(es[1..])
  }

  /** The records a run of decodable results becomes in cycle `packetGroup`. */
  function RecordsOf(es: seq<GapEvent>, packetGroup: uint32): (rs: seq<Sighting>)
    requires forall k :: 0 <= k < |es| ==> Decodable(es[k])
    ensures |rs| == |es|
  {
    if es == [] then []
    else
      assert Decodable(es[0]);
      [NewRecord(DecodeFields(es[0].adv).value, ToInt8(es[0].rssi), packetGroup)] + RecordsOf(es[1..], packetGroup)
  }

  function Min(a: int, b: int): int { if a <= b then a else b }

  /**
   * Distinct new beacons fill the queue in arrival order up to its 10 items and the rest are
   * dropped; every one of them is recorded in the list. (Twelve distinct beacons on an empty
   * queue: the first ten are queued and two dropped.)
   */
  lemma {:induction false} FreshBeaconsFill(s: ScanState, es: seq<GapEvent>)
    requires forall k :: 0 <= k < |es| ==> Decodable(es[k])
    requires Distinct(s.heard + IdsOf(es)) && |s.heard| + |es| <= BeaconListSize
    requires |s.queue| <= BeaconQueueLen
    ensures Run(s, es).heard == s.heard + IdsOf(es)
    ensures Run(s, es).queue == (s.queue + RecordsOf(es, s.packetGroup))[..Min(|s.queue| + |es|, BeaconQueueLen)]
    decreases |es|
  {
    if es == [] {
      assert s.queue + [] == s.queue;
    } else {
      var e := es[0];
      assert Decodable(e);
      var id := DecodeFields(e.adv).value.uuid[3];
      var r := NewRecord(DecodeFields(e.adv).value, ToInt8(e.rssi), s.packetGroup);
      assert IdsOf(es) == [id] + IdsOf(es[1..]);
      assert RecordsOf(es, s.packetGroup) == [r] + RecordsOf(es[1..], s.packetGroup);
      FirstIdFresh(s.heard, id, IdsOf(es[1..]));
      FreshStep(s, e);
      var s' := Step(s, e);
      FreshBeaconsFill(s', es[1..]);
      EnqueueThenTake(s.queue, r, RecordsOf(es[1..], s.packetGroup));
    }
  }

  lemma FirstIdFresh(heard: seq<int>, id: int, rest: seq<int>)
    requires Distinct(heard + ([id] + rest))
    ensures id !in heard && Distinct((heard + [id]) + rest)
  {
    assert (heard + [id]) + rest == heard + ([id] + rest);
    assert (heard + ([id] + rest))[|heard|] == id;
    assert forall k :: 0 <= k < |heard| ==> (heard + ([id] + rest))[k] == heard[k];
  }

  lemma FreshStep(s: ScanState, e: GapEvent)
    requires Decodable(e)
    requires DecodeFields(e.adv).value.uuid[3] !in s.heard && |s.heard| < BeaconListSize
    ensures Step(s, e) == s.(heard := s.heard + [DecodeFields(e.adv).value.uuid[3]],
                             queue := Enqueue(s.queue, NewRecord(DecodeFields(e.adv).value, ToInt8(e.rssi), s.packetGroup)))
  {
  }

  lemma EnqueueThenTake(q: seq<Sighting>, r: Sighting, rest: seq<Sighting>)
    requires |q| <= BeaconQueueLen
    ensures (Enqueue(q, r) + rest)[..Min(|Enqueue(q, r)| + |rest|, BeaconQueueLen)]
         == (q + ([r] + rest))[..Min(|q| + 1 + |rest|, BeaconQueueLen)]
  {
    if |q| < BeaconQueueLen {
      assert Enqueue(q, r) + rest == q + ([r] + rest);
    } else {
      assert (q + rest)[..BeaconQueueLen] == q;
      assert (q + ([r] + rest))[..BeaconQueueLen] == q;
    }
  }

  /**
   * The callback as the source has it: the record is decoded into the uninitialised block
   * `block` and the decode status is ignored, and a new id is appended to the list without
   * checking that a slot is left.
   */
  function OnResultAsWritten(s: ScanState, adv: seq<byte>, rssi: int8, block: Sighting): ScanState
  {
    if !IsBeacon(adv) then s
    else
      var rd := DecodeInto(adv, block).(rssi := rssi, packetGroup := ToInt32(s.packetGroup), deviceId := DeviceId);
      var id := rd.uuid[3];
      if id in s.heard then s
      else s.(heard := s.heard + [id], queue := Enqueue(s.queue, rd))
  }

  /**
   * As written, a 21st distinct beacon in one cycle is appended at index 20 of the 20-slot list,
   * outside the array; the corrected callback refuses it and keeps the list within bounds.
   */
  lemma AsWrittenOverflowsList(s: ScanState, adv: seq<byte>, rssi: int8, block: Sighting)
    requires |s.heard| == BeaconListSize
    requires IsBeacon(adv) && DecodeFields(adv).Some? && DecodeFields(adv).value.uuid[3] !in s.heard
    ensures |OnResultAsWritten(s, adv, rssi, block).heard| == BeaconListSize + 1
    ensures OnResult(s, adv, rssi) == s
  {
    DecodeIntoSpec(adv, block);
  }

  /**
   * As written, a beacon advertisement without a service-data section is still queued, with the
   * UUID and TX power the uninitialised block happened to hold; the corrected callback drops it.
   */
  lemma AsWrittenEnqueuesUndecoded(s: ScanState, txPower: byte, rssi: int8, block: Sighting)
    requires block.uuid[3] !in s.heard && |s.queue| < BeaconQueueLen
    ensures var adv := NoUuidAdv(txPower);
      && OnResultAsWritten(s, adv, rssi, block).queue ==
           s.queue + [block.(msd := Tag, rssi := rssi, packetGroup := ToInt32(s.packetGroup), deviceId := DeviceId)]
      && OnResult(s, adv, rssi) == s
  {
    NoUuidAdvFailsDecode(txPower);
    BeaconPassesMsdStep(NoUuidAdv(txPower));
  }

  /**
   * The corrected callback queues only records whose sections came from the advertisement:
   * anything it adds to the queue is the decoded record of the payload it was given.
   */
  lemma EnqueuedRecordsDecoded(s: ScanState, adv: seq<byte>, rssi: int8)
    requires OnResult(s, adv, rssi).queue != s.queue
    ensures DecodeFields(adv).Some?
    ensures OnResult(s, adv, rssi).queue == s.queue + [NewRecord(DecodeFields(adv).value, rssi, s.packetGroup)]
  {
    OnResultCases(s, adv, rssi);
  }

  /** `struct list_s`: the fixed array of heard ids and the count in use. */
  class HeardList {
    const list: array<uint32>
    var size: nat

    ghost predicate Valid()
      reads this
    {
      list.Length == BeaconListSize && size <= list.Length
    }

    function Ids(): seq<int>
      reads this, list
      requires Valid()
    {
      list[..size]
    }

    /** A static `struct list_s` starts zeroed. */
    constructor ()
      ensures Valid() && Ids() == [] && fresh(list)
    {
      list := new uint32[BeaconListSize](_ => 0);
      size := 0;
    }

    /** `heardBeacons = (const struct list_s){ 0 }` */
    method Reset()
      requires Valid()
      modifies this, list
      ensures Valid() && Ids() == []
      ensures forall k :: 0 <= k < list.Length ==> list[k] == 0
    {
      forall k | 0 <= k < list.Length {
        list[k] := 0;
      }
      size := 0;
    }

    /** isInList: 1 (true) exactly when one of the first `size` entries equals `id`. */
    method Contains(id: byte) returns (found: bool)
      requires Valid()
      ensures found <==> exists k :: 0 <= k < size && list[k] == id
      ensures found <==> id in Ids()
    {
      var i := 0;
      while i < size
        invariant 0 <= i <= size
        invariant forall k :: 0 <= k < i ==> list[k] != id
      {
        if id == list[i] {
          return true;
        }
        i := i + 1;
      }
      return false;
    }

    /** `list[size++] = id`, for a list with a free slot. */
    method Append(id: byte)
      requires Valid() && size < list.Length
      modifies this, list
      ensures Valid() && Ids() == old(Ids()) + [id]
    {
      list[size] := id;
      size := size + 1;
    }
  }

  /** The static state of `esp_gap_cb` and the queue it sends to. */
  class Scanner {
    var packetGroup: uint32
    const heard: HeardList
    const queue: SightingQueue

    ghost predicate Valid()
      reads this, heard, queue
    {
      heard.Valid() && queue.Valid() && queue.capacity == BeaconQueueLen
    }

    ghost function State(): ScanState
      reads this, heard, heard.list, queue
      requires Valid()
    {
      ScanState(packetGroup, heard.Ids(), queue.items)
    }

    constructor (queue: SightingQueue)
      requires queue.Valid() && queue.capacity == BeaconQueueLen
      ensures Valid() && State() == ScanState(0, [], queue.items)
      ensures this.queue == queue && fresh(heard) && fresh(heard.list)
    {
      packetGroup := 0;
      heard := new HeardList();
      this.queue := queue;
    }

    /**
     * esp_gap_cb, for one event. A scan result is decoded into a freshly allocated block whose
     * prior contents are `garbage`; the corrected callback never lets them reach the queue.
     */
    method OnGapEvent(e: GapEvent, garbage: Sighting)
      requires Valid()
      modifies this, heard, heard.list, queue
      ensures Valid() && State() == Step(old(State()), e)
    {
      if e.ScanStartComplete? {
        if e.status == BtStatusSuccess {
          packetGroup := (packetGroup + 1) % 0x1_0000_0000;
          heard.Reset();
        }
      } else if e.ScanResult? && e.searchEvt == InquiryResult {
        OnInquiryResult(e.adv, ToInt8(e.rssi), garbage);
      }
    }

    /** The ESP_GAP_SEARCH_INQ_RES_EVT branch of the callback. */
    method OnInquiryResult(adv: seq<byte>, rssi: int8, garbage: Sighting)
      requires Valid()
      modifies this, heard, heard.list, queue
      ensures Valid() && State() == OnResult(old(State()), adv, rssi)
    {
      if IsBeacon(adv) {
        var rd := new Received.Alloc(garbage);
        var status := rd.Decode(adv);
        if status == EspOk {
          rd.rssi := rssi;
          rd.packetGroup := ToInt32(packetGroup);
          rd.deviceId := DeviceId;
          var id := rd.uuid[3];
          var known := heard.Contains(id);
          if !known && heard.size < BeaconListSize {
            heard.Append(id);
            var sent := queue.TrySend(rd.Value());
          }
        }
      }
    }
  }

  /**
   * One pass of the `vBeaconRXTask` loop. The task goes on only once Wi-Fi is connected; it then
   * starts a scan, the Bluetooth stack delivers the window's callbacks (start complete, the
   * results, stop complete) one at a time, and after the scan stops `databaseContact` drains the
   * queue. `blocks[k]` is what the block allocated for the k-th result held. If Wi-Fi is not
   * connected the task stays in the wait and nothing happens.
   */
  method RxCycle(wifi: WiFiStation, scanner: Scanner, startStatus: int, window: seq<GapEvent>,
                 stopStatus: int, blocks: seq<Sighting>, replies: seq<NetOutcome>)
    returns (scanned: bool, attempts: seq<Attempt>)
    requires scanner.Valid() && |blocks| == |window| && BeaconQueueLen <= |replies|
    modifies scanner, scanner.heard, scanner.heard.list, scanner.queue
    ensures scanner.Valid()
    ensures scanned <==> Connected(wifi.State())
    ensures !scanned ==> attempts == [] && scanner.State() == old(scanner.State())
    ensures scanned ==>
      var t := Run(old(scanner.State()), [ScanStartComplete(startStatus)] + window + [ScanStopComplete(stopStatus)]);
      && scanner.State() == t.(queue := [])
      && |t.queue| <= BeaconQueueLen
      && attempts == MapPairs(Deliver, t.queue, replies)
  {
    scanned := wifi.WaitUntilConnected();
    if !scanned {
      return false, [];
    }
    ghost var s0 := scanner.State();
    scanner.OnGapEvent(ScanStartComplete(startStatus), Zeroed);
    assert [ScanStartComplete(startStatus)][1..] == [];
    for k := 0 to |window|
      invariant scanner.Valid()
      invariant scanner.State() == Run(s0, [ScanStartComplete(startStatus)] + window[..k])
    {
      scanner.OnGapEvent(window[k], blocks[k]);
      RunSnoc(s0, [ScanStartComplete(startStatus)] + window[..k], window[k]);
      assert [ScanStartComplete(startStatus)] + window[..k] + [window[k]] == [ScanStartComplete(startStatus)] + window[..k + 1];
    }
    scanner.OnGapEvent(ScanStopComplete(stopStatus), Zeroed);
    assert window[..|window|] == window;
    RunSnoc(s0, [ScanStartComplete(startStatus)] + window, ScanStopComplete(stopStatus));
    attempts := DatabaseContact(scanner.queue, replies);
  }
}
