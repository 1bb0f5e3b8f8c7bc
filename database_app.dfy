/**
 * The reporter (main/databaseApp.c): each queued sighting becomes the query string
 * `rssi_submit?pkGroup=<g>&uuid=<u>&rssi=<r>&deviceID=<d>` (a path with a query component in the
 * sense of RFC 3986, section 3.4), which is sent with `http_send_request`. `DatabaseContact`
 * empties the queue in FIFO order with one send attempt per sighting.
 */
module DatabaseApp {
  import opened Wrappers
  import opened Text
  import opened BeaconBle
  import opened Http
  import opened Queues

  /** HTTP_SERVER, HTTP_PORT, HTTP_DATABASE and the parameter names */
  const Server := "159.196.72.33"
  const Port := "5000"
  const Database := "rssi_submit"
  const VarPacketGroup := "pkGroup"
  const VarUuid := "uuid"
  const VarRssi := "rssi"
  const VarDeviceId := "deviceID"

  /** HTTP_VAR_BUFF_SIZE, the size of `paramBuff` */
  const ParamBuffSize := 80

  /** The longest path that still fits the request buffer against this server and port. */
  const MaxDeliverablePath := 54

  /** One `%s=%d` parameter. */
  function Param(key: string, x: int): string
  {
    key + "=" + Dec(x)
  }

  /** The query string of `databaseContact`. */
  function FormatQuery(r: Sighting): string
  {
    Database + "?" + Param(VarPacketGroup, r.packetGroup) + "&" + Param(VarUuid, r.uuid[3])
      + "&" + Param(VarRssi, r.rssi) + "&" + Param(VarDeviceId, r.deviceId)
  }

  /** The older three-field query string of `vDatabaseContact`. */
  function FormatQueryV1(r: Sighting): string
  {
    Database + "?" + Param(VarPacketGroup, r.packetGroup) + "&" + Param(VarUuid, r.uuid[3])
      + "&" + Param(VarRssi, r.rssi)
  }

  /** The values a query reports: only the last byte of the 4-byte UUID is sent. */
  datatype QueryFields = QueryFields(pkGroup: int, uuid: int, rssi: int, deviceId: int)

  function Reported(r: Sighting): QueryFields
  {
    QueryFields(r.packetGroup, r.uuid[3], r.rssi, r.deviceId)
  }

  /** Reads one `key=value` parameter with the expected key. */
  function ParseParam(part: string, key: string): Option<int>
  {
    var kv := Split(part, '=');
    if |kv| == 2 && kv[0] == key then ParseDec(kv[1]) else None
  }

  /** Reads a query string back into the values it reports. */
  function ParseQuery(s: string): Option<QueryFields>
  {
    var pq := Split(s, '?');
    if |pq| != 2 || pq[0] != Database then None
    else
      var ps := Split(pq[1], '&');
      if |ps| != 4 then None
      else
        var g, u := ParseParam(ps[0], VarPacketGroup), ParseParam(ps[1], VarUuid);
        var p, d := ParseParam(ps[2], VarRssi), ParseParam(ps[3], VarDeviceId);
        if g.Some? && u.Some? && p.Some? && d.Some? then Some(QueryFields(g.value, u.value, p.value, d.value))
        else None
  }

  lemma DecFree(x: int, c: char)
    requires c == '&' || c == '=' || c == '?'
    ensures c !in Dec(x)
  {
    DecChars(x);
  }

  lemma ParamRoundTrip(key: string, x: int)
    requires '=' !in key
    ensures ParseParam(Param(key, x), key) == Some(x)
  {
    DecFree(x, '=');
    assert Param(key, x) == Join([key, Dec(x)], '=');
    SplitJoin([key, Dec(x)], '=');
    DecRoundTrip(x);
  }

  lemma ParamFree(key: string, x: int, c: char)
    requires c == '&' || c == '?'
    requires c !in key
    ensures c !in Param(key, x)
  {
    DecFree(x, c);
  }

  /** The four parameters, in the order they are printed. */
  function Params(r: Sighting): (parts: seq<string>)
    ensures |parts| == 4
  {
    [Param(VarPacketGroup, r.packetGroup), Param(VarUuid, r.uuid[3]),
     Param(VarRssi, r.rssi), Param(VarDeviceId, r.deviceId)]
  }

  /** The query string is the path, `?`, and the parameters joined with `&`. */
  lemma QueryJoin(r: Sighting)
    ensures FormatQuery(r) == Join([Database, Join(Params(r), '&')], '?')
  {
    var parts := Params(r);
    assert FormatQuery(r) == Database + "?" + (parts[0] + "&" + parts[1] + "&" + parts[2] + "&" + parts[3]);
    Join4(parts[0], parts[1], parts[2], parts[3], '&');
    assert parts == [parts[0], parts[1], parts[2], parts[3]];
    Join2(Database, Join(parts, '&'), '?');
  }

  lemma ParamsFree(r: Sighting, c: char)
    requires c == '&' || c == '?'
    ensures forall i :: 0 <= i < 4 ==> c !in Params(r)[i]
  {
    ParamFree(VarPacketGroup, r.packetGroup, c);
    ParamFree(VarUuid, r.uuid[3], c);
    ParamFree(VarRssi, r.rssi, c);
    ParamFree(VarDeviceId, r.deviceId, c);
  }

  /** Four `&`- and `?`-free parameters joined into a query split back into the same pieces. */
  lemma SplitQuery(parts: seq<string>)
    requires |parts| == 4
    requires forall i :: 0 <= i < 4 ==> '&' !in parts[i] && '?' !in parts[i]
    ensures Split(Join([Database, Join(parts, '&')], '?'), '?') == [Database, Join(parts, '&')]
    ensures Split(Join(parts, '&'), '&') == parts
  {
    SplitJoin(parts, '&');
    SplitFreeJoin(parts, '&', '?');
    SplitJoin([Database, Join(parts, '&')], '?');
  }

  /** The query string is unambiguous: it reads back as exactly the four reported values. */
  lemma QueryRoundTrip(r: Sighting)
    ensures ParseQuery(FormatQuery(r)) == Some(Reported(r))
  {
    QueryJoin(r);
    var parts := Params(r);
    ParamsFree(r, '&');
    ParamsFree(r, '?');
    SplitQuery(parts);
    ParamRoundTrip(VarPacketGroup, r.packetGroup);
    ParamRoundTrip(VarUuid, r.uuid[3]);
    ParamRoundTrip(VarRssi, r.rssi);
    ParamRoundTrip(VarDeviceId, r.deviceId);
  }

  /** The older format has the same first three parameters and no `deviceID`. */
  lemma QueryExtendsV1(r: Sighting)
    ensures FormatQuery(r) == FormatQueryV1(r) + "&" + VarDeviceId + "=" + Dec(r.deviceId)
  {
  }

  /** The query string is at most 64 characters, so it always fits `paramBuff` untruncated. */
  lemma QueryLength(r: Sighting)
    ensures |FormatQuery(r)| <= 64 < ParamBuffSize
  {
    DecLengthSmall(r.packetGroup);
    DecLengthSmall(r.uuid[3]);
    DecLengthSmall(r.rssi);
    DecLengthSmall(r.deviceId);
  }

  /** The overflow test as written after `snprintf` into `paramBuff`. */
  predicate ParamsRejectedAsWritten(n: int)
  {
    n < 0 || n > ParamBuffSize
  }

  /** The overflow test `snprintf`'s contract calls for: a result of size or more was truncated. */
  predicate ParamsRejected(n: int)
  {
    n < 0 || n >= ParamBuffSize
  }

  /** As written, an 80-character text passes the test although only 79 characters were kept. */
  lemma AsWrittenMissesTruncation()
    ensures var text := seq(80, _ => 'a');
            var (n, buf) := Snprintf(text, ParamBuffSize);
            !ParamsRejectedAsWritten(n) && buf != text && |buf| == ParamBuffSize - 1
  {
  }

  /** On every query string the firmware can format, the two tests agree: neither rejects it. */
  lemma AsWrittenCheckAgrees(r: Sighting)
    ensures var (n, _) := Snprintf(FormatQuery(r), ParamBuffSize);
            !ParamsRejectedAsWritten(n) && !ParamsRejected(n)
  {
    QueryLength(r);
  }

  /** With `>=`, a text passes the test exactly when the buffer holds all of it. */
  lemma ParamsRejectedIffTruncated(text: string)
    ensures var (n, buf) := Snprintf(text, ParamBuffSize);
            !ParamsRejected(n) <==> buf == text
  {
  }

  /** What became of one dequeued sighting. */
  datatype Attempt =
    | Dropped(record: Sighting)
    | Tried(record: Sighting, path: string, result: SendResult)

  /** Formats one sighting and, unless the text overflowed, sends it. */
  function Deliver(r: Sighting, net: NetOutcome): Attempt
  {
    var (n, paramBuff) := Snprintf(FormatQuery(r), ParamBuffSize);
    if ParamsRejected(n) then Dropped(r)
    else Tried(r, paramBuff, SendRequest(Server, Port, paramBuff, net))
  }

  /**
   * Every sighting is tried exactly once with its full query string, and it reaches the server
   * exactly when the request fits (a query of at most 54 characters) and the network calls succeed.
   */
  lemma DeliverSpec(r: Sighting, net: NetOutcome)
    ensures Deliver(r, net).Tried? && Deliver(r, net).path == FormatQuery(r)
    ensures Deliver(r, net).result.rc == HttpSent <==>
      |FormatQuery(r)| <= MaxDeliverablePath && net.dnsOk && net.socketOk && net.connectOk && net.writeOk
    ensures Deliver(r, net).result.rc == HttpSent ==>
      Deliver(r, net).result.written == RequestText(Server, Port, FormatQuery(r))
  {
    QueryLength(r);
  }

  /**
   * A sighting from scan cycle 100000 with UUID byte 200 and rssi -67 has a 55-character query,
   * so its request is 100 characters and is refused before any network call.
   */
  lemma LongRecordUndeliverable(r: Sighting, net: NetOutcome)
    requires r.packetGroup == 100000 && r.uuid[3] == 200 && r.rssi == -67 && r.deviceId == 1
    ensures |FormatQuery(r)| == MaxDeliverablePath + 1
    ensures Deliver(r, net) == Tried(r, FormatQuery(r), SendResult(HttpError, false, []))
  {
    assert Dec(100000) == "100000";
    assert Dec(200) == "200";
    assert Dec(-67) == "-67";
    assert Dec(1) == "1";
    QueryLength(r);
  }

  lemma ExampleParams()
    ensures Param(VarPacketGroup, 3) == "pkGroup=3" && Param(VarUuid, 42) == "uuid=42"
    ensures Param(VarRssi, -67) == "rssi=-67" && Param(VarDeviceId, 1) == "deviceID=1"
  {
    assert Dec(3) == "3" && Dec(42) == "42" && Dec(-67) == "-67" && Dec(1) == "1";
  }

  /** The worked example: cycle 3, UUID byte 42, rssi -67, device 1. */
  lemma ExampleQuery(r: Sighting)
    requires r.packetGroup == 3 && r.uuid[3] == 42 && r.rssi == -67 && r.deviceId == 1
    ensures FormatQuery(r) == "rssi_submit?pkGroup=3&uuid=42&rssi=-67&deviceID=1"
  {
    ExampleParams();
    var p1, p2, p3, p4 := Param(VarPacketGroup, r.packetGroup), Param(VarUuid, r.uuid[3]),
      Param(VarRssi, r.rssi), Param(VarDeviceId, r.deviceId);
    assert p1 == "pkGroup=3" && p2 == "uuid=42" && p3 == "rssi=-67" && p4 == "deviceID=1";
    assert FormatQuery(r) == Database + "?" + p1 + "&" + p2 + "&" + p3 + "&" + p4;
    assert Database + "?" + p1 == "rssi_submit?pkGroup=3";
    assert "rssi_submit?pkGroup=3" + "&" + p2 == "rssi_submit?pkGroup=3&uuid=42";
    assert "rssi_submit?pkGroup=3&uuid=42" + "&" + p3 == "rssi_submit?pkGroup=3&uuid=42&rssi=-67";
  }

  /** The body of the drain loop for one sighting: format it, and send it unless it overflowed. */
  method Report(rd: Sighting, net: NetOutcome) returns (attempt: Attempt)
    ensures attempt == Deliver(rd, net)
    ensures attempt.Tried? && attempt.record == rd && attempt.path == FormatQuery(rd)
    ensures attempt.result.rc == HttpSent <==>
      |FormatQuery(rd)| <= MaxDeliverablePath && net.dnsOk && net.socketOk && net.connectOk && net.writeOk
    ensures attempt.result.rc == HttpSent ==> attempt.result.written == RequestText(Server, Port, FormatQuery(rd))
  {
    DeliverSpec(rd, net);
    var (n, paramBuff) := Snprintf(FormatQuery(rd), ParamBuffSize);
    if ParamsRejected(n) {
      attempt := Dropped(rd);
    } else {
      var sent := SendRequest(Server, Port, paramBuff, net);
      attempt := Tried(rd, paramBuff, sent);
    }
  }

  /**
   * databaseContact: while the queue holds messages, takes the oldest, formats it, sends it, and
   * discards it whatever the send returned. When it returns the queue is empty, and the attempts
   * are the queue's former contents in order, one each, each met by the next network outcome.
   */
  method DatabaseContact(q: SightingQueue, replies: seq<NetOutcome>) returns (attempts: seq<Attempt>)
    requires q.Valid() && |q.items| <= |replies|
    modifies q
    ensures q.Valid() && q.items == []
    ensures attempts == MapPairs(Deliver, old(q.items), replies)
  {
    ghost var queued := q.items;
    attempts := [];
    var waiting := q.MessagesWaiting();
    while waiting > 0
      invariant q.Valid()
      invariant waiting == |q.items|
      invariant |attempts| <= |queued| && q.items == queued[|attempts|..]
      invariant attempts == MapPairs(Deliver, queued[..|attempts|], replies)
      decreases waiting
    {
      var k := |attempts|;
      var received := q.TryReceive();
      var rd := received.value;
      assert rd == queued[k] && q.items == queued[k + 1..];
      var attempt := Report(rd, replies[k]);
      MapPairsSnoc(Deliver, queued, replies, k);
      attempts := attempts + [attempt];
      waiting := q.MessagesWaiting();
    }
    assert queued[..|attempts|] == queued;
  }

  /** `f` applied to each element of `xs` and the element of `ys` at the same index. */
  function MapPairs<A, B, C>(f: (A, B) -> C, xs: seq<A>, ys: seq<B>): (zs: seq<C>)
    requires |xs| <= |ys|
    ensures |zs| == |xs|
  {
    if xs == [] then [] else MapPairs(f, xs[..|xs| - 1], ys) + [f(xs[|xs| - 1], ys[|xs| - 1])]
  }

  lemma MapPairsSnoc<A, B, C>(f: (A, B) -> C, xs: seq<A>, ys: seq<B>, k: nat)
    requires k < |xs| <= |ys|
    ensures MapPairs(f, xs[..k + 1], ys) == MapPairs(f, xs[..k], ys) + [f(xs[k], ys[k])]
  {
    assert xs[..k + 1][..k] == xs[..k];
  }

  lemma {:induction false} MapPairsIndex<A, B, C>(f: (A, B) -> C, xs: seq<A>, ys: seq<B>)
    requires |xs| <= |ys|
    ensures forall i :: 0 <= i < |xs| ==> MapPairs(f, xs, ys)[i] == f(xs[i], ys[i])
  {
    if xs != [] {
      MapPairsIndex(f, xs[..|xs| - 1], ys);
    }
  }

  /**
   * The drain's attempts follow the queue's order: the i-th attempt is for the i-th queued
   * sighting, carries its full query string, and is sent exactly when its outcome lets it.
   */
  lemma DrainOrder(rs: seq<Sighting>, ns: seq<NetOutcome>)
    requires |rs| <= |ns|
    ensures forall i :: 0 <= i < |rs| ==>
      && MapPairs(Deliver, rs, ns)[i].record == rs[i]
      && MapPairs(Deliver, rs, ns)[i].Tried?
      && MapPairs(Deliver, rs, ns)[i].path == FormatQuery(rs[i])
  {
    MapPairsIndex(Deliver, rs, ns);
    forall i | 0 <= i < |rs| {
      DeliverSpec(rs[i], ns[i]);
    }
  }

  /** Against this server and port the request fixed part is 45 characters, so paths up to 54 fit. */
  lemma RequestFits(path: string)
    ensures |RequestText(Server, Port, path)| < TxBuffSize <==> |path| <= MaxDeliverablePath
  {
  }
}
