/**
 * The Wi-Fi station's connection status (main/WiFi.c): the event group with its CONNECTED and
 * FAILED bits, the retry counter kept by `event_handler`, and the wait that gates scanning.
 */
module WiFi {

  /** WIFI_CONNECTED_BIT and WIFI_FAILED_BIT of the event group */
  const ConnectedBit: bv32 := 0x0001
  const FailedBit: bv32 := 0x0002

  /** WIFI_RECONNECT_DELAY, in milliseconds */
  const ReconnectDelayMs := 5000

  /** WIFI_MAX_RETRY; defined, but never consulted by the handler */
  const MaxRetry := 10000

  /** The events the handler is registered for: every WIFI_EVENT id, and IP_EVENT_STA_GOT_IP. */
  datatype WifiEventId = StaStart | StaDisconnected | OtherWifiEvent(id: int)
  datatype IpEventId = StaGotIp | OtherIpEvent(id: int)
  datatype LinkEvent = WifiEvent(wifiId: WifiEventId) | IpEvent(ipId: IpEventId)

  /** The calls into the Wi-Fi driver that the handler makes. */
  datatype Action = NoAction | Connect | DelayThenConnect(delayMs: nat)

  /** The event-group bits and `s_retry_num`. */
  datatype LinkState = LinkState(bits: bv32, retryNum: int)

  /** The event group as `xEventGroupCreate` leaves it, and the counter's static initial value. */
  const Initial := LinkState(0, 0)

  predicate Connected(s: LinkState) { s.bits & ConnectedBit != 0 }
  predicate Failed(s: LinkState) { s.bits & FailedBit != 0 }

  /** CONNECTED and FAILED are not both set. */
  predicate Exclusive(s: LinkState) { !(Connected(s) && Failed(s)) }

  /** The state after `event_handler` returns. */
  function Handle(s: LinkState, e: LinkEvent): LinkState
  {
    match e
    case WifiEvent(StaDisconnected) =>
      LinkState((s.bits | FailedBit) & !ConnectedBit, s.retryNum + 1)
    case IpEvent(StaGotIp) =>
      LinkState((s.bits | ConnectedBit) & !FailedBit, 0)
    case _ => s
  }

  /** The driver calls the handler makes for an event. */
  function ActionOf(e: LinkEvent): Action
  {
    match e
    case WifiEvent(StaStart) => Connect
    case WifiEvent(StaDisconnected) => DelayThenConnect(ReconnectDelayMs)
    case _ => NoAction
  }

  /** The state after a run of events, delivered one at a time. */
  function Run(s: LinkState, es: seq<LinkEvent>): LinkState
    decreases |es|
  {
    if es == [] then s else Run(Handle(s, es[0]), es[1..])
  }

  /** A disconnect leaves CONNECTED clear and FAILED set; a new address leaves the opposite. */
  lemma HandleBits(s: LinkState)
    ensures !Connected(Handle(s, WifiEvent(StaDisconnected))) && Failed(Handle(s, WifiEvent(StaDisconnected)))
    ensures Connected(Handle(s, IpEvent(StaGotIp))) && !Failed(Handle(s, IpEvent(StaGotIp)))
    ensures Handle(s, IpEvent(StaGotIp)).retryNum == 0
    ensures Handle(s, WifiEvent(StaDisconnected)).retryNum == s.retryNum + 1
  {
  }

  /** Every handled event keeps CONNECTED and FAILED mutually exclusive. */
  lemma HandleExclusive(s: LinkState, e: LinkEvent)
    requires Exclusive(s)
    ensures Exclusive(Handle(s, e))
  {
    HandleBits(s);
  }

  /** From the initial event group, CONNECTED and FAILED are never both set after any event. */
  lemma {:induction false} RunExclusive(s: LinkState, es: seq<LinkEvent>)
    requires Exclusive(s)
    ensures Exclusive(Run(s, es))
    decreases |es|
  {
    if es != [] {
      HandleExclusive(s, es[0]);
      RunExclusive(Handle(s, es[0]), es[1..]);
    }
  }

  lemma InitialExclusive(es: seq<LinkEvent>)
    ensures !Connected(Initial) && !Failed(Initial)
    ensures Exclusive(Run(Initial, es))
  {
    RunExclusive(Initial, es);
  }

  /** Events that the handler ignores: STA_START, other Wi-Fi ids and other IP ids. */
  predicate Ignored(e: LinkEvent)
  {
    !(e == WifiEvent(StaDisconnected) || e == IpEvent(StaGotIp))
  }

  lemma IgnoredUnchanged(s: LinkState, e: LinkEvent)
    requires Ignored(e)
    ensures Handle(s, e) == s
  {
  }

  /**
   * There is no retry cap: `k` disconnects in a row add exactly `k` to the counter and leave
   * CONNECTED clear, so more than MaxRetry of them carry the counter past MaxRetry; and the
   * handler's reply to a disconnect is the delayed reconnect whatever the counter holds.
   */
  lemma {:induction false} RetryUnbounded(s: LinkState, k: nat)
    ensures var t := Run(s, seq(k, _ => WifiEvent(StaDisconnected)));
            t.retryNum == s.retryNum + k && (k > 0 ==> !Connected(t) && Failed(t))
    ensures var t := Run(s, seq(k, _ => WifiEvent(StaDisconnected)));
            s.retryNum >= 0 && k > MaxRetry ==> t.retryNum > MaxRetry
    ensures ActionOf(WifiEvent(StaDisconnected)) == DelayThenConnect(ReconnectDelayMs)
    decreases k
  {
    if k > 0 {
      var es := seq(k, _ => WifiEvent(StaDisconnected));
      assert es[0] == WifiEvent(StaDisconnected);
      assert es[1..] == seq(k - 1, _ => WifiEvent(StaDisconnected));
      RetryUnbounded(Handle(s, WifiEvent(StaDisconnected)), k - 1);
      HandleBits(s);
    }
  }

  /** The station: the event group `s_wifi_event_group` and the handler's static `s_retry_num`. */
  class WiFiStation {
    var bits: bv32
    var retryNum: int

    function State(): LinkState
      reads this
    {
      LinkState(bits, retryNum)
    }

    constructor ()
      ensures State() == Initial
    {
      bits := 0;
      retryNum := 0;
    }

    /** xEventGroupSetBits */
    method SetBits(mask: bv32)
      modifies this
      ensures bits == old(bits) | mask && retryNum == old(retryNum)
    {
      bits := bits | mask;
    }

    /** xEventGroupClearBits */
    method ClearBits(mask: bv32)
      modifies this
      ensures bits == old(bits) & !mask && retryNum == old(retryNum)
    {
      bits := bits & !mask;
    }

    /**
     * event_handler: on a disconnect, sets FAILED, clears CONNECTED, waits, reconnects and counts
     * the retry; on a new IP address, resets the counter, sets CONNECTED and clears FAILED.
     */
    method EventHandler(e: LinkEvent) returns (action: Action)
      modifies this
      ensures State() == Handle(old(State()), e)
      ensures action == ActionOf(e)
    {
      action := NoAction;
      if e.WifiEvent? {
        if e.wifiId == StaStart {
          action := Connect;
        } else if e.wifiId == StaDisconnected {
          SetBits(FailedBit);
          ClearBits(ConnectedBit);
          action := DelayThenConnect(ReconnectDelayMs);
          retryNum := retryNum + 1;
        }
      }
      if e == IpEvent(StaGotIp) {
        retryNum := 0;
        SetBits(ConnectedBit);
        ClearBits(FailedBit);
      }
    }

    /**
     * WiFiWaitUntillConnected, as a guard: the caller may go on exactly when CONNECTED is set.
     * The wait does not clear the bit (pdFALSE); the method changes nothing.
     */
    method WaitUntilConnected() returns (proceed: bool)
      ensures proceed <==> Connected(State())
    {
      proceed := bits & ConnectedBit != 0;
    }
  }

  /** A disconnect right after connecting makes the next wait block. */
  lemma DisconnectBlocksWait(s: LinkState)
    requires Connected(s)
    ensures !Connected(Handle(s, WifiEvent(StaDisconnected)))
  {
    HandleBits(s);
  }
}
