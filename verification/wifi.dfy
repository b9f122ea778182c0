/** The Wi-Fi station's event handler (`wifi_event_handler`, the same in
    both firmware files): it connects when the station starts, retries a
    bounded number of times after a disconnect and then raises the FAIL bit,
    and on getting an IP address resets the retry count and raises the
    CONNECTED bit. Neither bit is ever cleared.

    The handler is registered for every Wi-Fi event and for IP_EVENT_STA_GOT_IP;
    Wi-Fi events other than start and disconnect reach it and change nothing.
    A call to `esp_wifi_connect` is counted, not performed. */
module WifiStation {
  const MAX_RETRY: nat := 5

  datatype WifiEvent = StaStart | StaDisconnected | StaGotIp | OtherWifiEvent

  /** `s_retry_num`, the two event-group bits, and the number of
      `esp_wifi_connect` calls made so far. */
  datatype WifiState = WifiState(retryNum: nat, connectedBit: bool, failBit: bool, connects: nat)

  /** The state before any event: the retry count is a zero-initialised
      static and the event group starts with no bit set. */
  const Initial: WifiState := WifiState(0, false, false, 0)

  /** One call of the handler: a connect call is made on start and on a
      disconnect with retries left; FAIL is raised by a disconnect with none
      left and CONNECTED by an address; neither bit is lowered, and an
      address resets the retry count. */
  function WifiStep(w: WifiState, e: WifiEvent): (r: WifiState)
    ensures r.connects == w.connects + 1 <==> e == StaStart || (e == StaDisconnected && w.retryNum < MAX_RETRY)
    ensures r.connects == w.connects || r.connects == w.connects + 1
    ensures r.failBit <==> w.failBit || (e == StaDisconnected && w.retryNum >= MAX_RETRY)
    ensures r.connectedBit <==> w.connectedBit || e == StaGotIp
    ensures e == StaGotIp ==> r.retryNum == 0
    ensures w.retryNum <= MAX_RETRY ==> r.retryNum <= MAX_RETRY
  {
    match e
    case StaStart => w.(connects := w.connects + 1)
    case StaDisconnected =>
      if w.retryNum < MAX_RETRY then w.(retryNum := w.retryNum + 1, connects := w.connects + 1)
      else w.(failBit := true)
    case StaGotIp => w.(retryNum := 0, connectedBit := true)
    case OtherWifiEvent => w
  }

  /** The state after the handler has seen the events es, in order. */
  function WifiRun(w: WifiState, es: seq<WifiEvent>): WifiState
    decreases |es|
  {
    if |es| == 0 then w else WifiStep(WifiRun(w, es[..|es| - 1]), es[|es| - 1])
  }

  /** A run of n disconnects. */
  function Disconnects(n: nat): (es: seq<WifiEvent>)
    ensures |es| == n && forall i :: 0 <= i < n ==> es[i] == StaDisconnected
  {
    seq(n, _ => StaDisconnected)
  }

  function Min(a: int, b: int): int {
    if a <= b then a else b
  }

  /** Handling es and then more is handling es + more. */
  lemma {:induction false} RunAppend(w: WifiState, es: seq<WifiEvent>, more: seq<WifiEvent>)
    ensures WifiRun(w, es + more) == WifiRun(WifiRun(w, es), more)
    decreases |more|
  {
    if |more| > 0 {
      assert (es + more)[..|es + more| - 1] == es + more[..|more| - 1];
      RunAppend(w, es, more[..|more| - 1]);
    } else {
      assert es + more == es;
    }
  }

  /** Any run of events keeps the retry count within 0..MAX_RETRY. */
  lemma {:induction false} RunKeepsRetryBound(w: WifiState, es: seq<WifiEvent>)
    requires w.retryNum <= MAX_RETRY
    ensures WifiRun(w, es).retryNum <= MAX_RETRY
    decreases |es|
  {
    if |es| > 0 {
      RunKeepsRetryBound(w, es[..|es| - 1]);
    }
  }

  /** The bits are sticky: once raised, no event lowers them, and the
      number of connect calls never goes down. */
  lemma {:induction false} BitsSticky(w: WifiState, es: seq<WifiEvent>)
    ensures w.connectedBit ==> WifiRun(w, es).connectedBit
    ensures w.failBit ==> WifiRun(w, es).failBit
    ensures WifiRun(w, es).connects >= w.connects
    decreases |es|
  {
    if |es| > 0 {
      BitsSticky(w, es[..|es| - 1]);
    }
  }

  /** k disconnects in a row: each of the first MAX_RETRY - retryNum of them
      makes one connect call and counts one retry; any further one makes no
      call and raises FAIL. Nothing else changes. */
  lemma {:induction false} DisconnectBurst(w: WifiState, k: nat)
    requires w.retryNum <= MAX_RETRY
    ensures WifiRun(w, Disconnects(k)) == w.(
      retryNum := Min(w.retryNum + k, MAX_RETRY),
      connects := w.connects + Min(k, MAX_RETRY - w.retryNum),
      failBit := w.failBit || k > MAX_RETRY - w.retryNum)
  {
    if k > 0 {
      assert Disconnects(k)[..k - 1] == Disconnects(k - 1);
      DisconnectBurst(w, k - 1);
    }
  }

  /** After an IP address, five disconnects are retried and the sixth
      raises FAIL: the station gives up on the sixth consecutive disconnect,
      having made five connect calls. */
  lemma GotIpThenDisconnects(w: WifiState, k: nat)
    requires w.retryNum <= MAX_RETRY
    ensures var r := WifiRun(w, [StaGotIp] + Disconnects(k));
      && r.connectedBit
      && r.retryNum == Min(k, MAX_RETRY)
      && r.connects == w.connects + Min(k, MAX_RETRY)
      && (r.failBit <==> w.failBit || k >= MAX_RETRY + 1)
  {
    RunAppend(w, [StaGotIp], Disconnects(k));
    assert WifiRun(w, [StaGotIp]) == WifiStep(w, StaGotIp) by {
      assert [StaGotIp][..0] == [];
    }
    DisconnectBurst(WifiStep(w, StaGotIp), k);
  }

  /** Disconnects since the last IP address: an independent reading of the
      retry count. */
  function Streak(es: seq<WifiEvent>): nat
    decreases |es|
  {
    if |es| == 0 then 0
    else match es[|es| - 1]
      case StaGotIp => 0
      case StaDisconnected => Streak(es[..|es| - 1]) + 1
      case _ => Streak(es[..|es| - 1])
  }

  /** From the initial state the retry count is the disconnect streak, capped
      at MAX_RETRY. */
  lemma {:induction false} RetryIsStreak(es: seq<WifiEvent>)
    ensures WifiRun(Initial, es).retryNum == Min(Streak(es), MAX_RETRY)
    decreases |es|
  {
    if |es| > 0 {
      RetryIsStreak(es[..|es| - 1]);
    }
  }

  /** From the initial state CONNECTED is set exactly when an IP address
      has been obtained. */
  lemma {:induction false} ConnectedIffGotIp(es: seq<WifiEvent>)
    ensures WifiRun(Initial, es).connectedBit <==> StaGotIp in es
    decreases |es|
  {
    if |es| > 0 {
      var p := es[..|es| - 1];
      ConnectedIffGotIp(p);
      assert es == p + [es[|es| - 1]];
    }
  }

  /** From the initial state FAIL is set exactly when, at some point, more
      than MAX_RETRY disconnects followed the last IP address. */
  lemma {:induction false} FailIffLongStreak(es: seq<WifiEvent>)
    ensures WifiRun(Initial, es).failBit <==> exists n :: 0 <= n <= |es| && Streak(es[..n]) > MAX_RETRY
    decreases |es|
  {
    if |es| == 0 {
      assert forall n :: 0 <= n <= |es| ==> es[..n] == [];
    } else {
      var p := es[..|es| - 1];
      FailIffLongStreak(p);
      RetryIsStreak(p);
      assert forall n :: 0 <= n <= |p| ==> p[..n] == es[..n];
      assert es[..|es|] == es;
      if WifiRun(Initial, es).failBit && !WifiRun(Initial, p).failBit {
        assert Streak(es[..|es|]) > MAX_RETRY;
      }
      if exists n :: 0 <= n <= |es| && Streak(es[..n]) > MAX_RETRY {
        var n :| 0 <= n <= |es| && Streak(es[..n]) > MAX_RETRY;
        if n < |es| {
          assert Streak(p[..n]) > MAX_RETRY;
        }
      }
    }
  }

  /** The handler's globals: `s_retry_num`, the event group's two bits, and
      the connect calls made. */
  class Station {
    var retryNum: nat
    var connectedBit: bool
    var failBit: bool
    var connects: nat

    function State(): WifiState
      reads this
    {
      WifiState(retryNum, connectedBit, failBit, connects)
    }

    ghost predicate Valid()
      reads this
    {
      retryNum <= MAX_RETRY
    }

    /** The zero-initialised retry count and a freshly created event group. */
    constructor ()
      ensures State() == Initial && Valid()
    {
      retryNum, connectedBit, failBit, connects := 0, false, false, 0;
    }

    /** `wifi_event_handler`. */
    method HandleEvent(e: WifiEvent)
      requires Valid()
      modifies this
      ensures State() == WifiStep(old(State()), e)
      ensures Valid()
    {
      match e
      case StaStart =>
        connects := connects + 1;
      case StaDisconnected =>
        if retryNum < MAX_RETRY {
          connects := connects + 1;
          retryNum := retryNum + 1;
        } else {
          failBit := true;
        }
      case StaGotIp =>
        retryNum := 0;
        connectedBit := true;
      case OtherWifiEvent =>
    }
  }
}
