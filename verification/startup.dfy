/** Start-up of the live firmware (`app_main` and `wifi_init_sta` of
    camera_streamer.c): when the camera fails to initialise the firmware
    returns at once; otherwise it starts the Wi-Fi station, waits until the
    station's handler raises the CONNECTED or the FAIL bit, reports which,
    and starts the web server either way.

    The wait is modelled by handing the station's events to its handler one
    at a time until a bit is up. When the events run out first, the firmware
    is still waiting and the server never starts. */
module Startup {
  import opened Esp
  import opened WifiStation

  /** A bit the wait is looking for is up. */
  predicate Signalled(w: WifiState) {
    w.connectedBit || w.failBit
  }

  /** The number of events after which the wait returns, looking from the
      i-th on: the first point at which a bit is up. */
  function FirstSignal(es: seq<WifiEvent>, i: nat): (r: Option<nat>)
    requires i <= |es|
    ensures r.Some? ==>
      && i <= r.value <= |es|
      && Signalled(WifiRun(Initial, es[..r.value]))
      && forall j :: i <= j < r.value ==> !Signalled(WifiRun(Initial, es[..j]))
    ensures r.None? ==> forall j :: i <= j <= |es| ==> !Signalled(WifiRun(Initial, es[..j]))
    decreases |es| - i
  {
    if Signalled(WifiRun(Initial, es[..i])) then Some(i)
    else if i == |es| then None
    else FirstSignal(es, i + 1)
  }

  /** What start-up did: whether the station was started, how many of its
      events were handled by the time the wait returned (all of them when it
      never did), the station's state then, whether the wait reported a
      connection, and whether the web server was started. */
  datatype BootResult = BootResult(
    wifiStarted: bool, eventsHandled: nat, station: WifiState, connected: bool, serverStarted: bool)

  /** Start-up given the camera's initialisation result and the events the
      station will see. */
  function Boot(cameraOk: bool, es: seq<WifiEvent>): (r: BootResult)
    ensures r.wifiStarted <==> cameraOk
    ensures r.serverStarted ==> r.wifiStarted
    ensures r.serverStarted <==> cameraOk && exists n :: 0 <= n <= |es| && Signalled(WifiRun(Initial, es[..n]))
    ensures r.wifiStarted ==> r.eventsHandled <= |es| && r.station == WifiRun(Initial, es[..r.eventsHandled])
    ensures r.serverStarted ==> Signalled(r.station) && r.connected == r.station.connectedBit
    ensures r.wifiStarted && !r.serverStarted ==> r.eventsHandled == |es| && !r.connected
  {
    if !cameraOk then BootResult(false, 0, Initial, false, false)
    else
      match FirstSignal(es, 0)
      case None =>
        assert es[..|es|] == es;
        BootResult(true, |es|, WifiRun(Initial, es), false, false)
      case Some(n) =>
        var w := WifiRun(Initial, es[..n]);
        BootResult(true, n, w, w.connectedBit, true)
  }

  /** When the wait returns exactly one bit is up: the first event that
      raises a bit raises only one, so the report never has both to choose
      from. */
  lemma WaitSeesOneBit(cameraOk: bool, es: seq<WifiEvent>)
    ensures var r := Boot(cameraOk, es);
      r.serverStarted ==> r.station.connectedBit != r.station.failBit
  {
    var r := Boot(cameraOk, es);
    if r.serverStarted {
      var n := r.eventsHandled;
      assert n > 0;
      assert es[..n][..n - 1] == es[..n - 1];
      assert !Signalled(WifiRun(Initial, es[..n - 1]));
    }
  }

  /** The station started, then k disconnects. */
  lemma StartThenDisconnects(k: nat)
    ensures WifiRun(Initial, [StaStart] + Disconnects(k)) ==
      WifiState(Min(k, MAX_RETRY), false, k > MAX_RETRY, 1 + Min(k, MAX_RETRY))
  {
    RunAppend(Initial, [StaStart], Disconnects(k));
    assert [StaStart][..0] == [];
    DisconnectBurst(WifiStep(Initial, StaStart), k);
  }

  /** A station that is never given an address retries five times and
      gives up on the sixth disconnect; the wait then returns, the failure
      is reported, and the web server starts all the same. */
  lemma GivingUpStillServes()
    ensures Boot(true, [StaStart] + Disconnects(MAX_RETRY + 1)) ==
      BootResult(true, MAX_RETRY + 2, WifiState(MAX_RETRY, false, true, MAX_RETRY + 1), false, true)
  {
    var es := [StaStart] + Disconnects(MAX_RETRY + 1);
    forall j | 0 < j <= |es|
      ensures WifiRun(Initial, es[..j]) == WifiRun(Initial, [StaStart] + Disconnects(j - 1))
    {
      assert es[..j] == [StaStart] + Disconnects(j - 1);
    }
    forall j | 0 < j < |es|
      ensures !Signalled(WifiRun(Initial, es[..j]))
    {
      StartThenDisconnects(j - 1);
    }
    assert es[..0] == [];
    StartThenDisconnects(MAX_RETRY + 1);
    assert es[..|es|] == es;
  }

  /** Up to five disconnects and then an address: the wait returns on the
      address, a connection is reported and the web server starts. */
  lemma ConnectingServes(k: nat)
    requires k <= MAX_RETRY
    ensures var r := Boot(true, [StaStart] + Disconnects(k) + [StaGotIp]);
      r.serverStarted && r.connected && r.eventsHandled == k + 2 && r.station.retryNum == 0
  {
    var es := [StaStart] + Disconnects(k) + [StaGotIp];
    forall j | 0 < j <= k + 1
      ensures !Signalled(WifiRun(Initial, es[..j]))
    {
      assert es[..j] == [StaStart] + Disconnects(j - 1);
      StartThenDisconnects(j - 1);
    }
    assert es[..0] == [];
    assert es[..|es|] == es;
    assert es[..|es| - 1] == [StaStart] + Disconnects(k);
  }

  /** `app_main` from the camera's initialisation on (lines 414-420 of
      camera_streamer.c), with `wifi_init_sta` (lines 104-152): the loop is
      the wait for either bit, during which the station handles its events. */
  method AppMain(cameraOk: bool, es: seq<WifiEvent>) returns (r: BootResult)
    ensures r == Boot(cameraOk, es)
  {
    if !cameraOk {
      return BootResult(false, 0, Initial, false, false);
    }
    var station := new Station();
    var i := 0;
    while i < |es| && !(station.connectedBit || station.failBit)
      invariant 0 <= i <= |es|
      invariant station.Valid()
      invariant station.State() == WifiRun(Initial, es[..i])
      invariant FirstSignal(es, i) == FirstSignal(es, 0)
    {
      assert es[..i + 1][..i] == es[..i];
      station.HandleEvent(es[i]);
      i := i + 1;
    }
    if station.connectedBit || station.failBit {
      r := BootResult(true, i, station.State(), station.connectedBit, true);
    } else {
      r := BootResult(true, i, station.State(), false, false);
    }
  }
}
