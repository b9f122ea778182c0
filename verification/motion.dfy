/** The motion detector of the backup firmware (`detect_motion`).

    It keeps the previously captured frame, a motion flag and an event
    counter. When there is no previous frame, or its length differs from the
    current one, it returns the old frame, captures a fresh baseline with up
    to three retries and reports no motion. Otherwise it counts how many
    sampled bytes differ by more than the threshold, swaps the previous frame
    for a fresh capture, and reports motion when the count exceeds the
    minimum; the counter advances only when the flag rises. */
module MotionDetection {
  import opened Esp
  import opened Camera
  import opened PartFormat

  const MOTION_THRESHOLD: nat := 20
  const MOTION_PIXELS: nat := 100
  /** Both the stride of the sampling loop and the fraction of the buffer it covers. */
  const SAMPLE_STRIDE: nat := 10
  const MAX_ATTEMPTS: nat := 3
  const RETRY_DELAY_MS: nat := 100

  // ---------------------------------------------------------------------------
  // The sampled byte comparison
  // ---------------------------------------------------------------------------

  function Abs(x: int): nat {
    if x < 0 then -x else x
  }

  /** Two bytes at the same position count as changed. */
  predicate Differs(a: Byte, b: Byte) {
    Abs(a as int - b as int) > MOTION_THRESHOLD
  }

  /** Changed positions among i, i + 10, i + 20, ... below limit. */
  function ChangedFrom(cur: seq<Byte>, prev: seq<Byte>, limit: nat, i: nat): nat
    requires |cur| == |prev| && limit <= |cur|
    decreases limit - i
  {
    if i >= limit then 0
    else (if Differs(cur[i], prev[i]) then 1 else 0) + ChangedFrom(cur, prev, limit, i + SAMPLE_STRIDE)
  }

  /** `changed_pixels`: the loop visits every tenth byte of the first tenth of the buffer. */
  function ChangedSamples(cur: seq<Byte>, prev: seq<Byte>): (r: nat)
    requires |cur| == |prev|
    ensures r <= (|cur| / SAMPLE_STRIDE + SAMPLE_STRIDE - 1) / SAMPLE_STRIDE
  {
    ChangedFromBounded(cur, prev, |cur| / SAMPLE_STRIDE, 0);
    ChangedFrom(cur, prev, |cur| / SAMPLE_STRIDE, 0)
  }

  /** Number of positions i, i + 10, ... below limit: the loop's visit count. */
  function Visits(limit: nat, i: nat): nat {
    if i >= limit then 0 else (limit - i + SAMPLE_STRIDE - 1) / SAMPLE_STRIDE
  }

  /** The sampling loop of `detect_motion` (lines 251-259). */
  method CountChangedSamples(cur: seq<Byte>, prev: seq<Byte>) returns (changed: nat)
    requires |cur| == |prev|
    ensures changed == ChangedSamples(cur, prev)
  {
    changed := 0;
    var pixelsToCheck := |cur| / SAMPLE_STRIDE;
    var i := 0;
    while i < pixelsToCheck
      invariant changed + ChangedFrom(cur, prev, pixelsToCheck, i) == ChangedSamples(cur, prev)
      decreases pixelsToCheck - i
    {
      var diff := Abs(cur[i] as int - prev[i] as int);
      if diff > MOTION_THRESHOLD {
        changed := changed + 1;
      }
      i := i + SAMPLE_STRIDE;
    }
  }

  /** The count never exceeds the number of positions the loop visits. */
  lemma {:induction false} ChangedFromBounded(cur: seq<Byte>, prev: seq<Byte>, limit: nat, i: nat)
    requires |cur| == |prev| && limit <= |cur|
    ensures ChangedFrom(cur, prev, limit, i) <= Visits(limit, i)
    decreases limit - i
  {
    if i < limit {
      ChangedFromBounded(cur, prev, limit, i + SAMPLE_STRIDE);
    }
  }

  /** A frame shorter than 10010 bytes offers at most 100 sampled positions,
      so it can never exceed the motion minimum. */
  lemma ShortFrameNeverMoves(cur: seq<Byte>, prev: seq<Byte>)
    requires |cur| == |prev| && |cur| < 10010
    ensures ChangedSamples(cur, prev) <= MOTION_PIXELS
  {
    assert ChangedSamples(cur, prev) <= (|cur| / SAMPLE_STRIDE + SAMPLE_STRIDE - 1) / SAMPLE_STRIDE;
  }

  /** Two buffers agree on every byte the sampling loop visits. */
  ghost predicate SampledAgree(a: seq<Byte>, b: seq<Byte>) {
    |a| == |b| &&
    forall i :: 0 <= i < |a| / SAMPLE_STRIDE && i % SAMPLE_STRIDE == 0 ==> a[i] == b[i]
  }

  lemma {:induction false} ChangedFromUnsampled(cur: seq<Byte>, cur': seq<Byte>, prev: seq<Byte>, limit: nat, i: nat)
    requires |cur| == |cur'| == |prev| && limit == |cur| / SAMPLE_STRIDE
    requires SampledAgree(cur, cur') && i % SAMPLE_STRIDE == 0
    ensures ChangedFrom(cur, prev, limit, i) == ChangedFrom(cur', prev, limit, i)
    decreases limit - i
  {
    if i < limit {
      ChangedFromUnsampled(cur, cur', prev, limit, i + SAMPLE_STRIDE);
    }
  }

  /** Only the sampled bytes matter: a change anywhere else, including all of
      the last nine tenths of the buffer, is never seen. */
  lemma UnsampledBytesIgnored(cur: seq<Byte>, cur': seq<Byte>, prev: seq<Byte>)
    requires |cur| == |prev| && SampledAgree(cur, cur')
    ensures ChangedSamples(cur, prev) == ChangedSamples(cur', prev)
  {
    ChangedFromUnsampled(cur, cur', prev, |cur| / SAMPLE_STRIDE, 0);
  }

  lemma {:induction false} ChangedFromNone(cur: seq<Byte>, prev: seq<Byte>, limit: nat, i: nat)
    requires |cur| == |prev| && limit == |cur| / SAMPLE_STRIDE
    requires SampledAgree(cur, prev) && i % SAMPLE_STRIDE == 0
    ensures ChangedFrom(cur, prev, limit, i) == 0
    decreases limit - i
  {
    if i < limit {
      ChangedFromNone(cur, prev, limit, i + SAMPLE_STRIDE);
    }
  }

  /** Frames with no sampled difference count no change. */
  lemma NoSampledDeltaNoChange(cur: seq<Byte>, prev: seq<Byte>)
    requires SampledAgree(cur, prev)
    ensures ChangedSamples(cur, prev) == 0
  {
    ChangedFromNone(cur, prev, |cur| / SAMPLE_STRIDE, 0);
  }

  // ---------------------------------------------------------------------------
  // The motion flag and the event counter
  // ---------------------------------------------------------------------------

  /** `motion_count++` on a `uint32_t`. */
  function Bump(count: Uint32): Uint32 {
    (count + 1) % UINT32_LIMIT
  }

  /** What one call of `detect_motion` did, as far as the flag and counter see it. */
  datatype Observation =
    | CaptureLost          // baseline path, every capture failed: early return
    | NewBaseline          // baseline path, a fresh previous frame was captured
    | Compared(changed: nat)  // comparison path, with its `changed_pixels`

  /** The flag and counter after one call: a comparison sets the flag to
      "more than 100 changed samples", a new baseline lowers it, a lost
      capture keeps it; the counter moves, by one with wrap-around, exactly
      when the flag rises. */
  function NextFlags(detected: bool, count: Uint32, obs: Observation): (r: (bool, Uint32))
    ensures obs.Compared? ==> (r.0 <==> obs.changed > MOTION_PIXELS)
    ensures obs.NewBaseline? ==> !r.0
    ensures obs.CaptureLost? ==> r.0 == detected
    ensures r.1 == (if r.0 && !detected then Bump(count) else count)
  {
    match obs
    case CaptureLost => (detected, count)
    case NewBaseline => (false, count)
    case Compared(changed) =>
      var now := changed > MOTION_PIXELS;
      (now, if now && !detected then Bump(count) else count)
  }

  /** The flag and counter after a series of calls. */
  function FlagsAfter(detected: bool, count: Uint32, obs: seq<Observation>): (bool, Uint32)
    decreases |obs|
  {
    if |obs| == 0 then (detected, count)
    else
      var (d, c) := NextFlags(detected, count, obs[0]);
      FlagsAfter(d, c, obs[1..])
  }

  /** Number of false-to-true transitions of the flag over a series of calls. */
  function RisingEdges(detected: bool, obs: seq<Observation>): nat
    decreases |obs|
  {
    if |obs| == 0 then 0
    else
      var now := match obs[0]
        case CaptureLost => detected
        case NewBaseline => false
        case Compared(changed) => changed > MOTION_PIXELS;
      (if now && !detected then 1 else 0) + RisingEdges(now, obs[1..])
  }

  /** The counter counts rising edges of the flag, modulo 2^32. */
  lemma {:induction false} CountIsRisingEdges(detected: bool, count: Uint32, obs: seq<Observation>)
    ensures FlagsAfter(detected, count, obs).1 == (count + RisingEdges(detected, obs)) % UINT32_LIMIT
    decreases |obs|
  {
    if |obs| > 0 {
      var (d, c) := NextFlags(detected, count, obs[0]);
      CountIsRisingEdges(d, c, obs[1..]);
    }
  }

  predicate AllMotion(obs: seq<Observation>) {
    forall k :: 0 <= k < |obs| ==> obs[k].Compared? && obs[k].changed > MOTION_PIXELS
  }

  /** Sustained motion is one event: a run of frames that all show motion
      raises the counter once if the flag was down, and not at all if it was up. */
  lemma {:induction false} SustainedMotionCountsOnce(detected: bool, obs: seq<Observation>)
    requires |obs| > 0 && AllMotion(obs)
    ensures RisingEdges(detected, obs) == if detected then 0 else 1
    decreases |obs|
  {
    if |obs| > 1 {
      SustainedMotionCountsOnce(true, obs[1..]);
    }
  }

  /** Every call compares and none shows motion. */
  predicate AllQuiet(obs: seq<Observation>) {
    forall k :: 0 <= k < |obs| ==> obs[k].Compared? && obs[k].changed <= MOTION_PIXELS
  }

  /** A run of quiet comparisons lowers the flag and leaves the counter alone. */
  lemma {:induction false} QuietNeverCounts(detected: bool, count: Uint32, obs: seq<Observation>)
    requires |obs| > 0 && AllQuiet(obs)
    ensures FlagsAfter(detected, count, obs) == (false, count)
    decreases |obs|
  {
    if |obs| > 1 {
      QuietNeverCounts(false, count, obs[1..]);
    }
  }

  // ---------------------------------------------------------------------------
  // One call of detect_motion, on the whole state
  // ---------------------------------------------------------------------------

  /** `prev_frame`, `motion_detected`, `motion_count`. */
  datatype MotionState = MotionState(prev: Option<Frame>, detected: bool, count: Uint32)

  /** The previous frame, if any, is checked out of the pool. */
  predicate Holds(m: MotionState, b: BoardState) {
    m.prev.Some? ==> m.prev.value.id in b.checkedOut
  }

  /** The frame ids the detector keeps checked out. */
  function HeldIds(m: MotionState): set<nat> {
    if m.prev.Some? then {m.prev.value.id} else {}
  }

  /** No previous frame, or one of a different length: nothing is compared. */
  predicate IsBaseline(m: MotionState, cur: Frame) {
    m.prev.None? || |m.prev.value.buf| != |cur.buf|
  }

  /** The retry loop of lines 233-240 from attempt i on: nothing happens
      once a frame is in hand or the attempts are used up; otherwise each
      attempt is one `fb_get` call, and only an attempt that succeeds leaves
      a new frame out. */
  function RetryCapture(f: Option<Frame>, b: BoardState, i: nat): (r: (Option<Frame>, BoardState))
    ensures f.Some? || i >= MAX_ATTEMPTS ==> r == (f, b)
    ensures i <= MAX_ATTEMPTS ==> b.gets <= r.1.gets <= b.gets + (MAX_ATTEMPTS - i)
    ensures r.1.led == b.led
    ensures r.0.None? ==> r.1.checkedOut == b.checkedOut
    decreases MAX_ATTEMPTS - i
  {
    if i >= MAX_ATTEMPTS || f.Some? then (f, b)
    else
      var b1 := if i > 0 then Delayed(b, RETRY_DELAY_MS) else b;
      var (f2, b2) := FbGet(b1);
      RetryCapture(f2, b2, i + 1)
  }

  /** Line 230 and the retry loop after it: one to four `fb_get` calls, and
      a new frame out only when one of them succeeded. */
  function BaselineCapture(b: BoardState): (r: (Option<Frame>, BoardState))
    ensures b.gets + 1 <= r.1.gets <= b.gets + MAX_ATTEMPTS + 1
    ensures r.1.led == b.led
    ensures r.0.None? ==> r.1.checkedOut == b.checkedOut
  {
    var (f, b1) := FbGet(b);
    RetryCapture(f, b1, 0)
  }

  /** The k-th coming capture outcome. */
  function Attempt(captures: seq<Option<Capture>>, k: nat): Option<Capture> {
    if k < |captures| then captures[k] else None
  }

  /** The baseline capture makes one to four `fb_get` calls, waits 100 ms
      before the third and the fourth only, stops at the first success, and
      when all four fail leaves no new frame out. */
  lemma BaselineCaptureBounds(b: BoardState)
    ensures var (f, b') := BaselineCapture(b);
      var calls := b'.gets - b.gets;
      && 1 <= calls <= MAX_ATTEMPTS + 1
      && b'.elapsedMs == b.elapsedMs + RETRY_DELAY_MS * (if calls > 2 then calls - 2 else 0)
      && b'.captures == (if calls <= |b.captures| then b.captures[calls..] else [])
      && b'.led == b.led
      && (forall k :: 0 <= k < calls - 1 ==> Attempt(b.captures, k).None?)
      && (f.None? ==> calls == MAX_ATTEMPTS + 1 && Attempt(b.captures, calls - 1).None? && b'.checkedOut == b.checkedOut)
      && (f.Some? ==> f.value.id == b'.gets - 1 && Attempt(b.captures, calls - 1) == Some(Capture(f.value.buf, f.value.format))
                      && b'.checkedOut == b.checkedOut + {f.value.id})
  {
    var (f0, b0) := FbGet(b);
    if f0.None? {
      var (f1, b1) := FbGet(b0);
      if f1.None? {
        var (f2, b2) := FbGet(Delayed(b1, RETRY_DELAY_MS));
        if f2.None? {
          var (f3, b3) := FbGet(Delayed(b2, RETRY_DELAY_MS));
          assert BaselineCapture(b) == (f3, b3);
        } else {
          assert BaselineCapture(b) == (f2, b2);
        }
      } else {
        assert BaselineCapture(b) == (f1, b1);
      }
    } else {
      assert BaselineCapture(b) == (f0, b0);
    }
  }

  /** One call of `detect_motion(cur)`: the detector's new state and the board after it. */
  function DetectStep(m: MotionState, cur: Frame, b: BoardState): (r: (MotionState, BoardState))
    requires Holds(m, b)
    ensures |r.1.captures| <= |b.captures| && r.1.captures == b.captures[|b.captures| - |r.1.captures|..]
  {
    if IsBaseline(m, cur) then
      var b1 := if m.prev.Some? then FbReturn(b, m.prev.value) else b;
      BaselineCaptureBounds(b1);
      var (f, b2) := BaselineCapture(b1);
      if f.None? then (MotionState(None, m.detected, m.count), b2)
      else (MotionState(f, false, m.count), b2)
    else
      var changed := ChangedSamples(cur.buf, m.prev.value.buf);
      var (f, b2) := FbGet(FbReturn(b, m.prev.value));
      var detected := changed > MOTION_PIXELS;
      (MotionState(f, detected, if detected && !m.detected then Bump(m.count) else m.count), LedSet(b2, detected))
  }

  /** How the flag and counter see a call. */
  function ObservationOf(m: MotionState, cur: Frame, b: BoardState): Observation
    requires Holds(m, b)
  {
    if IsBaseline(m, cur) then
      var b1 := if m.prev.Some? then FbReturn(b, m.prev.value) else b;
      if BaselineCapture(b1).0.None? then CaptureLost else NewBaseline
    else Compared(ChangedSamples(cur.buf, m.prev.value.buf))
  }

  /** The flag and counter of a call follow the flag machine above. */
  lemma DetectStepFlags(m: MotionState, cur: Frame, b: BoardState)
    requires Holds(m, b)
    ensures var m' := DetectStep(m, cur, b).0;
      (m'.detected, m'.count) == NextFlags(m.detected, m.count, ObservationOf(m, cur, b))
  {
  }

  /** On the baseline path nothing is compared: the old frame is returned, a
      fresh one is captured with at most four calls and 200 ms of waiting, the
      counter and the LED are untouched, and the flag drops unless every
      capture failed, in which case the detector is left without a frame. */
  lemma BaselinePath(m: MotionState, cur: Frame, b: BoardState)
    requires Holds(m, b) && IsBaseline(m, cur)
    ensures var (m', b') := DetectStep(m, cur, b);
      && m'.count == m.count
      && b'.led == b.led
      && 1 <= b'.gets - b.gets <= 4
      && b'.elapsedMs - b.elapsedMs <= 2 * RETRY_DELAY_MS
      && (m'.prev.None? ==> m'.detected == m.detected && b'.gets - b.gets == 4)
      && (m'.prev.Some? ==> !m'.detected && m'.prev.value.id == b'.gets - 1)
      && b'.checkedOut == (if m.prev.Some? then b.checkedOut - {m.prev.value.id} else b.checkedOut) + HeldIds(m')
  {
    var b1 := if m.prev.Some? then FbReturn(b, m.prev.value) else b;
    BaselineCaptureBounds(b1);
  }

  /** On the comparison path the flag becomes exactly "more than 100 sampled
      bytes changed", the LED follows it, the counter rises by one only on a
      false-to-true transition, and the previous frame is replaced by one
      fresh capture (none if that capture fails). */
  lemma ComparisonPath(m: MotionState, cur: Frame, b: BoardState)
    requires Holds(m, b) && !IsBaseline(m, cur)
    ensures var (m', b') := DetectStep(m, cur, b);
      && m'.detected == (ChangedSamples(cur.buf, m.prev.value.buf) > MOTION_PIXELS)
      && b'.led == m'.detected
      && m'.count == (if m'.detected && !m.detected then Bump(m.count) else m.count)
      && (m.count < UINT32_LIMIT - 1 ==> m.count <= m'.count <= m.count + 1)
      && b'.gets == b.gets + 1 && b'.elapsedMs == b.elapsedMs
      && (m'.prev.Some? ==> m'.prev.value.id == b.gets)
  {
  }

  /** Frame ownership across a call: the frame being streamed stays checked
      out, the old previous frame is returned exactly once, and the only other
      frame left out is the new previous frame. */
  lemma DetectStepOwnership(m: MotionState, cur: Frame, b: BoardState)
    requires b.Valid() && Holds(m, b)
    requires cur.id in b.checkedOut && (m.prev.Some? ==> m.prev.value.id != cur.id)
    ensures var (m', b') := DetectStep(m, cur, b);
      && b'.Valid() && Holds(m', b')
      && cur.id in b'.checkedOut
      && (m'.prev.Some? ==> m'.prev.value.id != cur.id)
      && b'.checkedOut == (b.checkedOut - HeldIds(m)) + HeldIds(m')
  {
    var (m', b') := DetectStep(m, cur, b);
    var b1 := if m.prev.Some? then FbReturn(b, m.prev.value) else b;
    assert b1.checkedOut == b.checkedOut - HeldIds(m) && b1.gets == b.gets && b1.Valid();
    if IsBaseline(m, cur) {
      BaselinePath(m, cur, b);
      BaselineCaptureBounds(b1);
      assert (m', b') == (MotionState(BaselineCapture(b1).0, m'.detected, m'.count), BaselineCapture(b1).1);
    } else {
      ComparisonPath(m, cur, b);
      assert b'.checkedOut == FbGet(b1).1.checkedOut;
    }
  }

  // ---------------------------------------------------------------------------
  // The detector as the firmware holds it: module-level variables
  // ---------------------------------------------------------------------------

  class MotionDetector {
    var prevFrame: Option<Frame>
    var motionDetected: bool
    var motionCount: Uint32

    function State(): MotionState
      reads this
    {
      MotionState(prevFrame, motionDetected, motionCount)
    }

    /** The static initialisers: no frame, no motion, no events. */
    constructor ()
      ensures State() == MotionState(None, false, 0)
    {
      prevFrame, motionDetected, motionCount := None, false, 0;
    }

    /** `detect_motion(current_fb)`. The `return ESP_FAIL` of the source sits in
        a function returning nothing; it is an early return here. */
    method DetectMotion(cur: Frame, board: Board)
      requires Holds(State(), board.State())
      modifies this, board
      ensures (State(), board.State()) == DetectStep(old(State()), cur, old(board.State()))
    {
      if prevFrame.None? || |prevFrame.value.buf| != |cur.buf| {
        if prevFrame.Some? {
          board.Return(prevFrame.value);
        }
        ghost var start := board.State();
        prevFrame := board.Get();
        var i := 0;
        while i < MAX_ATTEMPTS && prevFrame.None?
          invariant 0 <= i <= MAX_ATTEMPTS
          invariant RetryCapture(prevFrame, board.State(), i) == BaselineCapture(start)
          invariant motionDetected == old(motionDetected) && motionCount == old(motionCount)
        {
          if i > 0 {
            board.Delay(RETRY_DELAY_MS);
          }
          prevFrame := board.Get();
          i := i + 1;
        }
        if prevFrame.None? {
          return;
        }
        motionDetected := false;
        return;
      }

      var changed := CountChangedSamples(cur.buf, prevFrame.value.buf);
      board.Return(prevFrame.value);
      prevFrame := board.Get();

      if changed > MOTION_PIXELS {
        if !motionDetected {
          motionCount := Bump(motionCount);
        }
        motionDetected := true;
        board.SetLed(true);
      } else {
        motionDetected := false;
        board.SetLed(false);
      }
    }

    /** The body of the `/status` response, a snapshot of the flag and the counter. */
    function StatusBody(): (j: string)
      reads this
      ensures ParseStatus(j) == Some((motionDetected, motionCount as nat))
      ensures |j| < JsonBufSize
    {
      StatusJsonRoundTrip(motionDetected, motionCount);
      StatusJson(motionDetected, motionCount)
    }
  }
}
