/** The board services the firmware calls: the camera frame-buffer pool
    (`esp_camera_fb_get`, `esp_camera_fb_return`), the task delay
    (`vTaskDelay`) and the LED (`gpio_set_level`).

    What the hardware delivers is not known in advance, so the board holds
    the outcomes of its future captures as a script: each `fb_get` consumes
    one outcome, and once the script is exhausted every capture fails.
    Every `fb_get` call is numbered; a frame carries the number of the call
    that produced it, so frames are never confused with one another, and
    the set of numbers currently checked out of the pool is what proves that
    each frame is returned exactly once. */
module Camera {
  import opened Esp

  datatype PixFormat = Jpeg | Rgb565 | Yuv422 | Grayscale | Rgb888 | Raw

  /** Frame buffer contents; its length fits the 32-bit `len` field. */
  type Buffer = s: seq<Byte> | |s| < UINT32_LIMIT

  /** What one capture attempt can yield when it succeeds. */
  datatype Capture = Capture(buf: Buffer, format: PixFormat)

  /** `camera_fb_t`: a buffer checked out of the pool. */
  datatype Frame = Frame(id: nat, buf: Buffer, format: PixFormat)

  /** Observable state of the board. */
  datatype BoardState = BoardState(
    captures: seq<Option<Capture>>,  // outcomes of the coming capture attempts
    gets: nat,                       // number of `esp_camera_fb_get` calls so far
    checkedOut: set<nat>,            // frames handed out and not yet returned
    elapsedMs: nat,                  // time spent in `vTaskDelay`
    led: bool)                       // LED level: true is 1 (on)
  {
    /** Every frame out of the pool came from an earlier `fb_get` call. */
    ghost predicate Valid() {
      forall id :: id in checkedOut ==> id < gets
    }
  }

  /** `esp_camera_fb_get`: the next scripted outcome, stamped with the call number. */
  function FbGet(b: BoardState): (r: (Option<Frame>, BoardState))
    ensures r.1.gets == b.gets + 1 && r.1.elapsedMs == b.elapsedMs && r.1.led == b.led
    ensures r.0.Some? <==> |b.captures| > 0 && b.captures[0].Some?
    ensures r.0.None? ==> r.1.checkedOut == b.checkedOut
    ensures r.0.Some? ==> r.0.value.id == b.gets && r.1.checkedOut == b.checkedOut + {b.gets}
    ensures r.0.Some? ==> |b.captures| > 0 && b.captures[0] == Some(Capture(r.0.value.buf, r.0.value.format))
    ensures r.1.captures == if |b.captures| == 0 then [] else b.captures[1..]
    ensures b.Valid() ==> r.1.Valid()
  {
    var rest := if |b.captures| == 0 then [] else b.captures[1..];
    var b' := b.(captures := rest, gets := b.gets + 1);
    if |b.captures| == 0 || b.captures[0].None? then
      (None, b')
    else
      var c := b.captures[0].value;
      (Some(Frame(b.gets, c.buf, c.format)), b'.(checkedOut := b.checkedOut + {b.gets}))
  }

  /** `esp_camera_fb_return`: only a frame that is checked out may be returned. */
  function FbReturn(b: BoardState, f: Frame): (r: BoardState)
    requires f.id in b.checkedOut
    ensures r.checkedOut == b.checkedOut - {f.id} && |r.checkedOut| == |b.checkedOut| - 1
    ensures r.captures == b.captures && r.gets == b.gets && r.elapsedMs == b.elapsedMs && r.led == b.led
    ensures b.Valid() ==> r.Valid()
  {
    b.(checkedOut := b.checkedOut - {f.id})
  }

  /** `vTaskDelay(pdMS_TO_TICKS(ms))`. */
  function Delayed(b: BoardState, ms: nat): (r: BoardState)
    ensures r.elapsedMs == b.elapsedMs + ms
    ensures r.captures == b.captures && r.gets == b.gets && r.checkedOut == b.checkedOut && r.led == b.led
  {
    b.(elapsedMs := b.elapsedMs + ms)
  }

  /** `gpio_set_level(XIAO_LED_RGB_GPIO, on ? 1 : 0)`. */
  function LedSet(b: BoardState, on: bool): (r: BoardState)
    ensures r.led == on
    ensures r.captures == b.captures && r.gets == b.gets && r.checkedOut == b.checkedOut && r.elapsedMs == b.elapsedMs
  {
    b.(led := on)
  }

  /** The board as the firmware sees it: every call changes it in place. */
  class Board {
    var captures: seq<Option<Capture>>
    var gets: nat
    var checkedOut: set<nat>
    var elapsedMs: nat
    var led: bool

    function State(): BoardState
      reads this
    {
      BoardState(captures, gets, checkedOut, elapsedMs, led)
    }

    ghost predicate Valid()
      reads this
    {
      State().Valid()
    }

    /** A board with no frame out and the LED off (`app_main` clears it first). */
    constructor (script: seq<Option<Capture>>)
      ensures State() == BoardState(script, 0, {}, 0, false)
      ensures Valid()
    {
      captures, gets, checkedOut, elapsedMs, led := script, 0, {}, 0, false;
    }

    method Get() returns (fb: Option<Frame>)
      modifies this
      ensures (fb, State()) == FbGet(old(State()))
    {
      fb := None;
      if |captures| > 0 && captures[0].Some? {
        var c := captures[0].value;
        fb := Some(Frame(gets, c.buf, c.format));
        checkedOut := checkedOut + {gets};
      }
      captures := if |captures| == 0 then [] else captures[1..];
      gets := gets + 1;
    }

    method Return(f: Frame)
      requires f.id in checkedOut
      modifies this
      ensures State() == FbReturn(old(State()), f)
    {
      checkedOut := checkedOut - {f.id};
    }

    method Delay(ms: nat)
      modifies this
      ensures State() == Delayed(old(State()), ms)
    {
      elapsedMs := elapsedMs + ms;
    }

    method SetLed(on: bool)
      modifies this
      ensures State() == LedSet(old(State()), on)
    {
      led := on;
    }
  }
}
