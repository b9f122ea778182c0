/** The `/stream` handlers: an endless loop that captures a frame, sends it
    as one part of a `multipart/x-mixed-replace` response (header, JPEG
    bytes, delimiter), returns the frame to the pool and goes on until a
    capture or a send fails.

    Two versions exist. The live one (camera_streamer.c) has no motion
    detection, sends no X-Motion line, pauses 90 ms between frames and
    returns ESP_OK when a capture fails or a frame is not JPEG. The backup
    one (camera_streamer_backup.c) runs the motion detector on every frame,
    reports its flag in an X-Motion line and returns ESP_FAIL in those two
    cases. In both, a failed send ends the session with the send's error. */
module MjpegStream {
  import opened Esp
  import opened Camera
  import opened Httpd
  import opened PartFormat
  import opened MotionDetection

  const FRAME_PAUSE_MS: nat := 90

  // ---------------------------------------------------------------------------
  // One part: header, payload, delimiter, each gated on the previous send
  // ---------------------------------------------------------------------------

  datatype PartResult = PartResult(sent: seq<Chunk>, outcomes: seq<EspErr>, res: EspErr)

  /** The sends of one part given the coming send results: the header is
      always sent, the payload only if the header went out, the delimiter
      only if the payload went out. */
  function SendPart(os: seq<EspErr>, header: string, payload: Buffer): (r: PartResult)
    ensures 1 <= |r.sent| <= 3
    ensures r.outcomes == Drop(os, |r.sent|)
    ensures forall k :: 0 <= k < |r.sent| - 1 ==> Outcome(os, k) == ESP_OK
    ensures r.res == Outcome(os, |r.sent| - 1)
    ensures |r.sent| < 3 ==> r.res != ESP_OK
    ensures r.sent[0] == HeaderChunk(header)
    ensures |r.sent| >= 2 ==> r.sent[1] == Data(payload, |payload|)
    ensures |r.sent| == 3 ==> r.sent[2] == BoundaryChunk()
  {
    var h := HeaderChunk(header);
    var d := Data(payload, |payload|);
    if Outcome(os, 0) != ESP_OK then PartResult([h], Drop(os, 1), Outcome(os, 0))
    else if Outcome(os, 1) != ESP_OK then PartResult([h, d], Drop(os, 2), Outcome(os, 1))
    else PartResult([h, d, BoundaryChunk()], Drop(os, 3), Outcome(os, 2))
  }

  /** Lines 315-323 of the backup file and 229-235 of the live one. */
  method EmitPart(link: Link, header: string, payload: Buffer) returns (res: EspErr)
    modifies link
    ensures var p := SendPart(old(link.outcomes), header, payload);
      link.sent == old(link.sent) + p.sent && link.outcomes == p.outcomes && res == p.res
    ensures link.contentType == old(link.contentType) && link.headers == old(link.headers)
  {
    ghost var os := link.outcomes;
    res := link.SendChunk(HeaderChunk(header));
    if res == ESP_OK {
      OutcomeAfterDrop(os, 1, 0);
      res := link.SendChunk(Data(payload, |payload|));
      DropDrop(os, 1, 1);
    }
    if res == ESP_OK {
      OutcomeAfterDrop(os, 2, 0);
      res := link.SendChunk(BoundaryChunk());
      DropDrop(os, 2, 1);
    }
  }

  // ---------------------------------------------------------------------------
  // What the server is handed
  // ---------------------------------------------------------------------------

  /** The chunks the handler hands to the server form a sequence of parts,
      each a header whose declared Content-Length is the byte count of the
      payload chunk after it, then the delimiter; the last part may be cut
      short by a failed send. The header carries an X-Motion line exactly
      when withMotion holds. The delimiter chunk declares three bytes more
      than its text, so on the wire the NUL and two bytes past the literal
      precede each following header. */
  ghost predicate Framed(log: seq<Chunk>, withMotion: bool)
    decreases |log|
  {
    |log| == 0 ||
    (&& log[0].Text? && log[0].len == |log[0].text|
     && ParseHeader(log[0].text).Some?
     && ParseHeader(log[0].text).value.motion.Some? == withMotion
     && (|log| >= 2 ==>
           && log[1].Data? && log[1].len == |log[1].bytes|
           && ParseHeader(log[0].text).value.length == log[1].len)
     && (|log| >= 3 ==> log[2] == BoundaryChunk() && Framed(log[3..], withMotion)))
  }

  /** A part followed by well-framed parts is well framed, provided the part
      is complete or nothing follows it. */
  lemma PartFramed(os: seq<EspErr>, header: string, payload: Buffer, withMotion: bool, rest: seq<Chunk>)
    requires |header| < PartBufSize
    requires ParseHeader(header).Some? && ParseHeader(header).value.length == |payload|
    requires ParseHeader(header).value.motion.Some? == withMotion
    requires Framed(rest, withMotion)
    requires |SendPart(os, header, payload).sent| == 3 || rest == []
    ensures Framed(SendPart(os, header, payload).sent + rest, withMotion)
  {
    var log := SendPart(os, header, payload).sent + rest;
    if |SendPart(os, header, payload).sent| == 3 {
      assert log[3..] == rest;
    }
  }

  /** The delimiter is not a part header: a stream never opens with it. */
  lemma FramedOpensWithHeader(log: seq<Chunk>, withMotion: bool)
    requires Framed(log, withMotion) && |log| > 0
    ensures log[0] != BoundaryChunk()
  {
    assert ParseHeader(Boundary).None? by {
      assert |Boundary| < |HeaderHead|;
    }
  }

  /** How a session used the coming send results: its n sends consumed the
      first n of them, and every send but the last succeeded. */
  predicate StopsAtFirstFailure(os: seq<EspErr>, n: nat, left: seq<EspErr>) {
    left == Drop(os, n) && forall k :: 0 <= k < n - 1 ==> Outcome(os, k) == ESP_OK
  }

  /** A complete part followed by more sends: the bookkeeping composes. */
  lemma ContinueAfterPart(os: seq<EspErr>, left: seq<EspErr>, n: nat, left': seq<EspErr>)
    requires StopsAtFirstFailure(os, 3, left) && Outcome(os, 2) == ESP_OK
    requires StopsAtFirstFailure(left, n, left')
    ensures StopsAtFirstFailure(os, 3 + n, left')
    ensures n > 0 ==> Outcome(left, n - 1) == Outcome(os, 3 + n - 1)
  {
    DropDrop(os, 3, n);
    forall k | 0 <= k < 3 + n - 1
      ensures Outcome(os, k) == ESP_OK
    {
      if k >= 3 {
        OutcomeAfterDrop(os, 3, k - 3);
      }
    }
    if n > 0 {
      OutcomeAfterDrop(os, 3, n - 1);
    }
  }

  lemma AppendAssoc(a: seq<Chunk>, b: seq<Chunk>, c: seq<Chunk>)
    ensures (a + b) + c == a + (b + c)
  {
  }

  /** A capture outcome that yields a JPEG frame. */
  predicate IsJpeg(c: Option<Capture>) {
    c.Some? && c.value.format == Jpeg
  }

  /** Part k of the chunks carries the bytes of the k-th capture, which gave
      a JPEG frame. */
  ghost predicate CarriesCaptures(sent: seq<Chunk>, caps: seq<Option<Capture>>)
    decreases |sent|
  {
    |sent| == 0 ||
    (&& |caps| > 0 && IsJpeg(caps[0])
     && (|sent| >= 2 ==> sent[1] == Data(caps[0].value.buf, |caps[0].value.buf|))
     && (|sent| > 3 ==> CarriesCaptures(sent[3..], caps[1..])))
  }

  // ---------------------------------------------------------------------------
  // The live stream (camera_streamer.c)
  // ---------------------------------------------------------------------------

  datatype Session = Session(board: BoardState, outcomes: seq<EspErr>, sent: seq<Chunk>, res: EspErr)

  /** What one pass of the live loop does: it makes one capture and no pause
      and returns the frame it took; it sends a part exactly when the
      capture gave a JPEG frame, stopping at the first failed send; it ends
      with ESP_OK when nothing was sent and with the last send's result
      otherwise; and the loop goes on exactly when the whole part went out. */
  ghost predicate LivePass(b: BoardState, os: seq<EspErr>, s: Session, more: bool) {
    && s.board.gets == b.gets + 1 && s.board.elapsedMs == b.elapsedMs
    && (b.Valid() ==> s.board.Valid() && s.board.checkedOut == b.checkedOut)
    && |s.sent| <= 3
    && StopsAtFirstFailure(os, |s.sent|, s.outcomes)
    && (|s.sent| > 0 <==> |b.captures| > 0 && IsJpeg(b.captures[0]))
    && (|s.sent| >= 2 ==> s.sent[1] == Data(b.captures[0].value.buf, |b.captures[0].value.buf|))
    && (|s.sent| == 0 ==> s.res == ESP_OK)
    && (|s.sent| > 0 ==> s.res == Outcome(os, |s.sent| - 1))
    && (more <==> |s.sent| > 0 && s.res == ESP_OK)
    && (more ==> |s.sent| == 3 && |b.captures| > 0 && s.board.captures == b.captures[1..])
  }

  /** One pass of the live loop body: take a frame, send it as one part and
      return it. The flag says whether the loop goes on (after its 90 ms
      pause). */
  function LiveFrame(b: BoardState, os: seq<EspErr>): (r: (Session, bool))
    ensures LivePass(b, os, r.0, r.1)
  {
    var (fb, b1) := FbGet(b);
    if fb.None? then (Session(b1, os, [], ESP_OK), false)
    else
      var f := fb.value;
      if f.format != Jpeg then (Session(FbReturn(b1, f), os, [], ESP_OK), false)
      else
        var p := SendPart(os, PartHeader(|f.buf|), f.buf);
        (Session(FbReturn(b1, f), p.outcomes, p.sent, p.res), p.res == ESP_OK)
  }

  /** What a whole live session does. It makes `calls` captures; each one
      before the last gave a JPEG frame that went out whole and was followed
      by the 90 ms pause. The session fails exactly when a send failed, with
      that send's error, and then the last capture was a JPEG frame; it
      returns ESP_OK when the last capture failed or was not JPEG. Every
      frame taken is returned. */
  ghost predicate LiveSession(b: BoardState, os: seq<EspErr>, r: Session) {
    var calls := r.board.gets - b.gets;
    && calls >= 1
    && r.board.elapsedMs == b.elapsedMs + 90 * (calls - 1)
    && StopsAtFirstFailure(os, |r.sent|, r.outcomes)
    && (r.res != ESP_OK <==> |r.sent| > 0 && Outcome(os, |r.sent| - 1) != ESP_OK)
    && (r.res != ESP_OK ==> r.res == Outcome(os, |r.sent| - 1))
    && (r.res != ESP_OK ==> calls <= |b.captures| && IsJpeg(b.captures[calls - 1]))
    && (r.res == ESP_OK ==> calls > |b.captures| || !IsJpeg(b.captures[calls - 1]))
    && (r.res == ESP_OK ==> |r.sent| == 3 * (calls - 1))
    && (r.res != ESP_OK ==> 3 * (calls - 1) < |r.sent| <= 3 * calls)
    && (b.Valid() ==> r.board.Valid() && r.board.checkedOut == b.checkedOut)
    && CarriesCaptures(r.sent, b.captures)
  }

  /** A pass after which the loop stops is a whole session. */
  lemma LiveStops(b: BoardState, os: seq<EspErr>, s: Session)
    requires LivePass(b, os, s, false)
    ensures LiveSession(b, os, s)
  {
    assert CarriesCaptures(s.sent, b.captures);
  }

  /** A pass that sent a whole part, followed by a session from the board
      after the pause, is a session. */
  lemma LiveContinues(b: BoardState, os: seq<EspErr>, s: Session, rest: Session)
    requires LivePass(b, os, s, true)
    requires LiveSession(Delayed(s.board, FRAME_PAUSE_MS), s.outcomes, rest)
    ensures LiveSession(b, os, rest.(sent := s.sent + rest.sent))
  {
    var next := Delayed(s.board, FRAME_PAUSE_MS);
    ContinueAfterPart(os, s.outcomes, |rest.sent|, rest.outcomes);
    var last := rest.board.gets - next.gets - 1;
    assert 0 <= last && last + 1 < |b.captures| ==> b.captures[last + 1] == next.captures[last];
    var all := s.sent + rest.sent;
    assert all[1] == s.sent[1] && all[3..] == rest.sent;
  }

  /** The live session from a board and the coming send results. */
  function LiveRun(b: BoardState, os: seq<EspErr>): (r: Session)
    ensures LiveSession(b, os, r)
    decreases |b.captures|
  {
    var s, more := LiveFrame(b, os).0, LiveFrame(b, os).1;
    if !more then
      LiveStops(b, os, s);
      s
    else
      var rest := LiveRun(Delayed(s.board, FRAME_PAUSE_MS), s.outcomes);
      LiveContinues(b, os, s, rest);
      rest.(sent := s.sent + rest.sent)
  }

  /** Every live part declares its payload's length and has no X-Motion line. */
  lemma {:induction false} LiveRunFramed(b: BoardState, os: seq<EspErr>)
    ensures Framed(LiveRun(b, os).sent, false)
    decreases |b.captures|
  {
    var s, more := LiveFrame(b, os).0, LiveFrame(b, os).1;
    var (fb, b1) := FbGet(b);
    if fb.Some? && fb.value.format == Jpeg {
      var f := fb.value;
      assert s.sent == SendPart(os, PartHeader(|f.buf|), f.buf).sent;
      PartHeaderRoundTrip(|f.buf|);
      if more {
        var b3 := Delayed(s.board, FRAME_PAUSE_MS);
        LiveRunFramed(b3, s.outcomes);
        PartFramed(os, PartHeader(|f.buf|), f.buf, false, LiveRun(b3, s.outcomes).sent);
      } else {
        PartFramed(os, PartHeader(|f.buf|), f.buf, false, []);
      }
    }
  }

  /** One pass of the live loop body (lines 211-237 of camera_streamer.c):
      take a frame, send it as one part unless the capture failed or the
      frame is not JPEG, and return it. */
  method LivePart(board: Board, link: Link) returns (res: EspErr, more: bool)
    modifies board, link
    ensures var r := LiveFrame(old(board.State()), old(link.outcomes));
      && board.State() == r.0.board
      && link.outcomes == r.0.outcomes
      && link.sent == old(link.sent) + r.0.sent
      && res == r.0.res && more == r.1
    ensures link.contentType == old(link.contentType) && link.headers == old(link.headers)
  {
    var fb := board.Get();
    if fb.None? {
      assert link.sent == old(link.sent) + [];
      return ESP_OK, false;
    }
    var f := fb.value;
    if f.format != Jpeg {
      board.Return(f);
      assert link.sent == old(link.sent) + [];
      return ESP_OK, false;
    }
    res := EmitPart(link, PartHeader(|f.buf|), f.buf);
    board.Return(f);
    more := res == ESP_OK;
  }

  /** `stream_handler` of camera_streamer.c (the live `#if 1` branch). */
  method LiveStreamHandler(board: Board, link: Link) returns (res: EspErr)
    modifies board, link
    ensures var s := LiveRun(old(board.State()), old(link.outcomes));
      && board.State() == s.board
      && link.outcomes == s.outcomes
      && link.sent == old(link.sent) + s.sent
      && res == s.res
    ensures link.contentType == StreamContentType
    ensures link.headers == old(link.headers) + [("Access-Control-Allow-Origin", "*"), ("X-Framerate", "30")]
  {
    res := ESP_OK;
    link.SetType(StreamContentType);
    link.SetHeader("Access-Control-Allow-Origin", "*");
    link.SetHeader("X-Framerate", "30");

    ghost var goal := LiveRun(board.State(), link.outcomes);
    assert goal == LiveRun(old(board.State()), old(link.outcomes));
    ghost var done: seq<Chunk> := [];
    ghost var sent0 := link.sent;
    while true
      invariant res == ESP_OK
      invariant link.sent == sent0 + done
      invariant Resumes(goal, done, LiveRun(board.State(), link.outcomes))
      invariant link.contentType == StreamContentType
      invariant link.headers == old(link.headers) + [("Access-Control-Allow-Origin", "*"), ("X-Framerate", "30")]
      decreases |board.captures|
    {
      ghost var b0 := board.State();
      ghost var os0 := link.outcomes;
      var more;
      res, more := LivePart(board, link);
      ghost var s := LiveFrame(b0, os0).0;
      LiveRunAfterPass(b0, os0, s, more, goal, done);
      AppendAssoc(sent0, done, s.sent);
      done := done + s.sent;
      if !more {
        break;
      }
      board.Delay(FRAME_PAUSE_MS);
    }
  }

  /** The session still to come, after `done` has been sent, completes goal. */
  ghost predicate Resumes(goal: Session, done: seq<Chunk>, s: Session) {
    goal == s.(sent := done + s.sent)
  }

  /** Loop bookkeeping of the live handler: one pass either ends the session
      or leaves the rest of it to the session from the paused board. */
  lemma LiveRunAfterPass(b: BoardState, os: seq<EspErr>, s: Session, more: bool, goal: Session, done: seq<Chunk>)
    requires LiveFrame(b, os) == (s, more)
    requires Resumes(goal, done, LiveRun(b, os))
    ensures !more ==> goal == s.(sent := done + s.sent)
    ensures more ==> Resumes(goal, done + s.sent, LiveRun(Delayed(s.board, FRAME_PAUSE_MS), s.outcomes))
  {
    if more {
      var rest := LiveRun(Delayed(s.board, FRAME_PAUSE_MS), s.outcomes);
      AppendAssoc(done, s.sent, rest.sent);
    }
  }

  // ---------------------------------------------------------------------------
  // The stream with motion detection (camera_streamer_backup.c)
  // ---------------------------------------------------------------------------

  datatype MotionSession = MotionSession(
    motion: MotionState, board: BoardState, outcomes: seq<EspErr>, sent: seq<Chunk>, res: EspErr)

  /** Set bookkeeping of one loop pass: take g, swap h for h2, give g back. */
  lemma ReturnAfterSwap(out: set<nat>, g: nat, h: set<nat>, h2: set<nat>)
    requires g !in out && g !in h2
    ensures (((out + {g}) - h) + h2) - {g} == (out - h) + h2
  {
  }

  /** One frame taken from a valid board, and the detector run on it, leave
      that frame checked out and the detector's frame distinct from it and
      newer than every frame out before; once the frame is returned, the
      only change to the frames out is the detector's swap of its previous
      frame. */
  lemma TakeAndDetect(m: MotionState, b: BoardState)
    requires b.Valid() && Holds(m, b)
    ensures var (fb, b1) := FbGet(b);
      fb.Some? ==>
        && Holds(m, b1) && b1.Valid() && fb.value.id in b1.checkedOut
        && (m.prev.Some? ==> m.prev.value.id != fb.value.id)
        && var (m2, b2) := DetectStep(m, fb.value, b1);
           fb.value.id in b2.checkedOut && b2.Valid() && Holds(m2, b2)
           && (m2.prev.Some? ==> m2.prev.value.id > fb.value.id)
           && FbReturn(b2, fb.value).checkedOut == (b.checkedOut - HeldIds(m)) + HeldIds(m2)
  {
    var (fb, b1) := FbGet(b);
    if fb.Some? {
      var f := fb.value;
      DetectStepOwnership(m, f, b1);
      var (m2, b2) := DetectStep(m, f, b1);
      if IsBaseline(m, f) {
        BaselinePath(m, f, b1);
      } else {
        ComparisonPath(m, f, b1);
      }
      ReturnAfterSwap(b.checkedOut, f.id, HeldIds(m), HeldIds(m2));
    }
  }

  /** What one pass of the backup loop does, from a valid board on which the
      detector holds its frame: the frames out afterwards are those out
      before, with the detector's previous frame swapped for its new one
      (the frame taken for streaming is returned); a part is sent exactly
      when the capture gave a JPEG frame; the pass ends with ESP_FAIL when
      nothing was sent and with the last send's result otherwise; and the
      loop goes on exactly when the whole part went out. */
  ghost predicate MotionPass(m: MotionState, b: BoardState, os: seq<EspErr>, s: MotionSession, more: bool) {
    && s.board.Valid() && Holds(s.motion, s.board)
    && s.board.checkedOut == (b.checkedOut - HeldIds(m)) + HeldIds(s.motion)
    && HeldIds(s.motion) !! (b.checkedOut - HeldIds(m))
    && |s.sent| <= 3
    && StopsAtFirstFailure(os, |s.sent|, s.outcomes)
    && (|s.sent| > 0 <==> |b.captures| > 0 && IsJpeg(b.captures[0]))
    && (|s.sent| == 0 ==> s.res == ESP_FAIL)
    && (|s.sent| > 0 ==> s.res == Outcome(os, |s.sent| - 1))
    && (more <==> s.res == ESP_OK)
    && (more ==> |s.sent| == 3 && |s.board.captures| < |b.captures|)
  }

  /** One pass of the backup loop body: take a frame, run the detector on it,
      send it as one part and return it. The flag says whether the loop goes
      on. */
  function MotionFrame(m: MotionState, b: BoardState, os: seq<EspErr>): (r: (MotionSession, bool))
    requires b.Valid() && Holds(m, b)
    ensures MotionPass(m, b, os, r.0, r.1)
  {
    TakeAndDetect(m, b);
    var (fb, b1) := FbGet(b);
    if fb.None? then (MotionSession(m, b1, os, [], ESP_FAIL), false)
    else
      var f := fb.value;
      var (m2, b2) := DetectStep(m, f, b1);
      if f.format != Jpeg then (MotionSession(m2, FbReturn(b2, f), os, [], ESP_FAIL), false)
      else
        var p := SendPart(os, MotionPartHeader(|f.buf|, m2.detected), f.buf);
        (MotionSession(m2, FbReturn(b2, f), p.outcomes, p.sent, p.res), p.res == ESP_OK)
  }

  /** What a backup pass does with the frame it took. When the capture gave
      a frame, JPEG or not, the detector runs on it before the format is
      checked; when the capture failed, the detector is left alone. A JPEG
      frame goes out as one part whose header carries the frame's length and
      the flag the detector reached on that frame. */
  lemma MotionFrameSends(m: MotionState, b: BoardState, os: seq<EspErr>)
    requires b.Valid() && Holds(m, b)
    ensures var s := MotionFrame(m, b, os).0;
      && (|b.captures| > 0 && b.captures[0].Some? ==>
            var f := Frame(b.gets, b.captures[0].value.buf, b.captures[0].value.format);
            && Holds(m, FbGet(b).1)
            && s.motion == DetectStep(m, f, FbGet(b).1).0
            && (f.format == Jpeg ==> s.sent == SendPart(os, MotionPartHeader(|f.buf|, s.motion.detected), f.buf).sent))
      && (|b.captures| == 0 || b.captures[0].None? ==> s.motion == m)
      && |s.board.captures| <= |b.captures| && s.board.captures == b.captures[|b.captures| - |s.board.captures|..]
  {
  }

  /** The X-Motion line of a pass's part reports the detector's flag after
      the detector has seen that part's frame, and its Content-Length is
      the frame's length. */
  lemma MotionPartReportsFlag(m: MotionState, b: BoardState, os: seq<EspErr>)
    requires b.Valid() && Holds(m, b)
    ensures var s := MotionFrame(m, b, os).0;
      |s.sent| > 0 ==>
        && |b.captures| > 0 && b.captures[0].Some? && s.sent[0].Text?
        && ParseHeader(s.sent[0].text) == Some(PartInfo(|b.captures[0].value.buf|, Some(s.motion.detected)))
  {
    var s := MotionFrame(m, b, os).0;
    if |s.sent| > 0 {
      MotionFrameSends(m, b, os);
      MotionPartHeaderRoundTrip(|b.captures[0].value.buf|, s.motion.detected);
    }
  }

  /** Two swaps of the detector's frame in a row are one swap. */
  lemma SwapTwice(out: set<nat>, h: set<nat>, h2: set<nat>, h3: set<nat>)
    requires h2 !! (out - h)
    ensures ((((out - h) + h2) - h2) + h3) == (out - h) + h3
  {
  }

  /** What a whole backup session does. It never ends with ESP_OK: when the
      last send failed it returns that send's error, and otherwise (a lost
      capture or a non-JPEG frame after complete parts) ESP_FAIL. Every
      frame taken for streaming is returned; the only change to the frames
      out is the detector's swap of its previous frame. */
  ghost predicate BackupSession(m: MotionState, b: BoardState, os: seq<EspErr>, r: MotionSession) {
    && r.res != ESP_OK
    && StopsAtFirstFailure(os, |r.sent|, r.outcomes)
    && (|r.sent| > 0 && Outcome(os, |r.sent| - 1) != ESP_OK ==> r.res == Outcome(os, |r.sent| - 1))
    && (|r.sent| == 0 || Outcome(os, |r.sent| - 1) == ESP_OK ==> r.res == ESP_FAIL && |r.sent| % 3 == 0)
    && r.board.Valid() && Holds(r.motion, r.board)
    && r.board.checkedOut == (b.checkedOut - HeldIds(m)) + HeldIds(r.motion)
    && HeldIds(r.motion) !! (b.checkedOut - HeldIds(m))
  }

  /** A pass after which the loop stops is a whole session. */
  lemma MotionStops(m: MotionState, b: BoardState, os: seq<EspErr>, s: MotionSession)
    requires MotionPass(m, b, os, s, false)
    ensures BackupSession(m, b, os, s)
  {
  }

  /** A pass that sent a whole part, followed by a session from where it
      left the detector and the board, is a session. */
  lemma MotionContinues(m: MotionState, b: BoardState, os: seq<EspErr>, s: MotionSession, rest: MotionSession)
    requires MotionPass(m, b, os, s, true)
    requires BackupSession(s.motion, s.board, s.outcomes, rest)
    ensures BackupSession(m, b, os, rest.(sent := s.sent + rest.sent))
  {
    ContinueAfterPart(os, s.outcomes, |rest.sent|, rest.outcomes);
    SwapTwice(b.checkedOut, HeldIds(m), HeldIds(s.motion), HeldIds(rest.motion));
  }

  /** The backup session from the detector, a board and the coming send
      results. */
  function MotionRun(m: MotionState, b: BoardState, os: seq<EspErr>): (r: MotionSession)
    requires b.Valid() && Holds(m, b)
    ensures BackupSession(m, b, os, r)
    decreases |b.captures|
  {
    var s, more := MotionFrame(m, b, os).0, MotionFrame(m, b, os).1;
    if !more then
      MotionStops(m, b, os, s);
      s
    else
      var rest := MotionRun(s.motion, s.board, s.outcomes);
      MotionContinues(m, b, os, s, rest);
      rest.(sent := s.sent + rest.sent)
  }

  /** A pass over a script of JPEG captures whose sends all succeed sends a
      whole part and goes on, and what it leaves is again such a script. */
  lemma PassGoesOn(m: MotionState, b: BoardState, os: seq<EspErr>, s: MotionSession, more: bool)
    requires MotionPass(m, b, os, s, more)
    requires |s.board.captures| <= |b.captures| && s.board.captures == b.captures[|b.captures| - |s.board.captures|..]
    requires |b.captures| > 0
    requires forall i :: 0 <= i < |b.captures| ==> IsJpeg(b.captures[i])
    requires forall k :: 0 <= k < 3 * |b.captures| ==> Outcome(os, k) == ESP_OK
    ensures more && |s.sent| == 3
    ensures forall i :: 0 <= i < |s.board.captures| ==> IsJpeg(s.board.captures[i])
    ensures forall k :: 0 <= k < 3 * |s.board.captures| ==> Outcome(s.outcomes, k) == ESP_OK
  {
    assert IsJpeg(b.captures[0]);
    assert Outcome(os, |s.sent| - 1) == ESP_OK;
    var later := s.board.captures;
    forall i | 0 <= i < |later|
      ensures IsJpeg(later[i])
    {
      assert later[i] == b.captures[|b.captures| - |later| + i];
    }
    forall k | 0 <= k < 3 * |later|
      ensures Outcome(s.outcomes, k) == ESP_OK
    {
      OutcomeAfterDrop(os, 3, k);
    }
  }

  /** The backup loop goes on while captures give JPEG frames and sends
      succeed: when every coming capture is a JPEG frame and every send the
      session can make succeeds, the session runs the script dry, sends
      only whole parts, and ends with ESP_FAIL on the capture that finds the
      script exhausted. */
  lemma {:induction false} MotionRunGoesOn(m: MotionState, b: BoardState, os: seq<EspErr>)
    requires b.Valid() && Holds(m, b)
    requires forall i :: 0 <= i < |b.captures| ==> IsJpeg(b.captures[i])
    requires forall k :: 0 <= k < 3 * |b.captures| ==> Outcome(os, k) == ESP_OK
    ensures var r := MotionRun(m, b, os);
      && r.board.captures == [] && r.res == ESP_FAIL
      && |r.sent| <= 3 * |b.captures|
      && (|r.sent| > 0 ==> Outcome(os, |r.sent| - 1) == ESP_OK)
    decreases |b.captures|
  {
    var s, more := MotionFrame(m, b, os).0, MotionFrame(m, b, os).1;
    MotionFrameSends(m, b, os);
    if |b.captures| > 0 {
      PassGoesOn(m, b, os, s, more);
      MotionRunGoesOn(s.motion, s.board, s.outcomes);
      var rest := MotionRun(s.motion, s.board, s.outcomes);
      assert MotionRun(m, b, os) == rest.(sent := s.sent + rest.sent);
      if |rest.sent| > 0 {
        OutcomeAfterDrop(os, 3, |rest.sent| - 1);
      }
    }
  }

  /** Such a session sends whole parts only: no part is cut short. */
  lemma MotionRunWholeParts(m: MotionState, b: BoardState, os: seq<EspErr>)
    requires b.Valid() && Holds(m, b)
    requires forall i :: 0 <= i < |b.captures| ==> IsJpeg(b.captures[i])
    requires forall k :: 0 <= k < 3 * |b.captures| ==> Outcome(os, k) == ESP_OK
    ensures |MotionRun(m, b, os).sent| % 3 == 0
  {
    MotionRunGoesOn(m, b, os);
  }

  /** Every backup part declares its payload's length and carries an X-Motion line. */
  lemma {:induction false} MotionRunFramed(m: MotionState, b: BoardState, os: seq<EspErr>)
    requires b.Valid() && Holds(m, b)
    ensures Framed(MotionRun(m, b, os).sent, true)
    decreases |b.captures|
  {
    var s, more := MotionFrame(m, b, os).0, MotionFrame(m, b, os).1;
    if |s.sent| > 0 {
      MotionFrameSends(m, b, os);
      var buf := b.captures[0].value.buf;
      var h := MotionPartHeader(|buf|, s.motion.detected);
      MotionPartHeaderRoundTrip(|buf|, s.motion.detected);
      if more {
        MotionRunFramed(s.motion, s.board, s.outcomes);
        PartFramed(os, h, buf, true, MotionRun(s.motion, s.board, s.outcomes).sent);
      } else {
        PartFramed(os, h, buf, true, []);
      }
    }
  }

  /** Each part of the chunks carries the bytes of a capture of caps that
      gave a JPEG frame, and each part's capture comes later in caps than
      the one before it. */
  ghost predicate StreamedFrom(sent: seq<Chunk>, caps: seq<Option<Capture>>)
    decreases |sent|
  {
    |sent| == 0 ||
    exists i :: 0 <= i < |caps| && IsJpeg(caps[i])
      && (|sent| >= 2 ==> sent[1] == Data(caps[i].value.buf, |caps[i].value.buf|))
      && (|sent| > 3 ==> StreamedFrom(sent[3..], caps[i + 1..]))
  }

  /** Parts streamed from a later stretch of the script were streamed from it. */
  lemma StreamedFromSuffix(sent: seq<Chunk>, caps: seq<Option<Capture>>, d: nat)
    requires d <= |caps| && StreamedFrom(sent, caps[d..])
    ensures StreamedFrom(sent, caps)
  {
    if |sent| > 0 {
      var i :| 0 <= i < |caps[d..]| && IsJpeg(caps[d..][i])
        && (|sent| >= 2 ==> sent[1] == Data(caps[d..][i].value.buf, |caps[d..][i].value.buf|))
        && (|sent| > 3 ==> StreamedFrom(sent[3..], caps[d..][i + 1..]));
      assert caps[d..][i] == caps[i + d];
      assert caps[d..][i + 1..] == caps[i + d + 1..];
    }
  }

  /** A part carrying the first capture, followed by parts streamed from
      what is left of the script after it, is streamed from the script. */
  lemma StreamedAfterPart(part: seq<Chunk>, rest: seq<Chunk>, caps: seq<Option<Capture>>, later: seq<Option<Capture>>)
    requires |caps| > 0 && IsJpeg(caps[0])
    requires 1 <= |part| <= 3 && (|part| >= 2 ==> part[1] == Data(caps[0].value.buf, |caps[0].value.buf|))
    requires |part| == 3 || rest == []
    requires |later| < |caps| && later == caps[|caps| - |later|..] && StreamedFrom(rest, later)
    ensures StreamedFrom(part + rest, caps)
  {
    var all := part + rest;
    if |part| == 3 {
      assert caps[1..][|caps| - |later| - 1..] == later;
      StreamedFromSuffix(rest, caps[1..], |caps| - |later| - 1);
      assert all[1] == part[1] && all[3..] == rest;
    } else {
      assert all == part;
    }
    assert caps[0 + 1..] == caps[1..];
  }

  /** Every backup part carries the bytes of a JPEG frame the camera
      captured during the session, and the parts follow the order of the
      captures: no frame is streamed twice and none out of order. */
  lemma {:induction false} MotionRunStreamsCaptures(m: MotionState, b: BoardState, os: seq<EspErr>)
    requires b.Valid() && Holds(m, b)
    ensures StreamedFrom(MotionRun(m, b, os).sent, b.captures)
    decreases |b.captures|
  {
    var s, more := MotionFrame(m, b, os).0, MotionFrame(m, b, os).1;
    if |s.sent| > 0 {
      MotionFrameSends(m, b, os);
      if more {
        var rest := MotionRun(s.motion, s.board, s.outcomes).sent;
        assert MotionRun(m, b, os).sent == s.sent + rest;
        MotionRunStreamsCaptures(s.motion, s.board, s.outcomes);
        StreamedAfterPart(s.sent, rest, b.captures, s.board.captures);
      } else {
        assert MotionRun(m, b, os).sent == s.sent + [];
        StreamedAfterPart(s.sent, [], b.captures, []);
      }
    }
  }

  /** One pass of the backup loop body (lines 291-325 of
      camera_streamer_backup.c): take a frame, run the detector on it, send
      it as one part unless the capture failed or the frame is not JPEG, and
      return it. */
  method MotionPart(det: MotionDetector, board: Board, link: Link) returns (res: EspErr, more: bool)
    requires board.Valid() && Holds(det.State(), board.State())
    modifies det, board, link
    ensures var r := MotionFrame(old(det.State()), old(board.State()), old(link.outcomes));
      && det.State() == r.0.motion
      && board.State() == r.0.board
      && link.outcomes == r.0.outcomes
      && link.sent == old(link.sent) + r.0.sent
      && res == r.0.res && more == r.1
    ensures link.contentType == old(link.contentType) && link.headers == old(link.headers)
  {
    TakeAndDetect(det.State(), board.State());
    var fb := board.Get();
    if fb.None? {
      assert link.sent == old(link.sent) + [];
      return ESP_FAIL, false;
    }
    var f := fb.value;
    det.DetectMotion(f, board);
    if f.format != Jpeg {
      board.Return(f);
      assert link.sent == old(link.sent) + [];
      return ESP_FAIL, false;
    }
    res := EmitPart(link, MotionPartHeader(|f.buf|, det.motionDetected), f.buf);
    board.Return(f);
    more := res == ESP_OK;
  }

  /** `stream_handler` of camera_streamer_backup.c. */
  method MotionStreamHandler(det: MotionDetector, board: Board, link: Link) returns (res: EspErr)
    requires board.Valid() && Holds(det.State(), board.State())
    modifies det, board, link
    ensures var s := MotionRun(old(det.State()), old(board.State()), old(link.outcomes));
      && det.State() == s.motion
      && board.State() == s.board
      && link.outcomes == s.outcomes
      && link.sent == old(link.sent) + s.sent
      && res == s.res
    ensures link.contentType == StreamContentType && link.headers == old(link.headers)
  {
    res := ESP_OK;
    link.SetType(StreamContentType);

    ghost var goal := MotionRun(det.State(), board.State(), link.outcomes);
    assert goal == MotionRun(old(det.State()), old(board.State()), old(link.outcomes));
    ghost var done: seq<Chunk> := [];
    ghost var sent0 := link.sent;
    while true
      invariant board.Valid() && Holds(det.State(), board.State())
      invariant link.sent == sent0 + done
      invariant MotionResumes(goal, done, MotionRun(det.State(), board.State(), link.outcomes))
      invariant link.contentType == StreamContentType && link.headers == old(link.headers)
      decreases |board.captures|
    {
      ghost var m0 := det.State();
      ghost var b0 := board.State();
      ghost var os0 := link.outcomes;
      var more;
      res, more := MotionPart(det, board, link);
      ghost var s := MotionFrame(m0, b0, os0).0;
      MotionRunAfterPass(m0, b0, os0, s, more, goal, done);
      AppendAssoc(sent0, done, s.sent);
      done := done + s.sent;
      if !more {
        break;
      }
    }
  }

  /** The backup session still to come, after `done` has been sent, completes goal. */
  ghost predicate MotionResumes(goal: MotionSession, done: seq<Chunk>, s: MotionSession) {
    goal == s.(sent := done + s.sent)
  }

  /** Loop bookkeeping of the backup handler: one pass either ends the
      session or leaves the rest of it to the session from where the pass
      left the detector and the board. */
  lemma MotionRunAfterPass(m: MotionState, b: BoardState, os: seq<EspErr>, s: MotionSession, more: bool,
                           goal: MotionSession, done: seq<Chunk>)
    requires b.Valid() && Holds(m, b)
    requires MotionFrame(m, b, os) == (s, more)
    requires MotionResumes(goal, done, MotionRun(m, b, os))
    ensures !more ==> goal == s.(sent := done + s.sent)
    ensures more ==> s.board.Valid() && Holds(s.motion, s.board)
    ensures more ==> MotionResumes(goal, done + s.sent, MotionRun(s.motion, s.board, s.outcomes))
  {
    if more {
      var rest := MotionRun(s.motion, s.board, s.outcomes);
      AppendAssoc(done, s.sent, rest.sent);
    }
  }

  // ---------------------------------------------------------------------------
  // The status query (camera_streamer_backup.c)
  // ---------------------------------------------------------------------------

  /** `status_handler`: a JSON snapshot of the detector's flag and counter,
      sent whole with its own length. */
  method StatusHandler(det: MotionDetector, link: Link) returns (res: EspErr)
    modifies link
    ensures |link.sent| == |old(link.sent)| + 1 && link.sent[..|old(link.sent)|] == old(link.sent)
    ensures var c := link.sent[|link.sent| - 1];
      && c.Text? && c.len == |c.text| < JsonBufSize
      && ParseStatus(c.text) == Some((det.motionDetected, det.motionCount as nat))
    ensures res == Outcome(old(link.outcomes), 0) && link.outcomes == Drop(old(link.outcomes), 1)
    ensures link.contentType == "application/json"
    ensures link.headers == old(link.headers) + [("Access-Control-Allow-Origin", "*")]
  {
    var json := det.StatusBody();
    link.SetType("application/json");
    link.SetHeader("Access-Control-Allow-Origin", "*");
    res := link.SendChunk(Text(json, |json|));
  }
}
