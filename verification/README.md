# ESP32 camera streamer — a verified model

This project models the two firmware entry files of a XIAO ESP32-S3 camera
streamer:

- `camera_streamer_backup.c`, which streams MJPEG with motion detection and
  answers a `/status` query;
- `camera_streamer.c`, the live version, which streams without detection and
  boots the board.

The model covers:

- the motion detector (`detect_motion`): its strided byte comparison, its
  baseline capture with retries, its motion flag and 32-bit event counter,
  and its swapping of the previous frame;
- both `stream_handler` loops, each pass sending a part header, the JPEG
  payload and the delimiter, each send gated on the previous one, with every
  frame returned to the pool;
- the text of the part headers, of the status JSON and of the delimiter;
- the Wi-Fi station's event handler, with its bounded retries and sticky
  CONNECTED and FAIL bits;
- the start-up order of `app_main`: camera, then Wi-Fi and its wait, then the
  web server.

The hardware and the network are given as scripts:

- the board holds the outcomes of its coming captures (`Camera.Board`);
- the HTTP link holds the results of its coming sends (`Httpd.Link`);
- the station receives a sequence of events.

Every `esp_camera_fb_get` call is numbered, and a frame carries its call
number. The set of numbers checked out proves that each frame is returned
exactly once.

Each imperative method is proved against a pure function of the old state.
The properties are proved about those functions:

- `DetectMotion` against `DetectStep`;
- `LiveStreamHandler` and `LivePart` against `LiveRun` and `LiveFrame`;
- `MotionStreamHandler` and `MotionPart` against `MotionRun` and `MotionFrame`;
- `Station.HandleEvent` against `WifiStep`;
- `AppMain` against `Boot`.

Files: `esp.dfy` (shared types), `camera.dfy`, `httpd.dfy`, `decimal.dfy`,
`formats.dfy`, `motion.dfy`, `stream.dfy`, `wifi.dfy` and `startup.dfy`.

The model keeps these behaviours exactly as the code has them:

- The station gives up on the sixth consecutive disconnect. It makes five
  retries and raises FAIL only when the retry count is already 5.
- On both paths of `detect_motion` the new previous frame is a fresh capture.
  It is never the frame being streamed.
- The delimiter is sent with a declared length of 14 for an 11-character
  literal. `PartFormat.BoundaryChunk` keeps that length.
- On the baseline path, when every capture failed, `detect_motion` executes
  `return ESP_FAIL` although it returns `void`. The model treats that as an
  early return that leaves the flag alone.

## Model

| member | source | states |
|---|---|---|
| Camera.FbGet | main/camera_streamer_backup.c:291 | a capture consumes one scripted outcome and counts one call; it yields a frame exactly when that outcome is a capture; a frame it yields is stamped with the call number, carries the scripted bytes and format, and becomes checked out; a failed capture leaves the frames out unchanged; validity (every frame out came from an earlier call) is kept |
| Camera.FbReturn | main/camera_streamer_backup.c:325 | only a checked-out frame can be returned, and returning it removes exactly that frame from the checked-out set, which shrinks by one |
| Camera.Board.Get | main/camera_streamer.c:211 | the board's new state and the result are those of `FbGet` on the old state |
| Camera.Board.Return | main/camera_streamer.c:237 | the board's new state is `FbReturn` of the old one |
| Camera.Delayed | main/camera_streamer.c:244 | a pause adds its milliseconds to the time spent waiting and changes nothing else on the board |
| Camera.Board.Delay | main/camera_streamer.c:244 | the board's new state is `Delayed` of the old one |
| Camera.LedSet | main/camera_streamer_backup.c:272-275 | setting the LED level leaves the board's captures, call count, frames out and time unchanged |
| Camera.Board.SetLed | main/camera_streamer_backup.c:272-275 | the board's new state is `LedSet` of the old one |
| Httpd.Link.SetType | main/camera_streamer.c:204 | the response's content type becomes the given one; nothing is sent and no header is added |
| Httpd.Link.SetHeader | main/camera_streamer.c:205-206 | the header is appended after those set before; nothing is sent and the content type is kept |
| Httpd.Link.SendChunk | main/camera_streamer.c:229 | a send returns the next scripted result (failure once the client is gone), consumes it and logs the chunk with its declared length |
| Decimal.Render | main/camera_streamer_backup.c:311 | the `%u` rendering of a number is a non-empty run of decimal digits, and only 0 renders with a leading 0 |
| Decimal.ParseRender | main/camera_streamer_backup.c:311 | reading back the `%u` rendering of a number gives the number |
| Decimal.RenderUint32Length | main/camera_streamer_backup.c:311 | a 32-bit value renders to at most ten digits |
| PartFormat.MotionPartHeader | main/camera_streamer_backup.c:309-314 | the motion part header is at most 76 characters, so it fits the 128-byte `part_buf` |
| PartFormat.PartHeader | main/camera_streamer.c:223-227 | the live part header is at most 56 characters, so it fits the 128-byte `part_buf` |
| PartFormat.StatusJson | main/camera_streamer_backup.c:428-431 | the status body is at most 42 characters, so it fits the 100-byte `json` buffer |
| PartFormat.Snprintf | main/camera_streamer_backup.c:309 | `snprintf` returns the untruncated length, and the buffer holds the whole text exactly when it is shorter than the capacity, and otherwise its first capacity-1 characters (room for the NUL) |
| PartFormat.HeaderChunk | main/camera_streamer_backup.c:315 | a header that fits is sent whole with its own length; one that did not fit would declare more bytes than the buffer holds |
| PartFormat.BoundaryChunk | main/camera_streamer_backup.c:322 | the delimiter is CRLF "--frame" CRLF, 11 characters, sent with declared length 14, past the literal and its NUL |
| PartFormat.MotionPartHeaderRoundTrip | main/camera_streamer_backup.c:309-314 | a reader recovers from the motion header its Content-Length and the X-Motion value ("detected" for true, "none" for false) |
| PartFormat.PartHeaderRoundTrip | main/camera_streamer.c:223-227 | a reader recovers from the live header its Content-Length and no X-Motion line, and the header ends with the blank line |
| PartFormat.StatusJsonRoundTrip | main/camera_streamer_backup.c:428-431 | a reader recovers the motion flag ("true"/"false") and the exact count from the status body |
| MotionDetection.CountChangedSamples | main/camera_streamer_backup.c:251-259 | the sampling loop's count equals the number of positions 0, 10, 20, ... below len/10 where the bytes differ by more than 20 |
| MotionDetection.ChangedSamples | main/camera_streamer_backup.c:251-259 | `changed_pixels` never exceeds the number of positions the loop visits, ceil((len/10)/10) |
| MotionDetection.ShortFrameNeverMoves | main/camera_streamer_backup.c:252-266 | frames shorter than 10010 bytes can never exceed the 100-sample motion minimum |
| MotionDetection.UnsampledBytesIgnored | main/camera_streamer_backup.c:252-258 | changing bytes that the loop does not visit does not change the count |
| MotionDetection.NoSampledDeltaNoChange | main/camera_streamer_backup.c:255-256 | frames that agree at every visited position count zero changes |
| MotionDetection.NextFlags | main/camera_streamer_backup.c:266-276 | a comparison sets the flag to "more than 100 changed samples", a new baseline lowers it, a lost capture keeps it, and the counter advances (by one, modulo 2^32) exactly when the flag rises |
| MotionDetection.CountIsRisingEdges | main/camera_streamer_backup.c:266-276 | over any series of calls the counter rises by the number of false-to-true transitions of the flag, modulo 2^32 |
| MotionDetection.SustainedMotionCountsOnce | main/camera_streamer_backup.c:266-271 | a run of frames that all show motion counts one event if the flag was down and none if it was up |
| MotionDetection.QuietNeverCounts | main/camera_streamer_backup.c:273-276 | a run of quiet comparisons lowers the flag and leaves the counter unchanged |
| MotionDetection.RetryCapture | main/camera_streamer_backup.c:234-240 | the retry loop does nothing once a frame is in hand or the attempts are used up, makes at most one `fb_get` call per attempt left, leaves the LED alone, and leaves a new frame out only when an attempt succeeded |
| MotionDetection.BaselineCapture | main/camera_streamer_backup.c:230-240 | the baseline capture makes one to four `fb_get` calls, leaves the LED alone, and leaves a new frame out only when one succeeded |
| MotionDetection.BaselineCaptureBounds | main/camera_streamer_backup.c:230-245 | the baseline capture makes one to four calls, stops at the first success, waits 100 ms only before the third and fourth, and when all fail leaves no new frame out |
| MotionDetection.DetectStep | main/camera_streamer_backup.c:223-277 | one call only consumes capture outcomes from the front of the script: what is left is a suffix of what was there |
| MotionDetection.DetectStepFlags | main/camera_streamer_backup.c:266-276 | a call moves the flag and counter as the flag machine `NextFlags` says for what the call observed |
| MotionDetection.BaselinePath | main/camera_streamer_backup.c:225-248 | on the baseline path nothing is compared: the counter and the LED are unchanged, the old frame is returned, at most four calls and 200 ms of `vTaskDelay` are spent, and the flag drops unless every capture failed, which leaves no previous frame and the flag untouched |
| MotionDetection.ComparisonPath | main/camera_streamer_backup.c:251-276 | on the comparison path the flag becomes exactly "more than 100 changed samples", the LED follows it, the counter rises by one only on a false-to-true transition, and the previous frame becomes one fresh capture |
| MotionDetection.DetectStepOwnership | main/camera_streamer_backup.c:223-277 | across a call the streamed frame stays out, the old previous frame is returned exactly once, and the only other frame left out is the new previous frame |
| MotionDetection.MotionDetector.DetectMotion | main/camera_streamer_backup.c:223-277 | the detector's and the board's new states are those of `DetectStep` on the old ones |
| MotionDetection.MotionDetector.StatusBody | main/camera_streamer_backup.c:428-431 | the status body reads back as the detector's current flag and counter and fits the 100-byte buffer |
| MjpegStream.SendPart | main/camera_streamer_backup.c:315-323 | the header is always sent, the payload only after a successful header, the delimiter only after a successful payload; the second chunk is exactly the payload's bytes with their length and the third the delimiter; the part's result is the last send's, and it is OK only if all three went out |
| MjpegStream.EmitPart | main/camera_streamer.c:229-235 | the sends made and the result are those of `SendPart` on the link's script |
| MjpegStream.PartFramed | main/camera_streamer_backup.c:309-323 | a part whose header declares its payload's length, followed by well-framed parts, is well framed if it went out whole or is the last |
| MjpegStream.FramedOpensWithHeader | main/camera_streamer.c:223-234 | a stream opens with a part header, never with the delimiter: there is no opening delimiter |
| MjpegStream.LiveFrame | main/camera_streamer.c:211-237 | one live pass makes one capture and no pause, returns its frame, sends a part exactly when the capture gave a JPEG frame, stops at the first failed send, ends with OK when nothing was sent and otherwise with the last send's result, continues exactly when the whole part went out, and the payload it sends is the captured frame's bytes |
| MjpegStream.LiveStops | main/camera_streamer.c:212-220 | a pass that ends the loop is a complete session |
| MjpegStream.LiveContinues | main/camera_streamer.c:239-244 | a complete part, the 90 ms pause and a session from there form a session |
| MjpegStream.LiveRun | main/camera_streamer.c:197-249 | a live session of n captures pauses 90 ms between them; it fails exactly when a send failed, with that send's error, after a JPEG capture; it returns OK when the last capture failed or was not JPEG, after 3(n-1) chunks; every frame taken is returned; part k carries the bytes of the k-th capture |
| MjpegStream.LiveRunFramed | main/camera_streamer.c:223-235 | every live part declares its payload's length and has no X-Motion line |
| MjpegStream.LivePart | main/camera_streamer.c:211-237 | one pass of the live loop changes the board and link as `LiveFrame` says |
| MjpegStream.LiveStreamHandler | main/camera_streamer.c:197-249 | the handler sets the stream type and the two extra headers and then does exactly what `LiveRun` says on the board and the link |
| MjpegStream.LiveRunAfterPass | main/camera_streamer.c:210-245 | after one pass the live session either is complete or continues as the session from the paused board |
| MjpegStream.TakeAndDetect | main/camera_streamer_backup.c:291-299 | the frame taken and the detector's new frame are distinct, and once the streamed frame is returned the only change to the frames out is the detector's swap |
| MjpegStream.MotionFrame | main/camera_streamer_backup.c:291-325 | one backup pass keeps the detector's frame accounted for, sends a part exactly when the capture gave a JPEG frame, stops at the first failed send, ends with ESP_FAIL when nothing was sent and otherwise with the last send's result, and continues exactly when the whole part went out |
| MjpegStream.MotionFrameSends | main/camera_streamer_backup.c:291-319 | the detector runs on every frame a pass captured, JPEG or not, before the format check, and is left alone when the capture failed; a JPEG frame goes out as the part `SendPart` sends for its bytes, with a header of its length and the detector's new flag; the pass consumes capture outcomes only from the front of the script |
| MjpegStream.MotionPartReportsFlag | main/camera_streamer_backup.c:299-314 | the X-Motion line reports the detector's flag after it has seen that very frame, and the Content-Length is the frame's length |
| MjpegStream.MotionStops | main/camera_streamer_backup.c:292-305 | a backup pass that ends the loop is a complete session |
| MjpegStream.MotionContinues | main/camera_streamer_backup.c:325-329 | a complete part followed by a session from where it left the detector and the board is a session |
| MjpegStream.MotionRun | main/camera_streamer_backup.c:282-333 | a backup session never returns OK: a failed send gives its error, and a lost capture or non-JPEG frame after complete parts gives ESP_FAIL; every frame taken for streaming is returned and only the detector's frame is left out |
| MjpegStream.MotionRunStreamsCaptures | main/camera_streamer_backup.c:290-325 | every backup part carries the bytes of a JPEG frame captured during the session, and the parts follow the order of the captures |
| MjpegStream.MotionRunGoesOn | main/camera_streamer_backup.c:290-329 | the backup loop goes on while captures give JPEG frames and sends succeed: with a script of JPEG captures and every send succeeding, the session runs the script dry, makes at most three sends per capture, none of which failed, and ends with ESP_FAIL on the capture that finds the script exhausted |
| MjpegStream.MotionRunWholeParts | main/camera_streamer_backup.c:315-328 | such a session sends whole parts only |
| MjpegStream.MotionRunFramed | main/camera_streamer_backup.c:309-323 | every backup part declares its payload's length and carries an X-Motion line |
| MjpegStream.MotionPart | main/camera_streamer_backup.c:291-325 | one pass of the backup loop changes the detector, the board and the link as `MotionFrame` says |
| MjpegStream.MotionStreamHandler | main/camera_streamer_backup.c:282-333 | the handler sets the stream type and then does exactly what `MotionRun` says on the detector, the board and the link |
| MjpegStream.MotionRunAfterPass | main/camera_streamer_backup.c:290-329 | after one pass the backup session either is complete or continues as the session from where the pass left off |
| MjpegStream.StatusHandler | main/camera_streamer_backup.c:425-436 | the status query sets the JSON type and the CORS header and sends one body that reads back as the detector's flag and counter |
| WifiStation.WifiStep | main/camera_streamer.c:82-101 | the handler makes a connect call exactly on start and on a disconnect with retries left; a disconnect with none left raises FAIL, an address raises CONNECTED and resets the count; neither bit is lowered and the count stays within 0..5 |
| WifiStation.RunAppend | main/camera_streamer.c:82-101 | handling two series of events one after the other is handling their concatenation |
| WifiStation.RunKeepsRetryBound | main/camera_streamer.c:87-98 | the retry count stays within 0..5 over any events |
| WifiStation.BitsSticky | main/camera_streamer_backup.c:72-91 | neither bit is ever cleared and the connect calls never decrease |
| WifiStation.DisconnectBurst | main/camera_streamer_backup.c:77-84 | k disconnects retry (one connect call each) until the count reaches 5, and any further one raises FAIL without a call |
| WifiStation.GotIpThenDisconnects | main/camera_streamer_backup.c:77-89 | after an address the count is 0 and CONNECTED is up; five disconnects are retried and the sixth raises FAIL |
| WifiStation.RetryIsStreak | main/camera_streamer.c:87-98 | from start-up the retry count is the number of disconnects since the last address, capped at 5 |
| WifiStation.ConnectedIffGotIp | main/camera_streamer.c:95-99 | from start-up CONNECTED is up exactly when an address has been obtained |
| WifiStation.FailIffLongStreak | main/camera_streamer.c:87-94 | from start-up FAIL is up exactly when at some point more than five disconnects followed the last address |
| WifiStation.Station.HandleEvent | main/camera_streamer.c:82-101 | the handler changes the station exactly as `WifiStep` says and keeps the retry count within 0..5 |
| Startup.FirstSignal | main/camera_streamer.c:141-145 | the wait returns at the first point where a bit is up, and it never returns when no bit is ever up |
| Startup.Boot | main/camera_streamer.c:414-420 | Wi-Fi starts exactly when the camera initialised; the server starts only after Wi-Fi, and exactly when a bit was eventually raised, connected or failed; the report is the CONNECTED bit |
| Startup.WaitSeesOneBit | main/camera_streamer.c:141-151 | when the wait returns exactly one bit is up, so in the model CONNECTED-before-FAIL never has both to choose from |
| Startup.GivingUpStillServes | main/camera_streamer.c:147-151 | a station that only meets disconnects gives up after six, the failure is reported and the server still starts |
| Startup.ConnectingServes | main/camera_streamer.c:141-151 | up to five disconnects and then an address: the connection is reported and the server starts |
| Startup.AppMain | main/camera_streamer.c:414-420 | start-up does exactly what `Boot` says |

## Left out

- Pin and sensor configuration, the `init_camera` setter sequences and the camera driver's own capture: a capture is a scripted outcome, and the camera's initialisation is a boolean input to `Startup.AppMain`.
- NVS initialisation, PSRAM logging (floating point) and `ESP_ERROR_CHECK` aborts: the model assumes those calls succeed.
- The HTML index pages and `start_webserver`'s route registration: starting the server is a flag in `Startup.BootResult`.
- FreeRTOS concurrency: the event handler runs on another task in the firmware, and the blocking wait of `wifi_init_sta` is modelled by handing the station its events in order. Bits raised by two events between two wake-ups are not modelled.
- The LED blink loop at the end of `app_main`, the task delays' real timing (only their total is kept), and log output.
- The `#else` branch of camera_streamer.c (lines 251-353), which is compiled out.
- `httpd_resp_send` of the status handler is modelled as one logged chunk with its own length; the HTTP framing around it is not.
- The pool size (`fb_count`): captures never block for want of a free buffer, and holding the detector's frame does not starve the stream.
- MjpegStream.MotionRun: the session contract, with `MotionRunStreamsCaptures`, says each part carries the bytes of a JPEG capture of the session, in capture order, but not which capture; that it is the first capture of its pass is stated pass by pass (`MotionFrameSends`), because the detector's own captures sit between the streamed ones and a session-level statement would have to replay the detector.
- Handling of events after start-up: the station object exists only inside `Startup.AppMain`.
