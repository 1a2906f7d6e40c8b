# Tello web streamer: keyboard flight control, as a verified model

This project models the `FrontEnd` controller of DJITelloPy's `tello_web_streamer.py`. It
also models the framing of the MJPEG stream that the Flask route serves.

`FrontEnd` works like this:
- It holds four velocity axes (forward/backward, left/right, up/down, yaw).
- It holds a "send rc control" gate, which opens on takeoff and closes on landing.
- It reads and writes a process-wide `should_stop` flag (cleared before the loop, set by
  window close and Escape).
- Its `run` method sets the drone up with four calls (connect, set speed, stream off,
  stream on), each of which may fail; the first failure returns at once. It then fetches the frame reader and loops.
- Each pass of the loop handles the pending pygame events:
  - the 50 ms timer sends the four axes when airborne;
  - window close and Escape request the stop;
  - a key press sets one axis to ±60;
  - a key release zeroes that axis, or takes off, lands, or queries temperature or battery.
- The pass then leaves if the video feed has stopped.
- Every normal exit from the loop (a stop request or a stopped feed) ends with `tello.end()`.

The model has these modules:
- `Vehicle`: the SDK seen from outside. `Tello` appends every call to a ghost command log.
  Calls that can fail answer nondeterministically, and each such call's log entry carries
  its answer (`Takeoff(ok)`, `Connect(ok)`, ...).
- `Control`: the controller as a value-level state machine. Each layer is one function:
  - `KeyDown`, `KeyUp`, `Update`;
  - one event (`Dispatch`);
  - one poll's events (`Batch`);
  - one pass (`Iteration`);
  - the loop (`Loop`).
  
  Lemmas state what the program promises about these.
- `WebStreamer`: the class `FrontEnd`. Its fields are the ones the source updates in place.
  Each method's `ensures` ties the new fields and the new command log to the matching
  `Control` function applied to the old state.
- `Framing`: one multipart part per encoded frame, its inverse `Unchunk`, and one pass of
  the generator.

The vehicle's answers are inputs to the specification functions. They are ghost
out-parameters of the methods:
- `ok` says whether a flight or query call returned normally;
- `okss` lists these answers poll by poll.

Because the commands the specification sends carry these answers, and each method's
`ensures` equates the vehicle's log with what the specification sends, `ok` and `okss` must
be the answers the vehicle logged. A method that, say, opened the gate after a takeoff that
raised would not meet its contract.

## Model

| member | source | states |
|---|---|---|
| WebStreamer.FrontEnd.constructor | DJITelloPy-master/tello_web_streamer.py:44-54 | the controller starts with all axes at rest, the gate closed, no stop requested, speed 10 and no command sent |
| Control.Velocity.With | DJITelloPy-master/tello_web_streamer.py:47-51 | setting one axis sets exactly that axis and keeps the other three |
| Control.Binding | DJITelloPy-master/tello_web_streamer.py:28-33 | the documented key map: arrows, W/S and A/D each drive one axis with sign +1 or -1; exactly T, L, Y, B, Escape and every other key drive no axis |
| Control.KeyDown | DJITelloPy-master/tello_web_streamer.py:117-137 | a bound key sets its axis to +S or -S as the key map says; an unbound key leaves the velocity unchanged |
| Control.KeyDownDrivesAxis | DJITelloPy-master/tello_web_streamer.py:117-137 | a bound key sets exactly its own axis to +S or -S, as the key map says; any other key leaves the velocity unchanged |
| Control.KeyDownKeepsRange | DJITelloPy-master/tello_web_streamer.py:117-137 | after a key press every axis is still 0, +S or -S |
| WebStreamer.FrontEnd.KeyDown | DJITelloPy-master/tello_web_streamer.py:117-137 | the fields after a key press are the old state with its velocity replaced by the key-down velocity; the gate, the stop flag and the command log are untouched |
| Control.KeyUp | DJITelloPy-master/tello_web_streamer.py:139-164 | a key release never touches the stop flag and sends at most one command |
| Control.KeyUpEffects | DJITelloPy-master/tello_web_streamer.py:139-164 | releasing a bound key zeroes its axis and sends nothing; T and L send takeoff or land, and open or close the gate only when the call returned normally; Y and B send their query and change nothing; any other key does nothing |
| Control.KeyUpKeepsRange | DJITelloPy-master/tello_web_streamer.py:139-164 | after a key release every axis is still 0, +S or -S |
| WebStreamer.FrontEnd.KeyUp | DJITelloPy-master/tello_web_streamer.py:139-164 | the fields and the command log after a key release are the ones the key-up transition gives for `ok`, and `ok` is the answer the vehicle logged for the takeoff, land or query call; so the gate moves only on a call that returned normally |
| Control.Update | DJITelloPy-master/tello_web_streamer.py:166-170 | while airborne, a tick sends exactly one rc command carrying left/right, forward/backward, up/down and yaw in that order; while grounded it sends nothing |
| WebStreamer.FrontEnd.Update | DJITelloPy-master/tello_web_streamer.py:166-170 | the command log grows by exactly what the update transition sends from the current fields |
| Control.Dispatch | DJITelloPy-master/tello_web_streamer.py:84-95 | one event sends at most one command, and a stop request is never withdrawn |
| Control.DispatchEffects | DJITelloPy-master/tello_web_streamer.py:84-95 | a tick only sends the update; Quit and Escape request the stop and do nothing else; the stop flag is set exactly by Quit or Escape; key presses send nothing; only ticks send rc commands; the gate moves only on a takeoff or landing that returned normally |
| Control.DispatchKeepsRange | DJITelloPy-master/tello_web_streamer.py:84-95 | every event keeps each axis at 0, +S or -S |
| Control.DispatchSendsWithinLimit | DJITelloPy-master/tello_web_streamer.py:166-170 | from axes in range, every rc command sent has all four arguments within -100..100 |
| WebStreamer.FrontEnd.HandleEvent | DJITelloPy-master/tello_web_streamer.py:85-95 | the fields and the command log after one event are the ones the dispatch transition gives |
| Control.Batch | DJITelloPy-master/tello_web_streamer.py:84-95 | handling a poll's events sends at most one command per event and never withdraws a stop request |
| Control.BatchSnoc | DJITelloPy-master/tello_web_streamer.py:84-95 | handling one more event extends the batch by exactly that event's dispatch |
| Control.BatchKeepsRange | DJITelloPy-master/tello_web_streamer.py:84-95 | a whole poll's events keep the axes in range, and every rc command they send is within the vehicle's limits |
| WebStreamer.FrontEnd.DispatchEvents | DJITelloPy-master/tello_web_streamer.py:84-95 | after the events of one poll, handled in order, the fields and the log are those of the batch transition over the same events and answers |
| Control.RcAtMostOnePerTick | DJITelloPy-master/tello_web_streamer.py:84-95 | a poll's events send no more rc commands than they contain timer events |
| Control.GroundedSendsNoRc | DJITelloPy-master/tello_web_streamer.py:153-158 | from the ground, with no takeoff key release, the gate stays closed and no rc command is sent |
| Control.AirborneSendsEveryTick | DJITelloPy-master/tello_web_streamer.py:166-170 | airborne, with no landing key release, the gate stays open and every tick sends exactly one rc command |
| Control.RcCountAppend | DJITelloPy-master/tello_web_streamer.py:166-170 | appending at most one command adds one rc command exactly when that command is an rc command |
| Control.LastKeyDownWins | DJITelloPy-master/tello_web_streamer.py:122-137 | of two presses on the same axis, the last one alone decides the velocity |
| Control.ReleaseEitherKeyStopsAxis | DJITelloPy-master/tello_web_streamer.py:145-152 | with both keys of an axis held, releasing either one stops the axis and sends nothing; the other held key is not restored |
| Control.OppositeKeys | DJITelloPy-master/tello_web_streamer.py:126-129 | Left then Right leaves left/right at +S; releasing Right then stops it at 0 |
| Control.TakeoffThenForward | DJITelloPy-master/tello_web_streamer.py:153-170 | from the initial state, a successful takeoff, Up pressed and one tick send exactly the takeoff and rc(0, 60, 0, 0) |
| Control.LandThenTick | DJITelloPy-master/tello_web_streamer.py:156-170 | after a successful landing, a tick sends nothing, whatever the axes hold |
| Control.Iteration | DJITelloPy-master/tello_web_streamer.py:84-99 | a pass whose feed has stopped ends with stopping the frame reader and leaves the loop; otherwise the loop goes on exactly when no stop was requested |
| WebStreamer.FrontEnd.Pass | DJITelloPy-master/tello_web_streamer.py:84-99 | the fields and the log after one pass are those of the pass transition |
| Control.Loop | DJITelloPy-master/tello_web_streamer.py:82-99 | a loop still running has not been asked to stop; a loop that left by a stop request has the flag set; no polls means no change, and the loop counts as stopped when the flag was already set |
| Control.LoopSnoc | DJITelloPy-master/tello_web_streamer.py:82-99 | a loop still running after some polls is extended by exactly one more pass |
| Control.LoopPadded | DJITelloPy-master/tello_web_streamer.py:82-99 | once the loop has left, or every poll is read, the answers for unread polls do not matter |
| Control.LoopIgnoresAfterStop | DJITelloPy-master/tello_web_streamer.py:82-99 | once the loop has left, later polls and answers change neither the state nor the commands sent |
| Control.LoopKeepsRange | DJITelloPy-master/tello_web_streamer.py:82-99 | over the whole loop the axes stay in range, and every rc command sent is within the vehicle's limits |
| WebStreamer.FrontEnd.ControlLoop | DJITelloPy-master/tello_web_streamer.py:80-99 | the loop clears the stop flag, then its fields, log and exit reason are those of the loop transition over the polls read |
| WebStreamer.SetupCommands | DJITelloPy-master/tello_web_streamer.py:61-77 | setup calls are logged in order, connecting first and then setting the requested speed, each with the answer it returned; none of them is a takeoff or landing |
| WebStreamer.FailedAt | DJITelloPy-master/tello_web_streamer.py:61-77 | the answers of a setup that fails at a given call: every earlier call succeeded and that one failed |
| WebStreamer.FrontEnd.Run | DJITelloPy-master/tello_web_streamer.py:59-115 | a run fails at setup step k exactly when the k-th setup call is the first to answer false: the log then holds the earlier calls answering true and that call answering false, nothing more, and the fields are unchanged; a run that reaches the loop had all four setup calls answer true, and its log is those calls, the frame-reader fetch, the loop's commands and, when the loop left, the teardown call |
| Framing.Chunk | DJITelloPy-master/tello_web_streamer.py:203-204 | a part is the header plus the image plus CRLF in length, and it opens with the boundary line of boundary "frame" |
| Framing.Unchunk | DJITelloPy-master/tello_web_streamer.py:203-204 | an image read back from a part is as long as the part minus its header and trailer (that it is exactly those bytes follows from `ChunkUnchunk`) |
| Framing.UnchunkChunk | DJITelloPy-master/tello_web_streamer.py:203-211 | every framed image reads back as itself |
| Framing.ChunkUnchunk | DJITelloPy-master/tello_web_streamer.py:203-211 | every well-formed part is the framing of the image it carries |
| Framing.NextPart | DJITelloPy-master/tello_web_streamer.py:188-204 | a pass of the generator yields a part exactly when a frame is published and its encoding succeeds, and that part carries the encoded image |

## Left out

- Rendering is not modelled. This covers the pygame window, filling, rotating and flipping the frame, and `time.sleep(1 / FPS)`. When these calls return normally they affect neither the controller's state nor the commands sent. An exception raised by one of them would leave `run` without the `tello.end()` call; the model does not cover that exit.
- The 50 ms timer's schedule is not modelled. Timer ticks are events in the input polls.
- The pygame event queue and `frame_read.stopped` are inputs. Each pass of the loop reads one `Poll`.
- The run is over a finite list of polls. If the list runs out while the loop is still running, the run ends with progress `Running` and no teardown call. The real loop would keep polling.
- Publishing `global_frame` under the lock, the threads, and the Flask app and its routes are not modelled. Neither are argument parsing and `KeyboardInterrupt`. `NextPart` takes the current frame as an argument.
- JPEG encoding (`cv2.imencode`) is a parameter of `NextPart` that may fail.
- The generator's endless busy-wait is not modelled. `NextPart` is one pass of it.
- The SDK's internals are not modelled: the UDP protocol, timeouts and retries. Each call is an entry in a ghost log, and its outcome is nondeterministic.
- The printed messages and the exception that `key_up` prints are not modelled.
- WebStreamer.FrontEnd.Update: assumes `send_rc_control` never raises. In the source that call sits outside any `try`, so an exception there would end the thread.
- WebStreamer.FrontEnd.Run: `should_stop` is a module global in the source. Here it is a field of `FrontEnd`.
- WebStreamer.FrontEnd.Run: the `break` at line 99 is modelled as a loop guard on a "feed ended" flag.
- WebStreamer.FrontEnd.Run: `frame_read.stop()` is logged as `StopFrameRead` in the same command log as the drone's calls.
- The velocity range is not a class invariant. The range bound (every axis 0 or ±60, every rc argument within ±100) is proved on the model by `Control.LoopKeepsRange`, not carried by the class's methods.
- The pygame key codes are abstracted to the datatype `Key`. Any unbound key is `OtherKey`.
- Pygame events other than the timer, quit, key-down and key-up are all `OtherEvent`.

Facts about the code that the model records as written:
- Takeoff and landing send one command on every T or L key release, even when already airborne or grounded. Only the gate update is idempotent.
- No code closes the gate when the connection is lost.
- The class docstring calls A counter-clockwise and D clockwise, while the comments in `keydown` name the directions the other way round. The code sets yaw to -60 for A and +60 for D, and the model uses those values.
