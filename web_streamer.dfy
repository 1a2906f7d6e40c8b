/**
 * The FrontEnd of the web streamer: it keeps the four velocity axes and the airborne gate
 * in its fields, changes them in place as key events arrive, and forwards them to the
 * vehicle on every timer tick while airborne. Each method is proved against the value-level
 * state machine of module Control.
 */
module WebStreamer {
  import opened Vehicle
  import opened Control

  /** How a run ended: setup failed at step `step`, or the loop was entered. */
  datatype RunResult = SetupFailed(step: nat) | Finished(progress: Progress)

  /**
   * The setup calls, in order, as the log records them: `answers[i]` is what the i-th call
   * returned. A run that stops at a failed call makes only the calls up to that one.
   */
  function SetupCommands(speed: int, answers: seq<bool>): (r: seq<Command>)
    requires |answers| <= 4
    ensures |r| == |answers|
    ensures forall i :: 0 <= i < |r| ==> Answering(r[i]) && r[i].ok == answers[i]
    ensures |r| > 0 ==> r[0] == Connect(answers[0])
    ensures |r| > 1 ==> r[1] == SetSpeed(speed, answers[1])
    ensures forall c :: c in r ==> !c.Takeoff? && !c.Land?
  {
    var calls := [Connect(true), SetSpeed(speed, true), StreamOff(true), StreamOn(true)];
    seq(|answers|, i requires 0 <= i < |answers| => calls[i].(ok := answers[i]))
  }

  /** The answers of a setup that fails at call `step`: every earlier call succeeded. */
  function FailedAt(step: nat): (answers: seq<bool>)
    ensures |answers| == step + 1 && !answers[step]
    ensures forall i :: 0 <= i < step ==> answers[i]
  {
    seq(step, _ => true) + [false]
  }

  class FrontEnd {
    const tello: Tello
    /** The speed requested from the vehicle at setup. */
    const speed: int

    var forBackVelocity: int
    var leftRightVelocity: int
    var upDownVelocity: int
    var yawVelocity: int
    var sendRcControl: bool
    /** The process-wide request to leave the control loop. */
    var shouldStop: bool

    /** The fields, as the value Control reasons about. */
    function State(): Pilot
      reads this
    {
      Pilot(Velocity(forBackVelocity, leftRightVelocity, upDownVelocity, yawVelocity),
            sendRcControl, shouldStop)
    }

    constructor ()
      ensures State() == Initial
      ensures speed == 10 && fresh(tello) && tello.log == []
    {
      tello := new Tello();
      speed := 10;
      forBackVelocity, leftRightVelocity, upDownVelocity, yawVelocity := 0, 0, 0, 0;
      sendRcControl := false;
      shouldStop := false;
    }

    /** Sets the velocity of the axis `key` drives. */
    method KeyDown(key: Key)
      modifies this`forBackVelocity, this`leftRightVelocity, this`upDownVelocity, this`yawVelocity
      ensures State() == old(State()).(velocity := Control.KeyDown(old(State()).velocity, key))
    {
      if key == Up {
        forBackVelocity := S;
      } else if key == Down {
        forBackVelocity := -S;
      } else if key == Left {
        leftRightVelocity := -S;
      } else if key == Right {
        leftRightVelocity := S;
      } else if key == KeyW {
        upDownVelocity := S;
      } else if key == KeyS {
        upDownVelocity := -S;
      } else if key == KeyA {
        yawVelocity := -S;
      } else if key == KeyD {
        yawVelocity := S;
      }
    }

    /**
     * Resets the velocity of the axis `key` drives, or issues the one-shot command bound to
     * it. A command that raises is caught here: the assignment after it is skipped. `ok`
     * records whether the command returned normally.
     */
    method KeyUp(key: Key) returns (ghost ok: bool)
      modifies this`forBackVelocity, this`leftRightVelocity, this`upDownVelocity, this`yawVelocity
      modifies this`sendRcControl, tello
      ensures var r := Control.KeyUp(old(State()), key, ok);
              State() == r.pilot && tello.log == old(tello.log) + r.sent
    {
      ok := true;
      if key == Up || key == Down {
        forBackVelocity := 0;
      } else if key == Left || key == Right {
        leftRightVelocity := 0;
      } else if key == KeyW || key == KeyS {
        upDownVelocity := 0;
      } else if key == KeyA || key == KeyD {
        yawVelocity := 0;
      } else if key == KeyT {
        var returned := tello.Takeoff();
        ok := returned;
        if returned {
          sendRcControl := true;
        }
      } else if key == KeyL {
        var returned := tello.Land();
        ok := returned;
        if returned {
          sendRcControl := false;
        }
      } else if key == KeyY {
        var returned := tello.GetTemperature();
        ok := returned;
      } else if key == KeyB {
        var returned := tello.GetBattery();
        ok := returned;
      }
    }

    /** Forwards the four axes to the vehicle while airborne. */
    method Update()
      modifies tello
      ensures tello.log == old(tello.log) + Control.Update(State())
    {
      if sendRcControl {
        tello.SendRcControl(leftRightVelocity, forBackVelocity, upDownVelocity, yawVelocity);
      }
    }

    /** Routes one event as the loop in Run does; `ok` is the vehicle's answer, if it was asked. */
    method HandleEvent(event: Event) returns (ghost ok: bool)
      modifies this`forBackVelocity, this`leftRightVelocity, this`upDownVelocity, this`yawVelocity
      modifies this`sendRcControl, this`shouldStop, tello
      ensures var d := Dispatch(old(State()), event, ok);
              State() == d.pilot && tello.log == old(tello.log) + d.sent
    {
      ok := true;
      match event {
        case TimerEvent =>
          Update();
        case QuitEvent =>
          shouldStop := true;
        case KeyDownEvent(key) =>
          if key == Escape {
            shouldStop := true;
          } else {
            KeyDown(key);
          }
        case KeyUpEvent(key) =>
          ok := KeyUp(key);
        case OtherEvent =>
      }
    }

    /** Routes the events of one poll, in order; `oks[i]` is the vehicle's answer to `events[i]`. */
    method DispatchEvents(events: seq<Event>) returns (ghost oks: seq<bool>)
      modifies this`forBackVelocity, this`leftRightVelocity, this`upDownVelocity, this`yawVelocity
      modifies this`sendRcControl, this`shouldStop, tello
      ensures |oks| == |events|
      ensures var b := Batch(old(State()), events, oks);
              State() == b.pilot && tello.log == old(tello.log) + b.sent
    {
      ghost var start, log0 := State(), tello.log;
      oks := [];
      var i := 0;
      while i < |events|
        invariant i <= |events| && |oks| == i
        invariant var b := Batch(start, events[..i], oks);
                  State() == b.pilot && tello.log == log0 + b.sent
      {
        var ok := HandleEvent(events[i]);
        BatchSnoc(start, events, i, oks, ok);
        oks := oks + [ok];
        i := i + 1;
      }
      assert events[..|events|] == events;
    }

    /**
     * Sets the vehicle up, then runs the control loop over `polls` (what each pass of the
     * loop reads: the pending events and whether the video feed has stopped). Setup failing
     * at any step returns at once, without the teardown call; every exit from the loop ends
     * with it. `okss` records the vehicle's answers to the events.
     */
    method Run(polls: seq<Poll>) returns (result: RunResult, ghost okss: seq<seq<bool>>)
      modifies this`forBackVelocity, this`leftRightVelocity, this`upDownVelocity, this`yawVelocity
      modifies this`sendRcControl, this`shouldStop, tello
      ensures result.SetupFailed? ==>
                && result.step < 4
                && State() == old(State())
                && tello.log == old(tello.log) + SetupCommands(speed, FailedAt(result.step))
      ensures result.Finished? ==>
                && Aligned(polls, okss)
                && var r := Loop(old(State()).(shouldStop := false), polls, okss);
                && State() == r.pilot
                && result.progress == r.progress
                && tello.log == old(tello.log) + SetupCommands(speed, [true, true, true, true])
                                + [GetFrameRead] + r.sent + (if r.progress.Running? then [] else [End])
    {
      okss := [];
      ghost var log0 := tello.log;
      var ok := tello.Connect();
      if !ok {
        assert SetupCommands(speed, FailedAt(0)) == [Connect(false)];
        return SetupFailed(0), okss;
      }
      ok := tello.SetSpeed(speed);
      if !ok {
        assert SetupCommands(speed, FailedAt(1)) == [Connect(true), SetSpeed(speed, false)];
        return SetupFailed(1), okss;
      }
      ok := tello.StreamOff();
      if !ok {
        assert SetupCommands(speed, FailedAt(2)) == [Connect(true), SetSpeed(speed, true), StreamOff(false)];
        return SetupFailed(2), okss;
      }
      ok := tello.StreamOn();
      if !ok {
        assert SetupCommands(speed, FailedAt(3))
            == [Connect(true), SetSpeed(speed, true), StreamOff(true), StreamOn(false)];
        return SetupFailed(3), okss;
      }
      tello.GetFrameRead();
      ghost var start := State();
      assert start == old(State());
      assert SetupCommands(speed, [true, true, true, true])
          == [Connect(true), SetSpeed(speed, true), StreamOff(true), StreamOn(true)];
      assert tello.log == log0 + SetupCommands(speed, [true, true, true, true]) + [GetFrameRead];
      log0 := tello.log;
      var progress;
      progress, okss := ControlLoop(polls);
      ghost var r := Loop(start.(shouldStop := false), polls, okss);
      assert State() == r.pilot && progress == r.progress && tello.log == log0 + r.sent;
      if !progress.Running? {
        tello.End();
      }
      result := Finished(progress);
    }

    /**
     * One pass of the loop body: handle the polled events, then stop the frame reader if
     * the feed reports that it has stopped (the loop then leaves).
     */
    method Pass(poll: Poll) returns (ghost oks: seq<bool>)
      modifies this`forBackVelocity, this`leftRightVelocity, this`upDownVelocity, this`yawVelocity
      modifies this`sendRcControl, this`shouldStop, tello
      ensures |oks| == |poll.events|
      ensures var it := Iteration(old(State()), poll, oks);
              State() == it.pilot && tello.log == old(tello.log) + it.sent
    {
      oks := DispatchEvents(poll.events);
      if poll.feedStopped {
        tello.StopFrameRead();
      }
    }

    /**
     * The loop of Run: while no stop is requested, handle the events of the next poll, then
     * leave if the video feed has stopped, stopping its reader.
     */
    method ControlLoop(polls: seq<Poll>) returns (progress: Progress, ghost okss: seq<seq<bool>>)
      modifies this`forBackVelocity, this`leftRightVelocity, this`upDownVelocity, this`yawVelocity
      modifies this`sendRcControl, this`shouldStop, tello
      ensures Aligned(polls, okss)
      ensures var r := Loop(old(State()).(shouldStop := false), polls, okss);
              && State() == r.pilot
              && progress == r.progress
              && tello.log == old(tello.log) + r.sent
    {
      shouldStop := false;
      okss := [];
      ghost var start, log0 := State(), tello.log;
      var i := 0;
      var feedEnded := false;
      while !shouldStop && !feedEnded && i < |polls|
        invariant 0 <= i <= |polls| && Aligned(polls[..i], okss)
        invariant var r := Loop(start, polls[..i], okss);
                  && State() == r.pilot && tello.log == log0 + r.sent
                  && r.progress == (if feedEnded then FeedEnded else if shouldStop then Stopped else Running)
      {
        var oks := Pass(polls[i]);
        LoopSnoc(start, polls, i, okss, oks);
        feedEnded := polls[i].feedStopped;
        okss := okss + [oks];
        i := i + 1;
      }
      progress := if feedEnded then FeedEnded else if shouldStop then Stopped else Running;
      LoopPadded(start, polls, i, okss);
      okss := okss + Pad(polls[i..]);
    }
  }
}
