/**
 * The vehicle collaborator, seen only from outside: every call the streamer makes on the
 * Tello SDK (the drone object and its frame reader) is appended to a ghost command log, and
 * a call that can fail reports, nondeterministically, whether it returned normally, and that
 * answer is part of the call's log entry.
 */
module Vehicle {

  /**
   * One call on the SDK, with the arguments the streamer passes and, for a call that
   * answers, its answer `ok`: for the setup calls the boolean they return, for the flight
   * and query calls whether they returned normally rather than raising.
   */
  datatype Command =
    | Connect(ok: bool)
    | SetSpeed(speed: int, ok: bool)
    | StreamOff(ok: bool)
    | StreamOn(ok: bool)
    | GetFrameRead
    | Takeoff(ok: bool)
    | Land(ok: bool)
    | GetTemperature(ok: bool)
    | GetBattery(ok: bool)
    | Rc(leftRight: int, forwardBackward: int, upDown: int, yaw: int)
    | StopFrameRead
    | End

  /** The calls that answer, and so carry `ok`. */
  predicate Answering(c: Command) {
    !(c.GetFrameRead? || c.Rc? || c.StopFrameRead? || c.End?)
  }

  class Tello {
    /** The calls received so far, oldest first. */
    ghost var log: seq<Command>

    constructor ()
      ensures log == []
    {
      log := [];
    }

    /** Setup calls answer with a boolean, recorded in the log; any answer is possible. */
    method Connect() returns (ok: bool)
      modifies this
      ensures log == old(log) + [Command.Connect(ok)]
    {
      ok :| true;
      log := log + [Command.Connect(ok)];
    }

    method SetSpeed(speed: int) returns (ok: bool)
      modifies this
      ensures log == old(log) + [Command.SetSpeed(speed, ok)]
    {
      ok :| true;
      log := log + [Command.SetSpeed(speed, ok)];
    }

    method StreamOff() returns (ok: bool)
      modifies this
      ensures log == old(log) + [Command.StreamOff(ok)]
    {
      ok :| true;
      log := log + [Command.StreamOff(ok)];
    }

    method StreamOn() returns (ok: bool)
      modifies this
      ensures log == old(log) + [Command.StreamOn(ok)]
    {
      ok :| true;
      log := log + [Command.StreamOn(ok)];
    }

    method GetFrameRead()
      modifies this
      ensures log == old(log) + [Command.GetFrameRead]
    {
      log := log + [Command.GetFrameRead];
    }

    /** Flight commands raise on failure; `ok`, recorded in the log, is false exactly when the call raised. */
    method Takeoff() returns (ok: bool)
      modifies this
      ensures log == old(log) + [Command.Takeoff(ok)]
    {
      ok :| true;
      log := log + [Command.Takeoff(ok)];
    }

    method Land() returns (ok: bool)
      modifies this
      ensures log == old(log) + [Command.Land(ok)]
    {
      ok :| true;
      log := log + [Command.Land(ok)];
    }

    method GetTemperature() returns (ok: bool)
      modifies this
      ensures log == old(log) + [Command.GetTemperature(ok)]
    {
      ok :| true;
      log := log + [Command.GetTemperature(ok)];
    }

    method GetBattery() returns (ok: bool)
      modifies this
      ensures log == old(log) + [Command.GetBattery(ok)]
    {
      ok :| true;
      log := log + [Command.GetBattery(ok)];
    }

    method SendRcControl(leftRight: int, forwardBackward: int, upDown: int, yaw: int)
      modifies this
      ensures log == old(log) + [Rc(leftRight, forwardBackward, upDown, yaw)]
    {
      log := log + [Rc(leftRight, forwardBackward, upDown, yaw)];
    }

    /** Stops the background frame reader obtained from GetFrameRead. */
    method StopFrameRead()
      modifies this
      ensures log == old(log) + [Command.StopFrameRead]
    {
      log := log + [Command.StopFrameRead];
    }

    /** The teardown call that releases the SDK's resources. */
    method End()
      modifies this
      ensures log == old(log) + [Command.End]
    {
      log := log + [Command.End];
    }
  }
}
