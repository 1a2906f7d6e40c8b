/**
 * The keyboard-to-flight-control state machine of FrontEnd, as values: the four velocity
 * axes, the "send rc control" gate that is open while airborne, and the should-stop flag,
 * together with the effect of every input event and the commands each event sends.
 *
 * The vehicle's answer to a command is an input here: `ok` is true when the SDK call
 * returned normally and false when it raised. The command sent carries that answer, so a
 * log that matches these functions pins `ok` to what the vehicle actually answered.
 */
module Control {
  import opened Wrappers
  import opened Vehicle

  /** Magnitude an axis is driven at while its key is held. */
  const S: int := 60
  /** Largest magnitude the vehicle accepts for each rc-control argument. */
  const RcLimit: int := 100

  datatype Key =
    | Up | Down | Left | Right
    | KeyW | KeyS | KeyA | KeyD
    | KeyT | KeyL | KeyY | KeyB
    | Escape
    | OtherKey(code: int)

  /** The events of the control loop: the 50 ms update timer, window close, key presses. */
  datatype Event =
    | TimerEvent
    | QuitEvent
    | KeyDownEvent(key: Key)
    | KeyUpEvent(key: Key)
    | OtherEvent

  datatype Axis = ForBack | LeftRight | UpDown | Yaw

  datatype Velocity = Velocity(forBack: int, leftRight: int, upDown: int, yaw: int) {
    function Get(a: Axis): int {
      match a
      case ForBack => forBack
      case LeftRight => leftRight
      case UpDown => upDown
      case Yaw => yaw
    }

    /** This velocity with axis `a` set to `x` and the other three kept. */
    function With(a: Axis, x: int): (r: Velocity)
      ensures r.Get(a) == x
      ensures forall b :: b != a ==> r.Get(b) == Get(b)
    {
      match a
      case ForBack => this.(forBack := x)
      case LeftRight => this.(leftRight := x)
      case UpDown => this.(upDown := x)
      case Yaw => this.(yaw := x)
    }
  }

  /** The controller's state: velocities, the airborne gate and the stop request. */
  datatype Pilot = Pilot(velocity: Velocity, sendRcControl: bool, shouldStop: bool)

  const Still := Velocity(0, 0, 0, 0)
  const Initial := Pilot(Still, false, false)

  /** What happened while handling some events: the new state and the commands sent. */
  datatype Step = Step(pilot: Pilot, sent: seq<Command>)

  /**
   * The documented key map: the axis a held key drives and the sign of its velocity
   * (arrow keys forward, backward, left and right; W and S up and down; A and D yaw).
   */
  function Binding(key: Key): (r: Option<(Axis, int)>)
    ensures r.Some? ==> r.value.1 == 1 || r.value.1 == -1
    ensures r.None? <==> key in {KeyT, KeyL, KeyY, KeyB, Escape} || key.OtherKey?
  {
    match key
    case Up => Some((ForBack, 1))
    case Down => Some((ForBack, -1))
    case Left => Some((LeftRight, -1))
    case Right => Some((LeftRight, 1))
    case KeyW => Some((UpDown, 1))
    case KeyS => Some((UpDown, -1))
    case KeyA => Some((Yaw, -1))
    case KeyD => Some((Yaw, 1))
    case _ => None
  }

  predicate Level(x: int) {
    x == -S || x == 0 || x == S
  }

  /** Every axis is at rest or at full speed in one direction. */
  predicate InRange(v: Velocity) {
    Level(v.forBack) && Level(v.leftRight) && Level(v.upDown) && Level(v.yaw)
  }

  /** Key-down: a bound key drives exactly its axis at +S or -S; any other key is ignored. */
  function KeyDown(v: Velocity, key: Key): (r: Velocity)
    ensures Binding(key).Some? ==> r.Get(Binding(key).value.0) == Binding(key).value.1 * S
    ensures Binding(key).None? ==> r == v
  {
    match key
    case Up => v.(forBack := S)
    case Down => v.(forBack := -S)
    case Left => v.(leftRight := -S)
    case Right => v.(leftRight := S)
    case KeyW => v.(upDown := S)
    case KeyS => v.(upDown := -S)
    case KeyA => v.(yaw := -S)
    case KeyD => v.(yaw := S)
    case _ => v
  }

  /** A bound key drives exactly its axis, at +S or -S as the key map says; any other key is ignored. */
  lemma KeyDownDrivesAxis(v: Velocity, key: Key)
    ensures Binding(key).Some? ==>
              KeyDown(v, key) == v.With(Binding(key).value.0, Binding(key).value.1 * S)
    ensures Binding(key).None? ==> KeyDown(v, key) == v
  {
  }

  /**
   * Key-up: a bound key stops its axis; T and L take off and land, and open or close the
   * gate only when the call returned normally; Y and B query temperature and battery.
   */
  function KeyUp(p: Pilot, key: Key, ok: bool): (r: Step)
    ensures r.pilot.shouldStop == p.shouldStop && |r.sent| <= 1
  {
    match key
    case Up | Down => Step(p.(velocity := p.velocity.(forBack := 0)), [])
    case Left | Right => Step(p.(velocity := p.velocity.(leftRight := 0)), [])
    case KeyW | KeyS => Step(p.(velocity := p.velocity.(upDown := 0)), [])
    case KeyA | KeyD => Step(p.(velocity := p.velocity.(yaw := 0)), [])
    case KeyT => Step(if ok then p.(sendRcControl := true) else p, [Takeoff(ok)])
    case KeyL => Step(if ok then p.(sendRcControl := false) else p, [Land(ok)])
    case KeyY => Step(p, [GetTemperature(ok)])
    case KeyB => Step(p, [GetBattery(ok)])
    case _ => Step(p, [])
  }

  /**
   * What each key release does: a bound key stops its axis and sends nothing; T and L send
   * takeoff and land and move the gate only when the call returned normally; Y and B send
   * their query and change nothing; every other key does nothing.
   */
  lemma KeyUpEffects(p: Pilot, key: Key, ok: bool)
    ensures var r := KeyUp(p, key, ok);
            Binding(key).Some? ==> r == Step(p.(velocity := p.velocity.With(Binding(key).value.0, 0)), [])
    ensures var r := KeyUp(p, key, ok);
            key == KeyT ==> r.sent == [Takeoff(ok)] && r.pilot == p.(sendRcControl := p.sendRcControl || ok)
    ensures var r := KeyUp(p, key, ok);
            key == KeyL ==> r.sent == [Land(ok)] && r.pilot == p.(sendRcControl := p.sendRcControl && !ok)
    ensures key == KeyY ==> KeyUp(p, key, ok) == Step(p, [GetTemperature(ok)])
    ensures key == KeyB ==> KeyUp(p, key, ok) == Step(p, [GetBattery(ok)])
    ensures Binding(key).None? && key !in {KeyT, KeyL, KeyY, KeyB} ==> KeyUp(p, key, ok) == Step(p, [])
  {
  }

  /** The timer's update: one rc command carrying the four axes, only while airborne. */
  function Update(p: Pilot): (sent: seq<Command>)
    ensures |sent| == if p.sendRcControl then 1 else 0
    ensures p.sendRcControl ==>
              && sent[0].Rc?
              && sent[0].leftRight == p.velocity.Get(LeftRight)
              && sent[0].forwardBackward == p.velocity.Get(ForBack)
              && sent[0].upDown == p.velocity.Get(UpDown)
              && sent[0].yaw == p.velocity.Get(Yaw)
  {
    if p.sendRcControl then
      [Rc(p.velocity.leftRight, p.velocity.forBack, p.velocity.upDown, p.velocity.yaw)]
    else []
  }

  /** Routing of one event, as the control loop does it. */
  function Dispatch(p: Pilot, e: Event, ok: bool): (r: Step)
    ensures |r.sent| <= 1
    ensures p.shouldStop ==> r.pilot.shouldStop
  {
    match e
    case TimerEvent => Step(p, Update(p))
    case QuitEvent => Step(p.(shouldStop := true), [])
    case KeyDownEvent(key) =>
      if key == Escape then Step(p.(shouldStop := true), [])
      else Step(p.(velocity := KeyDown(p.velocity, key)), [])
    case KeyUpEvent(key) => KeyUp(p, key, ok)
    case OtherEvent => Step(p, [])
  }

  /**
   * What one event does: a tick forwards the axes and changes nothing, Quit and Escape
   * request the stop and are not handled as key presses, key presses never send, and the
   * gate moves only on a takeoff or landing that returned normally.
   */
  lemma DispatchEffects(p: Pilot, e: Event, ok: bool)
    ensures e.TimerEvent? ==> Dispatch(p, e, ok) == Step(p, Update(p))
    ensures e.QuitEvent? || e == KeyDownEvent(Escape) ==>
              Dispatch(p, e, ok) == Step(p.(shouldStop := true), [])
    ensures Dispatch(p, e, ok).pilot.shouldStop ==
              (p.shouldStop || e.QuitEvent? || e == KeyDownEvent(Escape))
    ensures |Dispatch(p, e, ok).sent| <= 1
    ensures e.KeyDownEvent? ==> Dispatch(p, e, ok).sent == []
    ensures var r := Dispatch(p, e, ok); r.sent != [] && r.sent[0].Rc? ==> e.TimerEvent?
    ensures Dispatch(p, e, ok).pilot.sendRcControl ==
              if e == KeyUpEvent(KeyT) && ok then true
              else if e == KeyUpEvent(KeyL) && ok then false
              else p.sendRcControl
  {
  }

  /** Handling, in order, of the events one poll returned; `oks[i]` answers `es[i]`. */
  function Batch(p: Pilot, es: seq<Event>, oks: seq<bool>): (r: Step)
    requires |oks| == |es|
    ensures |r.sent| <= |es|
    ensures p.shouldStop ==> r.pilot.shouldStop
    decreases |es|
  {
    if es == [] then Step(p, [])
    else
      var n := |es| - 1;
      var b := Batch(p, es[..n], oks[..n]);
      var d := Dispatch(b.pilot, es[n], oks[n]);
      Step(d.pilot, b.sent + d.sent)
  }

  /** Handling the event after the first `i` extends their batch by that event's dispatch. */
  lemma BatchSnoc(p: Pilot, es: seq<Event>, i: nat, oks: seq<bool>, ok: bool)
    requires i < |es| && |oks| == i
    ensures var b := Batch(p, es[..i], oks);
            var d := Dispatch(b.pilot, es[i], ok);
            Batch(p, es[..i + 1], oks + [ok]) == Step(d.pilot, b.sent + d.sent)
  {
    assert es[..i + 1][..i] == es[..i];
    assert (oks + [ok])[..i] == oks;
  }

  /** One poll of the loop: the events it returned, and whether the video feed had stopped. */
  datatype Poll = Poll(events: seq<Event>, feedStopped: bool)

  /** Whether the loop goes on, or why it left. */
  datatype Progress = Running | Stopped | FeedEnded

  datatype Round = Round(pilot: Pilot, sent: seq<Command>, progress: Progress)

  /** The vehicle's answers line up with the events of every poll. */
  predicate Aligned(polls: seq<Poll>, okss: seq<seq<bool>>) {
    |okss| == |polls| && forall i :: 0 <= i < |polls| ==> |okss[i]| == |polls[i].events|
  }

  /** One pass of the loop body: handle the events, then leave if the feed has stopped. */
  function Iteration(p: Pilot, poll: Poll, oks: seq<bool>): (r: Round)
    requires |oks| == |poll.events|
    ensures poll.feedStopped ==> r.progress == FeedEnded && r.sent != [] && r.sent[|r.sent| - 1] == StopFrameRead
    ensures !poll.feedStopped ==> r.progress == (if r.pilot.shouldStop then Stopped else Running)
  {
    var b := Batch(p, poll.events, oks);
    if poll.feedStopped then Round(b.pilot, b.sent + [StopFrameRead], FeedEnded)
    else Round(b.pilot, b.sent, if b.pilot.shouldStop then Stopped else Running)
  }

  /**
   * The loop over the polls, which leaves at the first pass that stops it; entered with the
   * stop flag already set, it runs no pass.
   */
  function Loop(p: Pilot, polls: seq<Poll>, okss: seq<seq<bool>>): (r: Round)
    requires Aligned(polls, okss)
    ensures !p.shouldStop && r.progress == Running ==> !r.pilot.shouldStop
    ensures r.progress == Stopped ==> r.pilot.shouldStop
    ensures polls == [] ==> r == Round(p, [], if p.shouldStop then Stopped else Running)
    decreases |polls|
  {
    if polls == [] then Round(p, [], if p.shouldStop then Stopped else Running)
    else
      var n := |polls| - 1;
      var prev := Loop(p, polls[..n], okss[..n]);
      if !prev.progress.Running? then prev
      else
        var it := Iteration(prev.pilot, polls[n], okss[n]);
        Round(it.pilot, prev.sent + it.sent, it.progress)
  }

  /** One more pass of a loop that is still running after `i` polls extends it by that pass. */
  lemma LoopSnoc(p: Pilot, polls: seq<Poll>, i: nat, okss: seq<seq<bool>>, oks: seq<bool>)
    requires i < |polls| && Aligned(polls[..i], okss) && |oks| == |polls[i].events|
    requires Loop(p, polls[..i], okss).progress.Running?
    ensures Aligned(polls[..i + 1], okss + [oks])
    ensures var prev := Loop(p, polls[..i], okss);
            var it := Iteration(prev.pilot, polls[i], oks);
            Loop(p, polls[..i + 1], okss + [oks]) == Round(it.pilot, prev.sent + it.sent, it.progress)
  {
    assert polls[..i + 1][..i] == polls[..i];
    assert (okss + [oks])[..i] == okss;
  }

  /** Replies for polls the loop never reached; their values do not matter. */
  function Pad(polls: seq<Poll>): (okss: seq<seq<bool>>)
    ensures Aligned(polls, okss)
  {
    seq(|polls|, i requires 0 <= i < |polls| => seq(|polls[i].events|, _ => true))
  }

  /** A loop that has left after `i` polls, or has read them all, gives the whole loop. */
  lemma LoopPadded(p: Pilot, polls: seq<Poll>, i: nat, okss: seq<seq<bool>>)
    requires i <= |polls| && Aligned(polls[..i], okss)
    requires !Loop(p, polls[..i], okss).progress.Running? || i == |polls|
    ensures Aligned(polls, okss + Pad(polls[i..]))
    ensures Loop(p, polls, okss + Pad(polls[i..])) == Loop(p, polls[..i], okss)
  {
    assert polls[..i] + polls[i..] == polls;
    if i == |polls| {
      assert polls[..i] == polls;
      assert Pad(polls[i..]) == [];
      assert okss + [] == okss;
    } else {
      LoopIgnoresAfterStop(p, polls[..i], okss, polls[i..], Pad(polls[i..]));
    }
  }

  // ---------------------------------------------------------------------------------------
  // Properties of the state machine

  /** On one axis the last key pressed wins, whatever was pressed before it. */
  lemma LastKeyDownWins(v: Velocity, first: Key, second: Key)
    requires Binding(first).Some? && Binding(second).Some?
    requires Binding(first).value.0 == Binding(second).value.0
    ensures KeyDown(KeyDown(v, first), second) == KeyDown(v, second)
  {
    var a := Binding(second).value.0;
    var r, r' := KeyDown(KeyDown(v, first), second), KeyDown(v, second);
    forall b ensures r.Get(b) == r'.Get(b) {}
    assert r == Velocity(r.Get(ForBack), r.Get(LeftRight), r.Get(UpDown), r.Get(Yaw));
  }

  /** Releasing either of two keys held on one axis stops that axis; nothing is restored. */
  lemma ReleaseEitherKeyStopsAxis(p: Pilot, first: Key, second: Key, released: Key, ok: bool)
    requires Binding(first).Some? && Binding(second).Some?
    requires Binding(first).value.0 == Binding(second).value.0
    requires released == first || released == second
    ensures var held := p.(velocity := KeyDown(KeyDown(p.velocity, first), second));
            var r := KeyUp(held, released, ok);
            && r.pilot.velocity.Get(Binding(first).value.0) == 0
            && r.sent == []
  {
  }

  /** Left then Right leaves the left/right axis at +S; releasing Right then stops it. */
  lemma OppositeKeys(p: Pilot, oks: seq<bool>)
    requires |oks| == 3
    ensures var es := [KeyDownEvent(Left), KeyDownEvent(Right)];
            Batch(p, es, oks[..2]).pilot.velocity.leftRight == S
    ensures var es := [KeyDownEvent(Left), KeyDownEvent(Right), KeyUpEvent(Right)];
            Batch(p, es, oks).pilot.velocity.leftRight == 0
  {
    var es := [KeyDownEvent(Left), KeyDownEvent(Right), KeyUpEvent(Right)];
    assert es[..2][..1] == [KeyDownEvent(Left)];
    assert es[..2] == [KeyDownEvent(Left), KeyDownEvent(Right)];
  }

  /** From the ground, a takeoff that succeeds, a forward key and one tick send two commands. */
  lemma TakeoffThenForward(oks: seq<bool>)
    requires |oks| == 3 && oks[0]
    ensures var es := [KeyUpEvent(KeyT), KeyDownEvent(Up), TimerEvent];
            Batch(Initial, es, oks).sent == [Takeoff(true), Rc(0, S, 0, 0)]
  {
    var es := [KeyUpEvent(KeyT), KeyDownEvent(Up), TimerEvent];
    var airborne := Pilot(Still, true, false);
    assert es[..2][..1] == [KeyUpEvent(KeyT)];
    assert Batch(Initial, es[..2][..1], oks[..2][..1]) == Step(airborne, [Takeoff(true)]);
    assert es[..2] == [KeyUpEvent(KeyT), KeyDownEvent(Up)];
    assert Batch(Initial, es[..2], oks[..2]) == Step(airborne.(velocity := Still.(forBack := S)), [Takeoff(true)]);
  }

  /** After a landing that succeeds, ticks send nothing even with an axis still driven. */
  lemma LandThenTick(p: Pilot, oks: seq<bool>)
    requires |oks| == 2 && oks[0]
    ensures Batch(p, [KeyUpEvent(KeyL), TimerEvent], oks).sent == [Land(true)]
  {
    assert [KeyUpEvent(KeyL), TimerEvent][..1] == [KeyUpEvent(KeyL)];
  }

  function TimerCount(es: seq<Event>): nat {
    if es == [] then 0
    else TimerCount(es[..|es| - 1]) + (if es[|es| - 1].TimerEvent? then 1 else 0)
  }

  function RcCount(cs: seq<Command>): nat {
    if cs == [] then 0
    else RcCount(cs[..|cs| - 1]) + (if cs[|cs| - 1].Rc? then 1 else 0)
  }

  /** Appending at most one command adds one to the count exactly when it is an rc command. */
  lemma RcCountAppend(cs: seq<Command>, more: seq<Command>)
    requires |more| <= 1
    ensures RcCount(cs + more) == RcCount(cs) + (if more != [] && more[0].Rc? then 1 else 0)
  {
    if more == [] {
      assert cs + more == cs;
    } else {
      assert (cs + more)[..|cs + more| - 1] == cs;
    }
  }

  /** An rc command whose four arguments are within what the vehicle accepts; any other command. */
  predicate RcWithinLimit(c: Command) {
    c.Rc? ==>
      && -RcLimit <= c.leftRight <= RcLimit && -RcLimit <= c.forwardBackward <= RcLimit
      && -RcLimit <= c.upDown <= RcLimit && -RcLimit <= c.yaw <= RcLimit
  }

  /** Every event keeps the axes at rest or at full speed. */
  lemma DispatchKeepsRange(p: Pilot, e: Event, ok: bool)
    requires InRange(p.velocity)
    ensures InRange(Dispatch(p, e, ok).pilot.velocity)
  {
    match e
    case KeyDownEvent(key) =>
      KeyDownKeepsRange(p.velocity, key);
    case KeyUpEvent(key) =>
      KeyUpKeepsRange(p, key, ok);
    case _ =>
  }

  /** A key press leaves every axis at rest or at full speed. */
  lemma KeyDownKeepsRange(v: Velocity, key: Key)
    requires InRange(v)
    ensures InRange(KeyDown(v, key))
  {
  }

  /** A key release leaves every axis at rest or at full speed. */
  lemma KeyUpKeepsRange(p: Pilot, key: Key, ok: bool)
    requires InRange(p.velocity)
    ensures InRange(KeyUp(p, key, ok).pilot.velocity)
  {
  }

  /** What one event sends from axes in range is within the vehicle's limits. */
  lemma DispatchSendsWithinLimit(p: Pilot, e: Event, ok: bool)
    requires InRange(p.velocity)
    ensures forall c :: c in Dispatch(p, e, ok).sent ==> RcWithinLimit(c)
  {
  }

  /** Handling a poll's events keeps the axes in range, and every rc command it sends is within limits. */
  lemma {:induction false} BatchKeepsRange(p: Pilot, es: seq<Event>, oks: seq<bool>)
    requires |oks| == |es| && InRange(p.velocity)
    ensures InRange(Batch(p, es, oks).pilot.velocity)
    ensures forall c :: c in Batch(p, es, oks).sent ==> RcWithinLimit(c)
    decreases |es|
  {
    if es != [] {
      var n := |es| - 1;
      BatchKeepsRange(p, es[..n], oks[..n]);
      var b := Batch(p, es[..n], oks[..n]);
      DispatchKeepsRange(b.pilot, es[n], oks[n]);
      DispatchSendsWithinLimit(b.pilot, es[n], oks[n]);
      var d := Dispatch(b.pilot, es[n], oks[n]);
      assert Batch(p, es, oks) == Step(d.pilot, b.sent + d.sent);
    }
  }

  /** The whole loop keeps the axes in range, and every rc command it sends is within limits. */
  lemma {:induction false} LoopKeepsRange(p: Pilot, polls: seq<Poll>, okss: seq<seq<bool>>)
    requires Aligned(polls, okss) && InRange(p.velocity)
    ensures InRange(Loop(p, polls, okss).pilot.velocity)
    ensures forall c :: c in Loop(p, polls, okss).sent ==> RcWithinLimit(c)
    decreases |polls|
  {
    if polls != [] {
      var n := |polls| - 1;
      LoopKeepsRange(p, polls[..n], okss[..n]);
      var prev := Loop(p, polls[..n], okss[..n]);
      if prev.progress.Running? {
        BatchKeepsRange(prev.pilot, polls[n].events, okss[n]);
        var it := Iteration(prev.pilot, polls[n], okss[n]);
        assert Loop(p, polls, okss) == Round(it.pilot, prev.sent + it.sent, it.progress);
      }
    }
  }

  /** Only timer events send rc commands, at most one each. */
  lemma {:induction false} RcAtMostOnePerTick(p: Pilot, es: seq<Event>, oks: seq<bool>)
    requires |oks| == |es|
    ensures RcCount(Batch(p, es, oks).sent) <= TimerCount(es)
    decreases |es|
  {
    if es != [] {
      var n := |es| - 1;
      RcAtMostOnePerTick(p, es[..n], oks[..n]);
      var b := Batch(p, es[..n], oks[..n]);
      var d := Dispatch(b.pilot, es[n], oks[n]);
      DispatchEffects(b.pilot, es[n], oks[n]);
      assert Batch(p, es, oks) == Step(d.pilot, b.sent + d.sent);
      RcCountAppend(b.sent, d.sent);
      assert TimerCount(es) == TimerCount(es[..n]) + (if es[n].TimerEvent? then 1 else 0);
    }
  }

  /** While grounded and without a takeoff key-up, no rc command is ever sent. */
  lemma {:induction false} GroundedSendsNoRc(p: Pilot, es: seq<Event>, oks: seq<bool>)
    requires |oks| == |es|
    requires !p.sendRcControl && KeyUpEvent(KeyT) !in es
    ensures !Batch(p, es, oks).pilot.sendRcControl
    ensures RcCount(Batch(p, es, oks).sent) == 0
    decreases |es|
  {
    if es != [] {
      var n := |es| - 1;
      assert es[n] in es;
      assert forall e :: e in es[..n] ==> e in es;
      GroundedSendsNoRc(p, es[..n], oks[..n]);
      var b := Batch(p, es[..n], oks[..n]);
      var d := Dispatch(b.pilot, es[n], oks[n]);
      DispatchEffects(b.pilot, es[n], oks[n]);
      assert Batch(p, es, oks) == Step(d.pilot, b.sent + d.sent);
      RcCountAppend(b.sent, d.sent);
      assert TimerCount(es) == TimerCount(es[..n]) + (if es[n].TimerEvent? then 1 else 0);
    }
  }

  /** While airborne and without a landing key-up, every tick sends exactly one rc command. */
  lemma {:induction false} AirborneSendsEveryTick(p: Pilot, es: seq<Event>, oks: seq<bool>)
    requires |oks| == |es|
    requires p.sendRcControl && KeyUpEvent(KeyL) !in es
    ensures Batch(p, es, oks).pilot.sendRcControl
    ensures RcCount(Batch(p, es, oks).sent) == TimerCount(es)
    decreases |es|
  {
    if es != [] {
      var n := |es| - 1;
      assert es[n] in es;
      assert forall e :: e in es[..n] ==> e in es;
      AirborneSendsEveryTick(p, es[..n], oks[..n]);
      var b := Batch(p, es[..n], oks[..n]);
      var d := Dispatch(b.pilot, es[n], oks[n]);
      DispatchEffects(b.pilot, es[n], oks[n]);
      assert Batch(p, es, oks) == Step(d.pilot, b.sent + d.sent);
      RcCountAppend(b.sent, d.sent);
      assert TimerCount(es) == TimerCount(es[..n]) + (if es[n].TimerEvent? then 1 else 0);
    }
  }

  /** Once the loop has left, later polls and replies change nothing. */
  lemma {:induction false} LoopIgnoresAfterStop(p: Pilot, polls: seq<Poll>, okss: seq<seq<bool>>,
                                               later: seq<Poll>, laterOkss: seq<seq<bool>>)
    requires Aligned(polls, okss) && Aligned(later, laterOkss)
    requires !Loop(p, polls, okss).progress.Running?
    ensures Aligned(polls + later, okss + laterOkss)
    ensures Loop(p, polls + later, okss + laterOkss) == Loop(p, polls, okss)
    decreases |later|
  {
    var all, allOkss := polls + later, okss + laterOkss;
    assert forall i :: 0 <= i < |all| ==> |allOkss[i]| == |all[i].events| by {
      forall i | 0 <= i < |all| ensures |allOkss[i]| == |all[i].events| {
        if i >= |polls| {
          assert all[i] == later[i - |polls|] && allOkss[i] == laterOkss[i - |polls|];
        }
      }
    }
    if later == [] {
      assert all == polls && allOkss == okss;
    } else {
      var m := |later| - 1;
      LoopIgnoresAfterStop(p, polls, okss, later[..m], laterOkss[..m]);
      assert all[..|all| - 1] == polls + later[..m];
      assert allOkss[..|all| - 1] == okss + laterOkss[..m];
    }
  }
}
