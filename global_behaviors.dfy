/** The behaviour strategies of `Assets/Timers/Timer_Behaviors.cs` (global namespace), whose
    callbacks take no timer argument.

    The base class this file builds on (`TimerBehaviorBase` with `SetFloats`, `SetCallbacks`,
    `SetCallbacksWithParameters`, `MainInterval` and `TotalTimeActive`) and the pool calls
    `TimerManager.getTimer` and `SetBehavior` are not part of this model.
    They are taken to do what their names say: the factories below start from a new handle
    with a new behaviour whose accumulators are zero, `SetFloats` overwrites the four float
    slots, `SetCallbacks` stores a plain callback, `SetCallbacksWithParameters` stores a
    parameterised callback with its parameters, and `MainInterval` is the first float slot. */
module GlobalBehaviors {
  import opened Common
  import opened BehaviorRules
  import CsFloat

  datatype Kind = Repeater | Countdown

  /** One callback invocation: the callback, and whether the behaviour already reported
      completion when the callback ran. */
  datatype Firing =
    | Fired(callback: Callback, completedSeen: bool)
    | FiredWithParameters(callback: Callback, parameters: seq<Param>, completedSeen: bool)

  /** A timer handle. */
  class Timer {
    var behavior: Behavior?

    constructor ()
      ensures behavior == null
    {
      behavior := null;
    }
  }

  /** A behaviour object: the base-class state plus the countdown's own `exitTime`. */
  class Behavior {
    const kind: Kind
    var completed: bool
    var timePassed: real
    var totalTimeActive: real
    var f1: real
    var f2: real
    var f3: real
    var f4: real
    var c1: Option<Callback>
    var paramC1: Option<Callback>
    var hasParameters: bool
    var parameters: seq<Param>
    /** The countdown's own field, which hides the base class's `exitTime`. */
    var exitTime: real
    /** The callbacks this behaviour has invoked, in order. */
    ghost var fired: seq<Firing>

    constructor (kind: Kind)
      ensures this.kind == kind
      ensures !completed && timePassed == 0.0 && totalTimeActive == 0.0 && exitTime == 0.0
      ensures f1 == 0.0 && f2 == 0.0 && f3 == 0.0 && f4 == 0.0
      ensures c1 == None && paramC1 == None && !hasParameters && parameters == [] && fired == []
    {
      this.kind := kind;
      completed := false;
      timePassed, totalTimeActive, exitTime := 0.0, 0.0, 0.0;
      f1, f2, f3, f4 := 0.0, 0.0, 0.0, 0.0;
      c1, paramC1 := None, None;
      hasParameters := false;
      parameters := [];
      fired := [];
    }

    /** The repeater's interval. */
    function MainInterval(): real
      reads this
    {
      f1
    }

    /** The callback a repeater invokes when it fires: the parameterised one when parameters
        were supplied, the plain one otherwise. */
    function RepeaterCallback(): Option<Callback>
      reads this
    {
      if hasParameters then paramC1 else c1
    }

    /** The callback that the next `Update(deltaTime)` invokes, if any, is set: a null delegate
        would throw, and a repeater with a zero interval would take a remainder by zero. */
    predicate CanUpdate(deltaTime: real)
      reads this
    {
      match kind
      case Repeater =>
        && RepeaterDefined(timePassed, MainInterval(), deltaTime)
        && (RepeaterStep(timePassed, MainInterval(), deltaTime).fires ==> RepeaterCallback().Some?)
      case Countdown =>
        CountdownStep(timePassed, exitTime, deltaTime).fires ==> c1.Some?
    }

    /** `SetFloats`: overwrites the four float slots. */
    method SetFloats(one: real, two: real, three: real, four: real)
      modifies this`f1, this`f2, this`f3, this`f4
      ensures f1 == one && f2 == two && f3 == three && f4 == four
    {
      f1, f2, f3, f4 := one, two, three, four;
    }

    /** `SetCallbacks(callback, null, null, null)`: stores the plain callback and touches
        nothing else, so whether the behaviour fires with parameters stays as it was. */
    method SetCallbacks(callback: Option<Callback>)
      modifies this`c1
      ensures c1 == callback
    {
      c1 := callback;
    }

    /** `SetCallbacksWithParameters(callback, null, parameters)`: stores the parameterised
        callback and the parameter array. */
    method SetCallbacksWithParameters(callback: Option<Callback>, parameters: seq<Param>)
      modifies this`paramC1, this`hasParameters, this`parameters
      ensures paramC1 == callback && hasParameters && this.parameters == parameters
    {
      paramC1 := callback;
      hasParameters := true;
      this.parameters := parameters;
    }

    /** `Initialize`: a countdown copies its first float slot into its exit time; a repeater
        does nothing. */
    method Initialize()
      modifies this`exitTime
      ensures kind == Countdown ==> exitTime == f1
      ensures kind == Repeater ==> exitTime == old(exitTime)
    {
      if kind == Countdown {
        exitTime := f1;
      }
    }

    /** `Update(deltaTime)`. Both strategies add `deltaTime` to both accumulators. A repeater
        strictly past its interval invokes its callback once (with the parameters, when it has
        them), then keeps the remainder; it never completes. A countdown strictly past its exit
        time sets `Completed` first and then invokes `c1()`; it has no guard of its own against
        firing again. */
    method Update(deltaTime: real)
      requires CanUpdate(deltaTime)
      modifies this`timePassed, this`totalTimeActive, this`completed, this`fired
      ensures totalTimeActive == old(totalTimeActive) + deltaTime
      ensures kind == Repeater ==>
        var s := RepeaterStep(old(timePassed), MainInterval(), deltaTime);
        && timePassed == s.timePassed
        && completed == old(completed)
        && fired == old(fired) + (if !s.fires then []
                                  else if hasParameters then [FiredWithParameters(paramC1.value, parameters, completed)]
                                  else [Fired(c1.value, completed)])
      ensures kind == Countdown ==>
        var s := CountdownStep(old(timePassed), exitTime, deltaTime);
        && timePassed == s.timePassed
        && completed == (old(completed) || s.fires)
        && fired == old(fired) + (if s.fires then [Fired(c1.value, true)] else [])
    {
      timePassed := timePassed + deltaTime;
      totalTimeActive := totalTimeActive + deltaTime;
      match kind
      case Repeater =>
        if timePassed > MainInterval() {
          if hasParameters {
            fired := fired + [FiredWithParameters(paramC1.value, parameters, completed)];
          } else {
            fired := fired + [Fired(c1.value, completed)];
          }
          timePassed := 0.0 + CsFloat.Rem(timePassed, MainInterval());
        }
      case Countdown =>
        if timePassed > exitTime {
          completed := true;
          fired := fired + [Fired(c1.value, completed)];
        }
    }
  }

  /** A new handle with a new behaviour of `kind`. */
  method NewTimer(kind: Kind) returns (t: Timer)
    ensures fresh(t) && t.behavior != null && fresh(t.behavior)
    ensures t.behavior.kind == kind
    ensures !t.behavior.completed && t.behavior.timePassed == 0.0 && t.behavior.totalTimeActive == 0.0
    ensures t.behavior.exitTime == 0.0 && t.behavior.fired == []
    ensures t.behavior.c1 == None && t.behavior.paramC1 == None && !t.behavior.hasParameters
  {
    t := new Timer();
    var b := new Behavior(kind);
    t.behavior := b;
  }

  /** `Timer.Repeater(interval, callback)`: a repeater with `interval` as its main interval and
      `callback` as its plain callback. */
  method NewRepeater(interval: real, callback: Option<Callback>) returns (t: Timer)
    ensures fresh(t) && t.behavior != null && fresh(t.behavior)
    ensures t.behavior.kind == Repeater
    ensures t.behavior.MainInterval() == interval && t.behavior.f2 == 0.0 && t.behavior.f3 == 0.0 && t.behavior.f4 == 0.0
    ensures t.behavior.c1 == callback && !t.behavior.hasParameters
    ensures !t.behavior.completed && t.behavior.timePassed == 0.0 && t.behavior.totalTimeActive == 0.0
    ensures t.behavior.fired == []
  {
    t := NewTimer(Repeater);
    var b := t.behavior;
    b.SetFloats(interval, 0.0, 0.0, 0.0);
    b.SetCallbacks(callback);
    b.Initialize();
  }

  /** `Timer.RepeaterParam(interval, callback, parameters)`: a repeater that hands `parameters`
      to `callback` on every firing. */
  method NewRepeaterParam(interval: real, callback: Option<Callback>, parameters: seq<Param>) returns (t: Timer)
    ensures fresh(t) && t.behavior != null && fresh(t.behavior)
    ensures t.behavior.kind == Repeater
    ensures t.behavior.MainInterval() == interval && t.behavior.f2 == 0.0 && t.behavior.f3 == 0.0 && t.behavior.f4 == 0.0
    ensures t.behavior.hasParameters && t.behavior.paramC1 == callback && t.behavior.parameters == parameters
    ensures t.behavior.RepeaterCallback() == callback
    ensures !t.behavior.completed && t.behavior.timePassed == 0.0 && t.behavior.totalTimeActive == 0.0
    ensures t.behavior.fired == []
  {
    t := NewTimer(Repeater);
    var b := t.behavior;
    b.SetFloats(interval, 0.0, 0.0, 0.0);
    b.SetCallbacksWithParameters(callback, parameters);
    b.Initialize();
  }

  /** `Timer.Countdown(exitTime, callback)`: the exit time travels through the first float
      slot and `Initialize` copies it into the countdown's own field. */
  method NewCountdown(exitTime: real, callback: Option<Callback>) returns (t: Timer)
    ensures fresh(t) && t.behavior != null && fresh(t.behavior)
    ensures t.behavior.kind == Countdown
    ensures t.behavior.f1 == exitTime && t.behavior.exitTime == exitTime
    ensures t.behavior.f2 == 0.0 && t.behavior.f3 == 0.0 && t.behavior.f4 == 0.0
    ensures t.behavior.c1 == callback && !t.behavior.hasParameters
    ensures !t.behavior.completed && t.behavior.timePassed == 0.0 && t.behavior.totalTimeActive == 0.0
    ensures t.behavior.fired == []
  {
    t := NewTimer(Countdown);
    var b := t.behavior;
    b.SetFloats(exitTime, 0.0, 0.0, 0.0);
    b.SetCallbacks(callback);
    b.Initialize();
  }
}
