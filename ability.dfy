/** The cast/cooldown state machine of `Assets/Timers/Special/Ability.cs`.

    An ability owns two countdown timers of the global timer library: a cast timer, whose
    completion performs the cast, and a cooldown timer, whose completion takes the ability off
    cooldown. The pool machinery behind those timers (`Pause`, `Unpause`, `Reset`, `TimeLeft`,
    `OnUpdate`, `DontDisposeOnComplete`) is not part of this model: each timer is a value that
    records its duration, its elapsed time and whether it is paused. A new countdown starts
    running from zero; `Reset` rewinds it to zero; `Pause` and `Unpause` set the flag. The
    timers' completions are the calls of `CastCompleted` (`actual_cast`) and
    `CooldownCompleted` (`put_offcooldown`) that the scheduler makes.

    The state is split three ways: the settings fixed by the constructor, the subscribers of
    the four events, and the flags and timers that the operations change. Each operation is a
    function of the settings, the subscribers and the old state that gives the new state and
    the events raised, in order; an event without a subscriber is skipped, as in the source.
    The logged configuration errors set a flag. The class `Ability` is the imperative face of
    those functions: each operation changes the object's fields, and its `ensures` ties the
    new state and the raised events to the matching `...Step` function. The `LockCasting`
    setter is a plain field update. */
module Abilities {
  import opened Common

  /** When the cooldown starts. */
  datatype CooldownType = FromStart | FromCastPoint

  /** An owned countdown timer. */
  datatype Countdown = Countdown(duration: real, elapsed: real, paused: bool)

  /** `Timer.Countdown(duration, callback)`: a new countdown, running from zero. */
  function NewCountdown(duration: real): Countdown
  {
    Countdown(duration, 0.0, false)
  }

  function Paused(c: Countdown): Countdown
  {
    c.(paused := true)
  }

  function Unpaused(c: Countdown): Countdown
  {
    c.(paused := false)
  }

  function Rewound(c: Countdown): Countdown
  {
    c.(elapsed := 0.0)
  }

  datatype EventKind = Start | Cast | OffCooldown | Cancel

  /** One event raised, with the subscriber it reached. */
  datatype Event = Event(kind: EventKind, handler: Callback)

  /** The parameters an ability is built with, which nothing changes afterwards, and whether
      the constructor reported a configuration error. */
  datatype Settings = Settings(
    name: string,
    cooldownTime: real,
    castTime: real,
    cooldownType: CooldownType,
    hasCastTime: bool,
    configError: bool)

  /** The subscribers of the four events; `onCast` is the callback given at construction. */
  datatype Handlers = Handlers(
    onStart: Option<Callback>,
    onCast: Option<Callback>,
    onOffCooldown: Option<Callback>,
    onCancel: Option<Callback>)

  /** The flags and timers that the operations change. */
  datatype AbilityState = AbilityState(
    firstUse: bool,
    onCooldown: bool,
    isCasting: bool,
    lockCasting: bool,
    castTimer: Option<Countdown>,
    cooldownTimer: Option<Countdown>)

  /** The state an operation leaves, and the events it raised, in order. */
  datatype Stepped = Stepped(state: AbilityState, events: seq<Event>)

  /** An event that is skipped when nobody subscribed. */
  function Raise(handler: Option<Callback>, kind: EventKind): seq<Event>
  {
    if handler.Some? then [Event(kind, handler.value)] else []
  }

  /** What the constructor leaves. */
  datatype Construction = Construction(settings: Settings, handlers: Handlers, state: AbilityState)

  /** The constructor. A missing callback is reported and the constructor returns at once,
      leaving every field at its default; a cooldown of zero or less is reported and
      construction goes on. A cast timer exists, paused, exactly when the cast time is
      positive. */
  function Created(name: string, cooldownTime: real, castTime: real, onActivate: Option<Callback>,
                   cooldownType: CooldownType): Construction
  {
    if onActivate.None? then
      Construction(Settings("", 0.0, 0.0, FromStart, false, true), Handlers(None, None, None, None),
                   AbilityState(false, false, false, false, None, None))
    else
      var hasCastTime := castTime > 0.0;
      Construction(Settings(name, cooldownTime, castTime, cooldownType, hasCastTime, cooldownTime <= 0.0),
                   Handlers(None, onActivate, None, None),
                   AbilityState(true, false, false, false,
                                if hasCastTime then Some(Paused(NewCountdown(castTime))) else None, None))
  }

  /** An ability built from a callback: it has its cast callback, a cast timer exactly when it
      has a cast time, and a cooldown timer exactly once it has been used. */
  predicate Configured(c: Settings, h: Handlers, s: AbilityState)
  {
    && h.onCast.Some?
    && (c.hasCastTime <==> s.castTimer.Some?)
    && (s.firstUse <==> s.cooldownTimer.None?)
  }

  /** The duration the first activation gives the cooldown timer. */
  function CooldownDuration(c: Settings): real
  {
    if c.hasCastTime && c.cooldownType == FromStart then c.cooldownTime + c.castTime else c.cooldownTime
  }

  /** `PutOnCooldown` does not dereference a missing cooldown timer. */
  predicate PutOnCooldownDefined(s: AbilityState)
  {
    s.firstUse || s.onCooldown || s.cooldownTimer.Some?
  }

  /** `PutOnCooldown`: nothing happens before the first use or while on cooldown; otherwise
      the ability goes on cooldown and its cooldown timer runs. It raises no event. */
  function PutOnCooldownStep(s: AbilityState): AbilityState
    requires PutOnCooldownDefined(s)
  {
    if s.firstUse || s.onCooldown then s
    else s.(onCooldown := true, cooldownTimer := Some(Unpaused(s.cooldownTimer.value)))
  }

  /** `actual_cast` does not invoke a missing callback or reset a missing cast timer. */
  predicate CastDefined(c: Settings, h: Handlers, s: AbilityState)
  {
    h.onCast.Some? && (c.hasCastTime ==> s.castTimer.Some?)
  }

  /** `actual_cast`, run when the cast timer completes (or at once without a cast time):
      raises the cast, ends the cast and rewinds and pauses the cast timer. */
  function CastStep(c: Settings, h: Handlers, s: AbilityState): Stepped
    requires CastDefined(c, h, s)
  {
    Stepped(s.(isCasting := false,
               castTimer := if c.hasCastTime then Some(Paused(Rewound(s.castTimer.value))) else s.castTimer),
            [Event(Cast, h.onCast.value)])
  }

  /** `activate` does not dereference a missing timer or invoke a missing callback. */
  predicate ActivateDefined(c: Settings, h: Handlers, s: AbilityState)
  {
    && (c.hasCastTime ==> s.castTimer.Some?)
    && (!c.hasCastTime ==> h.onCast.Some?)
    && (s.firstUse || s.onCooldown || s.cooldownTimer.Some? || (c.hasCastTime && c.cooldownType == FromCastPoint))
  }

  /** On the first use only, `activate` creates the cooldown timer. */
  function ArmStep(c: Settings, s: AbilityState): AbilityState
  {
    if s.firstUse then s.(cooldownTimer := Some(NewCountdown(CooldownDuration(c))), firstUse := false) else s
  }

  /** With a cast time, `activate` starts casting, goes on cooldown at once under `FromStart`,
      and runs the cast timer. */
  function BeginCastStep(c: Settings, s: AbilityState): AbilityState
    requires s.castTimer.Some? && (c.cooldownType == FromStart ==> PutOnCooldownDefined(s))
  {
    var casting := s.(isCasting := true);
    var cooled := if c.cooldownType == FromStart then PutOnCooldownStep(casting) else casting;
    cooled.(castTimer := Some(Unpaused(s.castTimer.value)))
  }

  /** `activate`: raises the start, creates the cooldown timer on the first use, then either
      starts casting or casts and goes on cooldown. */
  function ActivateStep(c: Settings, h: Handlers, s: AbilityState): Stepped
    requires ActivateDefined(c, h, s)
  {
    var armed := ArmStep(c, s);
    if c.hasCastTime then Stepped(BeginCastStep(c, armed), Raise(h.onStart, Start))
    else
      var cast := CastStep(c, h, armed);
      Stepped(PutOnCooldownStep(cast.state), Raise(h.onStart, Start) + cast.events)
  }

  /** What `Use` returns, the state it leaves and the events it raised. */
  datatype Outcome = Outcome(state: AbilityState, events: seq<Event>, used: bool)

  /** `Use` does not crash: when the gate is open, the activation is defined. */
  predicate UseDefined(c: Settings, h: Handlers, s: AbilityState)
  {
    !s.onCooldown && !s.lockCasting ==> ActivateDefined(c, h, s)
  }

  /** `Use`: activates unless on cooldown or locked. */
  function UseStep(c: Settings, h: Handlers, s: AbilityState): Outcome
    requires UseDefined(c, h, s)
  {
    if !s.onCooldown && !s.lockCasting then
      var a := ActivateStep(c, h, s);
      Outcome(a.state, a.events, true)
    else Outcome(s, [], false)
  }

  /** `CancelCast` does not reset a missing cast timer. */
  predicate CancelCastDefined(c: Settings, s: AbilityState)
  {
    s.isCasting && c.hasCastTime ==> s.castTimer.Some?
  }

  /** `CancelCast`: while casting, raises the cancel and rewinds and pauses the cast timer. */
  function CancelCastStep(c: Settings, h: Handlers, s: AbilityState): Stepped
    requires CancelCastDefined(c, s)
  {
    if !s.isCasting then Stepped(s, [])
    else
      Stepped(s.(castTimer := if c.hasCastTime then Some(Paused(Rewound(s.castTimer.value))) else s.castTimer),
              Raise(h.onCancel, Cancel))
  }

  /** `put_offcooldown`, run when the cooldown timer completes: raises the end of the
      cooldown, leaves cooldown and rewinds and pauses the cooldown timer. */
  function CooldownCompletedStep(h: Handlers, s: AbilityState): Stepped
    requires s.cooldownTimer.Some?
  {
    Stepped(s.(onCooldown := false, cooldownTimer := Some(Paused(Rewound(s.cooldownTimer.value)))),
            Raise(h.onOffCooldown, OffCooldown))
  }

  /** `reset` does not dereference a missing timer. */
  predicate ResetDefined(c: Settings, s: AbilityState)
  {
    (c.hasCastTime ==> s.castTimer.Some?) && s.cooldownTimer.Some?
  }

  /** `reset`: rewinds and pauses both timers, leaves cooldown and ends the cast. It raises no
      event. */
  function ResetStep(c: Settings, s: AbilityState): AbilityState
    requires ResetDefined(c, s)
  {
    s.(castTimer := if c.hasCastTime then Some(Paused(Rewound(s.castTimer.value))) else s.castTimer,
       onCooldown := false,
       isCasting := false,
       cooldownTimer := Some(Paused(Rewound(s.cooldownTimer.value))))
  }

  // ----- Construction -----

  /** An ability built with a callback is configured, unused, idle, unlocked and off
      cooldown; its cast timer, when it has a cast time, is paused at zero; and it reports a
      configuration error exactly when its cooldown is not positive. */
  lemma CreatedIsConfigured(name: string, cooldownTime: real, castTime: real, onActivate: Callback,
                            cooldownType: CooldownType)
    ensures var k := Created(name, cooldownTime, castTime, Some(onActivate), cooldownType);
      && Configured(k.settings, k.handlers, k.state)
      && k.state.firstUse && !k.state.onCooldown && !k.state.isCasting && !k.state.lockCasting
      && k.settings.hasCastTime == (castTime > 0.0)
      && (k.settings.hasCastTime ==> k.state.castTimer.value == Countdown(castTime, 0.0, true))
      && k.handlers.onCast == Some(onActivate)
      && k.settings.cooldownTime == cooldownTime && k.settings.castTime == castTime
      && k.settings.cooldownType == cooldownType && k.settings.name == name
      && (k.settings.configError <==> cooldownTime <= 0.0)
  {
  }

  /** An ability built without a callback reports the error, and its first `Use` would invoke
      the missing callback: `Use` is not defined for it. */
  lemma CreatedWithoutCallbackCannotBeUsed(name: string, cooldownTime: real, castTime: real,
                                           cooldownType: CooldownType)
    ensures var k := Created(name, cooldownTime, castTime, None, cooldownType);
      && k.settings.configError && !k.state.firstUse && !k.settings.hasCastTime
      && !k.state.onCooldown && !k.state.lockCasting && !UseDefined(k.settings, k.handlers, k.state)
  {
  }

  // ----- The configured invariant -----

  /** A configured ability meets every operation's precondition; the completion of the
      cooldown and `reset` need the cooldown timer, which exists from the first use on. */
  lemma ConfiguredIsDefined(c: Settings, h: Handlers, s: AbilityState)
    requires Configured(c, h, s)
    ensures UseDefined(c, h, s) && ActivateDefined(c, h, s) && PutOnCooldownDefined(s)
    ensures CastDefined(c, h, s) && CancelCastDefined(c, s)
    ensures !s.firstUse ==> s.cooldownTimer.Some? && ResetDefined(c, s)
  {
  }

  /** An activation keeps an ability configured and ends its first use. */
  lemma ActivateKeepsConfigured(c: Settings, h: Handlers, s: AbilityState)
    requires Configured(c, h, s)
    ensures Configured(c, h, ActivateStep(c, h, s).state) && !ActivateStep(c, h, s).state.firstUse
  {
    var armed := ArmStep(c, s);
    assert Configured(c, h, armed) && !armed.firstUse;
    if !c.hasCastTime {
      assert Configured(c, h, CastStep(c, h, armed).state);
    }
  }

  /** Every operation keeps an ability configured. */
  lemma StepsKeepConfigured(c: Settings, h: Handlers, s: AbilityState)
    requires Configured(c, h, s)
    ensures Configured(c, h, UseStep(c, h, s).state)
    ensures Configured(c, h, PutOnCooldownStep(s))
    ensures Configured(c, h, CastStep(c, h, s).state)
    ensures Configured(c, h, CancelCastStep(c, h, s).state)
    ensures !s.firstUse ==>
      Configured(c, h, CooldownCompletedStep(h, s).state) && Configured(c, h, ResetStep(c, s))
  {
    if !s.onCooldown && !s.lockCasting {
      ActivateKeepsConfigured(c, h, s);
    }
  }

  /** Once used, an ability never returns to its first use. */
  lemma FirstUseNeverReturns(c: Settings, h: Handlers, s: AbilityState)
    requires Configured(c, h, s) && !s.firstUse
    ensures !UseStep(c, h, s).state.firstUse && !PutOnCooldownStep(s).firstUse
    ensures !CastStep(c, h, s).state.firstUse && !CancelCastStep(c, h, s).state.firstUse
    ensures !CooldownCompletedStep(h, s).state.firstUse && !ResetStep(c, s).firstUse
  {
    if !s.onCooldown && !s.lockCasting {
      ActivateKeepsConfigured(c, h, s);
    }
  }

  // ----- Use and activate -----

  /** `Use` succeeds exactly when the ability is neither on cooldown nor locked; whether it is
      casting plays no part. A refused `Use` changes nothing and raises nothing. */
  lemma UseGate(c: Settings, h: Handlers, s: AbilityState, casting: bool)
    requires UseDefined(c, h, s)
    ensures UseStep(c, h, s).used <==> !s.onCooldown && !s.lockCasting
    ensures !UseStep(c, h, s).used ==> UseStep(c, h, s).state == s && UseStep(c, h, s).events == []
    ensures UseDefined(c, h, s.(isCasting := casting))
    ensures UseStep(c, h, s.(isCasting := casting)).used == UseStep(c, h, s).used
  {
  }

  /** An activation raises the start first, when it has a subscriber. */
  lemma ActivateRaisesStartFirst(c: Settings, h: Handlers, s: AbilityState)
    requires ActivateDefined(c, h, s) && h.onStart.Some?
    ensures |ActivateStep(c, h, s).events| >= 1
    ensures ActivateStep(c, h, s).events[0] == Event(Start, h.onStart.value)
  {
  }

  /** The first activation creates the cooldown timer, running from zero, with the cast time
      added to the cooldown under `FromStart` when there is a cast time; later activations keep
      the timer's duration. Afterwards the ability is no longer at its first use. */
  lemma ActivateArmsCooldownOnce(c: Settings, h: Handlers, s: AbilityState)
    requires ActivateDefined(c, h, s)
    ensures !ActivateStep(c, h, s).state.firstUse
    ensures s.firstUse || s.cooldownTimer.Some? ==> ActivateStep(c, h, s).state.cooldownTimer.Some?
    ensures s.firstUse ==>
      var t := ActivateStep(c, h, s).state.cooldownTimer.value;
      && t.duration == (if c.hasCastTime && c.cooldownType == FromStart then c.cooldownTime + c.castTime else c.cooldownTime)
      && t.elapsed == 0.0 && !t.paused
    ensures !s.firstUse && s.cooldownTimer.Some? ==>
      ActivateStep(c, h, s).state.cooldownTimer.value.duration == s.cooldownTimer.value.duration
  {
  }

  /** With a cast time, activation starts the cast: the ability is casting, its cast timer
      runs, it is on cooldown at once under `FromStart` and unchanged under `FromCastPoint`,
      and the only event is the start: the cast callback is not invoked yet. */
  lemma ActivateWithCastTime(c: Settings, h: Handlers, s: AbilityState)
    requires ActivateDefined(c, h, s) && c.hasCastTime && !s.onCooldown
    ensures ActivateStep(c, h, s).state.isCasting
    ensures ActivateStep(c, h, s).state.castTimer == Some(s.castTimer.value.(paused := false))
    ensures ActivateStep(c, h, s).state.onCooldown <==> c.cooldownType == FromStart
    ensures ActivateStep(c, h, s).events == Raise(h.onStart, Start)
  {
  }

  /** Without a cast time, activation casts at once, after the start, and then goes on
      cooldown with its cooldown timer running. */
  lemma ActivateWithoutCastTime(c: Settings, h: Handlers, s: AbilityState)
    requires ActivateDefined(c, h, s) && !c.hasCastTime && !s.onCooldown
    ensures ActivateStep(c, h, s).events == Raise(h.onStart, Start) + [Event(Cast, h.onCast.value)]
    ensures !ActivateStep(c, h, s).state.isCasting
    ensures ActivateStep(c, h, s).state.onCooldown
    ensures !ActivateStep(c, h, s).state.cooldownTimer.value.paused
  {
  }

  // ----- PutOnCooldown -----

  /** `PutOnCooldown` changes nothing before the first use or while on cooldown; otherwise it
      changes exactly the cooldown flag, which it sets, and the cooldown timer, which it
      unpauses. */
  lemma PutOnCooldownSkipsOrStarts(s: AbilityState)
    requires PutOnCooldownDefined(s)
    ensures s.firstUse || s.onCooldown ==> PutOnCooldownStep(s) == s
    ensures !s.firstUse && !s.onCooldown ==>
      && PutOnCooldownStep(s).onCooldown
      && PutOnCooldownStep(s).cooldownTimer == Some(s.cooldownTimer.value.(paused := false))
      && PutOnCooldownStep(s).(onCooldown := s.onCooldown, cooldownTimer := s.cooldownTimer) == s
  {
  }

  /** Putting an ability on cooldown twice is the same as once. */
  lemma PutOnCooldownIdempotent(s: AbilityState)
    requires PutOnCooldownDefined(s)
    ensures PutOnCooldownDefined(PutOnCooldownStep(s))
    ensures PutOnCooldownStep(PutOnCooldownStep(s)) == PutOnCooldownStep(s)
  {
  }

  // ----- Cancel and completions -----

  /** `CancelCast` acts only while casting: it raises the cancel and rewinds and pauses the
      cast timer, and leaves the cooldown, the cooldown timer and the casting flag as they
      were. */
  lemma CancelCastEffect(c: Settings, h: Handlers, s: AbilityState)
    requires CancelCastDefined(c, s)
    ensures !s.isCasting ==> CancelCastStep(c, h, s) == Stepped(s, [])
    ensures s.isCasting ==>
      var r := CancelCastStep(c, h, s);
      && r.events == Raise(h.onCancel, Cancel)
      && r.state.isCasting
      && r.state.onCooldown == s.onCooldown
      && r.state.cooldownTimer == s.cooldownTimer
      && (c.hasCastTime ==> r.state.castTimer == Some(s.castTimer.value.(elapsed := 0.0, paused := true)))
  {
  }

  /** The completion of the cast raises the cast, ends the cast, rewinds and pauses the cast
      timer and leaves the cooldown alone. */
  lemma CastCompletedEffect(c: Settings, h: Handlers, s: AbilityState)
    requires CastDefined(c, h, s)
    ensures CastStep(c, h, s).events == [Event(Cast, h.onCast.value)]
    ensures !CastStep(c, h, s).state.isCasting
    ensures CastStep(c, h, s).state.onCooldown == s.onCooldown
    ensures CastStep(c, h, s).state.cooldownTimer == s.cooldownTimer
    ensures c.hasCastTime ==> CastStep(c, h, s).state.castTimer == Some(s.castTimer.value.(elapsed := 0.0, paused := true))
  {
  }

  /** The completion of the cooldown raises its event, takes the ability off cooldown and
      rewinds and pauses the cooldown timer, so the next `Use` goes through unless locked. */
  lemma CooldownCompletedEffect(c: Settings, h: Handlers, s: AbilityState)
    requires s.cooldownTimer.Some?
    ensures CooldownCompletedStep(h, s).events == Raise(h.onOffCooldown, OffCooldown)
    ensures !CooldownCompletedStep(h, s).state.onCooldown
    ensures CooldownCompletedStep(h, s).state.cooldownTimer == Some(s.cooldownTimer.value.(elapsed := 0.0, paused := true))
    ensures CooldownCompletedStep(h, s).state.isCasting == s.isCasting
    ensures Configured(c, h, s) && !s.lockCasting ==>
      UseDefined(c, h, CooldownCompletedStep(h, s).state) && UseStep(c, h, CooldownCompletedStep(h, s).state).used
  {
    if Configured(c, h, s) {
      ConfiguredIsDefined(c, h, CooldownCompletedStep(h, s).state);
    }
  }

  /** `reset` leaves the ability idle and off cooldown with both timers rewound and paused. */
  lemma ResetEffect(c: Settings, s: AbilityState)
    requires ResetDefined(c, s)
    ensures !ResetStep(c, s).onCooldown && !ResetStep(c, s).isCasting
    ensures ResetStep(c, s).cooldownTimer == Some(s.cooldownTimer.value.(elapsed := 0.0, paused := true))
    ensures c.hasCastTime ==> ResetStep(c, s).castTimer == Some(s.castTimer.value.(elapsed := 0.0, paused := true))
    ensures ResetStep(c, s).firstUse == s.firstUse && ResetStep(c, s).lockCasting == s.lockCasting
  {
  }

  // ----- Lifecycles -----

  /** Unless the cooldown starts at the cast point of a cast, a used ability refuses the next
      `Use`, also once its cast has completed, until its cooldown completes. */
  lemma UsedAbilityWaitsForCooldown(c: Settings, h: Handlers, s: AbilityState)
    requires Configured(c, h, s) && UseStep(c, h, s).used
    requires !(c.hasCastTime && c.cooldownType == FromCastPoint)
    ensures var u := UseStep(c, h, s).state;
      && UseDefined(c, h, u) && !UseStep(c, h, u).used
      && UseDefined(c, h, CastStep(c, h, u).state) && !UseStep(c, h, CastStep(c, h, u).state).used
  {
    ActivateKeepsConfigured(c, h, s);
    var u := UseStep(c, h, s).state;
    ConfiguredIsDefined(c, h, u);
    StepsKeepConfigured(c, h, u);
    ConfiguredIsDefined(c, h, CastStep(c, h, u).state);
  }

  /** `Use` during a cast is not refused under `FromCastPoint`: it goes through and raises the
      start again, but the cast timer is only unpaused, not rewound, so the cast continues
      from where it was and no cast is raised. */
  lemma UseWhileCastingGoesThrough(c: Settings, h: Handlers, s: AbilityState)
    requires Configured(c, h, s) && c.hasCastTime && c.cooldownType == FromCastPoint
    requires !s.onCooldown && !s.lockCasting
    ensures var u := UseStep(c, h, s).state;
      && u.isCasting && !u.onCooldown
      && UseDefined(c, h, u) && UseStep(c, h, u).used && UseStep(c, h, u).state.isCasting
      && UseStep(c, h, u).events == Raise(h.onStart, Start)
      && UseStep(c, h, u).state.castTimer == Some(Unpaused(u.castTimer.value))
  {
    ActivateKeepsConfigured(c, h, s);
    ConfiguredIsDefined(c, h, UseStep(c, h, s).state);
  }

  /** As written, an ability with a cast time whose cooldown starts at the cast point never
      goes on cooldown: after the cast completes, the next `Use` goes through at once. On the
      first use the cooldown timer is created running, so it still completes on its own. */
  lemma CastPointNeverCoolsDown(c: Settings, h: Handlers, s: AbilityState)
    requires Configured(c, h, s) && c.hasCastTime && c.cooldownType == FromCastPoint
    requires !s.onCooldown && !s.lockCasting
    ensures var cast := CastStep(c, h, UseStep(c, h, s).state).state;
      && !cast.onCooldown
      && UseDefined(c, h, cast) && UseStep(c, h, cast).used
    ensures s.firstUse ==> !UseStep(c, h, s).state.cooldownTimer.value.paused
  {
    var u := UseStep(c, h, s).state;
    ActivateKeepsConfigured(c, h, s);
    StepsKeepConfigured(c, h, u);
    ConfiguredIsDefined(c, h, CastStep(c, h, u).state);
  }

  /** `actual_cast` with the evident intent: under `FromCastPoint`, the cast point puts the
      ability on cooldown. */
  function FixedCastStep(c: Settings, h: Handlers, s: AbilityState): Stepped
    requires CastDefined(c, h, s) && PutOnCooldownDefined(s)
  {
    var cast := CastStep(c, h, s);
    if c.hasCastTime && c.cooldownType == FromCastPoint then Stepped(PutOnCooldownStep(cast.state), cast.events)
    else cast
  }

  /** With the corrected cast, an ability whose cooldown starts at the cast point is on
      cooldown, with its cooldown timer running, once the cast completes, and refuses `Use`
      until the cooldown completes. */
  lemma FixedCastPointCoolsDown(c: Settings, h: Handlers, s: AbilityState)
    requires Configured(c, h, s) && c.hasCastTime && c.cooldownType == FromCastPoint
    requires !s.onCooldown && !s.lockCasting
    ensures var u := UseStep(c, h, s).state;
      && CastDefined(c, h, u) && PutOnCooldownDefined(u)
      && var cast := FixedCastStep(c, h, u).state;
      && cast.onCooldown && !cast.cooldownTimer.value.paused && !cast.isCasting
      && UseDefined(c, h, cast) && !UseStep(c, h, cast).used
  {
    ActivateKeepsConfigured(c, h, s);
    ConfiguredIsDefined(c, h, UseStep(c, h, s).state);
  }

  /** An ability. The constructor's parameters are constants; the event subscribers, the
      flags and the timers are fields. */
  class Ability {
    const name: string
    const cooldownTime: real
    const castTime: real
    const cooldownType: CooldownType
    const hasCastTime: bool
    const configError: bool
    var onStart: Option<Callback>
    var onCast: Option<Callback>
    var onOffCooldown: Option<Callback>
    var onCancel: Option<Callback>
    var firstUse: bool
    var onCooldown: bool
    var isCasting: bool
    var lockCasting: bool
    var castTimer: Option<Countdown>
    var cooldownTimer: Option<Countdown>
    /** The events raised so far, in order. */
    ghost var trace: seq<Event>

    function Config(): Settings
    {
      Settings(name, cooldownTime, castTime, cooldownType, hasCastTime, configError)
    }

    function Subscribers(): Handlers
      reads this
    {
      Handlers(onStart, onCast, onOffCooldown, onCancel)
    }

    function State(): AbilityState
      reads this
    {
      AbilityState(firstUse, onCooldown, isCasting, lockCasting, castTimer, cooldownTimer)
    }

    /** `Ability(name, cooldown_time, cast_time, onActivate, type)`. */
    constructor (name: string, cooldownTime: real, castTime: real, onActivate: Option<Callback>,
                 cooldownType: CooldownType)
      ensures Construction(Config(), Subscribers(), State())
           == Created(name, cooldownTime, castTime, onActivate, cooldownType)
      ensures trace == []
    {
      var configured := onActivate.Some?;
      this.name := if configured then name else "";
      this.cooldownTime := if configured then cooldownTime else 0.0;
      this.castTime := if configured then castTime else 0.0;
      this.cooldownType := if configured then cooldownType else FromStart;
      hasCastTime := configured && castTime > 0.0;
      configError := !configured || cooldownTime <= 0.0;
      onStart, onCast, onOffCooldown, onCancel := None, onActivate, None, None;
      firstUse := configured;
      onCooldown, isCasting, lockCasting := false, false, false;
      castTimer := if configured && castTime > 0.0 then Some(Paused(NewCountdown(castTime))) else None;
      cooldownTimer := None;
      trace := [];
    }

    /** `Use`. */
    method Use() returns (used: bool)
      requires UseDefined(Config(), Subscribers(), State())
      modifies this`trace, this`cooldownTimer, this`firstUse, this`isCasting, this`onCooldown, this`castTimer
      ensures var r := UseStep(Config(), Subscribers(), old(State()));
        State() == r.state && trace == old(trace) + r.events && used == r.used
    {
      if !onCooldown && !lockCasting {
        Activate();
        return true;
      } else {
        return false;
      }
    }

    /** The `LockCasting` setter: suspends or resumes the ability. */
    method SetLockCasting(locked: bool)
      modifies this`lockCasting
      ensures State() == old(State()).(lockCasting := locked)
    {
      lockCasting := locked;
    }

    /** `activate`. */
    method Activate()
      requires ActivateDefined(Config(), Subscribers(), State())
      modifies this`trace, this`cooldownTimer, this`firstUse, this`isCasting, this`onCooldown, this`castTimer
      ensures var r := ActivateStep(Config(), Subscribers(), old(State()));
        State() == r.state && trace == old(trace) + r.events
    {
      if onStart.Some? {
        trace := trace + [Event(Start, onStart.value)];
      }
      if firstUse {
        if hasCastTime && cooldownType == FromStart {
          cooldownTimer := Some(NewCountdown(cooldownTime + castTime));
        } else {
          cooldownTimer := Some(NewCountdown(cooldownTime));
        }
        firstUse := false;
      }
      assert State() == ArmStep(Config(), old(State()));
      if hasCastTime {
        isCasting := true;
        if cooldownType == FromStart {
          PutOnCooldown();
        }
        castTimer := Some(Unpaused(castTimer.value));
        return;
      } else {
        CastCompleted();
        PutOnCooldown();
      }
    }

    /** `CancelCast`. */
    method CancelCast()
      requires CancelCastDefined(Config(), State())
      modifies this`trace, this`castTimer
      ensures var r := CancelCastStep(Config(), Subscribers(), old(State()));
        State() == r.state && trace == old(trace) + r.events
    {
      if isCasting {
        if onCancel.Some? {
          trace := trace + [Event(Cancel, onCancel.value)];
        }
        if hasCastTime {
          castTimer := Some(Paused(Rewound(castTimer.value)));
        }
      }
    }

    /** `actual_cast`. */
    method CastCompleted()
      requires CastDefined(Config(), Subscribers(), State())
      modifies this`trace, this`isCasting, this`castTimer
      ensures var r := CastStep(Config(), Subscribers(), old(State()));
        State() == r.state && trace == old(trace) + r.events
    {
      trace := trace + [Event(Cast, onCast.value)];
      isCasting := false;
      if hasCastTime {
        castTimer := Some(Paused(Rewound(castTimer.value)));
      }
    }

    /** `PutOnCooldown`. */
    method PutOnCooldown()
      requires PutOnCooldownDefined(State())
      modifies this`onCooldown, this`cooldownTimer
      ensures State() == PutOnCooldownStep(old(State()))
    {
      if firstUse || onCooldown {
        return;
      }
      onCooldown := true;
      cooldownTimer := Some(Unpaused(cooldownTimer.value));
    }

    /** `reset`. */
    method Reset()
      requires ResetDefined(Config(), State())
      modifies this`castTimer, this`onCooldown, this`isCasting, this`cooldownTimer
      ensures State() == ResetStep(Config(), old(State()))
    {
      if hasCastTime {
        castTimer := Some(Paused(Rewound(castTimer.value)));
      }
      onCooldown, isCasting := false, false;
      cooldownTimer := Some(Paused(Rewound(cooldownTimer.value)));
    }

    /** `put_offcooldown`. */
    method CooldownCompleted()
      requires cooldownTimer.Some?
      modifies this`trace, this`onCooldown, this`cooldownTimer
      ensures var r := CooldownCompletedStep(Subscribers(), old(State()));
        State() == r.state && trace == old(trace) + r.events
    {
      if onOffCooldown.Some? {
        trace := trace + [Event(OffCooldown, onOffCooldown.value)];
      }
      onCooldown := false;
      cooldownTimer := Some(Paused(Rewound(cooldownTimer.value)));
    }
  }
}
