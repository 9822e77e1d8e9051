# Unity3d-Timers: a verified model of the timer pool, the behaviours and the ability

This project models the core of a frame-driven timer library for Unity in Dafny:

- **The timer pool and scheduler** (`Timer.cs`), module `TimerPool`. The static `workingTimers` and
  `freeTimers` lists and the behaviour pool (a dictionary from behaviour type to a list of
  behaviour objects) are the fields of one `TimerManager` object. The model covers:
  - `getTimer`, `registerTimer`, `getBehaviorBase`, `registerBehavior`, `ReleaseTimer` and
    `Destroy`;
  - the `Repeater` factory;
  - the per-timer `Update` and the per-frame `UpdateAllTimers` loop;
  - the base-class setters `SetCallbacks`, `Initialize` and `ResetEntity`.

  Each of these is a method that changes the lists in place. A ghost invariant, `Valid`, states
  the pool's bookkeeping. `Repeater`, `ReleaseTimer`, `Destroy`, `Update` and `UpdateAllTimers`
  preserve it. `getTimer` leaves it broken only by the handle it hands out, which still has no
  behaviour, and `Attach` (the behaviour step of the factory) restores it. The sub-steps
  `getBehaviorBase` and `registerTimer` run only inside these and promise nothing about it.
  `Valid` states:
  - the lists have no duplicates and are disjoint;
  - free handles hold no behaviour;
  - each handed-out handle owns its own behaviour, which is in no pool list;
  - every pooled behaviour sits once in the list of its own type.
- **One update pass** (module `TickPass`). This is the loop of `UpdateAllTimers` as a pure
  function of the list, the set of completed timers and the delta:
  - `Sweep` is the loop as written;
  - `FixedSweep` is the loop with the evident intent.
- **The behaviour update rules** (module `BehaviorRules`). The Repeater and the Countdown step
  are pure functions of the accumulator. Both source snapshots share them.
- **The two snapshots of the behaviours**, whose methods change the behaviour's fields:
  - `Timer_Behaviors.cs`, module `UssBehaviors`: callbacks receive the timer, and the countdown
    sets `Completed` after its callback;
  - `Assets/Timers/Timer_Behaviors.cs`, module `GlobalBehaviors`: callbacks take no arguments,
    and the countdown sets `Completed` before its callback.
- **The ability** (`Assets/Timers/Special/Ability.cs`), module `Abilities`. This is the
  cast/cooldown state machine.
  - Each operation is a function of the settings, the event subscribers and the state. It
    returns the new state and the events raised, in order.
  - The `Ability` class has one method per operation of the source. Each method's contract ties
    its new fields and its event trace to that function.
  - Lemmas state what the source promises about the state machine.

How the model represents the source:
- Time is a mathematical real. C#'s floating-point remainder is the truncated remainder,
  `CsFloat.Rem`.
- Callbacks and events are opaque tags, appended to ghost traces (`fired`, `log`, `trace`) when
  they are invoked.
- A path on which the source would throw becomes a precondition. Examples are a null behaviour
  or a missing timer.
- The frame delta, `Time.unscaledDeltaTime` in the source, is a parameter.

Points where the code's behaviour is easy to misread:
- **Timer removal happens during the pass.** `Timer.Update` raises `OnStopped` for a completed
  timer (`Timer.cs:120-122`). `OnStopped` is wired to `ReleaseTimer` (`Timer.cs:88`), which
  removes the timer from `workingTimers` at once (`Timer.cs:95`). This happens inside the
  loop of `UpdateAllTimers` (`Timer.cs:40-44`). See the first finding.
- **A second release is a crash.** `ReleaseTimer` reads `timer.behavior.GetType()`
  (`Timer.cs:97`), and the first release set `timer.behavior` to null (`Timer.cs:102`).
  `ReleaseTimer` and `Destroy` therefore require a behaviour.
- **A behaviour fires strictly past its interval or exit time.** The tests are `>`
  (`Timer_Behaviors.cs:64`, `105`; `Assets/Timers/Timer_Behaviors.cs:61`, `102`).
- **`Use` does not look at `isCasting`.** `Use` tests only `OnCooldown` and `LockCasting`
  (`Ability.cs:144`). Under `FromCastPoint`, a second `Use` during a cast goes through and
  raises the start again. `activate` only unpauses the cast timer (`Ability.cs:174-184`), so
  the cast continues without restarting (`Abilities.UseWhileCastingGoesThrough`).
- **`actual_cast` never puts a `FromCastPoint` ability on cooldown.** The `fromCastPoint`
  documentation says the cooldown begins at the cast point (`Ability.cs:64-67`). On the first
  use, the cooldown timer is created running, but `actual_cast` (`Ability.cs:209-216`) does not
  call `PutOnCooldown`, so `OnCooldown` stays false. The public `PutOnCooldown`
  (`Ability.cs:220-230`) does set it. See the second finding.
- **Two configuration errors behave differently.**
  - A missing activation callback is logged, and the constructor returns early. The ability
    keeps its defaults.
  - A cooldown of zero or less is logged, and construction continues.

  Neither is fatal. The model records both in the `configError` flag.

## Model

| member | source | states |
|---|---|---|
| CsFloat.Rem | Timer_Behaviors.cs:70 | C#'s floating-point `%`: the dividend minus the divisor times the quotient truncated toward zero, so the remainder takes the dividend's sign |
| CsFloat.RemOfExceeding | Timer_Behaviors.cs:70 | For a dividend above a positive divisor, C#'s `%` removes at least one whole divisor and leaves a remainder in `[0, divisor)` |
| BehaviorRules.RepeaterStep | Timer_Behaviors.cs:61-71 | One Repeater update, shared by both behaviour files (`Assets/Timers/Timer_Behaviors.cs:58-68` too): the delta is added to the accumulator. When the sum is strictly past the interval, the step fires and keeps `sum % interval`; otherwise it keeps the sum and does not fire |
| BehaviorRules.CountdownStep | Timer_Behaviors.cs:102-109 | One Countdown update: the delta is added to the accumulator, and the step fires when the sum is strictly past the exit time |
| BehaviorRules.RepeaterStepBounded | Timer_Behaviors.cs:64-71 | With a positive interval, the accumulator after a Repeater update is at most the interval, whatever the delta, and not negative when the accumulated time was not |
| BehaviorRules.RepeaterCarry | Timer_Behaviors.cs:64-71 | A Repeater update strictly past the interval fires once. It removes k >= 1 whole intervals and keeps the remainder in `[0, interval)`. k > 1 exactly when two or more intervals were crossed, so the surplus firings are dropped |
| BehaviorRules.RepeaterStepSplits | Timer_Behaviors.cs:61-71 | With a delta below the interval, a Repeater update moves exactly one interval out of the accumulator when it fires and none when it does not |
| BehaviorRules.RepeaterRunCountsIntervals | Timer_Behaviors.cs:59-72 | Over any sequence of deltas each below the interval, the elapsed time equals the number of firings times the interval plus the carried remainder, and the accumulator stays within `[0, interval]` |
| BehaviorRules.GuardedCountdownFiresOnce | Timer.cs:118-126 | A countdown driven by its timer, which stops forwarding once `Completed` is set, fires exactly once when the deltas add up to strictly more than the exit time, and never otherwise |
| BehaviorRules.UnguardedCountdownRefires | Assets/Timers/Timer_Behaviors.cs:97-107 | The countdown's `Update` has no guard of its own: once past the exit time, every further update fires again |
| TickPass.Sweep | Timer.cs:38-46 | The loop of `UpdateAllTimers` as written, from an index with a number of iterations left. A completed timer at the index is stopped and removed from the list in place, and the index still advances. Any other timer is forwarded the delta. Running out of list before the captured count is an overrun |
| TickPass.SweepWithoutCompletions | Timer.cs:38-46 | With no completed timer, the pass forwards the delta to every working timer exactly once, in list order, and leaves the list as it was |
| TickPass.ForwardingStopsNothing | Timer.cs:118-123 | A pass made only of forwards stops no timer, so it releases nothing |
| TickPass.SweepForwardsPrefix | Timer.cs:42-44 | Timers that have not completed are forwarded one by one, in order, up to the first completed one |
| TickPass.SweepOverruns | Timer.cs:40-44 | Once a removal has left the index ahead of the shrunken list, the loop with the captured count indexes past the end |
| TickPass.SweepVisitsOnlyFrom | Timer.cs:42-44 | The pass visits only timers found at or after its current index |
| TickPass.SweepSkipsSuccessorAndOverruns | Timer.cs:38-46 | As written: when a timer other than the last completes, the timer after it is never visited in that pass, and the loop indexes past the end of the list |
| TickPass.FirstOfTwoCompletes | Timer.cs:38-46 | The two-timer witness: the first timer completes, the second is skipped, and the pass throws |
| TickPass.FixedSweep | Timer.cs:38-46 | The loop with the evident intent: it walks the list as it stands, stopping and removing each completed timer without advancing the index, and forwarding every other timer. It never overruns |
| TickPass.FixedSweepVisitsEachOnce | Timer.cs:38-46 | The corrected pass visits every working timer exactly once, in order. It stops the completed ones and forwards the others, removes exactly the completed ones, keeps the rest in order, and never indexes past the end |
| TimerPool.RemoveFirst | Timer.cs:95 | `List.Remove`: the list without the first occurrence of the element, or the list unchanged when the element is absent |
| TimerPool.RemoveFirstAt | Timer.cs:95 | In a list without duplicates, `List.Remove` of the element at index i removes exactly index i |
| TimerPool.RemoveFirstAbsent | Timer.cs:95 | `List.Remove` of an absent element leaves the list unchanged |
| TimerPool.RemoveFirstPresent | Timer.cs:59 | `List.Remove` of a present element shortens a duplicate-free list by one, keeps it duplicate-free, and keeps every other element |
| TimerPool.RemoveFirstMembers | Timer.cs:78 | `List.Remove` on a duplicate-free list keeps every other element and no duplicates. It shortens the list by one when the element is there and changes nothing when it is not |
| TimerPool.RegisterKeepsSound | Timer.cs:85-90 | Appending a handle the pool does not know to `workingTimers` keeps the bookkeeping sound, with that handle pending its behaviour |
| TimerPool.RecycleKeepsSound | Timer.cs:75-79 | Taking the head of `freeTimers` keeps the bookkeeping sound: the handle becomes a recycled, pending handle, and it is not put back on `workingTimers` |
| TimerPool.TakeHeadKeepsPoolSound | Timer.cs:53-60 | Taking the head of a non-empty pooled list leaves a sound pool, and the head has the requested type and is unused |
| TimerPool.AttachKeepsSound | Timer.cs:128-133 | Giving the pending handle an unused behaviour restores the full invariant |
| TimerPool.Return | Timer.cs:97-100 | The pool with the behaviour appended to the list of its runtime type, the list created empty when the type has none |
| TimerPool.ReturnKeepsPoolSound | Timer.cs:97-100 | Appending an owned behaviour to the list for its type, creating the list when absent, keeps the pool sound once its owner lets go |
| TimerPool.ReleaseKeepsSound | Timer.cs:92-103 | Release keeps the bookkeeping sound. Exactly the released handle leaves `workingTimers`, which shrinks by one when the handle was there |
| TimerPool.Behavior.constructor | Timer.cs:63 | `new T()`: a behaviour of the requested type with every field at its default |
| TimerPool.Behavior.SetCallbacks | Timer.cs:148-155 | Overwrites exactly the four callback slots |
| TimerPool.Behavior.Initialize | Timer.cs:157-164 | Overwrites exactly the four float slots |
| TimerPool.Behavior.ResetEntity | Timer.cs:166-172 | Zeroes `timePassed` and `exitTime` and clears `Completed`; the float and callback slots stay |
| TimerPool.Behavior.Reinitialize | Timer.cs:23-26 | The fluent chain of the factory: accumulators zeroed, `Completed` cleared, the interval in the first float slot and the callback in the first callback slot, the rest cleared |
| TimerPool.Timer.constructor | Timer.cs:72 | A new handle holds no behaviour |
| TimerPool.Timer.RegisterBehavior | Timer.cs:128-133 | The handle holds the behaviour through the interface and the base class alike |
| TimerPool.TimerManager.constructor | Timer.cs:34-36 | Empty lists and an empty pool satisfy the invariant |
| TimerPool.TimerManager.GetBehaviorBase | Timer.cs:49-65 | With a non-empty list for the type, the result is its element 0 and only that list changes, by losing its head. Otherwise the result is a new behaviour of that type and the pool is unchanged |
| TimerPool.TimerManager.RegisterTimer | Timer.cs:85-90 | Appends the handle to `workingTimers` |
| TimerPool.TimerManager.GetTimer | Timer.cs:67-83 | With no free handle, a new handle is appended to `workingTimers`. Otherwise the head of `freeTimers` is taken off, and it is not added to `workingTimers` |
| TimerPool.TimerManager.Attach | Timer.cs:21-22 | The pending handle takes the head of the pooled list for the type, or a new behaviour, and the invariant is restored |
| TimerPool.TimerManager.Repeater | Timer.cs:19-29 | The factory's handle is obtained as `GetTimer` says, and its behaviour is taken as `GetBehaviorBase` says. The behaviour is reset, with the interval and callback in the first slots. Only the manager, the reused handle and the reused behaviour change. The invariant is kept and the log unchanged |
| TimerPool.TimerManager.ReleaseTimer | Timer.cs:92-103 | The handle goes to the end of `freeTimers` and leaves `workingTimers`. Its behaviour goes to the end of the list for its type, and the handle then holds none. A working handle keeps the working and free total unchanged |
| TimerPool.TimerManager.Destroy | Timer.cs:105-108 | Releases the handle, as `ReleaseTimer` |
| TimerPool.TimerManager.Update | Timer.cs:118-126 | A completed timer raises `OnStopped`, which releases it, and its behaviour is not updated. Otherwise the delta is forwarded unchanged and the pool is unchanged |
| TimerPool.Returned | Timer.cs:92-102 | The pool after releasing a sequence of handles in order: each owned handle's behaviour is returned as `Return` does |
| TimerPool.SweepingStep | Timer.cs:92-102 | Stopping and releasing the timer at the loop index, or forwarding it the delta, advances the loop state by that visit. A released handle joins the end of the free list and its behaviour the pool. The handle count is conserved |
| TimerPool.SweepingFinish | Timer.cs:38-46 | When the loop ends at the captured count or past the end of the list, its state is the whole pass. With no completed timer, nothing is freed or pooled |
| TimerPool.TimerManager.UpdateAt | Timer.cs:42-44 | One iteration of the loop is one more step of `TickPass.Sweep`. A stopped timer's handle and behaviour are released on the spot. The invariant is kept |
| TimerPool.TimerManager.UpdateAllTimers | Timer.cs:38-46 | The list left, the forwards and `OnStopped` events logged, and whether the loop indexes past the end are exactly those of `TickPass.Sweep` on the working list, with the count taken before the loop. The timers the pass stops go, in order, to the end of the free list, and their behaviours go back to the pool (`Returned`). No handle is lost. With no completed timer, the free list and the pool are unchanged. Timers still on the working list keep their behaviours, and no handle gains an owner |
| UssBehaviors.Behavior.constructor | Timer_Behaviors.cs:92-94 | A new behaviour: accumulators, slots and the countdown's own `exitTime` at their defaults |
| UssBehaviors.Behavior.SetFloats | Timer_Behaviors.cs:21-22 | Overwrites exactly the four float slots |
| UssBehaviors.Behavior.SetCallbacks | Timer_Behaviors.cs:23 | Stores the plain callback and changes nothing else |
| UssBehaviors.Behavior.SetCallbacksWithParameters | Timer_Behaviors.cs:40-42 | Stores the parameterised callback and the parameter array |
| UssBehaviors.Behavior.Initialize | Timer_Behaviors.cs:95-98 | A countdown copies its first float slot into its own `exitTime`; a repeater changes nothing |
| UssBehaviors.Behavior.Update | Timer_Behaviors.cs:59-110 | Both accumulators grow by exactly the delta. A repeater fires at most once, strictly past its interval. It invokes `paramC1(timer, parameters)` when it has parameters and `c1(timer)` otherwise, keeps the remainder, and never sets `Completed`. A countdown strictly past its exit time invokes `c1(timer)` while `Completed` still has its old value, and sets it afterwards |
| UssBehaviors.NewTimer | Timer_Behaviors.cs:19-20 | A new handle linked to a new behaviour of the requested kind |
| UssBehaviors.NewRepeater | Timer_Behaviors.cs:17-26 | A repeater whose main interval is `interval` and whose plain callback is `callback` |
| UssBehaviors.NewRepeaterParam | Timer_Behaviors.cs:36-49 | A repeater that stores the parameter array and invokes the parameterised callback |
| UssBehaviors.NewCountdown | Timer_Behaviors.cs:81-90 | The exit time travels through the first float slot into the countdown's own `exitTime` |
| GlobalBehaviors.Behavior.constructor | Assets/Timers/Timer_Behaviors.cs:89-91 | A new behaviour: accumulators, slots and the countdown's own `exitTime` at their defaults |
| GlobalBehaviors.Behavior.SetFloats | Assets/Timers/Timer_Behaviors.cs:18-19 | Overwrites exactly the four float slots |
| GlobalBehaviors.Behavior.SetCallbacks | Assets/Timers/Timer_Behaviors.cs:20 | Stores the plain callback and changes nothing else |
| GlobalBehaviors.Behavior.SetCallbacksWithParameters | Assets/Timers/Timer_Behaviors.cs:37-39 | Stores the parameterised callback and the parameter array |
| GlobalBehaviors.Behavior.Initialize | Assets/Timers/Timer_Behaviors.cs:92-95 | A countdown copies its first float slot into its own `exitTime`; a repeater changes nothing |
| GlobalBehaviors.Behavior.Update | Assets/Timers/Timer_Behaviors.cs:56-107 | Both accumulators grow by exactly the delta. A repeater fires at most once, strictly past its interval. It invokes `paramC1(parameters)` or `c1()`, keeps the remainder, and never sets `Completed`. A countdown strictly past its exit time sets `Completed` first, so its callback sees it set |
| GlobalBehaviors.NewTimer | Assets/Timers/Timer_Behaviors.cs:16-17 | A new handle with a new behaviour of the requested kind |
| GlobalBehaviors.NewRepeater | Assets/Timers/Timer_Behaviors.cs:14-23 | A repeater whose main interval is `interval` and whose plain callback is `callback` |
| GlobalBehaviors.NewRepeaterParam | Assets/Timers/Timer_Behaviors.cs:33-46 | A repeater that stores the parameter array and invokes the parameterised callback |
| GlobalBehaviors.NewCountdown | Assets/Timers/Timer_Behaviors.cs:78-87 | The exit time travels through the first float slot into the countdown's own `exitTime` |
| Abilities.Created | Assets/Timers/Special/Ability.cs:97-137 | The constructor. Without a callback, it logs, returns at once and flags the configuration error, leaving every other field at its default. Otherwise it stores the settings and the callback, flags a cooldown of zero or less, creates a paused cast timer exactly when the cast time is positive, and marks the first use |
| Abilities.UseStep | Assets/Timers/Special/Ability.cs:142-151 | `Use`: when the ability is neither on cooldown nor locked, it activates and returns true. Otherwise it changes and raises nothing and returns false |
| Abilities.ArmStep | Assets/Timers/Special/Ability.cs:161-172 | On the first use, it creates the cooldown countdown, with the cooldown plus the cast time under `fromStart` with a cast time, else the cooldown, and clears the first-use flag. Later it does nothing |
| Abilities.BeginCastStep | Assets/Timers/Special/Ability.cs:174-185 | With a cast time: casting starts, `PutOnCooldown` runs under `fromStart`, and the cast timer is unpaused |
| Abilities.ActivateStep | Assets/Timers/Special/Ability.cs:156-193 | `activate`: it raises the start, arms the cooldown timer on the first use, then either begins the cast (with a cast time) or casts at once and runs `PutOnCooldown` |
| Abilities.CastStep | Assets/Timers/Special/Ability.cs:209-216 | `actual_cast`: it raises the cast, ends casting, and with a cast time rewinds and pauses the cast timer |
| Abilities.CancelCastStep | Assets/Timers/Special/Ability.cs:197-207 | `CancelCast`: while casting, it raises the cancel, and with a cast time rewinds and pauses the cast timer. Otherwise it does nothing. Casting is not ended |
| Abilities.PutOnCooldownStep | Assets/Timers/Special/Ability.cs:220-230 | `PutOnCooldown`: before the first use or while on cooldown, it does nothing. Otherwise it sets the cooldown flag and unpauses the cooldown timer |
| Abilities.CooldownCompletedStep | Assets/Timers/Special/Ability.cs:243-250 | `put_offcooldown`: it raises the end of the cooldown, clears the cooldown flag, and rewinds and pauses the cooldown timer |
| Abilities.ResetStep | Assets/Timers/Special/Ability.cs:232-238 | `reset`: it rewinds and pauses the cast timer (with a cast time) and the cooldown timer, and clears the cooldown and casting flags |
| Abilities.CreatedIsConfigured | Assets/Timers/Special/Ability.cs:97-137 | Built with a callback, an ability is configured, at its first use, idle, unlocked and off cooldown. Its cast timer exists, paused at zero, exactly when the cast time is positive. The settings are as given, and an error is reported exactly when the cooldown is not positive |
| Abilities.CreatedWithoutCallbackCannotBeUsed | Assets/Timers/Special/Ability.cs:99-103 | Built without a callback, an ability reports the error and keeps its defaults. Its first `Use` would invoke the missing callback |
| Abilities.ConfiguredIsDefined | Assets/Timers/Special/Ability.cs:142-250 | A configured ability never crashes in `Use`, `activate`, `PutOnCooldown`, `actual_cast` or `CancelCast`. From its first use on, it never crashes in `put_offcooldown` or `reset` either |
| Abilities.ActivateKeepsConfigured | Assets/Timers/Special/Ability.cs:156-192 | An activation keeps an ability configured and ends its first use |
| Abilities.StepsKeepConfigured | Assets/Timers/Special/Ability.cs:142-250 | Every operation keeps an ability configured |
| Abilities.FirstUseNeverReturns | Assets/Timers/Special/Ability.cs:161-172 | Once used, no operation returns an ability to its first use |
| Abilities.UseGate | Assets/Timers/Special/Ability.cs:142-151 | `Use` succeeds exactly when the ability is neither on cooldown nor locked. A refused `Use` changes nothing and raises nothing. `isCasting` plays no part |
| Abilities.ActivateRaisesStartFirst | Assets/Timers/Special/Ability.cs:158-159 | With a subscriber, the start is the first event of an activation |
| Abilities.ActivateArmsCooldownOnce | Assets/Timers/Special/Ability.cs:161-172 | The first activation creates the cooldown timer, running from zero. Its duration is cooldown plus cast time under `fromStart` with a cast time, and the cooldown otherwise. Later activations keep the duration, and no activation leaves the first use set |
| Abilities.ActivateWithCastTime | Assets/Timers/Special/Ability.cs:174-185 | With a cast time, activation starts casting and unpauses the cast timer. It goes on cooldown at once exactly under `fromStart`. The start is its only event: the cast callback is not invoked |
| Abilities.ActivateWithoutCastTime | Assets/Timers/Special/Ability.cs:187-191 | Without a cast time, activation raises the start and then the cast, and goes on cooldown with the cooldown timer running |
| Abilities.PutOnCooldownSkipsOrStarts | Assets/Timers/Special/Ability.cs:220-230 | Nothing changes before the first use or while on cooldown. Otherwise the ability goes on cooldown, its cooldown timer is unpaused, and nothing else changes |
| Abilities.PutOnCooldownIdempotent | Assets/Timers/Special/Ability.cs:220-230 | Putting an ability on cooldown twice is the same as once |
| Abilities.CancelCastEffect | Assets/Timers/Special/Ability.cs:197-207 | Outside a cast nothing happens. During a cast, the cancel is raised and the cast timer is rewound and paused. The cooldown, the cooldown timer and `isCasting` are left as they were |
| Abilities.CastCompletedEffect | Assets/Timers/Special/Ability.cs:209-216 | The cast completion raises the cast, ends the cast, and rewinds and pauses the cast timer. The cooldown is left alone |
| Abilities.CooldownCompletedEffect | Assets/Timers/Special/Ability.cs:243-250 | The cooldown completion raises its event, takes the ability off cooldown, and rewinds and pauses the cooldown timer. Unless the ability is locked, the next `Use` goes through |
| Abilities.ResetEffect | Assets/Timers/Special/Ability.cs:232-238 | `reset` leaves the ability off cooldown and idle, with both timers rewound and paused |
| Abilities.UsedAbilityWaitsForCooldown | Assets/Timers/Special/Ability.cs:142-192 | Unless the cooldown starts at the cast point of a cast, a used ability refuses `Use` until its cooldown completes, also once its cast has completed |
| Abilities.UseWhileCastingGoesThrough | Assets/Timers/Special/Ability.cs:142-193 | Under `fromCastPoint`, `Use` during a cast goes through, raises only the start again and keeps casting. The cast timer is unpaused with its elapsed time kept, so the cast does not restart |
| Abilities.CastPointNeverCoolsDown | Assets/Timers/Special/Ability.cs:209-216 | As written: under `fromCastPoint` with a cast time, the ability is not on cooldown after its cast completes, and the next `Use` goes through. On the first use the cooldown timer is created running |
| Abilities.FixedCastStep | Assets/Timers/Special/Ability.cs:209-216 | The corrected `actual_cast`: as written, followed by `PutOnCooldown` when the ability has a cast time and its cooldown starts at the cast point |
| Abilities.FixedCastPointCoolsDown | Assets/Timers/Special/Ability.cs:63-68 | With the corrected cast completion, a `fromCastPoint` ability is on cooldown after its cast, with its cooldown timer running, and refuses `Use` |
| Abilities.Ability.constructor | Assets/Timers/Special/Ability.cs:97-137 | The settings, subscribers and state are those of `Created`: an early return on a missing callback, and a reported error on a cooldown of zero or less |
| Abilities.Ability.Use | Assets/Timers/Special/Ability.cs:142-151 | The new state, the events raised and the result are those of `UseStep` |
| Abilities.Ability.SetLockCasting | Assets/Timers/Special/Ability.cs:93 | Sets the lock and nothing else |
| Abilities.Ability.Activate | Assets/Timers/Special/Ability.cs:156-192 | The new state and the events raised are those of `ActivateStep` |
| Abilities.Ability.CancelCast | Assets/Timers/Special/Ability.cs:197-207 | The new state and the events raised are those of `CancelCastStep` |
| Abilities.Ability.CastCompleted | Assets/Timers/Special/Ability.cs:209-216 | The new state and the events raised are those of `CastStep` |
| Abilities.Ability.PutOnCooldown | Assets/Timers/Special/Ability.cs:220-230 | The new state is that of `PutOnCooldownStep` |
| Abilities.Ability.Reset | Assets/Timers/Special/Ability.cs:232-238 | The new state is that of `ResetStep` |
| Abilities.Ability.CooldownCompleted | Assets/Timers/Special/Ability.cs:243-250 | The new state and the events raised are those of `CooldownCompletedStep` |

## Left out

- `TimerHelper.cs` is not part of this model. It holds the Unity `MonoBehaviour` plumbing that calls `UpdateAllTimers` each frame.
- `Time.unscaledDeltaTime` is not modelled. The frame delta is a parameter of `UpdateAllTimers` and of `Update`.
- IEEE-754 single precision is not modelled: rounding, NaN and infinities. Time is a mathematical real. A Repeater with a zero interval that would fire, where C# computes NaN, is excluded by precondition.
- The Unity log calls `Debug.Log`, `Debug.LogError` and `Debug.Break` are not modelled. The ability's two configuration errors set the `configError` flag; the other log calls are no-ops.
- The stub `RepeaterBehavior` of `Timer.cs:183-194` only logs. Forwarding a delta to it is recorded in the pool's ghost log and changes no state.
- The `Completed` log check in the `RepeaterParam` factories is not modelled; it only logs.
- C# events and delegates are not modelled. Subscribers are optional callback tags. Raising an event appends it to a ghost trace and skips a missing subscriber. The `OnStopped` subscription that `registerTimer` adds is modelled as a direct call of the release where `Timer.Update` raises the event.
- The members that the behaviour snapshots and the ability call but no shown file defines are not part of this model, so their semantics are assumed:
  - `TimerManager.getTimer` and `SetBehavior`: the behaviour factories start from a new handle with a new behaviour;
  - `SetFloats`, `SetCallbacks`, `SetCallbacksWithParameters` and `MainInterval`: they do what their names say, as stated in each module's comment;
  - `Pause`, `Unpause` and `Reset`: each owned timer is a value with a duration, an elapsed time and a paused flag, which these set;
  - `TimeLeft`, `OnUpdate` and `DontDisposeOnComplete`: not modelled.
- `cooldown_left` is not modelled, because it is fed by `OnUpdate`.
- `Ability.Destroy` is not modelled, because it calls the unseen timer `Destroy`.
- The ability's owned timers are values, not pooled handles. Aliasing between an ability's timers and the pool, and the timers advancing on their own, are not captured. Their completions are the calls of `CastCompleted` and `CooldownCompleted`.
- The behaviour snapshots' `Timer` handle is a bare object with its behaviour. The pool that these snapshots use is not shown, so it is not linked to `TimerPool`.
- `Abilities.Ability.constructor`: `cooldowntype` is a public field in C#, which callers may reassign. The model makes it a constant set by the constructor.
- `Abilities.Ability.constructor`: the C# `name` stays null after the early return. The model uses the empty string.
- `Abilities.Ability.constructor`: the constructor's `cast_timer == null` test is always true there, so it is not modelled.

## Findings

| source | as written | input that shows it | evidently intended | confidence | as-written member | corrected member |
|---|---|---|---|---|---|---|
| Timer.cs:38-46 | The loop bound `count` is read before the loop. `ReleaseTimer`, reached through `OnStopped`, removes a completed timer from `workingTimers` during the same loop. The next timer then slides into the released index and is skipped, and the loop reads past the end of the shorter list (`ArgumentOutOfRangeException`) | working timers `[a, b]`, where `a`'s behaviour reports `Completed`: `a` is released, `b` is never updated, and index 1 is out of range. In `Timer.cs` itself, `Completed` has a private setter (`Timer.cs:140`), only `ResetEntity` writes it, to false (`Timer.cs:170`), and the only subclass is the logging stub `RepeaterBehavior` (`Timer.cs:183-194`). So the skip and the overrun need a behaviour that completes, such as the countdowns of the later behaviour files. The model takes completion as a flag that such a behaviour would set | every working timer is visited once per frame, and completed ones are removed without skipping or overrunning | not executed | TickPass.SweepSkipsSuccessorAndOverruns | TickPass.FixedSweepVisitsEachOnce |
| Assets/Timers/Special/Ability.cs:209-216 | `actual_cast` never calls `PutOnCooldown`, so an ability with a cast time and `fromCastPoint` never sets `OnCooldown` | `castTime = 1`, `fromCastPoint`: `Use()` then cast completion leaves `OnCooldown` false, and a second `Use()` succeeds at once | the cooldown begins at the cast point, as the `fromCastPoint` documentation says (`Ability.cs:64-67`) | not executed | Abilities.CastPointNeverCoolsDown | Abilities.FixedCastPointCoolsDown |

`TimerPool.TimerManager.UpdateAllTimers` and `Abilities.Ability.CastCompleted` model the code as written. `TickPass.FixedSweep` and `Abilities.FixedCastStep` are the corrected definitions.
