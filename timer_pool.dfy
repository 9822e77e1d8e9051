/** The timer pool and scheduler of `Timer.cs`: the static lists of working and free timers,
    the behaviour pool keyed by the behaviour's runtime type, the `Repeater` factory, release,
    and the per-frame update pass.

    The static state of the C# class is one `TimerManager` object here. The only concrete
    behaviour this file declares, `RepeaterBehavior`, is a stub whose `Initialize` and `Update`
    only write to the log: forwarding a delta to it changes no state, so the model records each
    forward in the ghost `log` together with each `OnStopped` event.

    `Completed` has a private setter in `Timer.cs`, and only `ResetEntity` writes it, to false.
    A timer of this file alone therefore never completes: the early release inside the update
    pass needs a behaviour that completes, such as the countdowns of the behaviour files. The
    model takes `completed` as a flag that such a behaviour would set. */
module TimerPool {
  import opened Common
  import opened TickPass

  /** The runtime type of a behaviour (`GetType()`), the key of the behaviour pool. */
  type TypeName = string

  const RepeaterBehaviorType: TypeName := "RepeaterBehavior"

  /** `List.Remove`: drops the first occurrence of `x`, if any. */
  function RemoveFirst<T(==)>(s: seq<T>, x: T): seq<T>
  {
    if s == [] then []
    else if s[0] == x then s[1..]
    else [s[0]] + RemoveFirst(s[1..], x)
  }

  /** Without duplicates, removing the element at `i` by value removes exactly index `i`. */
  lemma {:induction false} RemoveFirstAt<T>(s: seq<T>, i: nat)
    requires NoDups(s) && i < |s|
    ensures RemoveFirst(s, s[i]) == s[..i] + s[i + 1..]
  {
    if i > 0 {
      var tail := s[1..];
      NoDupsTail(s);
      RemoveFirstAt(tail, i - 1);
      assert tail[i - 1] == s[i];
      NoDupsAt(s, 0, i);
      assert RemoveFirst(s, s[i]) == [s[0]] + RemoveFirst(tail, s[i]);
      assert tail[..i - 1] == s[1..i] && tail[i..] == s[i + 1..];
      assert s[..i] == [s[0]] + s[1..i];
    }
  }

  /** Removing an element that is absent leaves the list unchanged. */
  lemma {:induction false} RemoveFirstAbsent<T>(s: seq<T>, x: T)
    requires x !in s
    ensures RemoveFirst(s, x) == s
  {
    if s != [] {
      assert x !in s[1..];
      RemoveFirstAbsent(s[1..], x);
    }
  }

  /** Removing an element that is present shortens the list by one and keeps every other
      element, in a list without duplicates. */
  lemma RemoveFirstPresent<T>(s: seq<T>, x: T)
    requires NoDups(s) && x in s
    ensures |RemoveFirst(s, x)| == |s| - 1
    ensures NoDups(RemoveFirst(s, x))
    ensures forall y :: y in RemoveFirst(s, x) <==> y in s && y != x
  {
    var i :| 0 <= i < |s| && s[i] == x;
    RemoveFirstAt(s, i);
    var r := s[..i] + s[i + 1..];
    assert forall a :: 0 <= a < |r| ==> r[a] == s[if a < i then a else a + 1];
    forall a, b | 0 <= a < b < |r| ensures Distinct(r, a, b) {
      NoDupsAt(s, if a < i then a else a + 1, if b < i then b else b + 1);
    }
    forall y ensures y in r <==> y in s && y != x {
      if y in s && y != x {
        var j :| 0 <= j < |s| && s[j] == y;
        assert j != i;
        assert r[if j < i then j else j - 1] == y;
      }
      if y in r {
        var a :| 0 <= a < |r| && r[a] == y;
        NoDupsAt(s, if a < i then a else a + 1, i);
      }
    }
  }

  /** The base object every behaviour derives from (`TimerBehaviorBase`), with its runtime type. */
  class Behavior {
    const typ: TypeName
    var completed: bool
    var timePassed: real
    var exitTime: real
    var f1: real
    var f2: real
    var f3: real
    var f4: real
    var c1: Option<Callback>
    var c2: Option<Callback>
    var c3: Option<Callback>
    var c4: Option<Callback>

    /** Every field at its C# default, as `new T()` leaves it. */
    ghost predicate Pristine()
      reads this
    {
      && !completed && timePassed == 0.0 && exitTime == 0.0
      && f1 == 0.0 && f2 == 0.0 && f3 == 0.0 && f4 == 0.0
      && c1 == None && c2 == None && c3 == None && c4 == None
    }

    constructor (typ: TypeName)
      ensures this.typ == typ && Pristine()
    {
      this.typ := typ;
      completed := false;
      timePassed, exitTime := 0.0, 0.0;
      f1, f2, f3, f4 := 0.0, 0.0, 0.0, 0.0;
      c1, c2, c3, c4 := None, None, None, None;
    }

    /** Overwrites the four callback slots and nothing else. */
    method SetCallbacks(one: Option<Callback>, two: Option<Callback>, three: Option<Callback>, four: Option<Callback>)
      modifies this`c1, this`c2, this`c3, this`c4
      ensures c1 == one && c2 == two && c3 == three && c4 == four
    {
      c1, c2, c3, c4 := one, two, three, four;
    }

    /** Overwrites the four float slots and nothing else. */
    method Initialize(one: real, two: real, three: real, four: real)
      modifies this`f1, this`f2, this`f3, this`f4
      ensures f1 == one && f2 == two && f3 == three && f4 == four
    {
      f1, f2, f3, f4 := one, two, three, four;
    }

    /** Zeroes the accumulators and clears completion; the float and callback slots stay. */
    method ResetEntity()
      modifies this`timePassed, this`exitTime, this`completed
      ensures timePassed == 0.0 && exitTime == 0.0 && !completed
    {
      timePassed := 0.0;
      exitTime := 0.0;
      completed := false;
    }

    /** The chain `ResetEntity().Initialize(interval, 0, 0, 0).SetCallbacks(callback, null, null, null)`
        that the factories run on a new or recycled behaviour. */
    method Reinitialize(interval: real, callback: Option<Callback>)
      modifies this
      ensures timePassed == 0.0 && exitTime == 0.0 && !completed
      ensures f1 == interval && f2 == 0.0 && f3 == 0.0 && f4 == 0.0
      ensures c1 == callback && c2 == None && c3 == None && c4 == None
    {
      ResetEntity();
      Initialize(interval, 0.0, 0.0, 0.0);
      SetCallbacks(callback, None, None, None);
    }
  }

  /** A timer handle. `behaviorBase` is the same object as `behavior` seen through the base
      class; release clears `behavior` only. Every handle the pool creates is subscribed to
      release itself on `OnStopped`, so the model calls the release directly where the event
      is raised. */
  class Timer {
    var behavior: Behavior?
    var behaviorBase: Behavior?

    constructor ()
      ensures behavior == null && behaviorBase == null
    {
      behavior, behaviorBase := null, null;
    }

    /** Installs a behaviour, seen both through the interface and through the base class. */
    method RegisterBehavior(b: Behavior)
      modifies this`behavior, this`behaviorBase
      ensures behavior == b && behaviorBase == b
    {
      behavior := b;
      behaviorBase := b;
    }
  }


  /** The behaviour pool after `b` is appended to the list for its type, creating the list if absent. */
  function Return(pool: map<TypeName, seq<Behavior>>, b: Behavior): map<TypeName, seq<Behavior>>
  {
    pool[b.typ := (if b.typ in pool then pool[b.typ] else []) + [b]]
  }

  /** Both lists are free of duplicates and disjoint, and neither holds a recycled handle. */
  ghost predicate ListsSound(working: seq<Timer>, free: seq<Timer>, untracked: set<Timer>)
  {
    && NoDups(working) && NoDups(free)
    && (forall t :: t in working ==> t !in free && t !in untracked)
    && (forall t :: t in free ==> t !in untracked)
  }

  /** Distinct handles own distinct behaviours. */
  ghost predicate Injective(owner: map<Timer, Behavior>)
  {
    forall t1, t2 :: t1 in owner && t2 in owner && t1 != t2 ==> owner[t1] != owner[t2]
  }

  /** Every pooled behaviour sits once in the list of its own type and is owned by no handle. */
  ghost predicate PoolSound(pool: map<TypeName, seq<Behavior>>, owner: map<Timer, Behavior>)
  {
    forall k :: k in pool ==>
      && NoDups(pool[k])
      && (forall b :: b in pool[k] ==> b.typ == k)
      && (forall t :: t in owner ==> owner[t] !in pool[k])
  }

  /** `b` is in no list of the pool and owned by no handle. */
  ghost predicate Unused(pool: map<TypeName, seq<Behavior>>, owner: map<Timer, Behavior>, b: Behavior)
  {
    && (forall k :: k in pool ==> b !in pool[k])
    && (forall t :: t in owner ==> owner[t] != b)
  }

  /** The bookkeeping of the pool: the lists are sound; the handed-out handles (working or
      recycled) are exactly the owners of a behaviour, except `pending`, a handle just obtained
      from `getTimer` that has no behaviour yet; ownership is one to one; the pool is sound. */
  ghost predicate Sound(working: seq<Timer>, free: seq<Timer>, untracked: set<Timer>,
                        owner: map<Timer, Behavior>, pool: map<TypeName, seq<Behavior>>, pending: Timer?)
  {
    && ListsSound(working, free, untracked)
    && (forall t :: t in working ==> (t in owner <==> t != pending))
    && (forall t :: t in untracked ==> (t in owner <==> t != pending))
    && (forall t :: t in owner ==> t in working || t in untracked)
    && Injective(owner)
    && PoolSound(pool, owner)
  }

  /** `registerTimer` on a handle the pool does not know yet: it becomes the pending handle. */
  lemma RegisterKeepsSound(working: seq<Timer>, free: seq<Timer>, untracked: set<Timer>,
                           owner: map<Timer, Behavior>, pool: map<TypeName, seq<Behavior>>, t: Timer)
    requires Sound(working, free, untracked, owner, pool, null)
    requires t !in working && t !in free && t !in untracked
    ensures Sound(working + [t], free, untracked, owner, pool, t)
  {
    AppendKeepsNoDups(working, t);
    assert t !in owner;
  }

  /** `getTimer` with a free handle: the head of the free list becomes the pending, recycled handle. */
  lemma RecycleKeepsSound(working: seq<Timer>, free: seq<Timer>, untracked: set<Timer>,
                          owner: map<Timer, Behavior>, pool: map<TypeName, seq<Behavior>>)
    requires Sound(working, free, untracked, owner, pool, null) && free != []
    ensures RemoveFirst(free, free[0]) == free[1..]
    ensures Sound(working, free[1..], untracked + {free[0]}, owner, pool, free[0])
  {
    NoDupsTail(free);
    assert forall u :: u in free[1..] ==> u in free;
    assert free[0] !in owner;
  }

  /** Taking the head of a non-empty pooled list leaves a sound pool, and the head is then unused. */
  lemma TakeHeadKeepsPoolSound(pool: map<TypeName, seq<Behavior>>, owner: map<Timer, Behavior>, typ: TypeName)
    requires PoolSound(pool, owner) && typ in pool && pool[typ] != []
    ensures pool[typ][0].typ == typ
    ensures PoolSound(pool[typ := pool[typ][1..]], owner)
    ensures Unused(pool[typ := pool[typ][1..]], owner, pool[typ][0])
  {
    var b := pool[typ][0];
    var rest := pool[typ := pool[typ][1..]];
    NoDupsTail(pool[typ]);
    forall k | k in rest ensures b !in rest[k] {
      if k != typ {
        assert b.typ == typ;
      }
    }
  }

  /** Giving the pending handle an unused behaviour completes the bookkeeping. */
  lemma AttachKeepsSound(working: seq<Timer>, free: seq<Timer>, untracked: set<Timer>,
                         owner: map<Timer, Behavior>, pool: map<TypeName, seq<Behavior>>, t: Timer, b: Behavior)
    requires Sound(working, free, untracked, owner, pool, t) && (t in working || t in untracked)
    requires Unused(pool, owner, b)
    ensures Sound(working, free, untracked, owner[t := b], pool, null)
  {
    assert t !in owner;
  }

  /** `List.Remove` on a list without duplicates keeps every other element and no duplicates,
      and shortens the list by one exactly when the element was there. */
  lemma RemoveFirstMembers<T>(s: seq<T>, x: T)
    requires NoDups(s)
    ensures NoDups(RemoveFirst(s, x))
    ensures forall u :: u in RemoveFirst(s, x) <==> u in s && u != x
    ensures x in s ==> |RemoveFirst(s, x)| == |s| - 1
    ensures x !in s ==> RemoveFirst(s, x) == s
  {
    if x in s {
      RemoveFirstPresent(s, x);
    } else {
      RemoveFirstAbsent(s, x);
    }
  }

  /** An element left after `List.Remove` was in the list and is not the removed one. */
  lemma RemovedElement<T>(s: seq<T>, x: T, u: T)
    requires NoDups(s) && u in RemoveFirst(s, x)
    ensures u in s && u != x
  {
    RemoveFirstMembers(s, x);
  }

  /** Returning an owned behaviour to the pool and dropping its owner keeps the pool sound. */
  lemma ReturnKeepsPoolSound(pool: map<TypeName, seq<Behavior>>, owner: map<Timer, Behavior>, t: Timer)
    requires PoolSound(pool, owner) && Injective(owner) && t in owner
    ensures PoolSound(Return(pool, owner[t]), owner - {t})
  {
    var b := owner[t];
    var oldList := if b.typ in pool then pool[b.typ] else [];
    assert b !in oldList;
    AppendKeepsNoDups(oldList, b);
  }

  /** `ReleaseTimer` on an owning handle: the handle moves to the end of the free list, and its
      behaviour to the end of the pooled list for its type. */
  lemma ReleaseKeepsSound(working: seq<Timer>, free: seq<Timer>, untracked: set<Timer>,
                          owner: map<Timer, Behavior>, pool: map<TypeName, seq<Behavior>>, t: Timer)
    requires Sound(working, free, untracked, owner, pool, null) && t in owner
    ensures Sound(RemoveFirst(working, t), free + [t], untracked - {t}, owner - {t}, Return(pool, owner[t]), null)
    ensures forall u :: u in RemoveFirst(working, t) <==> u in working && u != t
    ensures t in working ==> |RemoveFirst(working, t)| == |working| - 1
    ensures t !in working ==> RemoveFirst(working, t) == working
  {
    RemoveFirstMembers(working, t);
    forall u | u in RemoveFirst(working, t) ensures u in owner - {t} {
      RemovedElement(working, t, u);
    }
    AppendKeepsNoDups(free, t);
    ReturnKeepsPoolSound(pool, owner, t);
  }

  /** The pool after the behaviours owned by the handles `ts` are returned to it in turn, each
      appended to the list for its type, as `ReleaseTimer` does for each handle. */
  function Returned(pool: map<TypeName, seq<Behavior>>, owner: map<Timer, Behavior>, ts: seq<Timer>)
    : map<TypeName, seq<Behavior>>
  {
    if ts == [] then pool
    else
      var rest := Returned(pool, owner, ts[..|ts| - 1]);
      var t := ts[|ts| - 1];
      if t in owner then Return(rest, owner[t]) else rest
  }

  /** Returning one more owned behaviour appends it after the earlier ones. */
  lemma ReturnedAppend(pool: map<TypeName, seq<Behavior>>, owner: map<Timer, Behavior>, ts: seq<Timer>, t: Timer)
    requires t in owner
    ensures Returned(pool, owner, ts + [t]) == Return(Returned(pool, owner, ts), owner[t])
  {
    assert (ts + [t])[..|ts|] == ts;
  }

  /** The lists, the pool, the bookkeeping and the log of the pool at one moment. */
  datatype Snapshot = Snapshot(
    working: seq<Timer>,
    free: seq<Timer>,
    untracked: set<Timer>,
    pool: map<TypeName, seq<Behavior>>,
    owner: map<Timer, Behavior>,
    log: seq<Visit<Timer>>)

  /** The pass so far, extended by the visit of one more iteration. */
  lemma SweepAdvances(list0: seq<Timer>, before: seq<Timer>, after: seq<Timer>, done: set<Timer>, deltaTime: real,
                      visited: seq<Visit<Timer>>, v: Visit<Timer>, i: nat, count: nat)
    requires i < count
    requires Sweep(list0, done, deltaTime, 0, count) == Then(visited, Sweep(before, done, deltaTime, i, count - i))
    requires i < |before| && v == (if before[i] in done then Stopped(before[i]) else Forwarded(before[i], deltaTime))
    requires after == if before[i] in done then before[..i] + before[i + 1..] else before
    ensures Sweep(list0, done, deltaTime, 0, count) == Then(visited + [v], Sweep(after, done, deltaTime, i + 1, count - (i + 1)))
  {
    ThenThen(visited, [v], Sweep(after, done, deltaTime, i + 1, count - i - 1));
  }

  /** The state `s` of the loop of `UpdateAllTimers` after `i` of its `count` iterations,
      started in the state `s0`: only timers of the starting list remain; the remaining owners
      keep their behaviours; the log has grown by `visited`; the stopped timers went, in order,
      to the end of the free list and their behaviours to the pool; no handle was lost; and
      `visited` followed by the rest of the pass from index `i` is the whole pass. */
  ghost predicate SweepingState(s0: Snapshot, s: Snapshot, done: set<Timer>, deltaTime: real, count: nat,
                                visited: seq<Visit<Timer>>, i: nat)
  {
    && i <= count && s.untracked == s0.untracked
    && (forall t :: t in s.working ==> t in s0.working)
    && (forall t :: t in s.owner ==> t in s0.owner && s.owner[t] == s0.owner[t])
    && s.log == s0.log + visited
    && s.free == s0.free + StoppedOf(visited)
    && s.pool == Returned(s0.pool, s0.owner, StoppedOf(visited))
    && |s.working| + |s.free| == |s0.working| + |s0.free|
    && Sweep(s0.working, done, deltaTime, 0, count) == Then(visited, Sweep(s.working, done, deltaTime, i, count - i))
  }

  /** One iteration: the timer at index `i` is either stopped and released (off the working
      list, onto the free list, its behaviour back to the pool, its ownership dropped) or
      forwarded the delta, and the loop state advances by that visit. */
  lemma SweepingStep(s0: Snapshot, before: Snapshot, after: Snapshot, done: set<Timer>, deltaTime: real,
                     count: nat, visited: seq<Visit<Timer>>, i: nat)
    requires SweepingState(s0, before, done, deltaTime, count, visited, i)
    requires i < count && i < |before.working| && before.working[i] in before.owner
    requires var t := before.working[i];
      t in done ==> after == Snapshot(before.working[..i] + before.working[i + 1..], before.free + [t],
                                      before.untracked, Return(before.pool, before.owner[t]),
                                      before.owner - {t}, before.log + [Stopped(t)])
    requires var t := before.working[i];
      t !in done ==> after == before.(log := before.log + [Forwarded(t, deltaTime)])
    ensures var t := before.working[i];
      SweepingState(s0, after, done, deltaTime, count,
                    visited + [if t in done then Stopped(t) else Forwarded(t, deltaTime)], i + 1)
  {
    var t := before.working[i];
    var v := if t in done then Stopped(t) else Forwarded(t, deltaTime);
    var next := if t in done then before.working[..i] + before.working[i + 1..] else before.working;
    SweepAdvances(s0.working, before.working, next, done, deltaTime, visited, v, i, count);
    StoppedOfAppend(visited, v);
    assert after.log == s0.log + (visited + [v]);
    if t in done {
      assert after.free == s0.free + (StoppedOf(visited) + [t]);
      assert s0.owner[t] == before.owner[t];
      ReturnedAppend(s0.pool, s0.owner, StoppedOf(visited), t);
      forall u | u in after.working ensures u in s0.working {
        assert u in before.working;
      }
    } else {
      assert StoppedOf(visited + [v]) == StoppedOf(visited) + [] == StoppedOf(visited);
    }
  }

  /** When the loop ends, because the captured count is reached or the index is past the end,
      the state is the result of the whole pass; with no completed timer, nothing was freed or
      pooled. */
  lemma SweepingFinish(s0: Snapshot, s: Snapshot, done: set<Timer>, deltaTime: real, count: nat,
                       visited: seq<Visit<Timer>>, i: nat)
    requires SweepingState(s0, s, done, deltaTime, count, visited, i) && count == |s0.working|
    requires i == count || i >= |s.working|
    ensures var p := Sweep(s0.working, done, deltaTime, 0, count);
      && p.overran == (i < count)
      && s.working == p.remaining
      && s.log == s0.log + p.visits
      && s.free == s0.free + StoppedOf(p.visits)
      && s.pool == Returned(s0.pool, s0.owner, StoppedOf(p.visits))
    ensures done == {} ==> s.free == s0.free && s.pool == s0.pool
  {
    var p := Sweep(s0.working, done, deltaTime, 0, count);
    assert Sweep(s.working, done, deltaTime, i, count - i) == Pass(s.working, [], i < count);
    assert p.visits == visited + [] == visited;
    if done == {} {
      SweepWithoutCompletions(s0.working, done, deltaTime, 0);
      assert s0.working[0..] == s0.working;
      ForwardingStopsNothing(ForwardAll(s0.working, deltaTime));
      assert s0.free + [] == s0.free;
    }
  }

  /** The pool and the scheduler: the static part of the C# `Timer` class. */
  class TimerManager {
    var working: seq<Timer>
    var free: seq<Timer>
    var behaviors: map<TypeName, seq<Behavior>>
    /** Handles recycled by `getTimer`: taken off `free` but never put back on `working`. */
    ghost var untracked: set<Timer>
    /** Forwards to behaviours and `OnStopped` events, in the order they happened. */
    ghost var log: seq<Visit<Timer>>
    /** The behaviour each handed-out handle holds. */
    ghost var owner: map<Timer, Behavior>

    /** Every owning handle holds its behaviour through both fields; free handles hold none. */
    ghost predicate Linked()
      reads this, owner.Keys, free
    {
      && (forall t :: t in owner ==> t.behavior == owner[t] && t.behaviorBase == owner[t])
      && (forall t :: t in free ==> t.behavior == null)
    }

    ghost predicate ValidExcept(pending: Timer?)
      reads this, owner.Keys, free
    {
      Sound(working, free, untracked, owner, behaviors, pending) && Linked()
    }

    /** Working and free timers are disjoint and duplicate-free; free handles hold no behaviour;
        handed-out handles each own a distinct behaviour that is not in the pool; every pooled
        behaviour sits in the list of its own type, once. */
    ghost predicate Valid()
      reads this, owner.Keys, free
    {
      ValidExcept(null)
    }

    /** The static initialisers: empty lists and an empty pool. */
    constructor ()
      ensures Valid()
      ensures working == [] && free == [] && behaviors == map[] && untracked == {} && log == []
    {
      working, free := [], [];
      behaviors := map[];
      untracked := {};
      log := [];
      owner := map[];
    }

    ghost function Snap(): Snapshot
      reads this
    {
      Snapshot(working, free, untracked, behaviors, owner, log)
    }

    /** The behaviours pooled for type `typ`. */
    function PooledFor(typ: TypeName): seq<Behavior>
      reads this
    {
      if typ in behaviors then behaviors[typ] else []
    }

    /** Working timers whose behaviour reports completion. */
    ghost function CompletedTimers(): set<Timer>
      reads this, owner.Values
    {
      set t | t in working && t in owner && owner[t].completed
    }

    /** `getBehaviorBase<T>`: the head of the pooled list for `typ` when there is one, otherwise
        a new behaviour; only the list for `typ` changes, and only by losing its head. */
    method GetBehaviorBase(typ: TypeName) returns (b: Behavior)
      modifies this`behaviors
      ensures typ in old(behaviors) && old(behaviors)[typ] != [] ==>
        b == old(behaviors)[typ][0] && behaviors == old(behaviors)[typ := old(behaviors)[typ][1..]]
      ensures !(typ in old(behaviors) && old(behaviors)[typ] != []) ==>
        fresh(b) && b.typ == typ && b.Pristine() && behaviors == old(behaviors)
    {
      var found: Behavior? := null;
      if typ in behaviors {
        var list := behaviors[typ];
        if |list| > 0 {
          found := list[0];
          behaviors := behaviors[typ := RemoveFirst(list, found)];
        }
      }
      if found == null {
        b := new Behavior(typ);
      } else {
        b := found;
      }
    }

    /** `registerTimer`: appends to the working list. */
    method RegisterTimer(t: Timer)
      modifies this`working
      ensures working == old(working) + [t]
    {
      working := working + [t];
    }

    /** `getTimer`: a new handle, appended to `working`, when no handle is free; otherwise the head
        of `free`, which is removed from `free` and NOT added to `working`. */
    method GetTimer() returns (t: Timer)
      requires Valid()
      modifies this`working, this`free, this`untracked
      ensures ValidExcept(t) && (t in working || t in untracked) && t.behavior == null
      ensures old(free) == [] ==>
        fresh(t) && working == old(working) + [t] && free == old(free) && untracked == old(untracked)
      ensures old(free) != [] ==>
        t == old(free[0]) && free == old(free[1..]) && working == old(working) && untracked == old(untracked) + {t}
    {
      if |free| == 0 {
        t := new Timer();
        RegisterKeepsSound(working, free, untracked, owner, behaviors, t);
        RegisterTimer(t);
      } else {
        t := free[0];
        RecycleKeepsSound(working, free, untracked, owner, behaviors);
        free := RemoveFirst(free, t);
        untracked := untracked + {t};
      }
    }

    /** `timer.registerBehavior(getBehaviorBase<T>())` on the pending handle from `getTimer`:
        the handle takes the head of the pooled list for `typ`, or a new behaviour. */
    method Attach(t: Timer, typ: TypeName) returns (b: Behavior)
      requires ValidExcept(t) && (t in working || t in untracked) && t.behavior == null
      modifies this`behaviors, this`owner, t`behavior, t`behaviorBase
      ensures Valid() && t.behavior == b && b.typ == typ && owner == old(owner)[t := b]
      ensures typ in old(behaviors) && old(behaviors)[typ] != [] ==>
        b == old(behaviors)[typ][0] && behaviors == old(behaviors)[typ := old(behaviors)[typ][1..]]
      ensures !(typ in old(behaviors) && old(behaviors)[typ] != []) ==>
        fresh(b) && behaviors == old(behaviors)
    {
      if typ in behaviors && behaviors[typ] != [] {
        TakeHeadKeepsPoolSound(behaviors, owner, typ);
      }
      b := GetBehaviorBase(typ);
      assert Unused(behaviors, owner, b);
      AttachKeepsSound(working, free, untracked, owner, behaviors, t, b);
      t.RegisterBehavior(b);
      owner := owner[t := b];
    }

    /** `Repeater(interval, callback)`: a handle from `getTimer` with a pooled or new repeater
        behaviour, reset, with `interval` in the first float slot and `callback` in the first
        callback slot. */
    method Repeater(interval: real, callback: Option<Callback>) returns (t: Timer)
      requires Valid()
      modifies this, if free == [] then {} else {free[0]}
      modifies if PooledFor(RepeaterBehaviorType) == [] then {} else {PooledFor(RepeaterBehaviorType)[0]}
      ensures Valid()
      ensures (t in working || t in untracked) && t.behavior != null && t.behavior.typ == RepeaterBehaviorType
      ensures t.behavior.f1 == interval && t.behavior.f2 == 0.0 && t.behavior.f3 == 0.0 && t.behavior.f4 == 0.0
      ensures t.behavior.c1 == callback && t.behavior.c2 == None && t.behavior.c3 == None && t.behavior.c4 == None
      ensures t.behavior.timePassed == 0.0 && t.behavior.exitTime == 0.0 && !t.behavior.completed
      ensures old(free) == [] ==>
        fresh(t) && working == old(working) + [t] && free == old(free) && untracked == old(untracked)
      ensures old(free) != [] ==>
        t == old(free[0]) && free == old(free[1..]) && working == old(working) && untracked == old(untracked) + {t}
      ensures var typ := RepeaterBehaviorType;
        if typ in old(behaviors) && old(behaviors)[typ] != [] then
          t.behavior == old(behaviors)[typ][0] && behaviors == old(behaviors)[typ := old(behaviors)[typ][1..]]
        else
          fresh(t.behavior) && behaviors == old(behaviors)
      ensures log == old(log)
    {
      t := GetTimer();
      var b := Attach(t, RepeaterBehaviorType);
      b.Reinitialize(interval, callback);
    }

    /** `ReleaseTimer`: the handle goes to the end of `free`, leaves `working`, and its behaviour
        goes to the end of the pooled list for its type; the handle then holds no behaviour, so
        a second release would dereference null. */
    method ReleaseTimer(t: Timer)
      requires Valid() && (t in working || t in untracked) && t.behavior != null
      modifies this, t`behavior
      ensures Valid()
      ensures free == old(free) + [t]
      ensures working == RemoveFirst(old(working), t)
      ensures untracked == old(untracked) - {t}
      ensures behaviors == Return(old(behaviors), old(t.behavior))
      ensures owner == old(owner) - {t}
      ensures t.behavior == null && t.behaviorBase == old(t.behaviorBase)
      ensures t in old(working) ==> |working| + |free| == old(|working| + |free|)
      ensures forall u :: u in working <==> u in old(working) && u != t
      ensures log == old(log)
    {
      ReleaseKeepsSound(working, free, untracked, owner, behaviors, t);
      var b := t.behavior;
      free := free + [t];
      working := RemoveFirst(working, t);
      untracked := untracked - {t};
      behaviors := Return(behaviors, b);
      owner := owner - {t};
      t.behavior := null;
    }

    /** `Destroy`: releases the handle at once. */
    method Destroy(t: Timer)
      requires Valid() && (t in working || t in untracked) && t.behavior != null
      modifies this, t`behavior
      ensures Valid()
      ensures free == old(free) + [t]
      ensures working == RemoveFirst(old(working), t)
      ensures untracked == old(untracked) - {t}
      ensures behaviors == Return(old(behaviors), old(t.behavior))
      ensures owner == old(owner) - {t}
      ensures t.behavior == null && t.behaviorBase == old(t.behaviorBase)
      ensures t in old(working) ==> |working| + |free| == old(|working| + |free|)
      ensures forall u :: u in working <==> u in old(working) && u != t
      ensures log == old(log)
    {
      ReleaseTimer(t);
    }

    /** `Timer.Update`: a timer whose behaviour reports completion raises `OnStopped`, which
        releases it, and its behaviour is not updated; otherwise the delta goes to the behaviour
        unchanged. */
    method Update(t: Timer, deltaTime: real)
      requires Valid() && t in working
      modifies this, t`behavior
      ensures Valid()
      ensures old(t.behaviorBase.completed) ==>
        && free == old(free) + [t] && working == RemoveFirst(old(working), t)
        && untracked == old(untracked) && owner == old(owner) - {t}
        && behaviors == Return(old(behaviors), old(t.behavior)) && t.behavior == null
        && log == old(log) + [Stopped(t)]
      ensures !old(t.behaviorBase.completed) ==>
        && free == old(free) && working == old(working) && untracked == old(untracked)
        && owner == old(owner) && behaviors == old(behaviors) && t.behavior == old(t.behavior)
        && log == old(log) + [Forwarded(t, deltaTime)]
      ensures forall u :: u in working ==> u in old(working)
      ensures |working| + |free| == old(|working| + |free|)
    {
      if t.behaviorBase.completed {
        log := log + [Stopped(t)];
        ReleaseTimer(t);
      } else {
        log := log + [Forwarded(t, deltaTime)];
      }
    }

    /** The loop of `UpdateAllTimers`: the bookkeeping holds, every remaining working timer
        is owned and is in `done` exactly when its behaviour reports completion, and the
        state is as `SweepingState` says. */
    ghost predicate Sweeping(s0: Snapshot, done: set<Timer>, deltaTime: real, count: nat,
                             visited: seq<Visit<Timer>>, i: nat)
      reads this, owner.Keys, free, owner.Values
    {
      && Valid()
      && (forall t :: t in working ==> t in owner && (t in done <==> owner[t].completed))
      && SweepingState(s0, Snap(), done, deltaTime, count, visited, i)
    }

    /** One iteration of the loop of `UpdateAllTimers`: `workingTimers[i].Update(deltaTime)`,
        one more step of `Sweep`. */
    method UpdateAt(i: nat, deltaTime: real, ghost s0: Snapshot, ghost done: set<Timer>, ghost count: nat,
                    ghost visited: seq<Visit<Timer>>)
      returns (ghost v: Visit<Timer>)
      requires Sweeping(s0, done, deltaTime, count, visited, i) && i < count && i < |working|
      modifies this, working[i]
      ensures Sweeping(s0, done, deltaTime, count, visited + [v], i + 1)
    {
      var t := working[i];
      v := if t in done then Stopped(t) else Forwarded(t, deltaTime);
      ghost var before := Snap();
      RemoveFirstAt(working, i);
      Update(t, deltaTime);
      SweepingStep(s0, before, Snap(), done, deltaTime, count, visited, i);
    }

    /** `UpdateAllTimers`: the pass `Sweep` over the working list, with the count captured before
        the loop. `ok` is false when the loop indexes past the end of the shrunken list. Each
        timer the pass stops is released on the spot: it goes to the end of the free list and
        its behaviour back to the pool. */
    method UpdateAllTimers(deltaTime: real) returns (ok: bool)
      requires Valid()
      modifies this, working
      ensures Valid()
      ensures var p := Sweep(old(working), old(CompletedTimers()), deltaTime, 0, old(|working|));
        && ok == !p.overran
        && working == p.remaining
        && log == old(log) + p.visits
        && free == old(free) + StoppedOf(p.visits)
        && behaviors == Returned(old(behaviors), old(owner), StoppedOf(p.visits))
      ensures |working| + |free| == old(|working| + |free|)
      ensures old(CompletedTimers()) == {} ==> free == old(free) && behaviors == old(behaviors)
      ensures untracked == old(untracked)
      ensures forall t :: t in owner ==> t in old(owner) && owner[t] == old(owner)[t]
      ensures forall t :: t in working ==> t in old(working) && t.behavior == old(t.behavior)
    {
      var count := |working|;
      ghost var s0, done := Snap(), CompletedTimers();
      ghost var visited: seq<Visit<Timer>> := [];
      var i: nat := 0;
      ThenNothing(Sweep(s0.working, done, deltaTime, 0, count));
      while i < count
        invariant Sweeping(s0, done, deltaTime, count, visited, i)
      {
        if i >= |working| {
          SweepingFinish(s0, Snap(), done, deltaTime, count, visited, i);
          return false;
        }
        ghost var v := UpdateAt(i, deltaTime, s0, done, count, visited);
        visited := visited + [v];
        i := i + 1;
      }
      SweepingFinish(s0, Snap(), done, deltaTime, count, visited, i);
      return true;
    }
  }
}
