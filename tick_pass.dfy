/** One pass of the scheduler over the working timers, as a pure function of the list, the set of
    timers whose behaviour reports completion, and the frame delta.

    `Sweep` is the loop of `UpdateAllTimers` as written: an index loop whose bound is captured
    before the loop, over a list from which a completed timer is removed during the same pass.
    `FixedSweep` is the same loop with the evident intent: a removal does not advance the index,
    and the bound is the current length. */
module TickPass {
  import opened Common

  /** What happened to one timer during a pass. */
  datatype Visit<T> = Forwarded(timer: T, deltaTime: real) | Stopped(timer: T)

  /** The list left after a pass, the visits in order, and whether the pass indexed past the end
      of the list (a C# `ArgumentOutOfRangeException`). */
  datatype Pass<T> = Pass(remaining: seq<T>, visits: seq<Visit<T>>, overran: bool)

  /** Visits `v` happened before the pass `p`. */
  function Then<T>(v: seq<Visit<T>>, p: Pass<T>): Pass<T>
  {
    p.(visits := v + p.visits)
  }

  /** No earlier visits leave a pass as it is. */
  lemma ThenNothing<T>(p: Pass<T>)
    ensures Then([], p) == p
  {
    assert [] + p.visits == p.visits;
  }

  /** Visits recorded in two steps are the visits of both, in order. */
  lemma ThenThen<T>(v: seq<Visit<T>>, w: seq<Visit<T>>, p: Pass<T>)
    ensures Then(v, Then(w, p)) == Then(v + w, p)
  {
    assert v + (w + p.visits) == (v + w) + p.visits;
  }

  /** The loop as written, from index `i` with `left` iterations still to run. */
  function Sweep<T(==)>(list: seq<T>, done: set<T>, deltaTime: real, i: nat, left: nat): Pass<T>
    decreases left
  {
    if left == 0 then Pass(list, [], false)
    else if i >= |list| then Pass(list, [], true)
    else if list[i] in done then
      Then([Stopped(list[i])], Sweep(list[..i] + list[i + 1..], done, deltaTime, i + 1, left - 1))
    else
      Then([Forwarded(list[i], deltaTime)], Sweep(list, done, deltaTime, i + 1, left - 1))
  }

  /** Every timer of `ts` forwarded the delta, in order. */
  function ForwardAll<T>(ts: seq<T>, deltaTime: real): (vs: seq<Visit<T>>)
    ensures |vs| == |ts|
    ensures forall k :: 0 <= k < |ts| ==> vs[k] == Forwarded(ts[k], deltaTime)
  {
    if ts == [] then [] else [Forwarded(ts[0], deltaTime)] + ForwardAll(ts[1..], deltaTime)
  }

  /** The timers that the visits `vs` stopped, in order. */
  function StoppedOf<T>(vs: seq<Visit<T>>): seq<T>
  {
    if vs == [] then []
    else StoppedOf(vs[..|vs| - 1]) + (if vs[|vs| - 1].Stopped? then [vs[|vs| - 1].timer] else [])
  }

  /** One more visit adds its timer to the stopped ones exactly when it stopped it. */
  lemma StoppedOfAppend<T>(vs: seq<Visit<T>>, v: Visit<T>)
    ensures StoppedOf(vs + [v]) == StoppedOf(vs) + (if v.Stopped? then [v.timer] else [])
  {
    assert (vs + [v])[..|vs|] == vs;
  }

  /** Visits that only forward stop no timer. */
  lemma {:induction false} ForwardingStopsNothing<T>(vs: seq<Visit<T>>)
    requires forall k :: 0 <= k < |vs| ==> vs[k].Forwarded?
    ensures StoppedOf(vs) == []
    decreases |vs|
  {
    if vs != [] {
      ForwardingStopsNothing(vs[..|vs| - 1]);
    }
  }

  /** With no completed timer, the pass as written forwards the delta to every timer exactly
      once, in list order, and leaves the list as it was. */
  lemma {:induction false} SweepWithoutCompletions<T>(list: seq<T>, done: set<T>, deltaTime: real, i: nat)
    requires i <= |list|
    requires forall k :: i <= k < |list| ==> list[k] !in done
    ensures Sweep(list, done, deltaTime, i, |list| - i) == Pass(list, ForwardAll(list[i..], deltaTime), false)
    decreases |list| - i
  {
    if i < |list| {
      SweepWithoutCompletions(list, done, deltaTime, i + 1);
      assert list[i..] == [list[i]] + list[i + 1..];
    }
  }

  /** Timers that are not complete are forwarded one by one until the first completed one. */
  lemma {:induction false} SweepForwardsPrefix<T>(list: seq<T>, done: set<T>, deltaTime: real, i: nat, k: nat, left: nat)
    requires i <= k <= |list| && k - i <= left
    requires forall j :: i <= j < k ==> list[j] !in done
    ensures Sweep(list, done, deltaTime, i, left)
      == Then(ForwardAll(list[i..k], deltaTime), Sweep(list, done, deltaTime, k, left - (k - i)))
    decreases k - i
  {
    if i < k {
      var rest := Sweep(list, done, deltaTime, k, left - (k - i));
      SweepForwardsPrefix(list, done, deltaTime, i + 1, k, left - 1);
      assert list[i..k] == [list[i]] + list[i + 1..k];
      assert ForwardAll(list[i..k], deltaTime) == [Forwarded(list[i], deltaTime)] + ForwardAll(list[i + 1..k], deltaTime);
      ThenThen([Forwarded(list[i], deltaTime)], ForwardAll(list[i + 1..k], deltaTime), rest);
    }
  }

  /** Once a removal has made the index run ahead of the shrunken list, the pass indexes past
      its end before the captured count is reached. */
  lemma {:induction false} SweepOverruns<T>(list: seq<T>, done: set<T>, deltaTime: real, i: nat, left: nat)
    requires left > 0 && i + left > |list|
    ensures Sweep(list, done, deltaTime, i, left).overran
    decreases left
  {
    if i < |list| {
      if list[i] in done {
        SweepOverruns(list[..i] + list[i + 1..], done, deltaTime, i + 1, left - 1);
      } else {
        SweepOverruns(list, done, deltaTime, i + 1, left - 1);
      }
    }
  }

  /** A pass only ever visits timers found at or after its starting index: a timer kept out of
      that part of the list is never visited. */
  lemma {:induction false} SweepVisitsOnlyFrom<T>(list: seq<T>, done: set<T>, deltaTime: real, i: nat, left: nat, avoid: set<T>)
    requires forall j :: i <= j < |list| ==> list[j] !in avoid
    ensures forall v :: v in Sweep(list, done, deltaTime, i, left).visits ==> v.timer !in avoid
    decreases left
  {
    if left > 0 && i < |list| {
      if list[i] in done {
        var rest := list[..i] + list[i + 1..];
        assert forall j :: i + 1 <= j < |rest| ==> rest[j] == list[j + 1];
        SweepVisitsOnlyFrom(rest, done, deltaTime, i + 1, left - 1, avoid);
      } else {
        SweepVisitsOnlyFrom(list, done, deltaTime, i + 1, left - 1, avoid);
      }
    }
  }

  /** The pass as written goes wrong as soon as a timer other than the last one completes: the
      timer after it slides into the released slot and is never visited in this pass, and the
      loop, still bounded by the count taken before it, indexes past the end of the list. */
  lemma SweepSkipsSuccessorAndOverruns<T>(list: seq<T>, done: set<T>, deltaTime: real, k: nat)
    requires NoDups(list) && k + 1 < |list| && list[k] in done
    requires forall j :: 0 <= j < k ==> list[j] !in done
    ensures Sweep(list, done, deltaTime, 0, |list|).overran
    ensures forall v :: v in Sweep(list, done, deltaTime, 0, |list|).visits ==> v.timer != list[k + 1]
  {
    var n := |list|;
    var rest := list[..k] + list[k + 1..];
    SweepForwardsPrefix(list, done, deltaTime, 0, k, n);
    SweepOverruns(rest, done, deltaTime, k + 1, n - k - 1);
    forall j | k + 1 <= j < |rest| ensures rest[j] !in {list[k + 1]} {
      assert rest[j] == list[j + 1];
      NoDupsAt(list, j + 1, k + 1);
    }
    SweepVisitsOnlyFrom(rest, done, deltaTime, k + 1, n - k - 1, {list[k + 1]});
    forall j | 0 <= j < k ensures list[0..k][j] != list[k + 1] {
      NoDupsAt(list, j, k + 1);
    }
    NoDupsAt(list, k, k + 1);
  }

  /** The two-timer case: the first one completes, the second is skipped and the loop throws. */
  lemma FirstOfTwoCompletes(a: int, b: int, deltaTime: real)
    requires a != b
    ensures Sweep([a, b], {a}, deltaTime, 0, 2) == Pass([b], [Stopped(a)], true)
  {
    assert [a, b][..0] + [a, b][1..] == [b];
  }

  /** The loop with the evident intent: after a removal the same index holds the next timer. */
  function FixedSweep<T(==)>(list: seq<T>, done: set<T>, deltaTime: real, i: nat): Pass<T>
    requires i <= |list|
    decreases |list| - i
  {
    if i == |list| then Pass(list, [], false)
    else if list[i] in done then
      Then([Stopped(list[i])], FixedSweep(list[..i] + list[i + 1..], done, deltaTime, i))
    else
      Then([Forwarded(list[i], deltaTime)], FixedSweep(list, done, deltaTime, i + 1))
  }

  /** The timers of `ts` that are not complete, in order. */
  function Keep<T(==)>(ts: seq<T>, done: set<T>): seq<T>
  {
    if ts == [] then []
    else if ts[0] in done then Keep(ts[1..], done)
    else [ts[0]] + Keep(ts[1..], done)
  }

  /** One visit per timer of `ts`, in order: completed ones stopped, the others forwarded. */
  function VisitEach<T(==)>(ts: seq<T>, done: set<T>, deltaTime: real): (vs: seq<Visit<T>>)
    ensures |vs| == |ts|
    ensures forall k :: 0 <= k < |ts| ==> vs[k].timer == ts[k] && (vs[k].Stopped? <==> ts[k] in done)
  {
    if ts == [] then []
    else [if ts[0] in done then Stopped(ts[0]) else Forwarded(ts[0], deltaTime)] + VisitEach(ts[1..], done, deltaTime)
  }

  /** The corrected pass visits every working timer exactly once in list order, removes exactly
      the completed ones, keeps the rest in order, and never indexes past the end. */
  lemma {:induction false} FixedSweepVisitsEachOnce<T>(list: seq<T>, done: set<T>, deltaTime: real, i: nat)
    requires i <= |list|
    requires forall j :: 0 <= j < i ==> list[j] !in done
    ensures FixedSweep(list, done, deltaTime, i)
      == Pass(list[..i] + Keep(list[i..], done), VisitEach(list[i..], done, deltaTime), false)
    decreases |list| - i
  {
    if i == |list| {
      assert list[..i] == list;
    } else if list[i] in done {
      var rest := list[..i] + list[i + 1..];
      assert rest[..i] == list[..i] && rest[i..] == list[i + 1..];
      FixedSweepVisitsEachOnce(rest, done, deltaTime, i);
      FixedStepStopped(list, done, deltaTime, i);
    } else {
      FixedSweepVisitsEachOnce(list, done, deltaTime, i + 1);
      FixedStepForwarded(list, done, deltaTime, i);
    }
  }

  /** Removing a completed timer keeps the corrected pass's claim at the same index. */
  lemma FixedStepStopped<T>(list: seq<T>, done: set<T>, deltaTime: real, i: nat)
    requires i < |list| && list[i] in done
    requires var rest := list[..i] + list[i + 1..];
      FixedSweep(rest, done, deltaTime, i)
        == Pass(rest[..i] + Keep(rest[i..], done), VisitEach(rest[i..], done, deltaTime), false)
    ensures FixedSweep(list, done, deltaTime, i)
      == Pass(list[..i] + Keep(list[i..], done), VisitEach(list[i..], done, deltaTime), false)
  {
    var t, tail := list[i], list[i + 1..];
    var rest := list[..i] + tail;
    assert rest[..i] == list[..i] && rest[i..] == tail;
    assert list[i..] == [t] + tail;
  }

  /** Forwarding to a running timer moves the corrected pass's claim one index on. */
  lemma FixedStepForwarded<T>(list: seq<T>, done: set<T>, deltaTime: real, i: nat)
    requires i < |list| && list[i] !in done
    requires FixedSweep(list, done, deltaTime, i + 1)
      == Pass(list[..i + 1] + Keep(list[i + 1..], done), VisitEach(list[i + 1..], done, deltaTime), false)
    ensures FixedSweep(list, done, deltaTime, i)
      == Pass(list[..i] + Keep(list[i..], done), VisitEach(list[i..], done, deltaTime), false)
  {
    var t, tail := list[i], list[i + 1..];
    assert list[i..] == [t] + tail;
    assert list[..i + 1] == list[..i] + [t];
  }
}
