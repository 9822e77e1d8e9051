/** Values shared by every part of the timer library model. */
module Common {

  /** A reference that may be null in the C# source. */
  datatype Option<+T> = None | Some(value: T)

  /** An opaque delegate: callbacks are never run, only recorded when invoked. */
  datatype Callback = Callback(id: nat)

  /** An element of the opaque `object[]` handed to a parameterised callback. */
  datatype Param = Param(id: nat)

  /** No element occurs twice. */
  predicate NoDups<T(==)>(s: seq<T>)
  {
    forall i, j :: 0 <= i < j < |s| ==> Distinct(s, i, j)
  }

  /** The elements at two positions differ. */
  predicate Distinct<T(==)>(s: seq<T>, i: nat, j: nat)
    requires i < |s| && j < |s|
  {
    s[i] != s[j]
  }

  /** Two different positions of a list without duplicates hold different elements. */
  lemma NoDupsAt<T>(s: seq<T>, i: nat, j: nat)
    requires NoDups(s) && i < |s| && j < |s| && i != j
    ensures s[i] != s[j]
  {
    if i < j {
      assert Distinct(s, i, j);
    } else {
      assert Distinct(s, j, i);
    }
  }

  /** The head of a list without duplicates does not recur, and its tail has no duplicates. */
  lemma NoDupsTail<T>(s: seq<T>)
    requires NoDups(s) && s != []
    ensures s[0] !in s[1..] && NoDups(s[1..])
  {
    var t := s[1..];
    forall i, j | 0 <= i < j < |t| ensures Distinct(t, i, j) {
      NoDupsAt(s, i + 1, j + 1);
    }
    forall k | 0 <= k < |t| ensures t[k] != s[0] {
      NoDupsAt(s, 0, k + 1);
    }
  }

  /** Appending an element that is absent keeps a list free of duplicates. */
  lemma AppendKeepsNoDups<T>(s: seq<T>, x: T)
    requires NoDups(s) && x !in s
    ensures NoDups(s + [x])
  {
    var f := s + [x];
    forall i, j | 0 <= i < j < |f| ensures Distinct(f, i, j) {
      if j == |f| - 1 {
        assert f[i] in s;
      } else {
        NoDupsAt(s, i, j);
      }
    }
  }

  /** Sum of a sequence of frame deltas. */
  function Sum(ds: seq<real>): real
  {
    if ds == [] then 0.0 else ds[0] + Sum(ds[1..])
  }

  /** Every frame delta is non-negative, as the frame driver supplies them. */
  predicate NonNegative(ds: seq<real>)
  {
    forall k :: 0 <= k < |ds| ==> ds[k] >= 0.0
  }

  /** The sum of non-negative deltas is non-negative. */
  lemma {:induction false} SumNonNegative(ds: seq<real>)
    requires NonNegative(ds)
    ensures Sum(ds) >= 0.0
  {
    if ds != [] {
      SumNonNegative(ds[1..]);
    }
  }
}

/** C# `float` arithmetic that the timers rely on, over the mathematical reals. */
module CsFloat {

  /** Rounding toward zero, as C# converts a quotient for its remainder operator. */
  function Trunc(q: real): int
  {
    if q >= 0.0 then q.Floor else -((-q).Floor)
  }

  /** The C# remainder `x % y` on floating-point values: the sign follows `x`. */
  function Rem(x: real, y: real): real
    requires y != 0.0
  {
    x - y * (Trunc(x / y) as real)
  }

  /** For a dividend above a positive divisor, the remainder removes at least one whole
      divisor and leaves a value in `[0, y)`. */
  lemma RemOfExceeding(x: real, y: real)
    requires 0.0 < y < x
    ensures 0.0 <= Rem(x, y) < y
    ensures Trunc(x / y) >= 1
    ensures x == Rem(x, y) + (Trunc(x / y) as real) * y
  {
    var q := x / y;
    assert q * y == x;
    assert q > 1.0;
    var f := q.Floor;
    assert Trunc(q) == f;
    assert (f as real) <= q < (f as real) + 1.0;
    assert f >= 1;
    var frac := q - (f as real);
    assert 0.0 <= frac < 1.0;
    assert Rem(x, y) == y * frac by {
      calc {
        Rem(x, y);
        x - y * (f as real);
        q * y - y * (f as real);
        y * frac;
      }
    }
    assert y * frac < y by {
      assert y * (1.0 - frac) > 0.0;
    }
  }
}
