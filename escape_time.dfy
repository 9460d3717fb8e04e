/**
 * The counting loop shared by every escape-time kernel: starting from a point,
 * apply a recurrence step by step, stop the first time the escape test holds or
 * when the counter reaches the cap, and report the cap as the sentinel -1.
 * Arithmetic is exact (real numbers), not IEEE-754 doubles.
 */
module EscapeTime {

  /** A point of the complex plane: real part r, imaginary part i. */
  datatype Point = Point(r: real, i: real)

  /** The escape test r*r + i*i > 4, i.e. the point lies outside radius 2. */
  predicate Escaped(z: Point) {
    z.r * z.r + z.i * z.i > 4.0
  }

  /** The n-th iterate of `step` from `start` (the 0-th is `start` itself). */
  function Iterate(step: Point -> Point, start: Point, n: nat): Point {
    if n == 0 then start else step(Iterate(step, start, n - 1))
  }

  /**
   * The value the loop counter has when the loop stops, given that it has
   * already done k steps without escaping and reached the point z: the first
   * step after k whose point escapes, or the cap when no step up to the last
   * one stops early.
   */
  function StopCount(step: Point -> Point, z: Point, cap: nat, k: nat): (c: nat)
    requires k <= cap
    ensures k <= c <= cap
    ensures k < cap ==> k < c
    decreases cap - k
  {
    if k == cap then k
    else if Escaped(step(z)) then k + 1
    else StopCount(step, step(z), cap, k + 1)
  }

  /** From the k-th iterate, the loop stops at the first escaping step after k, or at the cap. */
  lemma {:induction false} StopCountIsFirstEscape(step: Point -> Point, start: Point, cap: nat, k: nat)
    requires k <= cap
    ensures var c := StopCount(step, Iterate(step, start, k), cap, k);
      (c < cap ==> Escaped(Iterate(step, start, c))) &&
      (forall j :: k < j < c ==> !Escaped(Iterate(step, start, j)))
    decreases cap - k
  {
    if k < cap && !Escaped(Iterate(step, start, k + 1)) {
      StopCountIsFirstEscape(step, start, cap, k + 1);
    }
  }

  /**
   * What the kernel returns: the stopping counter, except that a counter equal
   * to the cap becomes the sentinel -1.
   */
  function Outcome(step: Point -> Point, start: Point, cap: nat): (r: int)
    ensures r == -1 || 1 <= r < cap
  {
    var c := StopCount(step, start, cap, 0);
    if c == cap then -1 else c
  }

  /**
   * A positive result is the first step whose iterate escapes; -1 means that no
   * step before the last one escaped, whether or not the last one did.
   */
  lemma OutcomeIsFirstEscape(step: Point -> Point, start: Point, cap: nat)
    ensures var r := Outcome(step, start, cap);
      (r > 0 ==> Escaped(Iterate(step, start, r))) &&
      (r > 0 ==> forall j :: 1 <= j < r ==> !Escaped(Iterate(step, start, j))) &&
      (r == -1 <==> forall j :: 1 <= j < cap ==> !Escaped(Iterate(step, start, j)))
  {
    var c := StopCount(step, start, cap, 0);
    StopCountIsFirstEscape(step, start, cap, 0);
    if c < cap {
      assert 1 <= c && Escaped(Iterate(step, start, c));
    }
  }

  /** The loop of numIterations, with its early exit by break. */
  method CountEscape(step: Point -> Point, start: Point, cap: nat) returns (count: int)
    ensures count == Outcome(step, start, cap)
    ensures count == -1 || 1 <= count < cap
    ensures count > 0 ==> Escaped(Iterate(step, start, count))
    ensures count > 0 ==> forall j :: 1 <= j < count ==> !Escaped(Iterate(step, start, j))
    ensures count == -1 <==> forall j :: 1 <= j < cap ==> !Escaped(Iterate(step, start, j))
  {
    var z := start;
    var counter: nat := 0;
    while counter < cap
      invariant counter <= cap
      invariant z == Iterate(step, start, counter)
      invariant StopCount(step, z, cap, counter) == StopCount(step, start, cap, 0)
      decreases cap - counter
    {
      counter := counter + 1;
      z := step(z);
      if Escaped(z) {
        break;
      }
    }
    if counter == cap {
      count := -1;
    } else {
      count := counter;
    }
    OutcomeIsFirstEscape(step, start, cap);
  }

  /** A point fixed by the step stays where it is forever. */
  lemma {:induction false} FixedOrbit(step: Point -> Point, start: Point, n: nat)
    requires step(start) == start
    ensures Iterate(step, start, n) == start
  {
    if n > 0 {
      FixedOrbit(step, start, n - 1);
    }
  }

  /** A fixed point inside radius 2 never escapes, so it is reported as -1. */
  lemma FixedPointIsBounded(step: Point -> Point, start: Point, cap: nat)
    requires step(start) == start && !Escaped(start)
    ensures Outcome(step, start, cap) == -1
  {
    forall j | 1 <= j < cap
      ensures !Escaped(Iterate(step, start, j))
    {
      FixedOrbit(step, start, j);
    }
    OutcomeIsFirstEscape(step, start, cap);
  }

  /** A point whose first iterate escapes is reported after one step. */
  lemma FirstStepEscapes(step: Point -> Point, start: Point, cap: nat)
    requires 2 <= cap && Escaped(step(start))
    ensures Outcome(step, start, cap) == 1
  {
    assert Iterate(step, start, 1) == step(start);
    OutcomeIsFirstEscape(step, start, cap);
  }

  /** The edge case: escaping for the first time on the very last step still yields -1. */
  lemma FinalStepEscapeIsSentinel(step: Point -> Point, start: Point, cap: nat)
    requires 1 <= cap && Escaped(Iterate(step, start, cap))
    requires forall j :: 1 <= j < cap ==> !Escaped(Iterate(step, start, j))
    ensures Outcome(step, start, cap) == -1
  {
    OutcomeIsFirstEscape(step, start, cap);
  }

  lemma {:induction false} SameOrbitSameStop(s1: Point -> Point, s2: Point -> Point, start: Point, cap: nat, k: nat)
    requires k <= cap
    requires forall n: nat :: Iterate(s1, start, n) == Iterate(s2, start, n)
    ensures StopCount(s1, Iterate(s1, start, k), cap, k) == StopCount(s2, Iterate(s2, start, k), cap, k)
    decreases cap - k
  {
    if k < cap {
      assert Iterate(s1, start, k + 1) == Iterate(s2, start, k + 1);
      SameOrbitSameStop(s1, s2, start, cap, k + 1);
    }
  }

  /** The result depends on the orbit only, not on how the recurrence is written. */
  lemma SameOrbitSameOutcome(s1: Point -> Point, s2: Point -> Point, start: Point, cap: nat)
    requires forall n: nat :: Iterate(s1, start, n) == Iterate(s2, start, n)
    ensures Outcome(s1, start, cap) == Outcome(s2, start, cap)
  {
    SameOrbitSameStop(s1, s2, start, cap, 0);
  }
}
