/** Arithmetic and comparison of instants given as seconds and nanoseconds. */
module TimeSpec {
  import opened Apex

  datatype Spec = Spec(sec: int, nsec: int)

  /** convertTimeSpecToNano: the instant in nanoseconds. */
  function Nanos(t: Spec): int { t.sec * NANO + t.nsec }

  predicate Normal(t: Spec) { 0 <= t.nsec < NANO }

  /** Division and remainder of C: towards zero, and with the sign of the dividend. */
  function Quotient(a: int, b: int): int
    requires b > 0
  {
    if a >= 0 then a / b else -((-a) / b)
  }

  function Remainder(a: int, b: int): int
    requires b > 0
  {
    a - Quotient(a, b) * b
  }

  // ---------------------------------------------------------------- addition

  method AddTime(first: Spec, second: Spec) returns (t: Spec)
    ensures Nanos(t) == Nanos(first) + Nanos(second)
    ensures t.nsec < NANO && (first.nsec + second.nsec >= 0 ==> Normal(t))
    ensures first.nsec + second.nsec < NANO ==> t == Spec(first.sec + second.sec, first.nsec + second.nsec)
  {
    var nsecs, secs := first.nsec + second.nsec, first.sec + second.sec;
    while nsecs >= NANO
      invariant secs * NANO + nsecs == Nanos(first) + Nanos(second)
      invariant first.nsec + second.nsec >= 0 ==> nsecs >= 0
      invariant first.nsec + second.nsec < NANO ==> secs == first.sec + second.sec && nsecs == first.nsec + second.nsec
      decreases nsecs
    {
      secs, nsecs := secs + 1, nsecs - NANO;
    }
    t := Spec(secs, nsecs);
  }

  /** addTimeNano on durations that its assertion lets pass. */
  function AddNano(first: Spec, nanoseconds: int): Spec
    requires nanoseconds <= MAX_TIME_OUT
  {
    var nsecs := first.nsec + Duration(nanoseconds);
    Spec(Quotient(nsecs, NANO) + first.sec, Remainder(nsecs, NANO))
  }

  lemma QuotientBounds(a: int)
    ensures a == Quotient(a, NANO) * NANO + Remainder(a, NANO)
    ensures -NANO < Remainder(a, NANO) < NANO
    ensures a >= 0 ==> Remainder(a, NANO) >= 0
    ensures a < 0 ==> Remainder(a, NANO) <= 0
  {
  }

  /** The value is always right; the result has its nanoseconds in range exactly when the sum of
      nanoseconds is not negative or is a whole number of seconds. */
  lemma AddNanoExactly(first: Spec, nanoseconds: int)
    requires nanoseconds <= MAX_TIME_OUT
    ensures Nanos(AddNano(first, nanoseconds)) == Nanos(first) + Duration(nanoseconds)
    ensures Normal(AddNano(first, nanoseconds)) <==> first.nsec + Duration(nanoseconds) >= 0 || (first.nsec + Duration(nanoseconds)) % NANO == 0
  {
    QuotientBounds(first.nsec + Duration(nanoseconds));
  }

  // ---------------------------------------------------------------- subtraction

  method SubtractTime(first: Spec, second: Spec) returns (t: Spec)
    ensures Nanos(t) == Nanos(first) - Nanos(second)
    ensures t.nsec >= 0 && (first.nsec - second.nsec < NANO ==> Normal(t))
  {
    var nsecs, secs := first.nsec - second.nsec, first.sec - second.sec;
    while nsecs < 0
      invariant secs * NANO + nsecs == Nanos(first) - Nanos(second)
      invariant first.nsec - second.nsec < NANO ==> nsecs < NANO
      decreases -nsecs
    {
      secs, nsecs := secs - 1, nsecs + NANO;
    }
    t := Spec(secs, nsecs);
  }

  method SubtractTime2(first: Spec, second: Spec) returns (n: int)
    ensures n == Nanos(first) - Nanos(second)
  {
    var t := SubtractTime(first, second);
    n := t.nsec;
    n := n + t.sec * NANO;
  }

  // ---------------------------------------------------------------- comparison

  predicate CompareTime(first: Spec, second: Spec) {
    if first.sec < second.sec then true else if first.sec > second.sec then false else first.nsec <= second.nsec
  }

  predicate CompareTimeLess(first: Spec, second: Spec) {
    if first.sec < second.sec then true else if first.sec > second.sec then false else first.nsec < second.nsec
  }

  /** On instants in normal form the comparisons are those of the instants. */
  lemma ComparesInstants(a: Spec, b: Spec)
    requires Normal(a) && Normal(b)
    ensures CompareTime(a, b) <==> Nanos(a) <= Nanos(b)
    ensures CompareTimeLess(a, b) <==> Nanos(a) < Nanos(b)
  {
  }

  /** Against every instant in normal form, a comparison is right exactly for what is in normal form. */
  lemma NormalFormNeeded(a: Spec)
    ensures (forall b :: Normal(b) ==> (CompareTime(a, b) <==> Nanos(a) <= Nanos(b)) && (CompareTime(b, a) <==> Nanos(b) <= Nanos(a))) <==> Normal(a)
  {
    if Normal(a) {
      forall b | Normal(b)
        ensures (CompareTime(a, b) <==> Nanos(a) <= Nanos(b)) && (CompareTime(b, a) <==> Nanos(b) <= Nanos(a))
      {
        ComparesInstants(a, b);
        ComparesInstants(b, a);
      }
    } else {
      var b := Spec(if a.nsec < 0 then a.sec - 1 else a.sec + 1, if a.nsec < 0 then NANO - 1 else 0);
      assert Normal(b);
      assert CompareTime(a, b) <==> a.nsec >= 0;
    }
  }

  /** A sum in normal form compares like the instants: what the scheduler's clock arithmetic needs. */
  lemma DueExactly(release: Spec, capacity: int, now: Spec)
    requires Normal(release) && Normal(now) && (capacity == INFINITE_TIME_VALUE || 0 <= capacity <= MAX_TIME_OUT)
    ensures CompareTime(AddNano(release, capacity), now) <==> Nanos(release) + Duration(capacity) <= Nanos(now)
  {
    AddNanoExactly(release, capacity);
    ComparesInstants(AddNano(release, capacity), now);
  }
}
