/** Absolute-deadline timing of the cyclic executive. */
module CyclicExecutive {
  import opened Common

  const NS: int := 1_000_000_000        // nanoseconds in a second
  const PERIOD: int := 1_000_000        // one cycle

  datatype Time = Time(sec: int, nsec: int)

  function Nanos(t: Time): int
  {
    t.sec * NS + t.nsec
  }

  ghost predicate Normal(t: Time)
  {
    0 <= t.nsec < NS
  }

  /** timespec_add_ns: it carries into the seconds, but never borrows from them. */
  function Add(t: Time, ns: int): Time
  {
    Carry(Time(t.sec, t.nsec + ns))
  }

  function Carry(t: Time): Time
    decreases t.nsec
  {
    if t.nsec >= NS then Carry(Time(t.sec + 1, t.nsec - NS)) else t
  }

  function Diff(a: Time, b: Time): int
  {
    (a.sec - b.sec) * NS + (a.nsec - b.nsec)
  }

  // ---- Adding and subtracting ----

  lemma {:induction false} CarryKeeps(t: Time)
    ensures Nanos(Carry(t)) == Nanos(t) && Carry(t).nsec < NS
    ensures Carry(t).nsec >= 0 <==> t.nsec >= 0
    decreases t.nsec
  {
    if t.nsec >= NS { CarryKeeps(Time(t.sec + 1, t.nsec - NS)); }
  }

  lemma NormalUnique(a: Time, b: Time)
    requires Normal(a) && Normal(b)
    ensures Nanos(a) == Nanos(b) <==> a == b
    ensures a.sec < b.sec ==> Nanos(a) < Nanos(b)
  {
  }

  /** Adding shifts the instant exactly, and the result is normalised unless the nanoseconds go
      below zero. */
  lemma AddShifts(t: Time, ns: int)
    ensures Nanos(Add(t, ns)) == Nanos(t) + ns && Diff(Add(t, ns), t) == ns
    ensures Normal(Add(t, ns)) <==> t.nsec + ns >= 0
  {
    CarryKeeps(Time(t.sec, t.nsec + ns));
  }

  /** Adding a difference back gives the first instant exactly when its second is no earlier. */
  lemma AddUndoesDiff(a: Time, b: Time)
    requires Normal(a) && Normal(b)
    ensures Add(b, Diff(a, b)) == a <==> b.sec <= a.sec
  {
    AddShifts(b, Diff(a, b));
    if b.sec <= a.sec { NormalUnique(Add(b, Diff(a, b)), a); }
  }

  /** An earlier instant in an earlier second comes back unnormalised. */
  lemma AddDoesNotBorrow()
    ensures Add(Time(5, 0), Diff(Time(4, 999_999_999), Time(5, 0))) == Time(5, -1)
  {
  }

  // ---- Deadlines ----

  /** The least k with x <= k * PERIOD. */
  function PeriodsToReach(x: int): int
  {
    if x >= 0 then (x + PERIOD - 1) / PERIOD else -((-x) / PERIOD)
  }

  lemma LeastPeriods(x: int, k: int)
    ensures x <= k * PERIOD <==> PeriodsToReach(x) <= k
  {
    if x >= 0 {
      var q, r := (x + PERIOD - 1) / PERIOD, (x + PERIOD - 1) % PERIOD;
      assert x + PERIOD - 1 == q * PERIOD + r;
    } else {
      var q, r := (-x) / PERIOD, (-x) % PERIOD;
      assert -x == q * PERIOD + r;
    }
  }

  /** The deadline, in periods after the start, of a cycle that follows deadline `k` and whose work
      ended `x` nanoseconds after the start. */
  function Deadline(k: int, x: int): int
  {
    Max(k + 1, PeriodsToReach(x))
  }

  /** Deadlines of a whole run; `work[i]` is when the work of cycle i ended. */
  function Deadlines(start: Time, work: seq<Time>): (ks: seq<int>)
    ensures |ks| == |work|
  {
    if work == [] then []
    else
      var n := |work| - 1;
      var ks := Deadlines(start, work[..n]);
      ks + [Deadline(if n == 0 then 0 else ks[n - 1], Diff(work[n], start))]
  }

  lemma {:induction false} DeadlinesPrefix(start: Time, work: seq<Time>, n: nat)
    requires n <= |work|
    ensures Deadlines(start, work)[..n] == Deadlines(start, work[..n])
  {
    if n < |work| {
      var m := |work| - 1;
      DeadlinesPrefix(start, work[..m], n);
      assert work[..m][..n] == work[..n];
    } else {
      assert work[..n] == work;
    }
  }

  lemma DeadlineStep(start: Time, work: seq<Time>, i: nat)
    requires i < |work|
    ensures var ks := Deadlines(start, work);
      ks[i] == Deadline(if i == 0 then 0 else ks[i - 1], Diff(work[i], start))
  {
    DeadlinesPrefix(start, work, i + 1);
    var ks := Deadlines(start, work);
    assert ks[..i + 1][i] == ks[i] && (i > 0 ==> ks[..i + 1][i - 1] == ks[i - 1]);
    assert work[..i + 1][..i] == work[..i];
  }

  lemma {:induction false} DeadlinesIncrease(start: Time, work: seq<Time>, i: nat, j: nat)
    requires i < j < |work|
    ensures Deadlines(start, work)[i] < Deadlines(start, work)[j]
    decreases j
  {
    DeadlineStep(start, work, j);
    if i < j - 1 { DeadlinesIncrease(start, work, i, j - 1); }
  }

  /** The deadline after n cycles in closed form: one period per cycle, counted from the start or
      from the latest overrun that pushed it further. */
  ghost predicate Pushed(start: Time, work: seq<Time>, n: nat, k: int)
    requires n < |work|
  {
    && k >= n + 1 && (forall j :: 0 <= j <= n ==> k >= PeriodsToReach(Diff(work[j], start)) + (n - j))
    && (k == n + 1 || exists j :: 0 <= j <= n && k == PeriodsToReach(Diff(work[j], start)) + (n - j))
  }

  lemma {:induction false} DeadlineClosedForm(start: Time, work: seq<Time>, n: nat)
    requires n < |work|
    ensures Pushed(start, work, n, Deadlines(start, work)[n])
    decreases n
  {
    DeadlineStep(start, work, n);
    var k := Deadlines(start, work)[n];
    assert k == PeriodsToReach(Diff(work[n], start)) + (n - n)
      || k == if n == 0 then 1 else Deadlines(start, work)[n - 1] + 1;
    if n > 0 {
      DeadlineClosedForm(start, work, n - 1);
      var k0 := Deadlines(start, work)[n - 1];
      forall j | 0 <= j <= n
        ensures k >= PeriodsToReach(Diff(work[j], start)) + (n - j)
      {
        if j < n { assert k0 >= PeriodsToReach(Diff(work[j], start)) + (n - 1 - j); }
      }
      if k == k0 + 1 && k0 != n {
        var j :| 0 <= j <= n - 1 && k0 == PeriodsToReach(Diff(work[j], start)) + (n - 1 - j);
        assert k == PeriodsToReach(Diff(work[j], start)) + (n - j);
      }
    }
  }

  /** Without overruns the deadlines never drift, however the work times and wake-ups vary. */
  lemma {:induction false} NoDrift(start: Time, work: seq<Time>, n: nat)
    requires n < |work| && forall j :: 0 <= j <= n ==> Diff(work[j], start) <= (j + 1) * 1_000_000
    ensures Deadlines(start, work)[n] == n + 1
    ensures Nanos(Add(start, Deadlines(start, work)[n] * PERIOD)) == Nanos(start) + (n + 1) * 1_000_000
  {
    AddShifts(start, (n + 1) * PERIOD);
    DeadlineStep(start, work, n);
    LeastPeriods(Diff(work[n], start), n + 1);
    if n > 0 { NoDrift(start, work, n - 1); }
  }

  /** The deadline index a cycle starts from. */
  function Before(start: Time, work: seq<Time>, i: nat): int
    requires i <= |work|
  {
    if i == 0 then 0 else Deadlines(start, work)[i - 1]
  }

  lemma {:induction false} BeforeAtLeast(start: Time, work: seq<Time>, i: nat)
    requires i <= |work|
    ensures Before(start, work, i) >= i
  {
    if i > 0 {
      DeadlineStep(start, work, i - 1);
      BeforeAtLeast(start, work, i - 1);
    }
  }

  /** The work of cycle i ended after the deadline it was meant to meet. */
  predicate Overran(start: Time, work: seq<Time>, i: nat)
    requires i < |work|
  {
    Nanos(work[i]) > Nanos(start) + (Before(start, work, i) + 1) * PERIOD
  }

  function OverrunCount(start: Time, work: seq<Time>, n: nat): nat
    requires n <= |work|
  {
    if n == 0 then 0 else OverrunCount(start, work, n - 1) + if Overran(start, work, n - 1) then 1 else 0
  }

  /** A deadline is a whole number of periods after the start, is never before the end of the
      cycle's work, and after an overrun is the first such instant. */
  ghost predicate OnGrid(start: Time, work: seq<Time>, i: nat, deadline: Time)
    requires i < |work|
  {
    && deadline == Add(start, Deadlines(start, work)[i] * PERIOD) && Normal(deadline)
    && Nanos(work[i]) <= Nanos(deadline)
    && (Overran(start, work, i) ==> Nanos(deadline) < Nanos(work[i]) + PERIOD)
  }

  function Missed(remaining: int): int
  {
    (-remaining + PERIOD - 1) / PERIOD
  }

  /** Skipping the missed periods lands on the first deadline the work has not passed. */
  lemma SkipLands(k: nat, x: int)
    ensures var remaining := (k + 1) * PERIOD - x;
      && Deadline(k, x) == k + 1 + (if remaining < 0 then Missed(remaining) else 0)
      && x <= Deadline(k, x) * PERIOD
      && (remaining < 0 ==> Deadline(k, x) * PERIOD < x + PERIOD)
  {
    LeastPeriods(x, k + 1);
  }

  function NextWake(t: Time, now: Time): Time
  {
    var advanced := Add(t, PERIOD);
    if Diff(advanced, now) < 0 then Add(advanced, Missed(Diff(advanced, now)) * PERIOD) else advanced
  }

  lemma CycleStep(start: Time, work: seq<Time>, i: nat, t: Time)
    requires Normal(start) && i < |work|
    requires Normal(t) && Nanos(t) == Nanos(start) + Before(start, work, i) * PERIOD
    ensures OnGrid(start, work, i, NextWake(t, work[i]))
    ensures Diff(Add(t, PERIOD), work[i]) < 0 <==> Overran(start, work, i)
  {
    var k, x := Before(start, work, i), Diff(work[i], start);
    BeforeAtLeast(start, work, i);
    DeadlineStep(start, work, i);
    hide Deadlines, PeriodsToReach;
    SkipLands(k, x);
    AddShifts(t, PERIOD);
    var advanced := Add(t, PERIOD);
    var remaining := Diff(advanced, work[i]);
    assert remaining == (k + 1) * PERIOD - x;
    AddShifts(advanced, Missed(remaining) * PERIOD);
    AddShifts(start, Deadline(k, x) * PERIOD);
    hide Add, Deadline;
    NormalUnique(NextWake(t, work[i]), Add(start, Deadline(k, x) * PERIOD));
  }

  // ---- The loop ----

  class Timespec {
    var sec: int
    var nsec: int

    ghost function Value(): Time
      reads this
    {
      Time(sec, nsec)
    }

    constructor (t: Time)
      ensures Value() == t
    {
      sec, nsec := t.sec, t.nsec;
    }

    method AddNs(ns: int)
      modifies this
      ensures Value() == Add(old(Value()), ns)
    {
      nsec := nsec + ns;
      while nsec >= NS
        invariant Carry(Value()) == Add(old(Value()), ns)
      {
        nsec := nsec - NS;
        sec := sec + 1;
      }
    }
  }

  /** `work[i]` is the clock reading after the work of cycle i; `deadlines[i]` is next_wake at the
      end of that cycle, slept until unless the cycle overran. */
  method RunLoop(start: Time, work: seq<Time>) returns (deadlines: seq<Time>, overruns: nat, recorded: nat)
    requires Normal(start)
    ensures |deadlines| == |work| == overruns + recorded
    ensures forall i :: 0 <= i < |work| ==> OnGrid(start, work, i, deadlines[i])
    ensures overruns == OverrunCount(start, work, |work|)
  {
    hide Deadlines, Add, OnGrid, Overran, Missed;
    var nextWake := new Timespec(start);
    deadlines, overruns, recorded := [], 0, 0;
    for cycle := 0 to |work|
      invariant fresh(nextWake) && |deadlines| == cycle == overruns + recorded
      invariant Normal(nextWake.Value())
      invariant Nanos(nextWake.Value()) == Nanos(start) + Before(start, work, cycle) * PERIOD
      invariant forall i :: 0 <= i < cycle ==> OnGrid(start, work, i, deadlines[i])
      invariant overruns == OverrunCount(start, work, cycle)
    {
      ghost var t, now := nextWake.Value(), work[cycle];
      CycleStep(start, work, cycle, t);
      nextWake.AddNs(PERIOD);
      var remaining := Diff(Time(nextWake.sec, nextWake.nsec), work[cycle]);
      if remaining < 0 {
        overruns := overruns + 1;
        var missed := Missed(remaining);
        nextWake.AddNs(missed * PERIOD);
      } else {
        recorded := recorded + 1;
      }
      assert nextWake.Value() == NextWake(t, now);
      OnGridNanos(start, work, cycle, nextWake.Value());
      deadlines := deadlines + [Time(nextWake.sec, nextWake.nsec)];
    }
  }

  lemma OnGridNanos(start: Time, work: seq<Time>, i: nat, deadline: Time)
    requires i < |work| && OnGrid(start, work, i, deadline)
    ensures Normal(deadline) && Nanos(deadline) == Nanos(start) + Before(start, work, i + 1) * PERIOD
  {
    AddShifts(start, Deadlines(start, work)[i] * PERIOD);
  }
}
