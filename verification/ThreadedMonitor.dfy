/** The threaded health monitor of the watchdog exercise: statuses that latch, and a shutdown that
    stops the check loop. */
module ThreadedMonitor {
  import opened Common
  import opened Lateness

  datatype Status = Healthy | Warning | Failed | Shutdown

  datatype Subsystem = Subsystem(status: Status, missed: nat)

  datatype State = State(subs: seq<Subsystem>, systemHealthy: bool, running: bool)

  // ---- check_all ----

  function CheckSubsystem(sub: Subsystem, late: bool): Subsystem
  {
    if sub.status == Shutdown then sub
    else if late then Subsystem(if sub.missed == 0 then Warning else Failed, sub.missed + 1)
    else if sub.missed > 0 && sub.status != Failed then Subsystem(Healthy, 0)
    else sub
  }

  /** A failed subsystem whose heartbeat is on time again is not counted. */
  predicate CountsAsFailed(before: Subsystem, late: bool)
  {
    before.status == Shutdown || (late && before.missed > 0)
  }

  function Counted(subs: seq<Subsystem>, late: seq<bool>): (r: seq<bool>)
    requires |subs| == |late|
    ensures |r| == |subs| && forall i :: 0 <= i < |r| ==> (r[i] <==> CountsAsFailed(subs[i], late[i]))
  {
    seq(|subs|, i requires 0 <= i < |subs| => CountsAsFailed(subs[i], late[i]))
  }

  function CheckSubsystems(subs: seq<Subsystem>, late: seq<bool>): (r: seq<Subsystem>)
    requires |subs| == |late|
    ensures |r| == |subs| && forall i :: 0 <= i < |r| ==> r[i] == CheckSubsystem(subs[i], late[i])
  {
    seq(|subs|, i requires 0 <= i < |subs| => CheckSubsystem(subs[i], late[i]))
  }

  function ShutDown(subs: seq<Subsystem>): (r: seq<Subsystem>)
    ensures |r| == |subs| && forall i :: 0 <= i < |r| ==> r[i] == subs[i].(status := Shutdown)
  {
    seq(|subs|, i requires 0 <= i < |subs| => subs[i].(status := Shutdown))
  }

  function AfterCheck(s: State, late: seq<bool>): (r: State)
    requires |s.subs| == |late|
    ensures |r.subs| == |s.subs|
  {
    var subs := CheckSubsystems(s.subs, late);
    if Count(Counted(s.subs, late)) >= 2 then State(ShutDown(subs), false, false) else s.(subs := subs)
  }

  function Initial(n: nat): State
  {
    State(seq(n, _ => Subsystem(Healthy, 0)), true, true)
  }

  ghost predicate ForSubsystems(checks: seq<seq<bool>>, n: nat)
  {
    forall k :: 0 <= k < |checks| ==> |checks[k]| == n
  }

  /** Any number of check_all calls, `checks[k][i]` saying whether subsystem i was late at check k. */
  function Run(n: nat, checks: seq<seq<bool>>): (s: State)
    requires ForSubsystems(checks, n)
    ensures |s.subs| == n
  {
    if checks == [] then Initial(n) else AfterCheck(Run(n, checks[..|checks| - 1]), checks[|checks| - 1])
  }

  // ---- The status as a function of history ----

  /** Subsystem i was late at two checks in a row, no later than check `k`. */
  ghost predicate FailedBy(checks: seq<seq<bool>>, k: nat, i: nat)
  {
    exists j: nat :: j < k && LateAt(checks, j, i) && LateAt(checks, j + 1, i)
  }

  ghost predicate FailsAt(checks: seq<seq<bool>>, k: nat, i: nat)
  {
    LateAt(checks, k, i) && FailedBy(checks, k, i)
  }

  /** At check `k` two subsystems are late that have each been late twice running by then. */
  ghost predicate TwoFailAt(checks: seq<seq<bool>>, k: nat)
  {
    exists a, b :: 0 <= a < b && FailsAt(checks, k, a) && FailsAt(checks, k, b)
  }

  ghost predicate Stopped(checks: seq<seq<bool>>)
  {
    exists k: nat :: k < |checks| && TwoFailAt(checks, k)
  }

  ghost function StatusOf(checks: seq<seq<bool>>, i: nat): Status
  {
    if Stopped(checks) then Shutdown
    else if checks != [] && FailedBy(checks, |checks| - 1, i) then Failed
    else if checks != [] && LateAt(checks, |checks| - 1, i) then Warning
    else Healthy
  }

  /** Until the shutdown a subsystem's counter is 0 when healthy, 1 on a warning, 2 or more once failed. */
  ghost predicate CounterFits(sub: Subsystem)
  {
    match sub.status
    case Healthy => sub.missed == 0
    case Warning => sub.missed == 1
    case Failed => sub.missed >= 2
    case Shutdown => true
  }

  ghost predicate Explains(s: State, checks: seq<seq<bool>>)
  {
    && (forall i :: 0 <= i < |s.subs| ==> s.subs[i].status == StatusOf(checks, i) && CounterFits(s.subs[i]))
    && (s.systemHealthy <==> !Stopped(checks)) && (s.running <==> !Stopped(checks))
  }

  lemma {:induction false} CountTwo(s: seq<bool>)
    ensures Count(s) >= 2 <==> exists a, b :: 0 <= a < b < |s| && s[a] && s[b]
    ensures Count(s) >= 1 <==> exists a :: 0 <= a < |s| && s[a]
  {
    if s != [] {
      var front, n := s[..|s| - 1], |s| - 1;
      CountTwo(front);
      if a, b :| 0 <= a < b < |front| && front[a] && front[b] { assert s[a] && s[b]; }
      if s[n] {
        if a :| 0 <= a < |front| && front[a] { assert s[a] && s[n]; }
      }
      if a, b :| 0 <= a < b < |s| && s[a] && s[b] {
        assert front[a];
        if b < n { assert front[b]; }
      }
      if a :| 0 <= a < |s| && s[a] {
        if a < n { assert front[a]; }
      }
    }
  }

  lemma LateAtPrefix(checks: seq<seq<bool>>, late: seq<bool>, k: nat, i: nat)
    requires k < |checks|
    ensures LateAt(checks + [late], k, i) == LateAt(checks, k, i)
  {
  }

  lemma FailedByPrefix(checks: seq<seq<bool>>, late: seq<bool>, k: nat, i: nat)
    requires k < |checks|
    ensures FailedBy(checks + [late], k, i) == FailedBy(checks, k, i)
  {
    var checks' := checks + [late];
    if FailedBy(checks, k, i) {
      var j: nat :| j < k && LateAt(checks, j, i) && LateAt(checks, j + 1, i);
      assert LateAt(checks', j, i) && LateAt(checks', j + 1, i);
    }
    if FailedBy(checks', k, i) {
      var j: nat :| j < k && LateAt(checks', j, i) && LateAt(checks', j + 1, i);
      assert LateAt(checks, j, i) && LateAt(checks, j + 1, i);
    }
  }

  lemma StoppedSnoc(checks: seq<seq<bool>>, late: seq<bool>)
    ensures Stopped(checks + [late]) <==> Stopped(checks) || TwoFailAt(checks + [late], |checks|)
  {
    var checks' := checks + [late];
    forall k: nat | k < |checks|
      ensures TwoFailAt(checks', k) <==> TwoFailAt(checks, k)
    {
      TwoFailPrefix(checks, late, k);
    }
  }

  lemma TwoFailPrefix(checks: seq<seq<bool>>, late: seq<bool>, k: nat)
    requires k < |checks|
    ensures TwoFailAt(checks + [late], k) <==> TwoFailAt(checks, k)
  {
    forall i: nat
      ensures FailsAt(checks + [late], k, i) <==> FailsAt(checks, k, i)
    {
      LateAtPrefix(checks, late, k, i);
      FailedByPrefix(checks, late, k, i);
    }
  }

  /** One more check: failed by now means failed before, or late both now and just before. */
  lemma FailedBySnoc(checks: seq<seq<bool>>, late: seq<bool>, i: nat)
    requires checks != []
    ensures FailedBy(checks + [late], |checks|, i) <==>
      FailedBy(checks, |checks| - 1, i) || (LateAt(checks, |checks| - 1, i) && LateAt(checks + [late], |checks|, i))
  {
    var checks', n := checks + [late], |checks|;
    FailedByPrefix(checks, late, n - 1, i);
    LateAtPrefix(checks, late, n - 1, i);
    if FailedBy(checks', n, i) {
      var j: nat :| j < n && LateAt(checks', j, i) && LateAt(checks', j + 1, i);
      if j < n - 1 { assert FailedBy(checks', n - 1, i); }
    }
    if FailedBy(checks', n - 1, i) {
      var j: nat :| j < n - 1 && LateAt(checks', j, i) && LateAt(checks', j + 1, i);
      assert FailedBy(checks', n, i);
    }
    if LateAt(checks', n - 1, i) && LateAt(checks', n, i) { assert FailedBy(checks', n, i); }
  }

  lemma NeverFailedAtFirst(late: seq<bool>, i: nat)
    ensures !FailedBy([late], 0, i)
  {
  }

  /** Until the shutdown a subsystem is counted exactly when it fails at this check. */
  lemma CountedIsFailing(s: State, checks: seq<seq<bool>>, late: seq<bool>, i: nat)
    requires |s.subs| == |late| && i < |late| && Explains(s, checks) && !Stopped(checks)
    ensures CountsAsFailed(s.subs[i], late[i]) <==> FailsAt(checks + [late], |checks|, i)
    ensures var sub := CheckSubsystem(s.subs[i], late[i]);
      && CounterFits(sub)
      && sub.status == (if FailedBy(checks + [late], |checks|, i) then Failed else if late[i] then Warning else Healthy)
  {
    var checks' := checks + [late];
    assert LateAt(checks', |checks|, i) == late[i];
    hide FailedBy, Stopped;
    if checks == [] {
      assert checks' == [late];
      NeverFailedAtFirst(late, i);
    } else {
      FailedBySnoc(checks, late, i);
    }
  }

  lemma TwoCounted(s: State, checks: seq<seq<bool>>, late: seq<bool>)
    requires |s.subs| == |late| && Explains(s, checks) && !Stopped(checks)
    ensures Count(Counted(s.subs, late)) >= 2 <==> TwoFailAt(checks + [late], |checks|)
  {
    var counted, checks' := Counted(s.subs, late), checks + [late];
    CountTwo(counted);
    forall i: nat
      ensures FailsAt(checks', |checks|, i) <==> i < |late| && counted[i]
    {
      if i < |late| { CountedIsFailing(s, checks, late, i); }
    }
    hide FailsAt, Counted, CountsAsFailed, Explains, Stopped;
    if Count(counted) >= 2 {
      var a, b :| 0 <= a < b < |counted| && counted[a] && counted[b];
      assert FailsAt(checks', |checks|, a) && FailsAt(checks', |checks|, b);
    }
  }

  lemma CheckExplains(s: State, checks: seq<seq<bool>>, late: seq<bool>)
    requires |s.subs| == |late| && Explains(s, checks)
    ensures Explains(AfterCheck(s, late), checks + [late])
  {
    var checks' := checks + [late];
    StoppedSnoc(checks, late);
    hide Stopped, FailedBy, TwoFailAt, LateAt, Count;
    if !Stopped(checks) {
      TwoCounted(s, checks, late);
      LateNow(checks, late);
      forall i | 0 <= i < |late|
        ensures AfterCheck(s, late).subs[i].status == StatusOf(checks', i) && CounterFits(AfterCheck(s, late).subs[i])
      {
        CountedIsFailing(s, checks, late, i);
      }
    }
  }

  lemma LateNow(checks: seq<seq<bool>>, late: seq<bool>)
    ensures forall i :: 0 <= i < |late| ==> LateAt(checks + [late], |checks|, i) == late[i]
  {
  }

  /** After any number of checks every status, the health flag and the running flag are functions of
      the lateness history. */
  lemma {:induction false} StatusIsHistory(n: nat, checks: seq<seq<bool>>)
    requires ForSubsystems(checks, n)
    ensures Explains(Run(n, checks), checks)
  {
    hide AfterCheck, StatusOf;
    if checks == [] {
      InitialExplained(n);
    } else {
      var front := checks[..|checks| - 1];
      StatusIsHistory(n, front);
      CheckExplains(Run(n, front), front, checks[|checks| - 1]);
      assert checks == front + [checks[|checks| - 1]];
    }
  }

  lemma InitialExplained(n: nat)
    ensures Explains(Initial(n), [])
  {
  }

  /** The system is unhealthy exactly when there are subsystems and all of them are shut down. */
  lemma UnhealthyIffAllShutdown(n: nat, checks: seq<seq<bool>>)
    requires ForSubsystems(checks, n)
    ensures var s := Run(n, checks);
      !s.systemHealthy <==> s.subs != [] && forall i :: 0 <= i < |s.subs| ==> s.subs[i].status == Shutdown
  {
    StatusIsHistory(n, checks);
    var s := Run(n, checks);
    if Stopped(checks) {
      var k: nat :| k < |checks| && TwoFailAt(checks, k);
      var a, b :| 0 <= a < b && FailsAt(checks, k, a) && FailsAt(checks, k, b);
      assert LateAt(checks, k, a);
    } else if s.subs != [] {
      assert s.subs[0].status == StatusOf(checks, 0);
    }
  }

  /** A failed subsystem never becomes healthy again, however punctual it is afterwards. */
  lemma {:induction false} FailedNeverRecovers(n: nat, checks: seq<seq<bool>>, more: seq<seq<bool>>, i: nat)
    requires ForSubsystems(checks, n) && ForSubsystems(checks + more, n) && i < n
    requires Run(n, checks).subs[i].status in {Failed, Shutdown}
    ensures Run(n, checks + more).subs[i].status in {Failed, Shutdown}
    decreases |more|
  {
    StatusIsHistory(n, checks);
    StatusIsHistory(n, checks + more);
    if more == [] {
      assert checks + more == checks;
    } else {
      var front := more[..|more| - 1];
      assert (checks + more)[..|checks + more| - 1] == checks + front;
      StatusIsHistory(n, checks + front);
      FailedNeverRecovers(n, checks, front, i);
    }
  }

  // ---- The object ----

  class HealthMonitor {
    const deadlines: seq<int>
    const status: array<Status>
    const missed: array<nat>
    var systemHealthy: bool
    var running: bool

    ghost predicate Valid()
    {
      status.Length == missed.Length == |deadlines|
    }

    ghost function Value(): (s: State)
      requires Valid()
      reads this, status, missed
      ensures |s.subs| == |deadlines|
    {
      State(Subsystems(status[..], missed[..]), systemHealthy, running)
    }

    constructor (deadlines: seq<int>)
      ensures Valid() && this.deadlines == deadlines && Value() == Initial(|deadlines|).(running := false)
      ensures fresh(status) && fresh(missed)
    {
      this.deadlines, systemHealthy, running := deadlines, true, false;
      status := new Status[|deadlines|](_ => Healthy);
      missed := new nat[|deadlines|](_ => 0);
      new;
      assert Subsystems(status[..], missed[..]) == Initial(|deadlines|).subs;
    }

    method Start()
      requires Valid()
      modifies this
      ensures Value() == old(Value()).(running := true)
    {
      running := true;
    }

    method CheckAll(elapsed: seq<int>)
      requires Valid() && |elapsed| == |deadlines|
      modifies this, status, missed
      ensures Value() == AfterCheck(old(Value()), Late(elapsed, deadlines))
    {
      var failed := 0;
      ghost var late, subs := Late(elapsed, deadlines), Value().subs;
      ghost var after, counted := CheckSubsystems(subs, late), Counted(subs, late);
      for i := 0 to |deadlines|
        invariant systemHealthy == old(systemHealthy) && running == old(running)
        invariant forall j :: 0 <= j < i ==> Subsystem(status[j], missed[j]) == after[j]
        invariant forall j :: i <= j < |deadlines| ==> Subsystem(status[j], missed[j]) == subs[j]
        invariant failed == Count(counted[..i])
      {
        assert counted[..i + 1][..i] == counted[..i];
        var counts := CheckOne(i, elapsed[i]);
        if counts { failed := failed + 1; }
      }
      assert counted[..|deadlines|] == counted;
      assert Subsystems(status[..], missed[..]) == after;
      if failed >= 2 {
        systemHealthy := false;
        MarkShutdown();
        running := false;
      }
    }

    /** The body of the loop: is this subsystem counted as failed? */
    method CheckOne(i: nat, elapsed: int) returns (counts: bool)
      requires Valid() && i < |deadlines|
      modifies status, missed
      ensures var sub := old(Subsystem(status[i], missed[i]));
        && Subsystem(status[i], missed[i]) == CheckSubsystem(sub, elapsed > deadlines[i])
        && (counts <==> CountsAsFailed(sub, elapsed > deadlines[i]))
      ensures forall j :: 0 <= j < |deadlines| && j != i ==> status[j] == old(status[j]) && missed[j] == old(missed[j])
    {
      counts := false;
      if status[i] == Shutdown { return true; }
      if elapsed > deadlines[i] {
        missed[i] := missed[i] + 1;
        if missed[i] == 1 {
          status[i] := Warning;
        } else {
          status[i] := Failed;
          counts := true;
        }
      } else if missed[i] > 0 && status[i] != Failed {
        missed[i] := 0;
        status[i] := Healthy;
      }
    }

    /** Mark all as shutdown. */
    method MarkShutdown()
      requires Valid()
      modifies status
      ensures Value() == old(Value()).(subs := ShutDown(old(Value().subs)))
    {
      ghost var before := Value().subs;
      for i := 0 to |deadlines|
        invariant forall j :: 0 <= j < i ==> status[j] == Shutdown
      {
        status[i] := Shutdown;
      }
      assert Subsystems(status[..], missed[..]) == ShutDown(before);
    }
  }

  function Subsystems(status: seq<Status>, missed: seq<nat>): (s: seq<Subsystem>)
    requires |status| == |missed|
    ensures |s| == |status| && forall i :: 0 <= i < |s| ==> s[i] == Subsystem(status[i], missed[i])
  {
    seq(|status|, i requires 0 <= i < |status| => Subsystem(status[i], missed[i]))
  }
}
