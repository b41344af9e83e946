/** The 1 Hz health monitor and the software watchdog that share the system mode. */
module HealthMonitor {
  import opened Common
  import opened Lateness

  datatype Mode = Normal | Degraded | SafeMode | Shutdown

  datatype Subsystem = Subsystem(misses: nat, healthy: bool)

  datatype State = State(mode: Mode, subs: seq<Subsystem>)

  /** One call of HealthMonitor::check, with which subsystems are late, or of SoftwareWatchdog::check. */
  datatype Event = Check(late: seq<bool>) | Watchdog(expired: bool)

  function Initial(n: nat): State
  {
    State(Normal, seq(n, _ => Subsystem(0, true)))
  }

  // ---- The checks ----

  function CheckSubsystem(sub: Subsystem, late: bool): Subsystem
  {
    if late then Subsystem(sub.misses + 1, sub.healthy && sub.misses + 1 != 2) else Subsystem(0, true)
  }

  function CheckSubsystems(subs: seq<Subsystem>, late: seq<bool>): (r: seq<Subsystem>)
    requires |subs| == |late|
    ensures |r| == |subs| && forall i :: 0 <= i < |r| ==> r[i] == CheckSubsystem(subs[i], late[i])
  {
    seq(|subs|, i requires 0 <= i < |subs| => CheckSubsystem(subs[i], late[i]))
  }

  /** The subsystems counted as failed: late at this check and marked unhealthy. */
  function Unhealthy(subs: seq<Subsystem>, late: seq<bool>): (r: seq<bool>)
    requires |subs| == |late|
    ensures |r| == |subs| && forall i :: 0 <= i < |r| ==> (r[i] <==> late[i] && !subs[i].healthy)
  {
    seq(|subs|, i requires 0 <= i < |subs| => late[i] && !subs[i].healthy)
  }

  function NextMode(mode: Mode, unhealthy: nat): Mode
  {
    if unhealthy >= 2 then SafeMode
    else if unhealthy > 0 && mode == Normal then Degraded
    else if unhealthy == 0 && mode == Degraded then Normal
    else mode
  }

  function CheckState(s: State, late: seq<bool>): State
    requires |s.subs| == |late|
  {
    if s.mode == SafeMode || s.mode == Shutdown then s
    else
      var subs := CheckSubsystems(s.subs, late);
      State(NextMode(s.mode, Count(Unhealthy(subs, late))), subs)
  }

  function WatchdogState(s: State, expired: bool): State
  {
    if expired then s.(mode := SafeMode) else s
  }

  ghost predicate ForSubsystems(events: seq<Event>, n: nat)
  {
    forall i :: 0 <= i < |events| && events[i].Check? ==> |events[i].late| == n
  }

  ghost function Run(n: nat, events: seq<Event>): (s: State)
    requires ForSubsystems(events, n)
    ensures |s.subs| == n
  {
    if events == [] then Initial(n)
    else
      var s := Run(n, events[..|events| - 1]);
      match events[|events| - 1]
      case Check(late) => CheckState(s, late)
      case Watchdog(expired) => WatchdogState(s, expired)
  }

  // ---- The mode as a function of history ----

  /** The lateness seen by each health check, in order. */
  function Checks(events: seq<Event>): seq<seq<bool>>
  {
    if events == [] then []
    else Checks(events[..|events| - 1]) + if events[|events| - 1].Check? then [events[|events| - 1].late] else []
  }

  ghost predicate Expired(events: seq<Event>)
  {
    exists i :: 0 <= i < |events| && events[i] == Watchdog(true)
  }

  /** Subsystems late at check `k` and at the one before. */
  function LateTwice(checks: seq<seq<bool>>, k: nat): seq<bool>
    requires k < |checks|
  {
    seq(|checks[k]|, i requires 0 <= i < |checks[k]| =>
      k > 0 && i < |checks[k - 1]| && checks[k - 1][i] && checks[k][i])
  }

  ghost predicate MultipleFailures(checks: seq<seq<bool>>)
  {
    exists k :: 0 <= k < |checks| && Count(LateTwice(checks, k)) >= 2
  }

  ghost function ModeOf(events: seq<Event>): Mode
  {
    var checks := Checks(events);
    if Expired(events) || MultipleFailures(checks) then SafeMode
    else if checks != [] && Count(LateTwice(checks, |checks| - 1)) == 1 then Degraded
    else Normal
  }

  ghost predicate Remembers(s: State, checks: seq<seq<bool>>)
  {
    forall i :: 0 <= i < |s.subs| ==>
      && (s.subs[i].healthy <==> s.subs[i].misses < 2)
      && (s.subs[i].misses >= 1 <==> checks != [] && LateAt(checks, |checks| - 1, i))
      && (s.subs[i].misses >= 2 <==>
            |checks| >= 2 && LateAt(checks, |checks| - 1, i) && LateAt(checks, |checks| - 2, i))
  }

  lemma {:induction false} ChecksLength(events: seq<Event>, n: nat)
    requires ForSubsystems(events, n)
    ensures forall k :: 0 <= k < |Checks(events)| ==> |Checks(events)[k]| == n
  {
    if events != [] { ChecksLength(events[..|events| - 1], n); }
  }

  lemma LateTwiceStays(checks: seq<seq<bool>>, late: seq<bool>, k: nat)
    requires k < |checks|
    ensures LateTwice(checks + [late], k) == LateTwice(checks, k)
  {
  }

  /** A check marks exactly the subsystems that were late at it and at the one before. */
  lemma CheckRemembers(s: State, checks: seq<seq<bool>>, late: seq<bool>)
    requires |s.subs| == |late| && Remembers(s, checks)
    requires forall k :: 0 <= k < |checks| ==> |checks[k]| == |late|
    ensures var subs := CheckSubsystems(s.subs, late);
      && Remembers(State(s.mode, subs), checks + [late])
      && Unhealthy(subs, late) == LateTwice(checks + [late], |checks|)
  {
    var subs, checks' := CheckSubsystems(s.subs, late), checks + [late];
    forall i | 0 <= i < |subs|
      ensures LateAt(checks', |checks|, i) == late[i]
      ensures |checks| >= 1 ==> LateAt(checks', |checks| - 1, i) == LateAt(checks, |checks| - 1, i)
    {
    }
  }

  /** After any checks and watchdog checks: safe mode if and only if the watchdog has expired or at
      some check two subsystems were late for the second time running; otherwise degraded if and
      only if exactly one is so now. */
  lemma {:induction false} ModeIsHistory(n: nat, events: seq<Event>)
    requires ForSubsystems(events, n)
    ensures Run(n, events).mode == ModeOf(events)
    ensures ModeOf(events) != SafeMode ==> Remembers(Run(n, events), Checks(events))
  {
    if events != [] {
      var before, e := events[..|events| - 1], events[|events| - 1];
      assert events == before + [e];
      ModeIsHistory(n, before);
      ExpiredSnoc(before, e);
      match e
      case Watchdog(expired) => assert Checks(events) == Checks(before) + [] == Checks(before);
      case Check(late) =>
        ChecksLength(before, n);
        CheckMode(Run(n, before), before, late);
    }
  }

  lemma ExpiredSnoc(before: seq<Event>, e: Event)
    ensures Expired(before + [e]) <==> Expired(before) || e == Watchdog(true)
  {
    var events := before + [e];
    assert events[|before|] == e;
    if i :| 0 <= i < |before| && before[i] == Watchdog(true) { assert events[i] == Watchdog(true); }
  }

  lemma FailuresSnoc(checks: seq<seq<bool>>, late: seq<bool>)
    ensures MultipleFailures(checks + [late]) <==>
      MultipleFailures(checks) || Count(LateTwice(checks + [late], |checks|)) >= 2
  {
    if MultipleFailures(checks) {
      var k :| 0 <= k < |checks| && Count(LateTwice(checks, k)) >= 2;
      LateTwiceStays(checks, late, k);
      assert Count(LateTwice(checks + [late], k)) >= 2;
    }
    if MultipleFailures(checks + [late]) {
      var k :| 0 <= k < |checks + [late]| && Count(LateTwice(checks + [late], k)) >= 2;
      if k < |checks| { LateTwiceStays(checks, late, k); }
    }
  }

  lemma CheckMode(s: State, before: seq<Event>, late: seq<bool>)
    requires |s.subs| == |late| && s.mode == ModeOf(before)
    requires ModeOf(before) != SafeMode ==> Remembers(s, Checks(before))
    requires forall k :: 0 <= k < |Checks(before)| ==> |Checks(before)[k]| == |late|
    ensures var events := before + [Check(late)];
      && CheckState(s, late).mode == ModeOf(events)
      && (ModeOf(events) != SafeMode ==> Remembers(CheckState(s, late), Checks(events)))
  {
    var events, checks := before + [Check(late)], Checks(before);
    hide LateTwice, Count, MultipleFailures, Expired;
    assert events[..|before|] == before;
    assert Checks(events) == checks + [late];
    ExpiredSnoc(before, Check(late));
    FailuresSnoc(checks, late);
    if ModeOf(before) != SafeMode { CheckRemembers(s, checks, late); }
  }

  /** Safe mode is never left: neither a check nor the watchdog clears it. */
  lemma {:induction false} SafeModeLatches(n: nat, events: seq<Event>, more: seq<Event>)
    requires ForSubsystems(events + more, n) && ForSubsystems(events, n)
    requires Run(n, events).mode == SafeMode
    ensures Run(n, events + more).mode == SafeMode
    decreases |more|
  {
    if more == [] {
      assert events + more == events;
    } else {
      var front := more[..|more| - 1];
      assert (events + more)[..|events + more| - 1] == events + front;
      SafeModeLatches(n, events, front);
    }
  }

  // ---- The objects ----

  class SystemState {
    var mode: Mode

    constructor ()
      ensures mode == Normal
    {
      mode := Normal;
    }
  }

  /** The monitor's loop over the subsystems; their fields are kept in two arrays. */
  class Monitor {
    const state: SystemState
    const deadlines: seq<int>
    const misses: array<nat>
    const healthy: array<bool>

    ghost predicate Valid()
    {
      misses.Length == healthy.Length == |deadlines|
    }

    ghost function Value(): (s: State)
      requires Valid()
      reads state, misses, healthy
      ensures |s.subs| == |deadlines|
    {
      State(state.mode, Subsystems(misses[..], healthy[..]))
    }

    constructor (state: SystemState, deadlines: seq<int>)
      ensures Valid() && this.state == state && this.deadlines == deadlines
      ensures Value() == State(state.mode, Initial(|deadlines|).subs) && fresh(misses) && fresh(healthy)
    {
      this.state, this.deadlines := state, deadlines;
      misses := new nat[|deadlines|](_ => 0);
      healthy := new bool[|deadlines|](_ => true);
      new;
      assert Subsystems(misses[..], healthy[..]) == Initial(|deadlines|).subs;
    }

    /** The body of the loop: is this subsystem counted as failed? */
    method CheckOne(i: nat, elapsed: int) returns (failed: bool)
      requires Valid() && i < |deadlines|
      modifies misses, healthy
      ensures var sub := old(Subsystem(misses[i], healthy[i])); var late := elapsed > deadlines[i];
        && Subsystem(misses[i], healthy[i]) == CheckSubsystem(sub, late)
        && (failed <==> late && !CheckSubsystem(sub, late).healthy)
      ensures forall j :: 0 <= j < |deadlines| && j != i ==>
        misses[j] == old(misses[j]) && healthy[j] == old(healthy[j])
    {
      failed := false;
      if elapsed > deadlines[i] {
        misses[i] := misses[i] + 1;
        if misses[i] == 2 { healthy[i] := false; }
        failed := !healthy[i];
      } else {
        misses[i] := 0;
        healthy[i] := true;
      }
    }

    /** `elapsed[i]` is the time since the last heartbeat of subsystem i. */
    method Check(elapsed: seq<int>)
      requires Valid() && |elapsed| == |deadlines|
      modifies state, misses, healthy
      ensures Value() == CheckState(old(Value()), Late(elapsed, deadlines))
    {
      if state.mode == SafeMode || state.mode == Shutdown { return; }
      var unhealthy := 0;
      ghost var late, subs := Late(elapsed, deadlines), Value().subs;
      ghost var after := CheckSubsystems(subs, late);
      for i := 0 to |deadlines|
        invariant state.mode == old(state.mode)
        invariant forall j :: 0 <= j < i ==> Subsystem(misses[j], healthy[j]) == after[j]
        invariant forall j :: i <= j < |deadlines| ==> Subsystem(misses[j], healthy[j]) == subs[j]
        invariant unhealthy == Count(Unhealthy(after, late)[..i])
      {
        var failed := CheckOne(i, elapsed[i]);
        if failed { unhealthy := unhealthy + 1; }
        assert Unhealthy(after, late)[..i + 1][..i] == Unhealthy(after, late)[..i];
      }
      assert Unhealthy(after, late)[..|deadlines|] == Unhealthy(after, late);
      var current := state.mode;
      if unhealthy > 0 && current == Normal {
        state.mode := Degraded;
      } else if unhealthy == 0 && current == Degraded {
        state.mode := Normal;
      }
      if unhealthy >= 2 { state.mode := SafeMode; }
      assert Subsystems(misses[..], healthy[..]) == after;
    }
  }

  function Subsystems(misses: seq<nat>, healthy: seq<bool>): (s: seq<Subsystem>)
    requires |misses| == |healthy|
    ensures |s| == |misses| && forall i :: 0 <= i < |s| ==> s[i] == Subsystem(misses[i], healthy[i])
  {
    seq(|misses|, i requires 0 <= i < |misses| => Subsystem(misses[i], healthy[i]))
  }

  class SoftwareWatchdog {
    const state: SystemState
    const timeout: int
    var lastPet: int

    constructor (state: SystemState, timeout: int, now: int)
      requires 0 < timeout <= 5000
      ensures this.state == state && this.timeout == timeout && lastPet == now
    {
      this.state, this.timeout, lastPet := state, timeout, now;
    }

    method Pet(now: int)
      modifies this
      ensures lastPet == now
    {
      lastPet := now;
    }

    method Check(now: int)
      modifies state
      ensures state.mode == if now - lastPet > timeout then SafeMode else old(state.mode)
    {
      if now - lastPet > timeout && state.mode != SafeMode { state.mode := SafeMode; }
    }
  }
}
