/** The round-robin scheduler of cooperative coroutines. A task is known by the number of yields it
    still has to make; `log` is the order in which `Run` resumes the handles. */
module Scheduler {
  import opened Common

  datatype Task = Suspended(remaining: nat) | Done

  function Left(tasks: seq<Task>, h: nat): nat
  {
    if h < |tasks| && tasks[h].Suspended? then tasks[h].remaining else 0
  }

  // ---- The schedule, round by round ----

  /** Round `r`: the tasks with at least `r` yields to make, in queue order. */
  function Round(queue: seq<nat>, tasks: seq<Task>, r: nat): seq<nat>
  {
    if queue == [] then []
    else
      var (front, h) := (queue[..|queue| - 1], queue[|queue| - 1]);
      Round(front, tasks, r) + if Left(tasks, h) >= r then [h] else []
  }

  function Schedule(queue: seq<nat>, tasks: seq<Task>, rounds: nat): seq<nat>
  {
    if rounds == 0 then []
    else Schedule(queue, tasks, rounds - 1) + Round(queue, tasks, rounds - 1)
  }

  function TotalResumes(queue: seq<nat>, tasks: seq<Task>): nat
  {
    if queue == [] then 0
    else TotalResumes(queue[..|queue| - 1], tasks) + Left(tasks, queue[|queue| - 1]) + 1
  }

  /** Rounds until the longest task has finished. */
  function Rounds(queue: seq<nat>, tasks: seq<Task>): nat
  {
    if queue == [] then 0
    else Max(Rounds(queue[..|queue| - 1], tasks), Left(tasks, queue[|queue| - 1]) + 1)
  }

  lemma {:induction false} RoundMembers(queue: seq<nat>, tasks: seq<Task>, r: nat)
    ensures forall h :: h in Round(queue, tasks, r) <==> h in queue && Left(tasks, h) >= r
  {
    if queue != [] {
      RoundMembers(queue[..|queue| - 1], tasks, r);
      assert queue == queue[..|queue| - 1] + [queue[|queue| - 1]];
    }
  }

  lemma {:induction false} RoundDistinct(queue: seq<nat>, tasks: seq<Task>, r: nat)
    requires Distinct(queue)
    ensures Distinct(Round(queue, tasks, r))
  {
    if queue != [] {
      RoundDistinct(queue[..|queue| - 1], tasks, r);
      RoundMembers(queue[..|queue| - 1], tasks, r);
    }
  }

  lemma {:induction false} RoundNarrows(queue: seq<nat>, tasks: seq<Task>, r: nat)
    ensures Round(Round(queue, tasks, r), tasks, r + 1) == Round(queue, tasks, r + 1)
  {
    if queue != [] {
      var front, h := queue[..|queue| - 1], queue[|queue| - 1];
      RoundNarrows(front, tasks, r);
      var now := Round(front, tasks, r);
      assert (now + [h])[..|now|] == now;
      assert now + [] == now;
    }
  }

  lemma RoundOfPrefix(queue: seq<nat>, tasks: seq<Task>, r: nat, k: nat)
    requires k < |queue|
    ensures Round(queue[..k + 1], tasks, r)
         == Round(queue[..k], tasks, r) + if Left(tasks, queue[k]) >= r then [queue[k]] else []
  {
    assert queue[..k + 1][..k] == queue[..k];
  }

  lemma EmptyStays(queue: seq<nat>, tasks: seq<Task>, r: nat, later: nat)
    requires r <= later && Round(queue, tasks, r) == []
    ensures Round(queue, tasks, later) == []
  {
    hide Round;
    var last := Round(queue, tasks, later);
    assert |last| > 0 ==> last[0] in last;
    RoundMembers(queue, tasks, r);
    RoundMembers(queue, tasks, later);
  }

  /** Once a round is empty the schedule is complete. */
  lemma {:induction false} ScheduleStable(queue: seq<nat>, tasks: seq<Task>, r: nat, rounds: nat)
    requires r <= rounds && Round(queue, tasks, r) == []
    ensures Schedule(queue, tasks, rounds) == Schedule(queue, tasks, r)
  {
    if r < rounds {
      ScheduleStable(queue, tasks, r, rounds - 1);
      EmptyStays(queue, tasks, r, rounds - 1);
    }
  }

  lemma {:induction false} RoundsSuffice(queue: seq<nat>, tasks: seq<Task>, rounds: nat)
    ensures Round(queue, tasks, rounds) == [] <==> Rounds(queue, tasks) <= rounds
  {
    if queue != [] { RoundsSuffice(queue[..|queue| - 1], tasks, rounds); }
  }

  lemma ScheduleComplete(queue: seq<nat>, tasks: seq<Task>, rounds: nat)
    requires Round(queue, tasks, rounds) == []
    ensures Schedule(queue, tasks, rounds) == Schedule(queue, tasks, Rounds(queue, tasks))
  {
    RoundsSuffice(queue, tasks, rounds);
    RoundsSuffice(queue, tasks, Rounds(queue, tasks));
    ScheduleStable(queue, tasks, Rounds(queue, tasks), rounds);
  }

  lemma {:induction false} RoundOccurrences(queue: seq<nat>, tasks: seq<Task>, r: nat, h: nat)
    requires Distinct(queue)
    ensures multiset(Round(queue, tasks, r))[h] == if h in queue && Left(tasks, h) >= r then 1 else 0
  {
    if queue != [] {
      RoundOccurrences(queue[..|queue| - 1], tasks, r, h);
      assert queue == queue[..|queue| - 1] + [queue[|queue| - 1]];
    }
  }

  /** A task with n yields is resumed exactly n + 1 times, whatever the other tasks do. */
  lemma {:induction false} ResumedOncePerYield(queue: seq<nat>, tasks: seq<Task>, rounds: nat, h: nat)
    requires Distinct(queue) && h in queue
    ensures multiset(Schedule(queue, tasks, rounds))[h] == Min(rounds, Left(tasks, h) + 1)
    ensures rounds >= Rounds(queue, tasks) ==> multiset(Schedule(queue, tasks, rounds))[h] == Left(tasks, h) + 1
  {
    hide Round, Left;
    if rounds > 0 {
      ResumedOncePerYield(queue, tasks, rounds - 1, h);
      RoundOccurrences(queue, tasks, rounds - 1, h);
    }
    RoundMembers(queue, tasks, rounds);
    RoundsSuffice(queue, tasks, rounds);
  }

  lemma {:induction false} ScheduleLength(queue: seq<nat>, tasks: seq<Task>, rounds: nat)
    ensures queue == [] ==> Schedule(queue, tasks, rounds) == []
    ensures queue != [] ==>
      var front := queue[..|queue| - 1];
      |Schedule(queue, tasks, rounds)|
        == |Schedule(front, tasks, rounds)| + Min(rounds, Left(tasks, queue[|queue| - 1]) + 1)
    decreases rounds
  {
    if rounds > 0 { ScheduleLength(queue, tasks, rounds - 1); }
  }

  /** A complete schedule makes the sum of n_i + 1 resumes. */
  lemma {:induction false} ScheduleTotal(queue: seq<nat>, tasks: seq<Task>, rounds: nat)
    requires Round(queue, tasks, rounds) == []
    ensures |Schedule(queue, tasks, rounds)| == TotalResumes(queue, tasks)
    decreases |queue|
  {
    ScheduleLength(queue, tasks, rounds);
    if queue != [] {
      RoundMembers(queue, tasks, rounds);
      assert queue[|queue| - 1] in queue;
      ScheduleTotal(queue[..|queue| - 1], tasks, rounds);
    }
  }

  /** Between two resumes of a task, every other unfinished task gets a turn: whenever `h` is
      resumed for the (m+1)-th time, a task with at least m yields has been resumed m or m+1 times. */
  lemma {:induction false} Fair(queue: seq<nat>, tasks: seq<Task>, r: nat, k: nat, h: nat, g: nat)
    requires Distinct(queue) && k < |Round(queue, tasks, r)| && Round(queue, tasks, r)[k] == h
    requires g in queue && Left(tasks, g) >= r
    ensures var before := Schedule(queue, tasks, r) + Round(queue, tasks, r)[..k];
      multiset(before)[h] == r && r <= multiset(before)[g] <= r + 1
  {
    var now := Round(queue, tasks, r);
    RoundMembers(queue, tasks, r);
    RoundDistinct(queue, tasks, r);
    assert h in now;
    ResumedOncePerYield(queue, tasks, r, h);
    ResumedOncePerYield(queue, tasks, r, g);
    PrefixOccurrences(now, k, h);
    PrefixOccurrences(now, k, g);
  }

  lemma {:induction false} PrefixOccurrences(s: seq<nat>, k: nat, h: nat)
    requires Distinct(s) && k <= |s|
    ensures multiset(s[..k])[h] == if h in s[..k] then 1 else 0
    ensures k < |s| ==> s[k] !in s[..k]
  {
    if k > 0 {
      PrefixOccurrences(s, k - 1, h);
      assert s[..k] == s[..k - 1] + [s[k - 1]];
    }
  }

  // ---- The scheduler ----

  /** Task `h` with `turns` of its resumes behind it. */
  function After(task: Task, turns: nat): Task
  {
    if task.Suspended? && turns > 0
    then if task.remaining < turns then Done else Suspended(task.remaining - turns)
    else task
  }

  function Work(tasks: seq<Task>): nat
  {
    if tasks == [] then 0
    else (match tasks[0] case Suspended(n) => n + 1 case Done => 0) + Work(tasks[1..])
  }

  lemma {:induction false} WorkShrinks(tasks: seq<Task>, h: nat)
    requires h < |tasks| && tasks[h].Suspended?
    ensures Work(tasks[h := After(tasks[h], 1)]) == Work(tasks) - 1
  {
    var tasks' := tasks[h := After(tasks[h], 1)];
    if h == 0 {
      assert tasks'[1..] == tasks[1..];
    } else {
      WorkShrinks(tasks[1..], h - 1);
      assert tasks'[1..] == tasks[1..][h - 1 := After(tasks[h], 1)];
    }
  }

  class Scheduler {
    var tasks: seq<Task>
    var runQueue: seq<nat>

    /** Every queued handle is a distinct suspended task, and no suspended task is left out. */
    ghost predicate Valid()
      reads this
    {
      && Distinct(runQueue)
      && (forall h :: h in runQueue <==> 0 <= h < |tasks| && tasks[h].Suspended?)
    }

    constructor ()
      ensures Valid() && tasks == [] && runQueue == []
    {
      tasks, runQueue := [], [];
    }

    method Spawn(remaining: nat) returns (h: nat)
      requires Valid()
      modifies this
      ensures Valid() && h == |old(tasks)|
      ensures tasks == old(tasks) + [Suspended(remaining)] && runQueue == old(runQueue) + [h]
    {
      h := |tasks|;
      assert h !in runQueue;
      tasks := tasks + [Suspended(remaining)];
      runQueue := runQueue + [h];
    }

    /** Run to the next yield, which enqueues the handle again, or to completion. */
    method Resume(h: nat)
      requires h < |tasks| && tasks[h].Suspended?
      modifies this
      ensures tasks == old(tasks)[h := After(old(tasks)[h], 1)]
      ensures runQueue == old(runQueue) + if old(tasks)[h].remaining > 0 then [h] else []
    {
      if tasks[h].remaining > 0 {
        tasks := tasks[h := Suspended(tasks[h].remaining - 1)];
        runQueue := runQueue + [h];
      } else {
        tasks := tasks[h := Done];
      }
    }

    /** The run loop resumes the handles in exactly the order of the round-by-round schedule,
        ends with every task done, and counts the sum of n_i + 1 iterations. */
    method Run() returns (log: seq<nat>, iteration: nat)
      requires Valid()
      modifies this
      ensures Valid() && runQueue == [] && |tasks| == |old(tasks)| && forall h :: 0 <= h < |tasks| ==> tasks[h] == Done
      ensures log == Schedule(old(runQueue), old(tasks), Rounds(old(runQueue), old(tasks)))
      ensures iteration == |log| == TotalResumes(old(runQueue), old(tasks))
    {
      hide Round, Schedule, Rounds, Progress, TotalResumes, Work;
      ghost var q, t := runQueue, tasks;
      log, iteration := [], 0;
      ghost var r, k := 0, 0;
      FirstRound(q, t);
      while runQueue != []
        invariant |tasks| == |t| && iteration == |log|
        invariant Progress(q, t, r, k, tasks, runQueue, log)
        decreases Work(tasks)
      {
        if k == |Round(q, t, r)| {
          NextRound(q, t, r, tasks, runQueue, log);
          r, k := r + 1, 0;
        }
        ghost var tasks0, queue0, log0 := tasks, runQueue, log;
        ProgressNext(q, t, r, k, tasks, runQueue, log);
        var handle := runQueue[0];
        runQueue := runQueue[1..];
        if tasks[handle] != Done {
          iteration := iteration + 1;
          log := log + [handle];
          WorkShrinks(tasks, handle);
          Resume(handle);
        }
        ProgressStep(q, t, r, k, tasks0, queue0, log0);
        k := k + 1;
      }
      RunComplete(q, t, r, k, tasks, log);
    }
  }

  /** `k` resumes into round `r`. */
  ghost predicate Progress(q: seq<nat>, t: seq<Task>, r: nat, k: nat, tasks: seq<Task>, queue: seq<nat>, log: seq<nat>)
  {
    var now := Round(q, t, r);
    && Distinct(q) && (forall h :: h in q <==> 0 <= h < |t| && t[h].Suspended?)
    && k <= |now| && |tasks| == |t|
    && queue == now[k..] + Round(now[..k], t, r + 1)
    && log == Schedule(q, t, r) + now[..k]
    && (forall h :: 0 <= h < |t| ==> tasks[h] == After(t[h], if h in now[..k] then r + 1 else r))
  }

  lemma FirstRound(q: seq<nat>, t: seq<Task>)
    requires Distinct(q) && forall h :: h in q <==> 0 <= h < |t| && t[h].Suspended?
    ensures Progress(q, t, 0, 0, t, q, [])
  {
    EveryoneInRoundZero(q, t);
  }

  lemma {:induction false} EveryoneInRoundZero(q: seq<nat>, t: seq<Task>)
    ensures Round(q, t, 0) == q
  {
    if q != [] { EveryoneInRoundZero(q[..|q| - 1], t); }
  }

  lemma NobodyInEmptyQueue(t: seq<Task>, r: nat)
    ensures Round([], t, r) == []
  {
  }

  lemma NextRound(q: seq<nat>, t: seq<Task>, r: nat, tasks: seq<Task>, queue: seq<nat>, log: seq<nat>)
    requires Progress(q, t, r, |Round(q, t, r)|, tasks, queue, log)
    ensures Progress(q, t, r + 1, 0, tasks, queue, log)
  {
    hide Round, Schedule, After;
    RoundNarrows(q, t, r);
    var now, next := Round(q, t, r), Round(q, t, r + 1);
    assert now[..|now|] == now && now[|now|..] == [] && next[..0] == [] && next[0..] == next;
    NobodyInEmptyQueue(t, r + 2);
    assert log == Schedule(q, t, r + 1) + next[..0] by {
      assert Schedule(q, t, r + 1) == Schedule(q, t, r) + now by { ScheduleStep(q, t, r); }
    }
    forall h | 0 <= h < |t|
      ensures tasks[h] == After(t[h], r + 1)
    {
      OneTurn(q, t, r, h);
    }
  }

  lemma ScheduleStep(q: seq<nat>, t: seq<Task>, r: nat)
    ensures Schedule(q, t, r + 1) == Schedule(q, t, r) + Round(q, t, r)
  {
  }

  /** Outside round `r` a task is finished already. */
  lemma OneTurn(q: seq<nat>, t: seq<Task>, r: nat, h: nat)
    requires h < |t| && (h in q <==> t[h].Suspended?)
    ensures h !in Round(q, t, r) ==> After(t[h], r) == After(t[h], r + 1)
  {
    hide Round;
    RoundMembers(q, t, r);
  }

  lemma NothingQueued(now: seq<nat>, t: seq<Task>, r: nat)
    ensures now == [] ==> now[0..] + Round(now[..0], t, r) == []
  {
  }

  lemma ProgressNext(q: seq<nat>, t: seq<Task>, r: nat, k: nat, tasks: seq<Task>, queue: seq<nat>, log: seq<nat>)
    requires Progress(q, t, r, k, tasks, queue, log) && queue != []
    requires k == |Round(q, t, r)| ==> k == 0
    ensures var now := Round(q, t, r);
      && k < |now| && queue[0] == now[k] && queue[1..] == now[k + 1..] + Round(now[..k], t, r + 1)
      && queue[0] < |t| && Left(t, queue[0]) >= r && tasks[queue[0]] == Suspended(Left(t, queue[0]) - r)
  {
    var now := Round(q, t, r);
    NothingQueued(now, t, r + 1);
    RoundMembers(q, t, r);
    RoundDistinct(q, t, r);
    assert now[k] in now && now[k] !in now[..k];
  }

  lemma ProgressStep(q: seq<nat>, t: seq<Task>, r: nat, k: nat, tasks: seq<Task>, queue: seq<nat>, log: seq<nat>)
    requires Progress(q, t, r, k, tasks, queue, log) && k < |Round(q, t, r)| && queue != []
    requires queue[0] < |t| && Left(t, queue[0]) >= r && tasks[queue[0]] == Suspended(Left(t, queue[0]) - r)
    ensures var h := queue[0];
      Progress(q, t, r, k + 1, tasks[h := After(tasks[h], 1)],
               queue[1..] + if tasks[h].remaining > 0 then [h] else [], log + [h])
  {
    hide Round, Schedule;
    var now, h := Round(q, t, r), queue[0];
    assert h == now[k] && now[..k + 1] == now[..k] + [h];
    ProgressQueue(now, t, r, k, h);
    RoundDistinct(q, t, r);
    RoundMembers(q, t, r);
    assert h in now && h in q;
    var tasks' := tasks[h := After(tasks[h], 1)];
    forall g | 0 <= g < |t|
      ensures tasks'[g] == After(t[g], if g in now[..k + 1] then r + 1 else r)
    {
      assert h !in now[..k];
      assert g in now[..k + 1] <==> g in now[..k] || g == h;
    }
  }

  lemma ProgressQueue(now: seq<nat>, t: seq<Task>, r: nat, k: nat, h: nat)
    requires k < |now| && now[k] == h && Left(t, h) >= r
    ensures var queue := now[k..] + Round(now[..k], t, r + 1);
      queue[1..] + (if Left(t, h) > r then [h] else []) == now[k + 1..] + Round(now[..k + 1], t, r + 1)
  {
    hide Round;
    RoundOfPrefix(now, t, r + 1, k);
    var later := Round(now[..k], t, r + 1);
    assert (now[k..] + later)[1..] == now[k + 1..] + later;
  }

  lemma RunComplete(q: seq<nat>, t: seq<Task>, r: nat, k: nat, tasks: seq<Task>, log: seq<nat>)
    requires Progress(q, t, r, k, tasks, [], log)
    ensures forall h :: 0 <= h < |tasks| ==> tasks[h] == Done
    ensures log == Schedule(q, t, Rounds(q, t))
    ensures |log| == TotalResumes(q, t)
  {
    hide Schedule, Round;
    var now := Round(q, t, r);
    assert now[k..] == [] && now[..k] == now;
    NextRound(q, t, r, tasks, [], log);
    ScheduleComplete(q, t, r + 1);
    ScheduleTotal(q, t, r + 1);
    AllDone(q, t, r + 1, tasks, log);
  }

  lemma AllDone(q: seq<nat>, t: seq<Task>, r: nat, tasks: seq<Task>, log: seq<nat>)
    requires Progress(q, t, r, 0, tasks, [], log) && Round(q, t, r) == []
    ensures forall h :: 0 <= h < |tasks| ==> tasks[h] == Done
  {
    hide Schedule, Round;
    RoundMembers(q, t, r);
    forall h | 0 <= h < |tasks|
      ensures tasks[h] == Done
    {
      if t[h].Suspended? { assert h in q && h !in Round(q, t, r); }
    }
  }
}
