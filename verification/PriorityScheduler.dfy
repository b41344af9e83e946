/** The priority scheduler: a task is resumed at the priority it was queued with, and ties are broken
    in any way the heap likes. */
module PriorityScheduler {

  type Priority = p: int | 0 <= p <= 2      // 0 is HIGH, 2 is LOW

  /** The priorities a task will yield at. */
  datatype Task = Suspended(pending: seq<Priority>) | Done

  datatype Entry = Entry(priority: Priority, handle: nat)

  /** The priorities at which `h` was resumed, in order. */
  function Resumes(log: seq<Entry>, h: nat): seq<Priority>
  {
    if log == [] then []
    else
      var (front, e) := (log[..|log| - 1], log[|log| - 1]);
      Resumes(front, h) + if e.handle == h then [e.priority] else []
  }

  ghost predicate Ordered(s: seq<Priority>)
  {
    forall i, j :: 0 <= i < j < |s| ==> s[i] <= s[j]
  }

  /** No entry runs before a more urgent one that is still to come. */
  ghost predicate UrgentFirst(log: seq<Entry>)
  {
    forall i, j :: 0 <= i < j < |log| ==> log[i].priority <= log[j].priority
  }

  /** What task `e.handle` of the queue goes through: the queued priority, then its yields. */
  function Plan(tasks: seq<Task>, e: Entry): seq<Priority>
  {
    [e.priority] + if e.handle < |tasks| && tasks[e.handle].Suspended? then tasks[e.handle].pending else []
  }

  ghost predicate NoneLeftOut(tasks: seq<Task>, queue: seq<Entry>)
  {
    forall h :: 0 <= h < |tasks| && tasks[h].Suspended? ==> exists i :: 0 <= i < |queue| && queue[i].handle == h
  }

  /** The queue holds each suspended task once and nothing else. */
  ghost predicate Queued(tasks: seq<Task>, queue: seq<Entry>)
  {
    && (forall i, j :: 0 <= i < j < |queue| ==> queue[i].handle != queue[j].handle)
    && (forall i :: 0 <= i < |queue| ==> queue[i].handle < |tasks| && tasks[queue[i].handle].Suspended?)
    && NoneLeftOut(tasks, queue)
  }

  ghost predicate AllDone(tasks: seq<Task>)
  {
    forall h :: 0 <= h < |tasks| ==> tasks[h] == Done
  }

  /** Each task was resumed at the priorities of its plan, in order, and no more. */
  ghost predicate Follows(log: seq<Entry>, t: seq<Task>, q: seq<Entry>)
  {
    forall i :: 0 <= i < |q| ==> Resumes(log, q[i].handle) == Plan(t, q[i])
  }

  /** Resume `i` was at least as urgent as the next one of the task `h`, whose plan is `plan`. */
  ghost predicate NoneMoreUrgent(log: seq<Entry>, i: nat, h: nat, plan: seq<Priority>)
  {
    i < |log| ==>
      var n := |Resumes(log[..i], h)|;
      n < |plan| ==> log[i].priority <= plan[n]
  }

  /** Every resume, whatever the plans, serves a most urgent of the unfinished tasks. */
  ghost predicate AlwaysTop(log: seq<Entry>, t: seq<Task>, q: seq<Entry>)
  {
    forall i: nat, j :: 0 <= j < |q| ==> NoneMoreUrgent(log, i, q[j].handle, Plan(t, q[j]))
  }

  ghost predicate AllOrdered(t: seq<Task>, q: seq<Entry>)
  {
    forall i :: 0 <= i < |q| ==> Ordered(Plan(t, q[i]))
  }

  function Work(tasks: seq<Task>): nat
  {
    if tasks == [] then 0
    else (match tasks[0] case Suspended(p) => |p| + 1 case Done => 0) + Work(tasks[1..])
  }

  function Advance(task: Task): Task
  {
    if task.Done? || task.pending == [] then Done else Suspended(task.pending[1..])
  }

  lemma {:induction false} WorkShrinks(tasks: seq<Task>, h: nat)
    requires h < |tasks| && tasks[h].Suspended?
    ensures Work(tasks[h := Advance(tasks[h])]) == Work(tasks) - 1
  {
    var tasks' := tasks[h := Advance(tasks[h])];
    if h == 0 {
      assert tasks'[1..] == tasks[1..];
    } else {
      WorkShrinks(tasks[1..], h - 1);
      assert tasks'[1..] == tasks[1..][h - 1 := Advance(tasks[h])];
    }
  }

  /** Entry `k` may be the heap's top. */
  predicate MostUrgent(queue: seq<Entry>, k: nat)
    requires k < |queue|
  {
    forall j :: 0 <= j < |queue| ==> queue[k].priority <= queue[j].priority
  }

  lemma {:induction false} HeapHasTop(queue: seq<Entry>) returns (k: nat)
    requires queue != []
    ensures k < |queue| && MostUrgent(queue, k)
  {
    if |queue| == 1 {
      k := 0;
    } else {
      k := HeapHasTop(queue[..|queue| - 1]);
      if queue[|queue| - 1].priority < queue[k].priority { k := |queue| - 1; }
    }
  }

  /** `queue` without entry `k`, and with the resumed task's next yield if it makes one. */
  function Requeue(tasks: seq<Task>, queue: seq<Entry>, k: nat): seq<Entry>
    requires k < |queue|
  {
    var h := queue[k].handle;
    queue[..k] + queue[k + 1..] +
      if h < |tasks| && tasks[h].Suspended? && tasks[h].pending != [] then [Entry(tasks[h].pending[0], h)] else []
  }

  class PriorityScheduler {
    var tasks: seq<Task>
    var queue: seq<Entry>

    ghost predicate Valid()
      reads this
    {
      Queued(tasks, queue)
    }

    constructor ()
      ensures Valid() && tasks == [] && queue == []
    {
      tasks, queue := [], [];
    }

    method Spawn(pending: seq<Priority>, priority: Priority) returns (h: nat)
      requires Valid()
      modifies this
      ensures Valid() && h == |old(tasks)|
      ensures tasks == old(tasks) + [Suspended(pending)] && queue == old(queue) + [Entry(priority, h)]
    {
      h := |tasks|;
      ghost var queue0 := queue;
      tasks := tasks + [Suspended(pending)];
      queue := queue + [Entry(priority, h)];
      forall g | 0 <= g < |tasks| && tasks[g].Suspended?
        ensures exists i :: 0 <= i < |queue| && queue[i].handle == g
      {
        if g == h {
          assert queue[|queue0|].handle == g;
        } else {
          var i :| 0 <= i < |queue0| && queue0[i].handle == g;
          assert queue[i].handle == g;
        }
      }
    }

    /** Run to the next yield, which queues the handle at the yield's priority, or to completion. */
    method Resume(h: nat)
      requires h < |tasks| && tasks[h].Suspended?
      modifies this
      ensures tasks == old(tasks)[h := Advance(old(tasks)[h])]
      ensures queue == old(queue) +
        if old(tasks)[h].pending != [] then [Entry(old(tasks)[h].pending[0], h)] else []
    {
      if tasks[h].pending != [] {
        queue := queue + [Entry(tasks[h].pending[0], h)];
        tasks := tasks[h := Suspended(tasks[h].pending[1..])];
      } else {
        tasks := tasks[h := Done];
      }
    }

    /** Every task goes through its own plan once, every resume serves a most urgent unfinished task,
        and the whole run serves urgent entries first exactly when no task ever yields to a more
        urgent priority than it was resumed at. */
    method Run() returns (log: seq<Entry>, iteration: nat)
      requires Valid()
      modifies this
      ensures Valid() && queue == [] && |tasks| == |old(tasks)| && AllDone(tasks)
      ensures Follows(log, old(tasks), old(queue)) && AlwaysTop(log, old(tasks), old(queue))
      ensures iteration == |log| == Work(old(tasks))
      ensures UrgentFirst(log) <==> AllOrdered(old(tasks), old(queue))
    {
      hide Work, Resumes, Plan, Progress, AllOrdered, UrgentFirst, Queued, Advance, AllDone, Follows, AlwaysTop;
      hide MostUrgent;
      ghost var q, t := queue, tasks;
      log, iteration := [], 0;
      FirstStep(q, t);
      while queue != []
        invariant |tasks| == |t| && iteration == |log| && |log| + Work(tasks) == Work(t)
        invariant Progress(q, t, tasks, queue, log)
        decreases Work(tasks)
      {
        ghost var tasks0, queue0, log0 := tasks, queue, log;
        ProgressHeads(q, t, tasks, queue, log);
        ghost var _ := HeapHasTop(queue);
        var k :| 0 <= k < |queue| && MostUrgent(queue, k);
        var e := queue[k];
        queue := queue[..k] + queue[k + 1..];
        if tasks[e.handle] != Done {
          iteration := iteration + 1;
          log := log + [e];
          WorkShrinks(tasks, e.handle);
          Resume(e.handle);
        }
        assert queue == Requeue(tasks0, queue0, k) && log == log0 + [e];
        ProgressStep(q, t, tasks0, queue0, log0, k);
      }
      Complete(q, t, tasks, log);
    }
  }
  // ---- What is left of each plan ----

  function Rest(tasks: seq<Task>, queue: seq<Entry>, h: nat): seq<Priority>
  {
    if queue == [] then []
    else if queue[|queue| - 1].handle == h then Plan(tasks, queue[|queue| - 1])
    else Rest(tasks, queue[..|queue| - 1], h)
  }

  lemma {:induction false} RestAt(tasks: seq<Task>, queue: seq<Entry>, k: nat)
    requires k < |queue| && forall i, j :: 0 <= i < j < |queue| ==> queue[i].handle != queue[j].handle
    ensures Rest(tasks, queue, queue[k].handle) == Plan(tasks, queue[k])
  {
    if k < |queue| - 1 { RestAt(tasks, queue[..|queue| - 1], k); }
  }

  lemma {:induction false} RestAbsent(tasks: seq<Task>, queue: seq<Entry>, h: nat)
    requires forall j :: 0 <= j < |queue| ==> queue[j].handle != h
    ensures Rest(tasks, queue, h) == []
  {
    if queue != [] { RestAbsent(tasks, queue[..|queue| - 1], h); }
  }

  /** The entries after a turn: those before and after entry `k`, then the resumed task's next yield. */
  lemma RequeueAt(tasks: seq<Task>, queue: seq<Entry>, k: nat)
    requires k < |queue| && queue[k].handle < |tasks| && tasks[queue[k].handle].Suspended?
    ensures var queue', pending := Requeue(tasks, queue, k), tasks[queue[k].handle].pending;
      && |queue'| == |queue| - (if pending == [] then 1 else 0)
      && (forall j :: 0 <= j < |queue| - 1 ==> queue'[j] == if j < k then queue[j] else queue[j + 1])
      && (pending != [] ==> queue'[|queue| - 1] == Entry(pending[0], queue[k].handle))
  {
  }

  lemma NoneLeftOutAfter(tasks: seq<Task>, queue: seq<Entry>, k: nat)
    requires k < |queue| && Queued(tasks, queue)
    ensures NoneLeftOut(tasks[queue[k].handle := Advance(tasks[queue[k].handle])], Requeue(tasks, queue, k))
  {
    RequeueAt(tasks, queue, k);
    hide Requeue;
    var h := queue[k].handle;
    var tasks', queue' := tasks[h := Advance(tasks[h])], Requeue(tasks, queue, k);
    forall g | 0 <= g < |tasks'| && tasks'[g].Suspended?
      ensures exists i :: 0 <= i < |queue'| && queue'[i].handle == g
    {
      if g == h {
        assert queue'[|queue| - 1].handle == g;
      } else {
        var i :| 0 <= i < |queue| && queue[i].handle == g;
        assert queue'[if i < k then i else i - 1].handle == g;
      }
    }
  }

  lemma QueuedAfter(tasks: seq<Task>, queue: seq<Entry>, k: nat)
    requires k < |queue| && Queued(tasks, queue)
    ensures Queued(tasks[queue[k].handle := Advance(tasks[queue[k].handle])], Requeue(tasks, queue, k))
  {
    RequeueAt(tasks, queue, k);
    NoneLeftOutAfter(tasks, queue, k);
    hide Requeue, NoneLeftOut;
  }

  lemma RestAfter(tasks: seq<Task>, queue: seq<Entry>, k: nat, g: nat)
    requires k < |queue| && Queued(tasks, queue)
    ensures var h := queue[k].handle;
      Rest(tasks[h := Advance(tasks[h])], Requeue(tasks, queue, k), g)
      == if g == h then Plan(tasks, queue[k])[1..] else Rest(tasks, queue, g)
  {
    hide Rest, Requeue;
    if g == queue[k].handle {
      RestAfterSelf(tasks, queue, k);
    } else if i :| 0 <= i < |queue| && queue[i].handle == g {
      RestAfterOther(tasks, queue, k, i);
    } else {
      RestAbsent(tasks, queue, g);
      RestAbsentAfter(tasks, queue, k, g);
    }
  }

  lemma RestAfterSelf(tasks: seq<Task>, queue: seq<Entry>, k: nat)
    requires k < |queue| && Queued(tasks, queue)
    ensures var h := queue[k].handle;
      Rest(tasks[h := Advance(tasks[h])], Requeue(tasks, queue, k), h) == Plan(tasks, queue[k])[1..]
  {
    var h := queue[k].handle;
    var tasks', queue' := tasks[h := Advance(tasks[h])], Requeue(tasks, queue, k);
    QueuedAfter(tasks, queue, k);
    if tasks[h].pending == [] {
      RestAbsentAfter(tasks, queue, k, h);
    } else {
      hide Rest, Queued;
      RestAtQueued(tasks', queue', |queue'| - 1);
    }
  }

  lemma RestAfterOther(tasks: seq<Task>, queue: seq<Entry>, k: nat, i: nat)
    requires k < |queue| && i < |queue| && i != k && Queued(tasks, queue)
    ensures var h := queue[k].handle;
      Rest(tasks[h := Advance(tasks[h])], Requeue(tasks, queue, k), queue[i].handle) ==
      Rest(tasks, queue, queue[i].handle)
  {
    RequeueAt(tasks, queue, k);
    QueuedAfter(tasks, queue, k);
    var h := queue[k].handle;
    assert h != queue[i].handle;
    hide Rest, Queued, Requeue, Advance;
    RestAtQueued(tasks, queue, i);
    RestAtQueued(tasks[h := Advance(tasks[h])], Requeue(tasks, queue, k), if i < k then i else i - 1);
  }

  lemma RestAbsentAfter(tasks: seq<Task>, queue: seq<Entry>, k: nat, g: nat)
    requires k < |queue| && Queued(tasks, queue)
    requires
      if g == queue[k].handle then tasks[g].pending == []
      else forall j :: 0 <= j < |queue| ==> queue[j].handle != g
    ensures var h := queue[k].handle; Rest(tasks[h := Advance(tasks[h])], Requeue(tasks, queue, k), g) == []
  {
    var h := queue[k].handle;
    RestAbsent(tasks[h := Advance(tasks[h])], Requeue(tasks, queue, k), g);
  }

  // ---- The run loop ----

  /** What each task has been resumed at, followed by what is left, is its plan. */
  ghost predicate OnPlan(q: seq<Entry>, t: seq<Task>, tasks: seq<Task>, queue: seq<Entry>, log: seq<Entry>)
  {
    forall h: nat :: Resumes(log, h) + Rest(tasks, queue, h) == Rest(t, q, h)
  }

  ghost predicate TopSoFar(q: seq<Entry>, t: seq<Task>, log: seq<Entry>)
  {
    forall i: nat, h: nat :: NoneMoreUrgent(log, i, h, Rest(t, q, h))
  }

  ghost predicate Served(queue: seq<Entry>, log: seq<Entry>)
  {
    UrgentFirst(log) && forall i, j :: 0 <= i < |log| && 0 <= j < |queue| ==> log[i].priority <= queue[j].priority
  }

  ghost predicate Progress(q: seq<Entry>, t: seq<Task>, tasks: seq<Task>, queue: seq<Entry>, log: seq<Entry>)
  {
    && Queued(t, q) && Queued(tasks, queue)
    && OnPlan(q, t, tasks, queue, log) && TopSoFar(q, t, log)
    && (AllOrdered(t, q) ==> Served(queue, log))
  }

  lemma ProgressHeads(q: seq<Entry>, t: seq<Task>, tasks: seq<Task>, queue: seq<Entry>, log: seq<Entry>)
    requires Progress(q, t, tasks, queue, log)
    ensures forall k :: 0 <= k < |queue| ==> queue[k].handle < |tasks| && tasks[queue[k].handle].Suspended?
  {
  }

  lemma FirstStep(q: seq<Entry>, t: seq<Task>)
    requires Queued(t, q)
    ensures Progress(q, t, t, q, [])
  {
    assert OnPlan(q, t, t, q, []);
  }

  lemma OnPlanStep(q: seq<Entry>, t: seq<Task>, tasks: seq<Task>, queue: seq<Entry>, log: seq<Entry>, k: nat)
    requires Queued(tasks, queue) && OnPlan(q, t, tasks, queue, log) && k < |queue|
    ensures var h := queue[k].handle;
      OnPlan(q, t, tasks[h := Advance(tasks[h])], Requeue(tasks, queue, k), log + [queue[k]])
  {
    assert queue[k].handle < |tasks|;
    hide Rest, Resumes, Requeue, Queued, Plan, Advance;
    forall g: nat
      ensures var h := queue[k].handle;
        Resumes(log + [queue[k]], g) + Rest(tasks[h := Advance(tasks[h])], Requeue(tasks, queue, k), g) == Rest(t, q, g)
    {
      PlanStep(Rest(t, q, g), tasks, queue, log, k, g);
    }
  }

  lemma PlanStep(plan: seq<Priority>, tasks: seq<Task>, queue: seq<Entry>, log: seq<Entry>, k: nat, g: nat)
    requires k < |queue| && Queued(tasks, queue) && Resumes(log, g) + Rest(tasks, queue, g) == plan
    ensures var h := queue[k].handle;
      Resumes(log + [queue[k]], g) + Rest(tasks[h := Advance(tasks[h])], Requeue(tasks, queue, k), g) == plan
  {
    assert queue[k].handle < |tasks|;
    hide Rest, Resumes, Requeue, Queued;
    ResumesSnoc(log, queue[k], g);
    RestAfter(tasks, queue, k, g);
    if g == queue[k].handle {
      RestAtQueued(tasks, queue, k);
      MoveHead(Resumes(log, g), Plan(tasks, queue[k]));
    }
  }

  lemma MoveHead(done: seq<Priority>, rest: seq<Priority>)
    requires rest != []
    ensures (done + [rest[0]]) + rest[1..] == done + rest
  {
  }

  lemma ResumesSnoc(log: seq<Entry>, e: Entry, h: nat)
    ensures Resumes(log + [e], h) == if e.handle == h then Resumes(log, h) + [e.priority] else Resumes(log, h)
  {
    assert (log + [e])[..|log|] == log;
  }

  /** The resumed task's next yield is no more urgent than where it was. */
  lemma NextYield(q: seq<Entry>, t: seq<Task>, tasks: seq<Task>, queue: seq<Entry>, log: seq<Entry>, k: nat)
    requires Queued(t, q) && Queued(tasks, queue) && OnPlan(q, t, tasks, queue, log) && AllOrdered(t, q) && k < |queue|
    requires tasks[queue[k].handle].pending != []
    ensures queue[k].priority <= tasks[queue[k].handle].pending[0]
  {
    var h, plan := queue[k].handle, Plan(tasks, queue[k]);
    assert |plan| >= 2;
    hide Queued;
    assert Rest(tasks, queue, h) == plan by { RestAtQueued(tasks, queue, k); }
    var before := Resumes(log, h);
    assert before + plan == Rest(t, q, h);
    OrderedRest(t, q, h);
    assert (before + plan)[|before|] == plan[0] && (before + plan)[|before| + 1] == plan[1];
  }

  lemma RestAtQueued(tasks: seq<Task>, queue: seq<Entry>, k: nat)
    requires Queued(tasks, queue) && k < |queue|
    ensures Rest(tasks, queue, queue[k].handle) == Plan(tasks, queue[k])
  {
    RestAt(tasks, queue, k);
  }

  lemma {:induction false} OrderedRest(t: seq<Task>, q: seq<Entry>, h: nat)
    requires AllOrdered(t, q)
    ensures Ordered(Rest(t, q, h))
  {
    if q != [] && q[|q| - 1].handle != h {
      assert forall i :: 0 <= i < |q| - 1 ==> q[..|q| - 1][i] == q[i];
      OrderedRest(t, q[..|q| - 1], h);
    }
  }

  lemma ServedStep(tasks: seq<Task>, queue: seq<Entry>, log: seq<Entry>, k: nat)
    requires k < |queue| && Served(queue, log)
    requires MostUrgent(queue, k)
    requires var h := queue[k].handle;
      h < |tasks| && tasks[h].Suspended? && (tasks[h].pending != [] ==> queue[k].priority <= tasks[h].pending[0])
    ensures Served(Requeue(tasks, queue, k), log + [queue[k]])
  {
    var queue', log' := Requeue(tasks, queue, k), log + [queue[k]];
    forall j | 0 <= j < |queue'|
      ensures queue[k].priority <= queue'[j].priority
    {
      assert j < k ==> queue'[j] == queue[j];
      assert k <= j < |queue| - 1 ==> queue'[j] == queue[j + 1];
    }
  }

  /** What is left of a task's plan starts with the priority it is queued at. */
  lemma {:induction false} RestHead(tasks: seq<Task>, queue: seq<Entry>, h: nat) returns (m: nat)
    requires Rest(tasks, queue, h) != []
    ensures m < |queue| && queue[m].handle == h && Rest(tasks, queue, h)[0] == queue[m].priority
  {
    var n := |queue| - 1;
    if queue[n].handle == h { m := n; } else { m := RestHead(tasks, queue[..n], h); }
  }

  lemma NextOfPlan(done: seq<Priority>, rest: seq<Priority>, plan: seq<Priority>)
    requires done + rest == plan && |done| < |plan|
    ensures rest != [] && plan[|done|] == rest[0]
  {
  }

  lemma TopNow(q: seq<Entry>, t: seq<Task>, tasks: seq<Task>, queue: seq<Entry>, log: seq<Entry>, k: nat, h: nat)
    requires OnPlan(q, t, tasks, queue, log) && k < |queue| && MostUrgent(queue, k)
    ensures NoneMoreUrgent(log + [queue[k]], |log|, h, Rest(t, q, h))
  {
    hide Rest, Resumes;
    var done, rest, plan := Resumes(log, h), Rest(tasks, queue, h), Rest(t, q, h);
    assert done + rest == plan;
    assert (log + [queue[k]])[..|log|] == log;
    if |done| < |plan| {
      NextOfPlan(done, rest, plan);
      var m := RestHead(tasks, queue, h);
      assert queue[k].priority <= queue[m].priority;
    }
  }

  lemma TopStep(q: seq<Entry>, t: seq<Task>, tasks: seq<Task>, queue: seq<Entry>, log: seq<Entry>, k: nat)
    requires OnPlan(q, t, tasks, queue, log) && TopSoFar(q, t, log) && k < |queue| && MostUrgent(queue, k)
    ensures TopSoFar(q, t, log + [queue[k]])
  {
    var log' := log + [queue[k]];
    hide Rest, Resumes, OnPlan, MostUrgent;
    forall i: nat, h: nat
      ensures NoneMoreUrgent(log', i, h, Rest(t, q, h))
    {
      if i < |log| {
        assert NoneMoreUrgent(log, i, h, Rest(t, q, h));
        assert log'[..i] == log[..i];
      } else if i == |log| {
        TopNow(q, t, tasks, queue, log, k, h);
      }
    }
  }

  lemma TopToTheEnd(q: seq<Entry>, t: seq<Task>, log: seq<Entry>)
    requires TopSoFar(q, t, log) && Queued(t, q)
    ensures AlwaysTop(log, t, q)
  {
    hide Queued, Resumes, Rest, Plan, NoneMoreUrgent;
    forall i: nat, j | 0 <= j < |q|
      ensures NoneMoreUrgent(log, i, q[j].handle, Plan(t, q[j]))
    {
      RestAtQueued(t, q, j);
      assert NoneMoreUrgent(log, i, q[j].handle, Rest(t, q, q[j].handle));
    }
  }

  lemma ProgressStep(q: seq<Entry>, t: seq<Task>, tasks: seq<Task>, queue: seq<Entry>, log: seq<Entry>, k: nat)
    requires Progress(q, t, tasks, queue, log) && k < |queue|
    requires MostUrgent(queue, k)
    ensures var h := queue[k].handle;
      && h < |tasks| && tasks[h].Suspended?
      && Progress(q, t, tasks[h := Advance(tasks[h])], Requeue(tasks, queue, k), log + [queue[k]])
  {
    QueuedAfter(tasks, queue, k);
    OnPlanStep(q, t, tasks, queue, log, k);
    var h := queue[k].handle;
    assert h < |tasks| && tasks[h].Suspended?;
    TopStep(q, t, tasks, queue, log, k);
    hide OnPlan, AllOrdered, Served, Queued, Requeue, TopSoFar;
    if AllOrdered(t, q) {
      if tasks[h].pending != [] { NextYield(q, t, tasks, queue, log, k); }
      ServedStep(tasks, queue, log, k);
    }
  }

  lemma {:induction false} ResumesFromLog(log: seq<Entry>, h: nat, p: Priority)
    requires p in Resumes(log, h)
    ensures exists i :: 0 <= i < |log| && log[i].priority == p
  {
    var e := log[|log| - 1];
    if e.handle != h || e.priority != p {
      ResumesFromLog(log[..|log| - 1], h, p);
      var i :| 0 <= i < |log| - 1 && log[..|log| - 1][i].priority == p;
      assert log[i].priority == p;
    }
  }

  lemma {:induction false} OrderedResumes(log: seq<Entry>, h: nat)
    requires UrgentFirst(log)
    ensures Ordered(Resumes(log, h))
  {
    if log != [] {
      var front := log[..|log| - 1];
      OrderedResumes(front, h);
      forall i | 0 <= i < |Resumes(front, h)|
        ensures Resumes(front, h)[i] <= log[|log| - 1].priority
      {
        ResumesFromLog(front, h, Resumes(front, h)[i]);
        var j :| 0 <= j < |front| && front[j].priority == Resumes(front, h)[i];
        assert log[j] == front[j];
      }
    }
  }

  lemma Complete(q: seq<Entry>, t: seq<Task>, tasks: seq<Task>, log: seq<Entry>)
    requires Progress(q, t, tasks, [], log) && |tasks| == |t|
    ensures AllDone(tasks) && Follows(log, t, q) && AlwaysTop(log, t, q)
    ensures UrgentFirst(log) <==> AllOrdered(t, q)
    ensures Work(tasks) == 0 && Queued(tasks, [])
  {
    TopToTheEnd(q, t, log);
    hide Ordered, UrgentFirst, TopSoFar, AlwaysTop;
    forall i | 0 <= i < |q|
      ensures Resumes(log, q[i].handle) == Plan(t, q[i])
      ensures UrgentFirst(log) ==> Ordered(Plan(t, q[i]))
    {
      var h := q[i].handle;
      assert Resumes(log, h) + Rest(tasks, [], h) == Rest(t, q, h);
      RestAt(t, q, i);
      if UrgentFirst(log) { OrderedResumes(log, h); }
    }
    NoWork(tasks);
  }

  lemma {:induction false} NoWork(tasks: seq<Task>)
    requires AllDone(tasks)
    ensures Work(tasks) == 0
  {
    if tasks != [] { NoWork(tasks[1..]); }
  }
}
