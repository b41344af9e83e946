/** Task<T> coroutines: frames on a heap, one active handle, control passed by symmetric transfer.

    The direct-style reading of a task is a structured evaluator (`Exec`, `Eval`). The machine
    executes one statement, one resumption or one final suspension per step. */
module TaskMachine {
  import opened Common

  type Env = map<string, int>

  function Get(env: Env, x: string): int
  {
    if x in env then env[x] else 0
  }

  /** A task body. Pure expressions are functions of the coroutine's locals. */
  datatype Code =
    | Skip
    | Assign(x: string, e: Env -> int)
    | Seq(first: Code, second: Code)
    | If(cond: Env -> bool, yes: Code, no: Code)
    | Try(body: Code, x: string, handler: Code)    // catch binds the exception to x
    | Throw(e: Env -> int)
    | Return(e: Env -> int)                        // co_return
    | Await(x: string, task: Code, args: Env -> Env)   // x = co_await task(args)

  // ---- Direct style ----

  datatype Outcome = Normal(env: Env) | Returned(value: int, env: Env) | Threw(error: int, env: Env)

  datatype Result = Value(value: int) | Exception(error: int)

  function Exec(c: Code, env: Env): Outcome
    decreases c, 0
  {
    match c
    case Skip => Normal(env)
    case Assign(x, e) => Normal(env[x := e(env)])
    case Seq(a, b) =>
      var o := Exec(a, env);
      if o.Normal? then Exec(b, o.env) else o
    case If(cond, a, b) => if cond(env) then Exec(a, env) else Exec(b, env)
    case Try(body, x, handler) =>
      var o := Exec(body, env);
      if o.Threw? then Exec(handler, o.env[x := o.error]) else o
    case Throw(e) => Threw(e(env), env)
    case Return(e) => Returned(e(env), env)
    case Await(x, task, args) =>
      (match Eval(task, args(env))
       case Value(v) => Normal(env[x := v])
       case Exception(e) => Threw(e, env))
  }

  /** A direct call of a task; a body that runs off its end returns nothing, shown as 0. */
  function Eval(task: Code, args: Env): Result
    decreases task, 1
  {
    match Exec(task, args)
    case Normal(_) => Value(0)
    case Returned(v, _) => Value(v)
    case Threw(e, _) => Exception(e)
  }

  // ---- The machine ----

  datatype Item = Run(code: Code) | Catch(x: string, handler: Code)

  datatype Waiting = Waiting(x: string, child: nat)

  /** A coroutine frame with its promise: result, exception and continuation. `awaits` counts
      the co_awaits it has begun, `resumes` the times it was given control. */
  datatype Frame = Frame(
    stack: seq<Item>, env: Env, waiting: Option<Waiting>, done: bool,
    result: Option<int>, exception: Option<int>, continuation: Option<nat>,
    awaits: nat, resumes: nat)

  datatype Machine = Machine(frames: map<nat, Frame>, next: nat, active: Option<nat>)

  /** A freshly created coroutine, suspended at its start. */
  function NewFrame(task: Code, args: Env): Frame
  {
    Frame([Run(task)], args, None, false, None, None, None, 0, 0)
  }

  /** Resume the handle a transfer returned; None is the noop coroutine. */
  function Transfer(m: Machine, to: Option<nat>): Machine
  {
    if to.Some? && to.value in m.frames then
      var f := m.frames[to.value];
      m.(frames := m.frames[to.value := f.(resumes := f.resumes + 1)], active := to)
    else m.(active := None)
  }

  /** final_suspend: the frame is done and its continuation runs next. */
  function Finish(m: Machine, h: nat, f: Frame): Machine
  {
    Transfer(m.(frames := m.frames[h := f.(done := true, stack := [])]), f.continuation)
  }

  /** Drop pending statements up to the innermost handler. */
  function Unwind(stack: seq<Item>): (rest: seq<Item>)
    ensures rest == [] || rest[0].Catch?
    decreases |stack|
  {
    if stack == [] || stack[0].Catch? then stack else Unwind(stack[1..])
  }

  function Raise(m: Machine, h: nat, f: Frame, e: int): Machine
  {
    var rest := Unwind(f.stack);
    if rest == [] then Finish(m, h, f.(exception := Some(e)))
    else m.(frames := m.frames[h := f.(stack := [Run(rest[0].handler)] + rest[1..], env := f.env[rest[0].x := e])])
  }

  /** await_resume: rethrow or fetch the child's result, then the temporary task is destroyed. */
  function AwaitResume(m: Machine, h: nat, f: Frame): Machine
    requires f.waiting.Some?
  {
    var Waiting(x, child) := f.waiting.value;
    if child !in m.frames then m.(active := None)
    else
      var c := m.frames[child];
      var m' := m.(frames := m.frames - {child});
      var f' := f.(waiting := None);
      if c.exception.Some? then Raise(m', h, f', c.exception.value)
      else if c.result.Some? then m'.(frames := m'.frames[h := f'.(env := f.env[x := c.result.value])])
      else m.(active := None)
  }

  function Update(m: Machine, h: nat, f: Frame): Machine
  {
    m.(frames := m.frames[h := f])
  }

  /** Create the child, store the awaiter as its continuation, transfer to it. */
  function BeginAwait(m: Machine, h: nat, f: Frame, x: string, task: Code, args: Env): Machine
  {
    var child := m.next;
    var m' := m.(
      next := m.next + 1,
      frames := m.frames[h := f.(waiting := Some(Waiting(x, child)), awaits := f.awaits + 1)]
                        [child := NewFrame(task, args).(continuation := Some(h))]);
    Transfer(m', Some(child))
  }

  function Step(m: Machine): Machine
  {
    if m.active.None? || m.active.value !in m.frames then m
    else
      var h := m.active.value;
      var f := m.frames[h];
      if f.waiting.Some? then AwaitResume(m, h, f)
      else if f.stack == [] then Finish(m, h, f.(result := Some(0)))
      else
        var f' := f.(stack := f.stack[1..]);
        match f.stack[0]
        case Catch(_, _) => Update(m, h, f')
        case Run(Skip) => Update(m, h, f')
        case Run(Assign(x, e)) => Update(m, h, f'.(env := f.env[x := e(f.env)]))
        case Run(Seq(a, b)) => Update(m, h, f.(stack := [Run(a), Run(b)] + f.stack[1..]))
        case Run(If(c, a, b)) => Update(m, h, f.(stack := [Run(if c(f.env) then a else b)] + f.stack[1..]))
        case Run(Try(body, x, handler)) => Update(m, h, f.(stack := [Run(body), Catch(x, handler)] + f.stack[1..]))
        case Run(Throw(e)) => Raise(m, h, f', e(f.env))
        case Run(Return(e)) => Finish(m, h, f'.(result := Some(e(f.env))))
        case Run(Await(x, task, args)) => BeginAwait(m, h, f', x, task, args(f.env))
  }

  function Steps(m: Machine, n: nat): Machine
    decreases n
  {
    if n == 0 then m else Steps(Step(m), n - 1)
  }

  // ---- Refinement ----

  lemma {:induction false} StepsAdd(m: Machine, a: nat, b: nat)
    ensures Steps(m, a + b) == Steps(Steps(m, a), b)
    decreases a
  {
    if a > 0 { StepsAdd(Step(m), a - 1, b); }
  }

  /** The active frame has `code` next, and the frame that awaits it is on the heap. */
  ghost predicate About(m: Machine, h: nat, code: Code, k: seq<Item>)
  {
    && m.active == Some(h) && h in m.frames
    && m.frames[h].stack == [Run(code)] + k && m.frames[h].waiting.None? && !m.frames[h].done
    && (forall x :: x in m.frames ==> x < m.next)
    && (m.frames[h].continuation.Some? ==>
          m.frames[h].continuation.value in m.frames && m.frames[h].continuation.value != h)
  }

  /** The machine when the statement has completed with outcome `o`. */
  function Complete(m: Machine, h: nat, f: Frame, o: Outcome): Machine
  {
    match o
    case Normal(env) => Update(m, h, f.(env := env))
    case Returned(v, env) => Finish(m, h, f.(env := env, result := Some(v)))
    case Threw(e, env) => Raise(m, h, f.(env := env), e)
  }

  /** `n` steps carry out `code`: other frames are untouched, every frame created is destroyed,
      and the frame was resumed once for each of its awaits. */
  ghost predicate CarriesOut(m: Machine, h: nat, k: seq<Item>, o: Outcome, n: nat, next: nat, awaits: nat)
    requires h in m.frames
  {
    var f := m.frames[h];
    && m.next <= next
    && Steps(m, n)
       == Complete(m.(next := next), h, f.(stack := k, awaits := f.awaits + awaits, resumes := f.resumes + awaits), o)
  }

  lemma {:induction false} RunCode(m: Machine, h: nat, c: Code, k: seq<Item>) returns (n: nat, next: nat, awaits: nat)
    requires About(m, h, c, k)
    ensures CarriesOut(m, h, k, Exec(c, m.frames[h].env), n, next, awaits)
    decreases c, 1
  {
    hide Step, Complete, Exec;
    match c
    case Seq(a, b) => n, next, awaits := RunSeq(m, h, a, b, k);
    case If(cond, a, b) => n, next, awaits := RunIf(m, h, cond, a, b, k);
    case Try(body, x, handler) => n, next, awaits := RunTry(m, h, body, x, handler, k);
    case Await(x, task, args) => n, next, awaits := RunAwait(m, h, x, task, args, k);
    case _ =>
      RunSimple(m, h, c, k);
      n, next, awaits := 1, m.next, 0;
  }

  lemma {:induction false} RunSimple(m: Machine, h: nat, c: Code, k: seq<Item>)
    requires About(m, h, c, k) && (c.Skip? || c.Assign? || c.Throw? || c.Return?)
    ensures CarriesOut(m, h, k, Exec(c, m.frames[h].env), 1, m.next, 0)
  {
    var f := m.frames[h];
    assert f.stack[1..] == k;
    assert f.(stack := k, awaits := f.awaits + 0, resumes := f.resumes + 0) == f.(stack := k);
  }

  lemma {:induction false} RunIf(m: Machine, h: nat, cond: Env -> bool, a: Code, b: Code, k: seq<Item>)
    returns (n: nat, next: nat, awaits: nat)
    requires About(m, h, If(cond, a, b), k)
    ensures CarriesOut(m, h, k, Exec(If(cond, a, b), m.frames[h].env), n, next, awaits)
    decreases If(cond, a, b), 0
  {
    hide Step, Raise, Finish;
    var f, c, m1 := m.frames[h], if cond(m.frames[h].env) then a else b, Step(m);
    ExpandStep(m, h, If(cond, a, b), k, c, k);
    n, next, awaits := RunCode(m1, h, c, k);
    Overwritten(m.(next := next), h, f.(stack := [Run(c)] + k), Progress(f, k, f.env, awaits), Exec(c, f.env));
    n := n + 1;
  }

  /** Replacing the statement on top by others is one step. */
  lemma {:induction false} ExpandStep(m: Machine, h: nat, c: Code, k: seq<Item>, first: Code, k': seq<Item>)
    requires About(m, h, c, k)
    requires (c.Seq? && first == c.first && k' == [Run(c.second)] + k)
          || (c.Try? && first == c.body && k' == [Catch(c.x, c.handler)] + k)
          || (c.If? && first == (if c.cond(m.frames[h].env) then c.yes else c.no) && k' == k)
    ensures Step(m) == Update(m, h, m.frames[h].(stack := [Run(first)] + k'))
    ensures About(Step(m), h, first, k')
  {
    assert m.frames[h].stack[1..] == k;
    if !c.If? { assert [Run(first)] + k' == [Run(first), k'[0]] + k; }
  }

  /** Completion overwrites the frame, whatever it held before. */
  lemma Overwritten(m: Machine, h: nat, before: Frame, f: Frame, o: Outcome)
    ensures Complete(Update(m, h, before), h, f, o) == Complete(m, h, f, o)
  {
    assert forall g: Frame {:trigger m.frames[h := before][h := g]} ::
        m.frames[h := before][h := g] == m.frames[h := g];
  }

  /** Pending statements and handlers do not see a return; a throw skips statements. */
  lemma SkippedItem(m: Machine, h: nat, f: Frame, k: seq<Item>, o: Outcome, item: Item)
    requires o.Returned? || (o.Threw? && item.Run?)
    ensures Complete(m, h, f.(stack := [item] + k), o) == Complete(m, h, f.(stack := k), o)
  {
    assert ([item] + k)[1..] == k;
  }

  lemma CaughtItem(m: Machine, h: nat, f: Frame, k: seq<Item>, o: Outcome, x: string, handler: Code)
    requires o.Threw?
    ensures Complete(m, h, f.(stack := [Catch(x, handler)] + k), o)
         == Update(m, h, f.(stack := [Run(handler)] + k, env := o.env[x := o.error]))
  {
    assert ([Catch(x, handler)] + k)[1..] == k;
  }

  /** `f` after `awaits` more awaits, each resumed once. */
  function Progress(f: Frame, k: seq<Item>, env: Env, awaits: nat): Frame
  {
    f.(stack := k, env := env, awaits := f.awaits + awaits, resumes := f.resumes + awaits)
  }

  /** From a state reached with `k` pending, `n` more steps carry out the next statement. */
  lemma {:induction false} Continue(m: Machine, h: nat, env: Env, c: Code, k: seq<Item>, next: nat, awaits: nat)
    returns (n: nat, next': nat, awaits': nat)
    requires h in m.frames && m.next <= next
    requires var f := m.frames[h]; About(Update(m.(next := next), h, Progress(f, [Run(c)] + k, env, awaits)), h, c, k)
    ensures next <= next' && awaits <= awaits'
    ensures var f := m.frames[h];
      Steps(Update(m.(next := next), h, Progress(f, [Run(c)] + k, env, awaits)), n)
      == Complete(m.(next := next'), h, Progress(f, k, env, awaits'), Exec(c, env))
    decreases c, 2
  {
    hide Step, Raise, Finish;
    var f := m.frames[h];
    var g := Progress(f, [Run(c)] + k, env, awaits);
    var m1 := Update(m.(next := next), h, g);
    n, next', awaits' := RunCode(m1, h, c, k);
    Overwritten(m.(next := next'), h, g, g.(stack := k, awaits := g.awaits + awaits', resumes := g.resumes + awaits'),
                Exec(c, env));
    awaits' := awaits + awaits';
  }

  lemma {:induction false} RunSeq(m: Machine, h: nat, a: Code, b: Code, k: seq<Item>)
    returns (n: nat, next: nat, awaits: nat)
    requires About(m, h, Seq(a, b), k)
    ensures CarriesOut(m, h, k, Exec(Seq(a, b), m.frames[h].env), n, next, awaits)
    decreases Seq(a, b), 0
  {
    hide Step, Raise, Finish;
    var f, k', m1 := m.frames[h], [Run(b)] + k, Step(m);
    ExpandStep(m, h, Seq(a, b), k, a, k');
    var first := f.(stack := [Run(a)] + k');
    n, next, awaits := RunCode(m1, h, a, k');
    var o := Exec(a, f.env);
    var g := Progress(f, k', f.env, awaits);
    assert Steps(m1, n) == Complete(Update(m.(next := next), h, first), h, g, o);
    Overwritten(m.(next := next), h, first, g, o);
    if o.Normal? {
      var n', next', awaits' := Continue(m, h, o.env, b, k, next, awaits);
      StepsAdd(m1, n, n');
      n, next, awaits := n + n', next', awaits';
    } else {
      SkippedItem(m.(next := next), h, g, k, o, Run(b));
    }
    n := n + 1;
  }

  lemma {:induction false} RunTry(m: Machine, h: nat, body: Code, x: string, handler: Code, k: seq<Item>)
    returns (n: nat, next: nat, awaits: nat)
    requires About(m, h, Try(body, x, handler), k)
    ensures CarriesOut(m, h, k, Exec(Try(body, x, handler), m.frames[h].env), n, next, awaits)
    decreases Try(body, x, handler), 0
  {
    hide Step, Raise, Finish;
    var f, k', m1 := m.frames[h], [Catch(x, handler)] + k, Step(m);
    ExpandStep(m, h, Try(body, x, handler), k, body, k');
    var first := f.(stack := [Run(body)] + k');
    n, next, awaits := RunCode(m1, h, body, k');
    var o := Exec(body, f.env);
    var g := Progress(f, k', f.env, awaits);
    assert Steps(m1, n) == Complete(Update(m.(next := next), h, first), h, g, o);
    Overwritten(m.(next := next), h, first, g, o);
    if o.Normal? {
      PopHandler(Steps(m1, n), h, Catch(x, handler), k);
      StepsAdd(m1, n, 1);
      Overwritten(m.(next := next), h, g.(env := o.env), g.(stack := k), o);
      n := n + 1;
    } else if o.Threw? {
      CaughtItem(m.(next := next), h, g, k, o, x, handler);
      var n', next', awaits' := Continue(m, h, o.env[x := o.error], handler, k, next, awaits);
      StepsAdd(m1, n, n');
      n, next, awaits := n + n', next', awaits';
    } else {
      SkippedItem(m.(next := next), h, g, k, o, Catch(x, handler));
    }
    n := n + 1;
  }

  lemma PopHandler(m: Machine, h: nat, item: Item, k: seq<Item>)
    requires m.active == Some(h) && h in m.frames && item.Catch?
    requires m.frames[h].stack == [item] + k && m.frames[h].waiting.None?
    ensures Steps(m, 1) == Update(m, h, m.frames[h].(stack := k))
  {
    assert ([item] + k)[1..] == k;
  }

  /** A whole child, from transfer to final suspension. */
  lemma {:induction false} RunChild(m: Machine, h: nat, task: Code) returns (n: nat, next: nat, awaits: nat)
    requires About(m, h, task, [])
    ensures m.next <= next
    ensures var f := m.frames[h]; var env := Exec(task, f.env).env;
      var f' := f.(stack := [], env := env, awaits := f.awaits + awaits, resumes := f.resumes + awaits);
      Steps(m, n) == Finish(m.(next := next), h,
        match Eval(task, f.env)
        case Value(v) => f'.(result := Some(v))
        case Exception(e) => f'.(exception := Some(e)))
    decreases task, 2
  {
    hide Step, Finish, Exec;
    n, next, awaits := RunCode(m, h, task, []);
    var f, o := m.frames[h], Exec(task, m.frames[h].env);
    if o.Normal? {
      var f' := Progress(f, [], o.env, awaits);
      var m' := Steps(m, n);
      FallOffEnd(m', h);
      StepsAdd(m, n, 1);
      Overwritten(m.(next := next), h, f', f'.(result := Some(0)), Returned(0, o.env));
      assert Steps(m', 1) == Step(m');
      n := n + 1;
    }
  }

  lemma {:induction false} RunAwait(m: Machine, h: nat, x: string, task: Code, args: Env -> Env, k: seq<Item>)
    returns (n: nat, next: nat, awaits: nat)
    requires About(m, h, Await(x, task, args), k)
    ensures CarriesOut(m, h, k, Exec(Await(x, task, args), m.frames[h].env), n, next, awaits)
    decreases Await(x, task, args), 0
  {
    hide Raise, Finish;
    var f, child, m1 := m.frames[h], m.next, Step(m);
    var f1 := f.(stack := k, waiting := Some(Waiting(x, child)), awaits := f.awaits + 1);
    var c0 := NewFrame(task, args(f.env)).(continuation := Some(h), resumes := 1);
    assert m1 == Machine(m.frames[h := f1][child := c0], m.next + 1, Some(child)) by {
      assert f.stack[1..] == k;
      assert m.frames[h := f1][child := c0.(resumes := 0)][child := c0] == m.frames[h := f1][child := c0];
    }
    n, next, awaits := RunChild(m1, child, task);
    var r := Eval(task, args(f.env));
    var c1 := ChildEnd(m, h, child, f1, c0, r, next, awaits, Exec(task, args(f.env)).env);
    StepsAdd(m1, n, 1);
    AwaitResumed(m.(next := next), h, child, f1.(resumes := f.resumes + 1), c1, r);
    n, awaits := n + 2, 1;
  }

  /** Final suspension of the child hands control to the frame that awaits it. */
  lemma {:induction false} ChildEnd(m: Machine, h: nat, child: nat, f: Frame, c: Frame, r: Result, next: nat,
                                    awaits: nat, env: Env)
    returns (c': Frame)
    requires h != child && c.continuation == Some(h) && c.result.None? && c.exception.None?
    ensures c'.result == (if r.Value? then Some(r.value) else None)
    ensures c'.exception == (if r.Exception? then Some(r.error) else None)
    ensures var g := c.(stack := [], env := env, awaits := c.awaits + awaits, resumes := c.resumes + awaits);
      Finish(Machine(m.frames[h := f][child := c], next, Some(child)), child,
             match r case Value(v) => g.(result := Some(v)) case Exception(e) => g.(exception := Some(e)))
      == Machine(m.frames[h := f.(resumes := f.resumes + 1)][child := c'], next, Some(h))
  {
    var g := c.(stack := [], env := env, awaits := c.awaits + awaits, resumes := c.resumes + awaits, done := true);
    c' := match r case Value(v) => g.(result := Some(v)) case Exception(e) => g.(exception := Some(e));
    assert m.frames[h := f][child := c][child := c'][h := f.(resumes := f.resumes + 1)]
        == m.frames[h := f.(resumes := f.resumes + 1)][child := c'];
  }

  /** Resumption fetches the result or rethrows, and the child's frame is gone. */
  lemma {:induction false} AwaitResumed(m: Machine, h: nat, child: nat, f: Frame, c: Frame, r: Result)
    requires h in m.frames && child !in m.frames && f.waiting.Some? && f.waiting.value.child == child
    requires c.result == (if r.Value? then Some(r.value) else None)
    requires c.exception == (if r.Exception? then Some(r.error) else None)
    requires m.active == Some(h)
    ensures Step(m.(frames := m.frames[h := f][child := c]))
         == Complete(m, h, f.(waiting := None),
              match r
              case Value(v) => Normal(f.env[f.waiting.value.x := v])
              case Exception(e) => Threw(e, f.env))
  {
    hide Raise;
    var frames := m.frames[h := f][child := c];
    assert frames - {child} == m.frames[h := f];
    if r.Exception? {
      Overwritten(m, h, f, f.(waiting := None), Threw(r.error, f.env));
    } else {
      assert m.frames[h := f][h := f.(waiting := None, env := f.env[f.waiting.value.x := r.value])]
          == m.frames[h := f.(waiting := None, env := f.env[f.waiting.value.x := r.value])];
    }
  }

  // ---- sync_get ----

  /** The root task when sync_get resumes it. */
  function Start(task: Code, args: Env): Machine
  {
    Machine(map[0 := NewFrame(task, args).(resumes := 1)], 1, Some(0))
  }

  /** The machine halts with only the root left, done, holding what direct evaluation gives. */
  lemma {:induction false} SyncGetRuns(task: Code, args: Env) returns (n: nat)
    ensures var m := Steps(Start(task, args), n);
      && m.active.None? && m.frames.Keys == {0} && m.frames[0].done
      && m.frames[0].resumes == m.frames[0].awaits + 1
      && (match Eval(task, args)
          case Value(v) => m.frames[0].result == Some(v) && m.frames[0].exception.None?
          case Exception(e) => m.frames[0].exception == Some(e))
  {
    var next, awaits;
    n, next, awaits := RunChild(Start(task, args), 0, task);
  }

  lemma {:induction false} HaltedStays(m: Machine, n: nat)
    requires m.active.None?
    ensures Steps(m, n) == m
    decreases n
  {
    if n > 0 { HaltedStays(m, n - 1); }
  }

  /** sync_get: the trampoline runs until no handle is active, then reads the root's promise.
      It terminates, and its answer is that of the direct call. */
  method SyncGet(task: Code, args: Env) returns (r: Result)
    ensures r == Eval(task, args)
  {
    var m := Start(task, args);
    ghost var n := SyncGetRuns(task, args);
    ghost var i := 0;
    while m.active.Some?
      invariant i <= n && m == Steps(Start(task, args), i)
      decreases n - i
    {
      StepsAdd(Start(task, args), i, 1);
      m := Step(m);
      i := i + 1;
    }
    StepsAdd(Start(task, args), i, n - i);
    HaltedStays(m, n - i);
    var root := m.frames[0];
    r := if root.exception.Some? then Exception(root.exception.value) else Value(root.result.value);
  }

  // ---- One active frame, each await resumed once, in every state ----

  ghost predicate Finished(f: Frame)
  {
    f.done && (f.result.Some? || f.exception.Some?) && f.resumes == f.awaits + 1
  }

  /** Frame `i` of the chain: alive, awaited by the one before it, and unless it is the last one
      waiting for the one after it, with every earlier await resumed exactly once. */
  ghost predicate LinkOk(m: Machine, chain: seq<nat>, i: nat)
    requires i < |chain|
  {
    && chain[i] in m.frames && !m.frames[chain[i]].done && chain[i] < m.next
    && m.frames[chain[i]].continuation == (if i == 0 then None else Some(chain[i - 1]))
    && (i < |chain| - 1 ==>
          && m.frames[chain[i]].waiting.Some? && m.frames[chain[i]].waiting.value.child == chain[i + 1]
          && m.frames[chain[i]].resumes == m.frames[chain[i]].awaits)
  }

  ghost predicate Chain(m: Machine, chain: seq<nat>)
  {
    && |chain| > 0 && m.active == Some(chain[|chain| - 1])
    && (forall i: nat :: i < |chain| ==> LinkOk(m, chain, i))
    && (forall i, j :: 0 <= i < j < |chain| ==> chain[i] < chain[j])   // a child's handle is the newer one
    && chain[0] == 0 && chain[|chain| - 1] in m.frames
    && m.frames[chain[|chain| - 1]].resumes == m.frames[chain[|chain| - 1]].awaits + 1
  }

  /** The frames alive are the chain of awaiting coroutines and, between its final suspension and
      its awaiter's resumption, one finished child. */
  ghost predicate Live(m: Machine, chain: seq<nat>)
  {
    Chain(m, chain) &&
    match m.frames[chain[|chain| - 1]].waiting
    case None => forall x :: x in m.frames <==> x in chain
    case Some(w) => w.child in m.frames && w.child !in chain && w.child < m.next && Finished(m.frames[w.child])
                    && forall x :: x in m.frames <==> x in chain || x == w.child
  }

  ghost predicate Halted(m: Machine)
  {
    m.active.None? && m.frames.Keys == {0} && Finished(m.frames[0])
  }

  ghost predicate Quiet(m: Machine, chain: seq<nat>)
  {
    Live(m, chain) && m.frames[chain[|chain| - 1]].waiting.None?
  }

  ghost predicate SameLinks(f: Frame, g: Frame)
  {
    f.continuation == g.continuation && f.awaits == g.awaits && f.resumes == g.resumes
  }

  lemma {:induction false} UpdateTop(m: Machine, chain: seq<nat>, f: Frame)
    requires Quiet(m, chain) && !f.done && f.waiting.None? && SameLinks(f, m.frames[chain[|chain| - 1]])
    ensures Quiet(Update(m, chain[|chain| - 1], f), chain)
  {
    var m' := Update(m, chain[|chain| - 1], f);
    forall i: nat | i < |chain|
      ensures LinkOk(m', chain, i)
    {
      assert LinkOk(m, chain, i);
    }
  }

  lemma {:induction false} FinishRoot(m: Machine, chain: seq<nat>, f: Frame)
    requires Quiet(m, chain) && |chain| == 1 && (f.result.Some? || f.exception.Some?)
    requires SameLinks(f, m.frames[chain[|chain| - 1]])
    ensures Halted(Finish(m, chain[|chain| - 1], f))
  {
    assert LinkOk(m, chain, 0);
  }

  lemma {:induction false} FinishChildFrames(m: Machine, chain: seq<nat>, f: Frame)
    requires Quiet(m, chain) && |chain| > 1 && (f.result.Some? || f.exception.Some?)
    requires SameLinks(f, m.frames[chain[|chain| - 1]])
    ensures var k := |chain| - 1; var p := chain[k - 1];
      && p in m.frames && p != chain[k]
      && Finish(m, chain[k], f) ==
         Machine(m.frames[chain[k] := f.(done := true, stack := [])]
                         [p := m.frames[p].(resumes := m.frames[p].resumes + 1)],
                 m.next, Some(p))
  {
    assert LinkOk(m, chain, |chain| - 1) && LinkOk(m, chain, |chain| - 2);
  }

  lemma {:induction false} FinishChildChain(m: Machine, chain: seq<nat>, f: Frame)
    requires Quiet(m, chain) && |chain| > 1 && (f.result.Some? || f.exception.Some?)
    requires SameLinks(f, m.frames[chain[|chain| - 1]])
    ensures Chain(Finish(m, chain[|chain| - 1], f), chain[..|chain| - 1])
  {
    hide Finish;
    FinishChildFrames(m, chain, f);
    var k := |chain| - 1;
    var m', c := Finish(m, chain[k], f), chain[..k];
    assert LinkOk(m, chain, k - 1);
    forall i: nat | i < k
      ensures LinkOk(m', c, i)
    {
      assert LinkOk(m, chain, i);
    }
  }

  lemma {:induction false} FinishTop(m: Machine, chain: seq<nat>, f: Frame)
    requires Quiet(m, chain) && (f.result.Some? || f.exception.Some?)
    requires SameLinks(f, m.frames[chain[|chain| - 1]])
    ensures var m', k := Finish(m, chain[|chain| - 1], f), |chain| - 1;
      if k == 0 then Halted(m') else Live(m', chain[..k])
  {
    var k := |chain| - 1;
    if k == 0 {
      FinishRoot(m, chain, f);
    } else {
      hide Finish, Chain;
      FinishChildFrames(m, chain, f);
      FinishChildChain(m, chain, f);
      FinishedChildAlone(m, chain);
      assert chain == chain[..k] + [chain[k]];
    }
  }

  lemma FinishedChildAlone(m: Machine, chain: seq<nat>)
    requires Quiet(m, chain) && |chain| > 1
    ensures var k := |chain| - 1;
      && chain[k] !in chain[..k] && chain[k] < m.next
      && m.frames[chain[k]].resumes == m.frames[chain[k]].awaits + 1
      && chain[k - 1] in m.frames && m.frames[chain[k - 1]].waiting.Some?
      && m.frames[chain[k - 1]].waiting.value.child == chain[k]
  {
    assert LinkOk(m, chain, |chain| - 1) && LinkOk(m, chain, |chain| - 2);
  }

  lemma {:induction false} RaiseTop(m: Machine, chain: seq<nat>, f: Frame, e: int)
    requires Quiet(m, chain) && !f.done && f.waiting.None? && SameLinks(f, m.frames[chain[|chain| - 1]])
    ensures var m', k := Raise(m, chain[|chain| - 1], f, e), |chain| - 1;
      Live(m', chain) || (if k == 0 then Halted(m') else Live(m', chain[..k]))
  {
    hide Finish, Chain, Halted;
    var rest := Unwind(f.stack);
    if rest == [] {
      FinishTop(m, chain, f.(exception := Some(e)));
    } else {
      UpdateTop(m, chain, f.(stack := [Run(rest[0].handler)] + rest[1..], env := f.env[rest[0].x := e]));
    }
  }

  lemma AwaitFrames(m: Machine, h: nat, f: Frame, x: string, task: Code, args: Env)
    requires h in m.frames && h != m.next
    ensures BeginAwait(m, h, f, x, task, args) == Machine(
      m.frames[h := f.(waiting := Some(Waiting(x, m.next)), awaits := f.awaits + 1)]
              [m.next := NewFrame(task, args).(continuation := Some(h), resumes := 1)], m.next + 1, Some(m.next))
  {
    var frames: map<nat, Frame> := m.frames[h := f.(waiting := Some(Waiting(x, m.next)), awaits := f.awaits + 1)];
    var c := NewFrame(task, args).(continuation := Some(h));
    assert frames[m.next := c][m.next := c.(resumes := 1)] == frames[m.next := c.(resumes := 1)];
  }

  lemma {:induction false} AwaitLink(m: Machine, chain: seq<nat>, m': Machine, f: Frame, g: Frame, c: Frame, i: nat)
    requires Quiet(m, chain) && SameLinks(f, m.frames[chain[|chain| - 1]]) && i <= |chain|
    requires g == f.(waiting := g.waiting, awaits := f.awaits + 1) && !f.done
    requires g.waiting.Some? && g.waiting.value.child == m.next
    requires c.continuation == Some(chain[|chain| - 1]) && !c.done
    requires m' == Machine(m.frames[chain[|chain| - 1] := g][m.next := c], m.next + 1, Some(m.next))
    ensures LinkOk(m', chain + [m.next], i)
    ensures i < |chain| ==> chain[i] < m.next
  {
    if i < |chain| { assert LinkOk(m, chain, i); }
    assert LinkOk(m, chain, |chain| - 1);
  }

  lemma {:induction false} AwaitTop(m: Machine, chain: seq<nat>, f: Frame, x: string, task: Code, args: Env)
    requires Quiet(m, chain) && !f.done && f.waiting.None? && SameLinks(f, m.frames[chain[|chain| - 1]])
    ensures Live(BeginAwait(m, chain[|chain| - 1], f, x, task, args), chain + [m.next])
  {
    hide LinkOk, BeginAwait;
    var h, child, c := chain[|chain| - 1], m.next, chain + [m.next];
    TopFacts(m, chain);
    assert h != child by { LinkFresh(m, chain); }
    AwaitFrames(m, h, f, x, task, args);
    var m' := BeginAwait(m, h, f, x, task, args);
    forall i: nat | i < |c|
      ensures LinkOk(m', c, i) && (i < |chain| ==> chain[i] < child)
    {
      AwaitLink(m, chain, m', f, m'.frames[h], m'.frames[child], i);
    }
    assert Chain(m', c);
    forall x
      ensures x in m'.frames <==> x in c
    {
      assert x in m'.frames <==> x in m.frames || x == child;
    }
  }

  lemma LinkFresh(m: Machine, chain: seq<nat>)
    requires Chain(m, chain)
    ensures chain[|chain| - 1] < m.next
  {
    assert LinkOk(m, chain, |chain| - 1);
  }

  /** Destroying the finished child leaves its awaiter alone at the end of the chain. */
  lemma {:induction false} ResumeTop(m: Machine, chain: seq<nat>)
    requires Live(m, chain) && m.frames[chain[|chain| - 1]].waiting.Some?
    ensures var h := chain[|chain| - 1]; var f := m.frames[h];
      Quiet(m.(frames := (m.frames - {f.waiting.value.child})[h := f.(waiting := None)]), chain)
  {
    var h := chain[|chain| - 1];
    var f := m.frames[h];
    var m' := m.(frames := (m.frames - {f.waiting.value.child})[h := f.(waiting := None)]);
    forall i: nat | i < |chain|
      ensures LinkOk(m', chain, i)
    {
      assert LinkOk(m, chain, i);
    }
  }

  ghost predicate Sound(m: Machine)
  {
    Halted(m) || exists chain :: Live(m, chain)
  }

  lemma TopFacts(m: Machine, chain: seq<nat>)
    requires Live(m, chain)
    ensures var h := chain[|chain| - 1];
      && m.active == Some(h) && h in m.frames && !m.frames[h].done
      && (m.frames[h].waiting.Some? ==>
            var c := m.frames[h].waiting.value.child; c in m.frames && c != h && Finished(m.frames[c]))
  {
    assert LinkOk(m, chain, |chain| - 1);
  }

  lemma {:induction false} ResumeKeepsSound(m: Machine, chain: seq<nat>)
    requires Live(m, chain) && m.frames[chain[|chain| - 1]].waiting.Some?
    ensures Sound(Step(m))
  {
    TopFacts(m, chain);
    ResumeTop(m, chain);
    hide Chain, Finish, Raise, Halted, Live;
    var h := chain[|chain| - 1];
    var f := m.frames[h];
    var Waiting(x, child) := f.waiting.value;
    var c, g := m.frames[child], f.(waiting := None);
    var m' := m.(frames := (m.frames - {child})[h := g]);
    if c.exception.Some? {
      Overwritten(m.(frames := m.frames - {child}), h, g, g, Threw(c.exception.value, g.env));
      RaiseTop(m', chain, g, c.exception.value);
      assert Step(m) == Raise(m', h, g, c.exception.value);
    } else {
      var g' := g.(env := f.env[x := c.result.value]);
      UpdateTop(m', chain, g');
      assert m'.frames[h := g'] == (m.frames - {child})[h := g'];
      assert Step(m) == Update(m', h, g');
    }
  }

  /** A statement that neither transfers control nor raises changes only its own frame. */
  lemma LocalStatement(m: Machine, h: nat) returns (g: Frame)
    requires m.active == Some(h) && h in m.frames && !m.frames[h].done
    requires m.frames[h].waiting.None? && m.frames[h].stack != []
    requires var item := m.frames[h].stack[0]; item.Catch? || !Transfers(item.code)
    ensures Step(m) == Update(m, h, g) && SameLinks(g, m.frames[h]) && !g.done && g.waiting.None?
  {
    g := Step(m).frames[h];
  }

  predicate Transfers(c: Code)
  {
    c.Throw? || c.Return? || c.Await?
  }

  lemma TransferStatement(m: Machine, h: nat, c: Code)
    requires m.active == Some(h) && h in m.frames && m.frames[h].waiting.None?
    requires m.frames[h].stack != [] && m.frames[h].stack[0] == Run(c) && Transfers(c)
    ensures var f := m.frames[h]; var f' := f.(stack := f.stack[1..]);
      Step(m) == if c.Throw? then Raise(m, h, f', c.e(f.env))
                 else if c.Return? then Finish(m, h, f'.(result := Some(c.e(f.env))))
                 else BeginAwait(m, h, f', c.x, c.task, c.args(f.env))
  {
    hide Raise, Finish, BeginAwait;
  }

  lemma FallOffEnd(m: Machine, h: nat)
    requires m.active == Some(h) && h in m.frames && m.frames[h].waiting.None? && m.frames[h].stack == []
    ensures Step(m) == Finish(m, h, m.frames[h].(result := Some(0)))
  {
    hide Finish;
  }

  lemma {:induction false} RunKeepsSound(m: Machine, chain: seq<nat>)
    requires Quiet(m, chain)
    ensures Sound(Step(m))
  {
    TopFacts(m, chain);
    hide Chain, Finish, Raise, Halted, Live, BeginAwait, Step, Update;
    var h := chain[|chain| - 1];
    var f := m.frames[h];
    if f.stack == [] {
      FallOffEnd(m, h);
      FinishTop(m, chain, f.(result := Some(0)));
    } else if f.stack[0].Run? && Transfers(f.stack[0].code) {
      var c, f' := f.stack[0].code, f.(stack := f.stack[1..]);
      TransferStatement(m, h, c);
      if c.Throw? {
        RaiseTop(m, chain, f', c.e(f.env));
      } else if c.Return? {
        FinishTop(m, chain, f'.(result := Some(c.e(f.env))));
      } else {
        AwaitTop(m, chain, f', c.x, c.task, c.args(f.env));
      }
    } else {
      var g := LocalStatement(m, h);
      UpdateTop(m, chain, g);
    }
  }

  lemma {:induction false} StepKeepsSound(m: Machine)
    requires Sound(m)
    ensures Sound(Step(m))
  {
    if !Halted(m) {
      var chain :| Live(m, chain);
      hide Live, Step, Halted;
      if m.frames[chain[|chain| - 1]].waiting.Some? { ResumeKeepsSound(m, chain); } else { RunKeepsSound(m, chain); }
    }
  }

  lemma {:induction false} StepsKeepSound(m: Machine, n: nat)
    requires Sound(m)
    ensures Sound(Steps(m, n))
    decreases n
  {
    if n > 0 {
      StepKeepsSound(m);
      StepsKeepSound(Step(m), n - 1);
    }
  }

  /** In every state of every sync_get: one frame is active, every other live frame waits for the
      next one of the chain and has been resumed once for each earlier await, a finished frame is
      never resumed, and frames are destroyed once their result is taken. */
  lemma OneActiveFrame(task: Code, args: Env, n: nat)
    ensures Sound(Steps(Start(task, args), n))
  {
    assert LinkOk(Start(task, args), [0], 0);
    assert Live(Start(task, args), [0]);
    StepsKeepSound(Start(task, args), n);
  }

  // ---- The recursive chain ----

  /** create_chain(depth), its recursion unfolded. */
  function CreateChain(depth: int): Code
    decreases if depth <= 0 then 0 else depth
  {
    if depth <= 0 then Return(env => 42)
    else Seq(Await("result", CreateChain(depth - 1), env => map[]), Return(env => Get(env, "result") + 1))
  }

  function ChainResult(depth: int): int
  {
    42 + if depth <= 0 then 0 else depth
  }

  lemma AwaitThenReturn(x: string, task: Code, args: Env -> Env, e: Env -> int, env: Env)
    ensures var r := Eval(task, args(env));
      Exec(Seq(Await(x, task, args), Return(e)), env) ==
        if r.Value? then Returned(e(env[x := r.value]), env[x := r.value]) else Threw(r.error, env)
  {
    var r := Eval(task, args(env));
    assert Exec(Await(x, task, args), env) == if r.Value? then Normal(env[x := r.value]) else Threw(r.error, env);
  }

  lemma {:induction false} ChainValue(depth: int, args: Env)
    ensures Eval(CreateChain(depth), args) == Value(ChainResult(depth))
    decreases if depth <= 0 then 0 else depth
  {
    if depth > 0 {
      ChainValue(depth - 1, map[]);
      AwaitThenReturn("result", CreateChain(depth - 1), env => map[], env => Get(env, "result") + 1, args);
    }
  }

  /** A chain of any depth computes 42 + depth and leaves no frame but the root. */
  lemma ChainRuns(depth: int) returns (n: nat)
    ensures var m := Steps(Start(CreateChain(depth), map[]), n);
      m.active.None? && m.frames.Keys == {0} && m.frames[0].result == Some(ChainResult(depth))
  {
    n := SyncGetRuns(CreateChain(depth), map[]);
    ChainValue(depth, map[]);
  }

  /** An awaiting try block catches whatever its task throws, and only then runs its handler. */
  lemma CaughtAcrossAwait(task: Code, args: Env -> Env, e: Env -> int, recover: Env -> int, env: Env)
    ensures var r := Eval(task, args(env));
      Eval(Try(Seq(Await("result", task, args), Return(e)), "error", Return(recover)), env) ==
        Value(if r.Value? then e(env["result" := r.value]) else recover(env["error" := r.error]))
  {
    AwaitThenReturn("result", task, args, e, env);
    var body, r := Seq(Await("result", task, args), Return(e)), Eval(task, args(env));
    if r.Exception? {
      assert Exec(Return(recover), env["error" := r.error])
        == Returned(recover(env["error" := r.error]), env["error" := r.error]);
    }
    var o := Exec(Try(body, "error", Return(recover)), env);
    assert o.Returned? && o.value == if r.Value? then e(env["result" := r.value]) else recover(env["error" := r.error]);
  }

  // ---- Locals ----

  /** A local reads back the value last assigned to it, and every other local is as before. */
  lemma AssignedLocal(x: string, e: Env -> int, y: string, env: Env)
    ensures Eval(Seq(Assign(x, e), Return(after => Get(after, y))), env) ==
      Value(if y == x then e(env) else if y in env then env[y] else 0)
  {
    var end: Code := Return(after => Get(after, y));
    InOrder(Assign(x, e), end, env);
    assert Exec(Assign(x, e), env) == Normal(env[x := e(env)]);
    assert Exec(end, env[x := e(env)]).value == Get(env[x := e(env)], y);
  }

  lemma InOrder(a: Code, b: Code, env: Env)
    ensures var o := Exec(a, env); Exec(Seq(a, b), env) == if o.Normal? then Exec(b, o.env) else o
  {
  }

  /** A condition chooses its branch, a throw ends the task whatever follows it, and a body that runs
      off its end returns nothing. */
  lemma BranchesAndThrows(cond: Env -> bool, a: Code, b: Code, e: Env -> int, env: Env)
    ensures Eval(If(cond, a, b), env) == if cond(env) then Eval(a, env) else Eval(b, env)
    ensures Eval(Seq(Throw(e), a), env) == Exception(e(env))
    ensures Eval(Seq(Skip, a), env) == Eval(a, env) && Eval(Skip, env) == Value(0)
  {
    InOrder(Throw(e), a, env);
    InOrder(Skip, a, env);
    assert Exec(Throw(e), env) == Threw(e(env), env);
  }

  /** total += co_await task(args), whose operand is evaluated before the total is read. */
  function AddAwaited(task: Code, args: Env): Code
  {
    Seq(Await("bytes", task, env => args), Assign("total", env => Get(env, "total") + Get(env, "bytes")))
  }

  lemma AddAwaitedRuns(task: Code, args: Env, env: Env)
    ensures var r, o := Eval(task, args), Exec(AddAwaited(task, args), env);
      if r.Value? then o.Normal? && Get(o.env, "total") == Get(env, "total") + r.value
      else o == Threw(r.error, env)
  {
    var r := Eval(task, args);
    var first := Await("bytes", task, _ => args);
    assert Exec(first, env) == if r.Value? then Normal(env["bytes" := r.value]) else Threw(r.error, env);
  }

  datatype Job = Job(task: Code, args: Env)

  /** Await the jobs in turn and return the total. */
  function AddAll(jobs: seq<Job>): Code
  {
    if jobs == [] then Return(env => Get(env, "total"))
    else Seq(AddAwaited(jobs[0].task, jobs[0].args), AddAll(jobs[1..]))
  }

  /** multi_pipeline, for any jobs: a local total, each job awaited and added to it. */
  function MultiPipeline(jobs: seq<Job>): Code
  {
    Seq(Assign("total", env => 0), AddAll(jobs))
  }

  /** `total` and the values of the jobs, or the first exception. */
  function TotalOf(jobs: seq<Job>, total: int): Result
  {
    if jobs == [] then Value(total)
    else
      var r := Eval(jobs[0].task, jobs[0].args);
      if r.Value? then TotalOf(jobs[1..], total + r.value) else r
  }

  lemma {:induction false} AddAllRuns(jobs: seq<Job>, env: Env)
    ensures Eval(AddAll(jobs), env) == TotalOf(jobs, Get(env, "total"))
  {
    var code := AddAll(jobs);
    if jobs == [] {
      assert Exec(code, env) == Returned(Get(env, "total"), env);
    } else {
      var first, o := AddAwaited(jobs[0].task, jobs[0].args), Exec(AddAwaited(jobs[0].task, jobs[0].args), env);
      AddAwaitedRuns(jobs[0].task, jobs[0].args, env);
      InOrder(first, AddAll(jobs[1..]), env);
      hide Get, AddAwaited;
      if o.Normal? { AddAllRuns(jobs[1..], o.env); }
    }
  }

  /** The machine running multi_pipeline ends with the root frame alone, holding the sum of the
      results of the jobs, or the exception of the first one that throws. */
  lemma MultiPipelineRuns(jobs: seq<Job>, env: Env) returns (n: nat)
    ensures Eval(MultiPipeline(jobs), env) == TotalOf(jobs, 0)
    ensures var m := Steps(Start(MultiPipeline(jobs), env), n);
      && m.active.None? && m.frames.Keys == {0}
      && (match TotalOf(jobs, 0)
          case Value(v) => m.frames[0].result == Some(v) && m.frames[0].exception.None?
          case Exception(e) => m.frames[0].exception == Some(e))
  {
    var start: Code := Assign("total", env => 0);
    assert Exec(start, env) == Normal(env["total" := 0]);
    InOrder(start, AddAll(jobs), env);
    AddAllRuns(jobs, env["total" := 0]);
    n := SyncGetRuns(MultiPipeline(jobs), env);
  }

  /** The three jobs of the source: the sum if all return, else the first exception. */
  lemma ThreeJobs(a: Job, b: Job, c: Job)
    ensures var x, y, z := Eval(a.task, a.args), Eval(b.task, b.args), Eval(c.task, c.args);
      TotalOf([a, b, c], 0) ==
        if x.Exception? then x else if y.Exception? then y else if z.Exception? then z
        else Value(x.value + y.value + z.value)
  {
    hide Eval, TotalOf;
    var x, y := Eval(a.task, a.args), Eval(b.task, b.args);
    TotalStep(a, [b, c], 0);
    if x.Value? {
      TotalStep(b, [c], x.value);
      if y.Value? { TotalStep(c, [], x.value + y.value); }
    }
    assert [a] + [b, c] == [a, b, c] && [b] + [c] == [b, c] && [c] + [] == [c];
  }

  lemma TotalStep(job: Job, rest: seq<Job>, total: int)
    ensures var r := Eval(job.task, job.args);
      TotalOf([job] + rest, total) == if r.Value? then TotalOf(rest, total + r.value) else r
    ensures rest == [] && Eval(job.task, job.args).Value? ==>
      TotalOf([job] + rest, total) == Value(total + Eval(job.task, job.args).value)
  {
    assert ([job] + rest)[1..] == rest;
  }
}
