/** The ABA run. It breaks the untagged stack, and it breaks a tagged one as soon as the number of
    CASes that overtake a pop reaches the number of tags: the bound cannot be weakened. */
module AbaProblem {
  import opened Bits
  import opened TreiberStack

  type Stack = State<int>

  ghost predicate RunsTo(s: Stack, s': Stack)
  {
    exists steps: seq<Step<int>> :: ValidRun(s, steps) && After(s, steps) == s'
  }

  lemma RunsNowhere(s: Stack)
    ensures RunsTo(s, s)
  {
    var steps: seq<Step<int>> := [];
    assert ValidRun(s, steps) && After(s, steps) == s;
  }

  lemma {:induction false} RunAppend(s: Stack, steps: seq<Step<int>>, step: Step<int>)
    requires ValidRun(s, steps) && Enabled(After(s, steps), step)
    ensures ValidRun(s, steps + [step]) && After(s, steps + [step]) == Do(After(s, steps), step)
    decreases |steps|
  {
    if steps == [] {
      assert (steps + [step])[1..] == [];
    } else {
      assert (steps + [step])[1..] == steps[1..] + [step];
      RunAppend(Do(s, steps[0]), steps[1..], step);
    }
  }

  lemma OneMore(s: Stack, s': Stack, step: Step<int>)
    requires RunsTo(s, s') && Enabled(s', step)
    ensures RunsTo(s, Do(s', step))
  {
    var steps: seq<Step<int>> :| ValidRun(s, steps) && After(s, steps) == s';
    RunAppend(s, steps, step);
  }

  /** The state after a whole push (pop) by one idle thread with no interference. */
  function PushDone(s: Stack, v: int, addr: Addr): Stack
    requires s.modulus >= 1
  {
    s.(head := Head(addr, Rem(s.cas + 1, s.modulus)), heap := s.heap[addr := Node(v, At(s.list, 0))],
       list := [addr] + s.list, cas := s.cas + 1, log := s.log + [Pushed(v)], invoked := s.invoked + [v])
  }

  function PopDone(s: Stack): Stack
    requires s.modulus >= 1 && s.list != [] && s.list[0] in s.heap
  {
    var v := s.heap[s.list[0]].data;
    s.(head := Head(At(s.list, 1), Rem(s.cas + 1, s.modulus)), heap := s.heap - {s.list[0]},
       list := s.list[1..], cas := s.cas + 1, log := s.log + [Popped(v)], returned := s.returned[|s.log| := v])
  }

  predicate HeadOk(s: Stack)
  {
    s.modulus >= 1 && s.head == Head(At(s.list, 0), Rem(s.cas, s.modulus))
  }

  /** The pusher has linked its node and is about to try its CAS. */
  function LinkedPush(s: Stack, t: nat, v: int, addr: Addr): Stack
    requires t < |s.threads|
  {
    s.(threads := s.threads[t := PushLinked(addr, v, s.head)], heap := s.heap[addr := Node(v, s.head.ptr)],
      invoked := s.invoked + [v])
  }

  lemma {:induction false} PushToCas(init: Stack, s: Stack, t: nat, v: int, addr: Addr)
    requires RunsTo(init, s) && HeadOk(s)
    requires t < |s.threads| && s.threads[t].Idle? && addr != 0 && addr !in s.heap
    ensures RunsTo(init, LinkedPush(s, t, v, addr))
  {
    hide Rem, HeadOk, RunsTo;
    assert s.modulus >= 1 by { HeadModulus(s); }
    var s1 := Do(s, Alloc(t, v, addr));
    OneMore(init, s, Alloc(t, v, addr));
    var s2 := Do(s1, PushLoad(t));
    OneMore(init, s1, PushLoad(t));
    OneMore(init, s2, PushLink(t));
    assert Do(s2, PushLink(t)) == LinkedPush(s, t, v, addr);
  }

  lemma HeadModulus(s: Stack)
    requires HeadOk(s)
    ensures s.modulus >= 1
  {
  }

  lemma {:induction false} PushAlone(init: Stack, s: Stack, t: nat, v: int, addr: Addr)
    requires RunsTo(init, s) && HeadOk(s)
    requires t < |s.threads| && s.threads[t].Idle? && addr != 0 && addr !in s.heap
    ensures RunsTo(init, PushDone(s, v, addr))
  {
    hide Rem, RunsTo;
    RemShift(s.cas, 1, s.modulus);
    PushToCas(init, s, t, v, addr);
    var s3 := LinkedPush(s, t, v, addr);
    OneMore(init, s3, PushCas(t, false));
    assert s.threads[t := Idle] == s.threads;
    assert Do(s3, PushCas(t, false)) == PushDone(s, v, addr);
  }

  ghost predicate PopReady(s: Stack, t: nat)
  {
    && HeadOk(s) && t < |s.threads| && s.threads[t].Idle?
    && s.list != [] && s.list[0] != 0 && s.list[0] in s.heap && s.heap[s.list[0]].next == At(s.list, 1)
  }

  lemma {:induction false} PopToCas(init: Stack, s: Stack, t: nat)
    requires RunsTo(init, s) && PopReady(s, t)
    ensures RunsTo(init, s.(
              threads := s.threads[t := Unlinked(s.list[0], |s.log|)],
              head := Head(At(s.list, 1), Rem(s.cas + 1, s.modulus)), list := s.list[1..], cas := s.cas + 1,
              log := s.log + [Popped(s.heap[s.list[0]].data)]))
  {
    hide Rem;
    RemShift(s.cas, 1, s.modulus);
    var s1 := Do(s, PopLoad(t));
    OneMore(init, s, PopLoad(t));
    var s2 := Do(s1, PopReadNext(t, 0));
    OneMore(init, s1, PopReadNext(t, 0));
    OneMore(init, s2, PopCas(t, false));
  }

  lemma {:induction false} PopAlone(init: Stack, s: Stack, t: nat)
    requires RunsTo(init, s) && PopReady(s, t)
    ensures RunsTo(init, PopDone(s))
  {
    hide Rem;
    PopToCas(init, s, t);
    var s3 := s.(
      threads := s.threads[t := Unlinked(s.list[0], |s.log|)],
      head := Head(At(s.list, 1), Rem(s.cas + 1, s.modulus)), list := s.list[1..], cas := s.cas + 1,
      log := s.log + [Popped(s.heap[s.list[0]].data)]);
    var s4 := Do(s3, ReadData(t));
    OneMore(init, s3, ReadData(t));
    OneMore(init, s4, Delete(t));
    assert Do(s4, Delete(t)).threads == s.threads;
  }

  /** Push and pop one node `n` times: two CASes each time, everything else as before. */
  lemma {:induction false} Churn(init: Stack, s: Stack, t: nat, addr: Addr, n: nat) returns (s': Stack)
    requires RunsTo(init, s) && HeadOk(s) && t < |s.threads| && s.threads[t].Idle? && addr != 0 && addr !in s.heap
    ensures RunsTo(init, s') && HeadOk(s') && s'.modulus == s.modulus && s'.cas == s.cas + 2 * n
    ensures s'.list == s.list && s'.heap == s.heap && s'.threads == s.threads
    decreases n
  {
    hide Rem;
    s' := s;
    if n > 0 {
      var s1 := PushDone(s, 0, addr);
      PushAlone(init, s, t, 0, addr);
      PopAlone(init, s1, t);
      var s2 := PopDone(s1);
      assert s2.list == s.list && s2.heap == s.heap;
      s' := Churn(init, s2, t, addr, n - 1);
    }
  }

  lemma {:induction false} TwoNodes(init: Stack) returns (s: Stack)
    requires Init(init) && |init.threads| >= 2
    ensures RunsTo(init, s) && HeadOk(s) && s.modulus == init.modulus && s.cas == 2 && s.threads == init.threads
    ensures s.list == [1, 2] && s.heap == map[2 := Node(20, 0), 1 := Node(10, 2)]
  {
    RunsNowhere(init);
    RemSmall(0, init.modulus);
    PushAlone(init, init, 0, 20, 2);
    var s1 := PushDone(init, 20, 2);
    PushAlone(init, s1, 0, 10, 1);
    s := PushDone(s1, 10, 1);
  }

  lemma {:induction false} PopBoth(init: Stack, s: Stack) returns (s': Stack)
    requires RunsTo(init, s) && HeadOk(s) && |s.threads| >= 2 && s.threads[1].Idle?
    requires s.list == [1, 2] && s.heap == map[2 := Node(20, 0), 1 := Node(10, 2)]
    ensures RunsTo(init, s') && HeadOk(s') && s'.modulus == s.modulus && s'.cas == s.cas + 2
    ensures s'.threads == s.threads && s'.list == [] && s'.heap == map[]
  {
    hide Rem;
    PopAlone(init, s, 1);
    var s1 := PopDone(s);
    assert s1.heap == map[2 := Node(20, 0)];
    PopAlone(init, s1, 1);
    s' := PopDone(s1);
  }

  /** Thread 0 loads head (node 1) and its successor (node 2), then sleeps while thread 1 removes
      and frees both nodes. */
  lemma {:induction false} SleepingPop(init: Stack) returns (s: Stack)
    requires Init(init) && |init.threads| >= 2
    ensures RunsTo(init, s) && HeadOk(s) && s.modulus == init.modulus && s.cas == 4
    ensures s.threads == init.threads[0 := PopNext(Head(1, Rem(2, s.modulus)), 2, 2)]
    ensures s.list == [] && s.heap == map[]
  {
    hide Rem;
    var s0 := TwoNodes(init);
    var s1 := Do(s0, PopLoad(0));
    OneMore(init, s0, PopLoad(0));
    var s2 := Do(s1, PopReadNext(0, 0));
    OneMore(init, s1, PopReadNext(0, 0));
    s := PopBoth(init, s2);
  }

  ghost predicate Dangling(s: Stack)
  {
    s.head.ptr != 0 && s.head.ptr !in s.heap
  }

  /** Node 1's address comes back under the same tag: the sleeper's CAS installs a freed node. */
  lemma {:induction false} LateCasDangles(init: Stack, s: Stack)
    requires RunsTo(init, s) && |s.threads| >= 2
    requires s.threads[0] == PopNext(s.head, 2, 2) && s.modulus >= 1 && 2 !in s.heap
    ensures exists s' :: RunsTo(init, s') && Dangling(s')
  {
    OneMore(init, s, PopCas(0, false));
    assert Dangling(Do(s, PopCas(0, false)));
  }

  /** Without tags the stack breaks: head ends up on a node that was popped and freed. */
  lemma UntaggedStackBreaks(init: Stack)
    requires Init(init) && |init.threads| >= 2 && init.modulus == 1
    ensures exists s :: RunsTo(init, s) && Dangling(s)
  {
    var s := SleepingPop(init);
    PushAlone(init, s, 1, 30, 1);
    var s1 := PushDone(s, 30, 1);
    LateCasDangles(init, s1);
  }

  /** With `m` tags it breaks when exactly `m` successful CASes overtake the pop. */
  lemma TagBoundIsTight(init: Stack)
    requires Init(init) && |init.threads| >= 2 && init.modulus >= 4 && init.modulus % 2 == 0
    ensures exists s: Stack :: RunsTo(init, s) && Enabled(s, PopCas(0, false)) && s.cas - s.threads[0].at == s.modulus
                        && Dangling(Do(s, PopCas(0, false)))
    ensures exists s :: RunsTo(init, s) && Dangling(s)
  {
    hide Rem;
    var m := init.modulus;
    var s := SleepingPop(init);
    var s1 := Churn(init, s, 1, 3, (m - 4) / 2);
    PushAlone(init, s1, 1, 0, 3);
    var s2 := PushDone(s1, 0, 3);
    PushAlone(init, s2, 1, 30, 1);
    var s3 := PushDone(s2, 30, 1);
    RemStep(2, m);
    LateCasDangles(init, s3);
    assert Dangling(Do(s3, PopCas(0, false)));
  }
}
