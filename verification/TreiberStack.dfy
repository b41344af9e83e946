/** The compare-and-swap stacks: any number of threads, an allocator that may hand out a freed
    address again, and loads through freed nodes that may return anything.

    The head word carries a tag of `modulus` values that every successful CAS advances. The
    tagged stack has modulus 65536; modulus 1 is the untagged stack. One atomic access a step.
    `list`, `cas`, `log`, `returned`, `invoked` and the `arg`, `at` and `ticket` of a thread are
    history: `invoked` are the arguments of all pushes begun, `returned` the results handed out. */
module TreiberStack {
  import opened Bits
  import opened Common

  type Addr = nat   // 0 is the null pointer

  datatype Head = Head(ptr: Addr, tag: nat)

  datatype Node<T> = Node(data: T, next: Addr)

  datatype Op<T> = Pushed(value: T) | Popped(value: T) | FoundEmpty

  datatype Thread<T> =
    | Idle
    | NewNode(node: Addr, arg: T)
    | PushLoaded(node: Addr, arg: T, seen: Head)
    | PushLinked(node: Addr, arg: T, seen: Head)
    | PopLoaded(seen: Head, at: nat)
    | PopNext(seen: Head, at: nat, next: Addr)
    | Unlinked(node: Addr, ticket: nat)
    | HasValue(node: Addr, ticket: nat, value: T)

  datatype State<T> = State(
    modulus: nat, head: Head, heap: map<Addr, Node<T>>, threads: seq<Thread<T>>,
    list: seq<Addr>, cas: nat, log: seq<Op<T>>, returned: map<nat, T>, invoked: seq<T>)

  datatype Step<T> =
    | Alloc(t: nat, value: T, addr: Addr)
    | PushLoad(t: nat) | PushLink(t: nat) | PushCas(t: nat, spurious: bool)
    | PopLoad(t: nat) | PopReadNext(t: nat, garbage: Addr) | PopCas(t: nat, spurious: bool)
    | ReadData(t: nat) | Delete(t: nat)

  predicate Init<T(==)>(s: State<T>)
  {
    && s.modulus >= 1
    && s == State(s.modulus, Head(0, 0), map[], s.threads, [], 0, [], map[], [])
    && forall t | 0 <= t < |s.threads| :: s.threads[t].Idle?
  }

  predicate Enabled<T>(s: State<T>, step: Step<T>)
  {
    step.t < |s.threads| && s.modulus >= 1 &&
    var th := s.threads[step.t];
    match step
    case Alloc(_, _, addr) => th.Idle? && addr != 0 && addr !in s.heap
    case PushLoad(_) => th.NewNode?
    case PushLink(_) => th.PushLoaded? && th.node in s.heap
    case PushCas(_, _) => th.PushLinked? && th.node in s.heap
    case PopLoad(_) => th.Idle?
    case PopReadNext(_, _) => th.PopLoaded?
    case PopCas(_, _) => th.PopNext?
    case ReadData(_) => th.Unlinked? && th.node in s.heap
    case Delete(_) => th.HasValue?
  }

  function With<T>(s: State<T>, t: nat, th: Thread<T>): State<T>
    requires t < |s.threads|
  {
    s.(threads := s.threads[t := th])
  }

  /** A pop that has just loaded `s.head`: done if it is null. */
  function PopEntry<T>(s: State<T>, t: nat): State<T>
    requires t < |s.threads|
  {
    if s.head.ptr == 0 then With(s, t, Idle).(log := s.log + [FoundEmpty])
    else With(s, t, PopLoaded(s.head, s.cas))
  }

  predicate CasSucceeds<T>(s: State<T>, step: Step<T>)
    requires Enabled(s, step) && (step.PushCas? || step.PopCas?)
  {
    s.head == s.threads[step.t].seen && !step.spurious
  }

  function PushWins<T>(s: State<T>, t: nat): State<T>
    requires Enabled(s, PushCas(t, false))
  {
    var th := s.threads[t];
    With(s, t, Idle).(
      head := Head(th.node, Rem(th.seen.tag + 1, s.modulus)), cas := s.cas + 1,
      list := [th.node] + s.list, log := s.log + [Pushed(th.arg)])
  }

  function PopWins<T>(s: State<T>, t: nat): State<T>
    requires Enabled(s, PopCas(t, false))
  {
    var th := s.threads[t];
    var s' := With(s, t, Unlinked(th.seen.ptr, |s.log|)).(
      head := Head(th.next, Rem(th.seen.tag + 1, s.modulus)), cas := s.cas + 1);
    if s.list != [] && s.list[0] in s.heap
    then s'.(list := s.list[1..], log := s.log + [Popped(s.heap[s.list[0]].data)])
    else s'
  }

  function Do<T>(s: State<T>, step: Step<T>): State<T>
    requires Enabled(s, step)
  {
    var t, th := step.t, s.threads[step.t];
    match step
    case Alloc(_, v, addr) =>
      With(s, t, NewNode(addr, v)).(heap := s.heap[addr := Node(v, 0)], invoked := s.invoked + [v])
    case PushLoad(_) => With(s, t, PushLoaded(th.node, th.arg, s.head))
    case PushLink(_) =>
      With(s, t, PushLinked(th.node, th.arg, th.seen))
      .(heap := s.heap[th.node := s.heap[th.node].(next := th.seen.ptr)])
    case PushCas(_, spurious) =>
      if CasSucceeds(s, step) then PushWins(s, t) else With(s, t, PushLoaded(th.node, th.arg, s.head))
    case PopLoad(_) => PopEntry(s, t)
    case PopReadNext(_, garbage) =>
      With(s, t, PopNext(th.seen, th.at, if th.seen.ptr in s.heap then s.heap[th.seen.ptr].next else garbage))
    case PopCas(_, spurious) => if CasSucceeds(s, step) then PopWins(s, t) else PopEntry(s, t)
    case ReadData(_) => With(s, t, HasValue(th.node, th.ticket, s.heap[th.node].data))
    case Delete(_) => With(s, t, Idle).(heap := s.heap - {th.node}, returned := s.returned[th.ticket := th.value])
  }

  // ---- Sequential meaning of a log ----

  /** The stack, top first, after a sequence of operations; None if some result is not the LIFO one. */
  function Replay<T(==)>(log: seq<Op<T>>): Option<seq<T>>
  {
    if log == [] then Some([])
    else
      var before := Replay(log[..|log| - 1]);
      if before.None? then None
      else match log[|log| - 1]
        case Pushed(v) => Some([v] + before.value)
        case Popped(v) => if before.value != [] && before.value[0] == v then Some(before.value[1..]) else None
        case FoundEmpty => if before.value == [] then Some([]) else None
  }

  lemma ReplayAppend<T>(log: seq<Op<T>>, op: Op<T>)
    ensures (log + [op])[..|log|] == log && (log + [op])[|log|] == op
  {
  }

  // ---- Invariant ----

  /** The node a thread has allocated or unlinked and not yet published or freed; 0 if none. */
  function Owned<T>(th: Thread<T>): Addr
  {
    match th
    case NewNode(a, _) => a
    case PushLoaded(a, _, _) => a
    case PushLinked(a, _, _) => a
    case Unlinked(a, _) => a
    case HasValue(a, _, _) => a
    case _ => 0
  }

  function Ticket<T>(th: Thread<T>): int
  {
    if th.Unlinked? || th.HasValue? then th.ticket else -1
  }

  function At(list: seq<Addr>, i: nat): Addr
  {
    if i < |list| then list[i] else 0
  }

  ghost predicate LinkAt<T>(list: seq<Addr>, heap: map<Addr, Node<T>>, i: nat)
  {
    i < |list| ==> list[i] != 0 && list[i] in heap && heap[list[i]].next == At(list, i + 1)
  }

  ghost predicate Linked<T>(list: seq<Addr>, heap: map<Addr, Node<T>>)
  {
    && (forall i: nat :: LinkAt(list, heap, i))
    && (forall i, j :: 0 <= i < j < |list| ==> list[i] != list[j])
  }

  lemma LinkedInHeap<T>(list: seq<Addr>, heap: map<Addr, Node<T>>)
    requires Linked(list, heap)
    ensures forall a :: a in list ==> a in heap && a != 0
  {
    forall i: nat | i < |list|
      ensures list[i] in heap && list[i] != 0
    {
      assert LinkAt(list, heap, i);
    }
  }

  ghost function Values<T>(list: seq<Addr>, heap: map<Addr, Node<T>>): seq<T>
    requires Linked(list, heap)
  {
    LinkedInHeap(list, heap);
    seq(|list|, i requires 0 <= i < |list| => heap[list[i]].data)
  }

  ghost predicate ThreadOk<T>(s: State<T>, th: Thread<T>)
    requires s.modulus >= 1
  {
    && (Owned(th) != 0 ==> Owned(th) in s.heap && Owned(th) !in s.list)
    && match th
       case Idle => true
       case NewNode(a, v) => a != 0 && a in s.heap && s.heap[a].data == v
       case PushLoaded(a, v, _) => a != 0 && a in s.heap && s.heap[a].data == v
       case PushLinked(a, v, seen) => a != 0 && a in s.heap && s.heap[a] == Node(v, seen.ptr)
       case PopLoaded(seen, at) =>
         at <= s.cas && seen.tag == Rem(at, s.modulus) && seen.ptr != 0 && (at == s.cas ==> seen == s.head)
       case PopNext(seen, at, next) =>
         && at <= s.cas && seen.tag == Rem(at, s.modulus) && seen.ptr != 0
         && (at == s.cas ==> seen == s.head && next == At(s.list, 1))
       case Unlinked(a, k) => a != 0 && a in s.heap && k < |s.log| && s.log[k] == Popped(s.heap[a].data)
       case HasValue(a, k, v) => a != 0 && k < |s.log| && s.log[k] == Popped(v)
  }

  ghost predicate ThreadsOk<T>(s: State<T>)
    requires s.modulus >= 1
  {
    forall t :: 0 <= t < |s.threads| ==> ThreadOk(s, s.threads[t])
  }

  ghost predicate Exclusive<T>(threads: seq<Thread<T>>)
  {
    forall t, u :: 0 <= t < u < |threads| ==>
      (Owned(threads[t]) != Owned(threads[u]) || Owned(threads[t]) == 0) &&
      (Ticket(threads[t]) != Ticket(threads[u]) || Ticket(threads[t]) == -1)
  }

  /** No leak: every live node is on the list or owned by a thread. */
  ghost predicate Accounted<T>(s: State<T>)
  {
    forall a :: a in s.heap ==> a in s.list || exists t :: 0 <= t < |s.threads| && Owned(s.threads[t]) == a
  }

  /** Each pop in the log is returned once, or is still in the hands of one thread. */
  ghost predicate ReturnsOk<T>(s: State<T>)
  {
    && (forall k :: k in s.returned ==> k < |s.log| && s.log[k] == Popped(s.returned[k]))
    && (forall t :: 0 <= t < |s.threads| ==> Ticket(s.threads[t]) !in s.returned)
    && (forall k :: 0 <= k < |s.log| && s.log[k].Popped? ==>
          k in s.returned || exists t :: 0 <= t < |s.threads| && Ticket(s.threads[t]) == k)
  }

  ghost predicate Structure<T>(s: State<T>)
  {
    && s.modulus >= 1 && 0 !in s.heap
    && Linked(s.list, s.heap)
    && s.head == Head(At(s.list, 0), Rem(s.cas, s.modulus))
    && Replay(s.log) == Some(Values(s.list, s.heap))
  }

  ghost predicate Inv<T>(s: State<T>)
  {
    Structure(s) && ThreadsOk(s) && Exclusive(s.threads) && Accounted(s) && ReturnsOk(s)
  }

  /** A successful pop CAS with no successful CAS since its head load. */
  ghost predicate Fresh<T>(s: State<T>, step: Step<T>)
    requires Enabled(s, step)
  {
    step.PopCas? && CasSucceeds(s, step) ==> s.threads[step.t].at == s.cas
  }

  // ---- Parts of the invariant that follow from what happens to one thread ----

  ghost predicate OnlyThread<T>(s: State<T>, s': State<T>, t: nat)
  {
    t < |s.threads| == |s'.threads| && forall u :: 0 <= u < |s.threads| && u != t ==> s'.threads[u] == s.threads[u]
  }

  lemma {:induction false} OwnersKept<T>(s: State<T>, s': State<T>, t: nat)
    requires Accounted(s) && OnlyThread(s, s', t)
    requires forall a :: a in s'.heap && a !in s'.list ==>
               Owned(s'.threads[t]) == a || (a in s.heap && a !in s.list && Owned(s.threads[t]) != a)
    ensures Accounted(s')
  {
    forall a | a in s'.heap && a !in s'.list
      ensures exists u :: 0 <= u < |s'.threads| && Owned(s'.threads[u]) == a
    {
      if Owned(s'.threads[t]) != a {
        var u :| 0 <= u < |s.threads| && Owned(s.threads[u]) == a;
        assert Owned(s'.threads[u]) == a;
      }
    }
  }

  lemma {:induction false} TicketsKept<T>(s: State<T>, s': State<T>, t: nat)
    requires ReturnsOk(s) && OnlyThread(s, s', t) && s'.returned == s.returned
    requires s.log <= s'.log
    requires forall k :: |s.log| <= k < |s'.log| && s'.log[k].Popped? ==> Ticket(s'.threads[t]) == k
    requires
      || Ticket(s'.threads[t]) == Ticket(s.threads[t])
      || (Ticket(s.threads[t]) == -1 && Ticket(s'.threads[t]) >= |s.log|)
    ensures ReturnsOk(s')
  {
    forall k | 0 <= k < |s'.log| && s'.log[k].Popped? && k !in s'.returned
      ensures exists u :: 0 <= u < |s'.threads| && Ticket(s'.threads[u]) == k
    {
      if Ticket(s'.threads[t]) != k {
        assert s.log[k] == s'.log[k];
        var u :| 0 <= u < |s.threads| && Ticket(s.threads[u]) == k;
        assert Ticket(s'.threads[u]) == k;
      }
    }
  }

  lemma {:induction false} ListFrame<T>(list: seq<Addr>, heap: map<Addr, Node<T>>, heap': map<Addr, Node<T>>)
    requires Linked(list, heap)
    requires forall a :: a in list && a in heap ==> a in heap' && heap'[a] == heap[a]
    ensures forall a :: a in list ==> a in heap
    ensures Linked(list, heap') && Values(list, heap') == Values(list, heap)
  {
    LinkedInHeap(list, heap);
    forall i: nat
      ensures LinkAt(list, heap', i)
    {
      assert LinkAt(list, heap, i);
    }
  }

  // ---- Steps that leave the list alone ----

  lemma SameOwnerExclusive<T>(threads: seq<Thread<T>>, t: nat, th: Thread<T>)
    requires Exclusive(threads) && t < |threads| && Owned(th) == Owned(threads[t]) && Ticket(th) == Ticket(threads[t])
    ensures Exclusive(threads[t := th])
  {
  }

  lemma {:induction false} LocalStep<T>(s: State<T>, t: nat, th: Thread<T>)
    requires Inv(s) && t < |s.threads|
    requires Owned(th) == Owned(s.threads[t]) && Ticket(th) == Ticket(s.threads[t]) && ThreadOk(s, th)
    ensures Inv(With(s, t, th))
  {
    hide Rem, Replay, Linked, Exclusive;
    var s' := With(s, t, th);
    SameOwnerExclusive(s.threads, t, th);
    assert ThreadsOk(s') by {
      forall u | 0 <= u < |s'.threads|
        ensures ThreadOk(s', s'.threads[u])
      {
        assert ThreadOk(s, s'.threads[u]);
      }
    }
    OwnersKept(s, s', t);
    TicketsKept(s, s', t);
  }

  lemma {:induction false} LogEmpty<T>(s: State<T>, t: nat)
    requires Inv(s) && s.head.ptr == 0 && t < |s.threads|
    ensures Inv(s.(log := s.log + [FoundEmpty]))
  {
    var s' := s.(log := s.log + [FoundEmpty]);
    LinkedInHeap(s.list, s.heap);
    assert s.list == [];
    ReplayAppend(s.log, FoundEmpty);
    forall u | 0 <= u < |s'.threads|
      ensures ThreadOk(s', s'.threads[u])
    {
      assert ThreadOk(s, s.threads[u]);
    }
    TicketsKept(s, s', t);
  }

  lemma {:induction false} AllocKeepsInv<T>(s: State<T>, t: nat, v: T, addr: Addr)
    requires Inv(s) && Enabled(s, Alloc(t, v, addr))
    ensures Inv(Do(s, Alloc(t, v, addr)))
  {
    hide Rem, Replay, Linked;
    var s' := Do(s, Alloc(t, v, addr));
    ListFrame(s.list, s.heap, s'.heap);
    forall u | 0 <= u < |s'.threads|
      ensures ThreadOk(s', s'.threads[u]) && (u != t ==> Owned(s'.threads[u]) != addr)
    {
      assert ThreadOk(s, s.threads[u]);
    }
    OwnersKept(s, s', t);
    TicketsKept(s, s', t);
  }

  lemma {:induction false} PushLinkKeepsThreads<T>(s: State<T>, t: nat)
    requires Inv(s) && Enabled(s, PushLink(t))
    ensures ThreadsOk(Do(s, PushLink(t)))
  {
    hide Rem, Replay, Accounted, ReturnsOk, Structure;
    var s' := Do(s, PushLink(t));
    forall u | 0 <= u < |s'.threads|
      ensures ThreadOk(s', s'.threads[u])
    {
      assert ThreadOk(s, s.threads[u]);
      assert u != t ==> Owned(s.threads[u]) != s.threads[t].node;
    }
  }

  lemma {:induction false} PushLinkKeepsInv<T>(s: State<T>, t: nat)
    requires Inv(s) && Enabled(s, PushLink(t))
    ensures Inv(Do(s, PushLink(t)))
  {
    hide Rem, Replay, Linked, Exclusive;
    var s' := Do(s, PushLink(t));
    assert ThreadOk(s, s.threads[t]);
    PushLinkKeepsThreads(s, t);
    SameOwnerExclusive(s.threads, t, s'.threads[t]);
    hide ThreadsOk, ThreadOk;
    ListFrame(s.list, s.heap, s'.heap);
    OwnersKept(s, s', t);
    TicketsKept(s, s', t);
  }

  lemma {:induction false} DeleteKeepsThreads<T>(s: State<T>, t: nat)
    requires Inv(s) && Enabled(s, Delete(t))
    ensures var s' := Do(s, Delete(t));
      && ThreadsOk(s') && Exclusive(s'.threads)
      && forall u :: 0 <= u < |s'.threads| ==> Ticket(s'.threads[u]) !in s'.returned
  {
    hide Rem, Replay, Accounted, Structure;
    var s', th := Do(s, Delete(t)), s.threads[t];
    assert Ticket(th) == th.ticket;
    forall u | 0 <= u < |s'.threads|
      ensures ThreadOk(s', s'.threads[u]) && Ticket(s'.threads[u]) !in s'.returned
    {
      assert ThreadOk(s, s.threads[u]);
      assert u != t ==> Owned(s.threads[u]) != th.node && Ticket(s.threads[u]) != th.ticket;
    }
  }

  lemma {:induction false} DeleteKeepsReturns<T>(s: State<T>, t: nat)
    requires Inv(s) && Enabled(s, Delete(t))
    ensures ReturnsOk(Do(s, Delete(t))) && s.threads[t].ticket !in s.returned
  {
    hide Rem, Replay, Accounted, Structure, Exclusive;
    var s', th := Do(s, Delete(t)), s.threads[t];
    assert ThreadOk(s, th) && Ticket(th) == th.ticket;
    DeleteKeepsThreads(s, t);
    forall k | 0 <= k < |s'.log| && s'.log[k].Popped? && k !in s'.returned
      ensures exists u :: 0 <= u < |s'.threads| && Ticket(s'.threads[u]) == k
    {
      var u :| 0 <= u < |s.threads| && Ticket(s.threads[u]) == k;
      assert Ticket(s'.threads[u]) == k;
    }
  }

  lemma {:induction false} DeleteKeepsInv<T>(s: State<T>, t: nat)
    requires Inv(s) && Enabled(s, Delete(t))
    ensures Inv(Do(s, Delete(t)))
  {
    hide Rem, Replay, Exclusive, Linked, ThreadsOk, ReturnsOk;
    var s' := Do(s, Delete(t));
    DeletesLiveNode(s, t);
    ListFrame(s.list, s.heap, s'.heap);
    DeleteKeepsThreads(s, t);
    DeleteKeepsReturns(s, t);
    OwnersKept(s, s', t);
  }

  lemma DeletesLiveNode<T>(s: State<T>, t: nat)
    requires Inv(s) && Enabled(s, Delete(t))
    ensures s.threads[t].node in s.heap && s.threads[t].node !in s.list
  {
    assert ThreadOk(s, s.threads[t]);
  }

  // ---- Successful CASes ----

  lemma {:induction false} ConsLinked<T>(a: Addr, list: seq<Addr>, heap: map<Addr, Node<T>>)
    requires Linked(list, heap) && a != 0 && a in heap && a !in list && heap[a].next == At(list, 0)
    ensures Linked([a] + list, heap) && Values([a] + list, heap) == [heap[a].data] + Values(list, heap)
  {
    LinkedInHeap(list, heap);
    forall i: nat
      ensures LinkAt([a] + list, heap, i)
    {
      if i > 0 { assert LinkAt(list, heap, i - 1); }
    }
  }

  lemma {:induction false} TailLinked<T>(list: seq<Addr>, heap: map<Addr, Node<T>>)
    requires Linked(list, heap) && list != []
    ensures Linked(list[1..], heap) && list[0] in heap && list[0] !in list[1..]
    ensures Values(list, heap) == [heap[list[0]].data] + Values(list[1..], heap)
    ensures heap[list[0]].next == At(list, 1)
  {
    LinkedInHeap(list, heap);
    assert LinkAt(list, heap, 0);
    forall i: nat
      ensures LinkAt(list[1..], heap, i)
    {
      assert LinkAt(list, heap, i + 1);
    }
  }

  lemma {:induction false} PushWinsKeepsStructure<T>(s: State<T>, t: nat)
    requires Inv(s) && Enabled(s, PushCas(t, false)) && CasSucceeds(s, PushCas(t, false))
    ensures Structure(PushWins(s, t))
  {
    hide Rem, Linked, Accounted, ReturnsOk, Exclusive;
    var a := s.threads[t].node;
    assert ThreadOk(s, s.threads[t]);
    RemShift(s.cas, 1, s.modulus);
    ConsLinked(a, s.list, s.heap);
    ReplayAppend(s.log, Pushed(s.threads[t].arg));
  }

  lemma {:induction false} PushWinsKeepsThreads<T>(s: State<T>, t: nat)
    requires Inv(s) && Enabled(s, PushCas(t, false)) && CasSucceeds(s, PushCas(t, false))
    ensures ThreadsOk(PushWins(s, t)) && Exclusive(PushWins(s, t).threads)
  {
    hide Rem, Linked, Replay, Accounted, ReturnsOk;
    var s', a := PushWins(s, t), s.threads[t].node;
    forall u | 0 <= u < |s'.threads|
      ensures ThreadOk(s', s'.threads[u])
    {
      assert ThreadOk(s, s.threads[u]);
      assert u != t ==> Owned(s.threads[u]) != a;
    }
  }

  lemma {:induction false} PushWinsKeepsInv<T>(s: State<T>, t: nat)
    requires Inv(s) && Enabled(s, PushCas(t, false)) && CasSucceeds(s, PushCas(t, false))
    ensures Inv(PushWins(s, t))
  {
    hide Rem, Linked, Replay, Structure, Exclusive, ThreadsOk;
    PushWinsKeepsStructure(s, t);
    PushWinsKeepsThreads(s, t);
    var s' := PushWins(s, t);
    OwnersKept(s, s', t);
    TicketsKept(s, s', t);
  }

  /** A fresh CAS swings head to the true successor and takes the true top value. */
  lemma {:induction false} PopWinsExactly<T>(s: State<T>, t: nat)
    requires Inv(s) && Enabled(s, PopCas(t, false)) && CasSucceeds(s, PopCas(t, false)) && Fresh(s, PopCas(t, false))
    ensures Structure(PopWins(s, t))
    ensures s.list != [] && s.threads[t].seen.ptr == s.list[0] && s.list[0] in s.heap && s.list[0] !in s.list[1..]
    ensures PopWins(s, t).list == s.list[1..] && PopWins(s, t).heap == s.heap
    ensures PopWins(s, t).log == s.log + [Popped(s.heap[s.list[0]].data)]
  {
    hide Rem, Exclusive, Accounted, ReturnsOk;
    assert ThreadOk(s, s.threads[t]);
    assert s.list != [] && s.threads[t].seen.ptr == s.list[0];
    RemShift(s.cas, 1, s.modulus);
    TailLinked(s.list, s.heap);
    ReplayAppend(s.log, Popped(s.heap[s.list[0]].data));
  }

  lemma {:induction false} PopWinsKeepsThreads<T>(s: State<T>, t: nat)
    requires Inv(s) && Enabled(s, PopCas(t, false)) && CasSucceeds(s, PopCas(t, false)) && Fresh(s, PopCas(t, false))
    ensures ThreadsOk(PopWins(s, t)) && Exclusive(PopWins(s, t).threads)
  {
    hide Rem, Replay, Accounted, ReturnsOk;
    PopWinsExactly(s, t);
    var s' := PopWins(s, t);
    forall u | 0 <= u < |s'.threads|
      ensures ThreadOk(s', s'.threads[u])
      ensures u != t ==> Owned(s'.threads[u]) != s.list[0] && Ticket(s'.threads[u]) != |s.log|
    {
      assert ThreadOk(s, s.threads[u]);
    }
  }

  lemma {:induction false} PopWinsKeepsInv<T>(s: State<T>, t: nat)
    requires Inv(s) && Enabled(s, PopCas(t, false)) && CasSucceeds(s, PopCas(t, false)) && Fresh(s, PopCas(t, false))
    ensures Inv(PopWins(s, t))
  {
    hide Rem, Replay, Structure, Exclusive, ThreadsOk;
    PopWinsExactly(s, t);
    PopWinsKeepsThreads(s, t);
    var s' := PopWins(s, t);
    assert s.list == [s.list[0]] + s'.list;
    assert 0 !in s.heap by { PositiveAddresses(s); }
    OwnersKept(s, s', t);
    TicketsKept(s, s', t);
  }

  lemma PositiveAddresses<T>(s: State<T>)
    requires Structure(s)
    ensures 0 !in s.heap
  {
  }

  lemma {:induction false} PopEntryKeepsInv<T>(s: State<T>, t: nat)
    requires Inv(s) && t < |s.threads| && (s.threads[t].Idle? || s.threads[t].PopNext?)
    ensures Inv(PopEntry(s, t))
  {
    hide Rem, Replay, Exclusive, Accounted, ReturnsOk, Linked;
    if s.head.ptr == 0 {
      LocalStep(s, t, Idle);
      LogEmpty(With(s, t, Idle), t);
    } else {
      LocalStep(s, t, PopLoaded(s.head, s.cas));
    }
  }

  lemma {:induction false} StepKeepsInv<T>(s: State<T>, step: Step<T>)
    requires Inv(s) && Enabled(s, step) && Fresh(s, step)
    ensures Inv(Do(s, step))
  {
    hide Rem, Replay, Exclusive, Accounted, ReturnsOk;
    var t, th := step.t, s.threads[step.t];
    assert ThreadOk(s, th);
    match step
    case Alloc(_, v, addr) => AllocKeepsInv(s, t, v, addr);
    case PushLoad(_) => LocalStep(s, t, PushLoaded(th.node, th.arg, s.head));
    case PushLink(_) => PushLinkKeepsInv(s, t);
    case PushCas(_, _) =>
      if CasSucceeds(s, step) { PushWinsKeepsInv(s, t); }
      else { LocalStep(s, t, PushLoaded(th.node, th.arg, s.head)); }
    case PopLoad(_) => PopEntryKeepsInv(s, t);
    case PopReadNext(_, garbage) =>
      assert LinkAt(s.list, s.heap, 0);
      LocalStep(s, t, PopNext(th.seen, th.at, if th.seen.ptr in s.heap then s.heap[th.seen.ptr].next else garbage));
    case PopCas(_, _) => if CasSucceeds(s, step) { PopWinsKeepsInv(s, t); } else { PopEntryKeepsInv(s, t); }
    case ReadData(_) => LocalStep(s, t, HasValue(th.node, th.ticket, s.heap[th.node].data));
    case Delete(_) => DeleteKeepsInv(s, t);
  }

  // ---- Runs ----

  predicate ValidRun<T>(s: State<T>, steps: seq<Step<T>>)
    decreases |steps|
  {
    steps == [] || (Enabled(s, steps[0]) && ValidRun(Do(s, steps[0]), steps[1..]))
  }

  function After<T>(s: State<T>, steps: seq<Step<T>>): State<T>
    requires ValidRun(s, steps)
    decreases |steps|
  {
    if steps == [] then s else After(Do(s, steps[0]), steps[1..])
  }

  // ---- Conservation of values ----

  function PushedValues<T>(log: seq<Op<T>>): seq<T>
  {
    if log == [] then []
    else PushedValues(log[..|log| - 1]) + if log[|log| - 1].Pushed? then [log[|log| - 1].value] else []
  }

  function PoppedValues<T>(log: seq<Op<T>>): seq<T>
  {
    if log == [] then []
    else PoppedValues(log[..|log| - 1]) + if log[|log| - 1].Popped? then [log[|log| - 1].value] else []
  }

  /** In a legal history what was pushed is what was popped and what remains, with multiplicity. */
  lemma {:induction false} LegalHistoryConserves<T>(log: seq<Op<T>>)
    requires Replay(log).Some?
    ensures multiset(PushedValues(log)) == multiset(PoppedValues(log)) + multiset(Replay(log).value)
  {
    if log != [] {
      var before := log[..|log| - 1];
      LegalHistoryConserves(before);
      if log[|log| - 1].Popped? {
        var st := Replay(before).value;
        assert st == [st[0]] + st[1..];
      }
    }
  }

  /** The arguments of the pushes still under way. */
  ghost function InFlight<T>(threads: seq<Thread<T>>): multiset<T>
  {
    if threads == [] then multiset{}
    else InFlight(threads[..|threads| - 1]) + Argument(threads[|threads| - 1])
  }

  ghost function Argument<T>(th: Thread<T>): multiset<T>
  {
    if th.NewNode? || th.PushLoaded? || th.PushLinked? then multiset{th.arg} else multiset{}
  }

  /** The results handed out for the first `n` entries of the log. */
  function ReturnedValues<T>(returned: map<nat, T>, n: nat): seq<T>
  {
    if n == 0 then []
    else ReturnedValues(returned, n - 1) + if n - 1 in returned then [returned[n - 1]] else []
  }

  /** Every argument is that of a push under way or of a push in the history. */
  ghost predicate Balanced<T>(s: State<T>)
  {
    multiset(s.invoked) == InFlight(s.threads) + multiset(PushedValues(s.log))
  }

  lemma InFlightLast<T>(threads: seq<Thread<T>>)
    requires threads != []
    ensures InFlight(threads) == InFlight(threads[..|threads| - 1]) + Argument(threads[|threads| - 1])
  {
  }

  lemma {:induction false} InFlightUpdate<T>(threads: seq<Thread<T>>, t: nat, th: Thread<T>)
    requires t < |threads|
    ensures InFlight(threads[t := th]) + Argument(threads[t]) == InFlight(threads) + Argument(th)
  {
    hide InFlight, Argument;
    var n, threads' := |threads| - 1, threads[t := th];
    InFlightLast(threads);
    InFlightLast(threads');
    if t == n {
      assert threads'[..n] == threads[..n];
      SwapLast(InFlight(threads[..n]), Argument(th), Argument(threads[t]));
    } else {
      InFlightUpdate(threads[..n], t, th);
      assert threads'[..n] == threads[..n][t := th];
      AddToBoth(InFlight(threads'[..n]), Argument(threads[t]), InFlight(threads[..n]), Argument(th),
                Argument(threads[n]));
    }
  }

  lemma SwapLast<T>(a: multiset<T>, b: multiset<T>, c: multiset<T>)
    ensures (a + b) + c == (a + c) + b
  {
  }

  lemma AddToBoth<T>(a: multiset<T>, b: multiset<T>, c: multiset<T>, d: multiset<T>, e: multiset<T>)
    requires a + b == c + d
    ensures (a + e) + b == (c + e) + d
  {
    forall x
      ensures ((a + e) + b)[x] == ((c + e) + d)[x]
    {
      assert (a + b)[x] == (c + d)[x];
    }
  }

  lemma PushedSnoc<T>(log: seq<Op<T>>, op: Op<T>)
    ensures PushedValues(log + [op]) == PushedValues(log) + if op.Pushed? then [op.value] else []
  {
    ReplayAppend(log, op);
  }

  lemma ArgumentMoves<T>(s: State<T>, s': State<T>, t: nat)
    requires t < |s.threads| == |s'.threads| && s'.threads == s.threads[t := s'.threads[t]]
    requires multiset(s'.invoked) + Argument(s.threads[t]) + multiset(PushedValues(s.log))
          == multiset(s.invoked) + Argument(s'.threads[t]) + multiset(PushedValues(s'.log))
    requires Balanced(s)
    ensures Balanced(s')
  {
    InFlightUpdate(s.threads, t, s'.threads[t]);
    hide InFlight, Argument, PushedValues;
    var before, after := InFlight(s.threads), InFlight(s'.threads);
    var arg, arg' := Argument(s.threads[t]), Argument(s'.threads[t]);
    var log, log' := multiset(PushedValues(s.log)), multiset(PushedValues(s'.log));
    assert after + arg == before + arg';
    CancelArguments(multiset(s.invoked), multiset(s'.invoked), before, after, arg, arg', log, log');
  }

  lemma CancelArguments<T>(i: multiset<T>, i': multiset<T>, f: multiset<T>, f': multiset<T>,
                           a: multiset<T>, a': multiset<T>, l: multiset<T>, l': multiset<T>)
    requires i == f + l && f' + a == f + a' && i' + a + l == i + a' + l'
    ensures i' == f' + l'
  {
    forall x
      ensures i'[x] == (f' + l')[x]
    {
      assert (f' + a)[x] == (f + a')[x] && (i' + a + l)[x] == (i + a' + l')[x];
    }
  }

  /** Every step moves an argument from call to push under way to history, and drops none. */
  lemma {:induction false} StepKeepsBalance<T>(s: State<T>, step: Step<T>)
    requires Balanced(s) && Enabled(s, step)
    ensures Balanced(Do(s, step))
  {
    hide Rem, Balanced;
    var s', t := Do(s, step), step.t;
    assert s'.threads == s.threads[t := s'.threads[t]];
    StepMovesArgument(s, step);
    ArgumentMoves(s, s', t);
  }

  lemma StepMovesArgument<T>(s: State<T>, step: Step<T>)
    requires Enabled(s, step)
    ensures var s', t := Do(s, step), step.t;
      && t < |s.threads| == |s'.threads|
      && multiset(s'.invoked) + Argument(s.threads[t]) + multiset(PushedValues(s.log))
      == multiset(s.invoked) + Argument(s'.threads[t]) + multiset(PushedValues(s'.log))
  {
    hide Rem, PushedValues, Argument;
    var s', t := Do(s, step), step.t;
    if step.Alloc? {
      NewArgument(s, step);
    } else if step.PushCas? && CasSucceeds(s, step) {
      ArgumentLogged(s, t);
    } else {
      ArgumentStays(s, step);
    }
  }

  lemma NewArgument<T>(s: State<T>, step: Step<T>)
    requires Enabled(s, step) && step.Alloc?
    ensures var s' := Do(s, step);
      && s'.log == s.log && Argument(s.threads[step.t]) == multiset{}
      && multiset(s'.invoked) == multiset(s.invoked) + Argument(s'.threads[step.t])
  {
  }

  lemma ArgumentLogged<T>(s: State<T>, t: nat)
    requires Enabled(s, PushCas(t, false))
    ensures var s' := PushWins(s, t);
      && s'.invoked == s.invoked && Argument(s'.threads[t]) == multiset{}
      && multiset(PushedValues(s'.log)) == multiset(PushedValues(s.log)) + Argument(s.threads[t])
  {
    hide Rem, PushedValues;
    PushedSnoc(s.log, Pushed(s.threads[t].arg));
  }

  lemma PopKeepsArgument<T>(s: State<T>, step: Step<T>)
    requires Enabled(s, step) && (step.PopLoad? || step.PopCas?)
    ensures var s' := Do(s, step);
      s'.invoked == s.invoked && Argument(s'.threads[step.t]) == multiset{} && Argument(s.threads[step.t]) == multiset{}
  {
    hide Rem;
  }

  lemma ArgumentKept<T>(s: State<T>, step: Step<T>)
    requires Enabled(s, step) && !step.Alloc? && !(step.PushCas? && CasSucceeds(s, step))
    ensures var s' := Do(s, step);
      s'.invoked == s.invoked && Argument(s'.threads[step.t]) == Argument(s.threads[step.t])
  {
    hide Rem, PushWins, PopWins, PopEntry;
    if step.PopLoad? || step.PopCas? { PopKeepsArgument(s, step); }
  }

  lemma NoPushLogged<T>(s: State<T>, step: Step<T>) returns (op: Op<T>)
    requires Enabled(s, step) && !(step.PushCas? && CasSucceeds(s, step))
    ensures !op.Pushed? && (Do(s, step).log == s.log || Do(s, step).log == s.log + [op])
  {
    hide Rem;
    op := if |Do(s, step).log| > |s.log| then Do(s, step).log[|s.log|] else FoundEmpty;
  }

  lemma ArgumentStays<T>(s: State<T>, step: Step<T>)
    requires Enabled(s, step) && !step.Alloc? && !(step.PushCas? && CasSucceeds(s, step))
    ensures var s' := Do(s, step);
      && s'.invoked == s.invoked && Argument(s'.threads[step.t]) == Argument(s.threads[step.t])
      && PushedValues(s'.log) == PushedValues(s.log)
  {
    ArgumentKept(s, step);
    var op := NoPushLogged(s, step);
    hide Rem, PushedValues, Argument, Do;
    PushedSnoc(s.log, op);
  }

  lemma {:induction false} NoneInFlight<T>(threads: seq<Thread<T>>)
    requires forall t :: 0 <= t < |threads| ==> threads[t].Idle?
    ensures InFlight(threads) == multiset{}
  {
    if threads != [] { NoneInFlight(threads[..|threads| - 1]); }
  }

  lemma {:induction false} InitBalanced<T>(s: State<T>)
    requires Init(s)
    ensures Balanced(s)
  {
    NoneInFlight(s.threads);
  }

  /** When every pop in the log has returned, the results are the popped values, in log order. */
  lemma {:induction false} AllReturned<T>(log: seq<Op<T>>, returned: map<nat, T>, n: nat)
    requires n <= |log|
    requires forall k :: k in returned ==> k < |log| && log[k] == Popped(returned[k])
    requires forall k :: 0 <= k < n && log[k].Popped? ==> k in returned
    ensures ReturnedValues(returned, n) == PoppedValues(log[..n])
  {
    if n > 0 {
      AllReturned(log, returned, n - 1);
      assert log[..n][..n - 1] == log[..n - 1];
    }
  }

  ghost predicate AtRest<T>(s: State<T>)
  {
    forall t :: 0 <= t < |s.threads| ==> s.threads[t].Idle?
  }

  /** The log is a legal LIFO history whose outcome is the list in memory. */
  ghost predicate LegalHistory<T>(s: State<T>)
  {
    Linked(s.list, s.heap) && s.head.ptr == At(s.list, 0) && Replay(s.log) == Some(Values(s.list, s.heap))
  }

  /** Results are those of the log, each pop entry returned by at most one thread, once, and the node
      a thread is about to delete is live, unlinked and its own. */
  ghost predicate ResultsUnique<T>(s: State<T>)
  {
    && (forall k :: k in s.returned ==> k < |s.log| && s.log[k] == Popped(s.returned[k]))
    && (forall t :: 0 <= t < |s.threads| && s.threads[t].HasValue? ==>
          && s.threads[t].ticket < |s.log| && s.log[s.threads[t].ticket] == Popped(s.threads[t].value)
          && s.threads[t].ticket !in s.returned
          && s.threads[t].node in s.heap && s.threads[t].node !in s.list)
    && Exclusive(s.threads)
  }

  /** Every node a thread is about to write, to read as its own or to free is live. */
  ghost predicate NoUseAfterFree<T>(s: State<T>)
  {
    forall t :: 0 <= t < |s.threads| && Owned(s.threads[t]) != 0 ==> Owned(s.threads[t]) in s.heap
  }

  /** Every value a caller pushed is on its way in, on the list or popped, each exactly once; at rest
      what was pushed is what was returned and what remains, and only the list is allocated. */
  ghost predicate Conserved<T>(s: State<T>)
    requires Linked(s.list, s.heap)
  {
    && multiset(s.invoked) ==
         InFlight(s.threads) + multiset(PoppedValues(s.log)) + multiset(Values(s.list, s.heap))
    && (AtRest(s) ==>
          && (forall a :: a in s.heap <==> a in s.list)
          && multiset(s.invoked) ==
               multiset(ReturnedValues(s.returned, |s.log|)) + multiset(Values(s.list, s.heap)))
  }

  /** What the stack promises in every reachable state. */
  ghost predicate Safe<T>(s: State<T>)
  {
    LegalHistory(s) && ResultsUnique(s) && Conserved(s) && NoUseAfterFree(s)
  }

  lemma InvConserves<T>(s: State<T>)
    requires Inv(s) && Balanced(s)
    ensures Conserved(s)
  {
    hide Rem, Replay, InFlight, PoppedValues, PushedValues, Linked, Values, ReturnedValues;
    LegalHistoryConserves(s.log);
    if AtRest(s) {
      NoneInFlight(s.threads);
      AllReturned(s.log, s.returned, |s.log|);
      assert s.log[..|s.log|] == s.log;
      LinkedInHeap(s.list, s.heap);
    }
  }

  lemma InvResultsUnique<T>(s: State<T>)
    requires Inv(s)
    ensures ResultsUnique(s)
  {
    hide Rem, Replay, Linked, Values, Accounted, Exclusive;
    forall t | 0 <= t < |s.threads| && s.threads[t].HasValue?
      ensures s.threads[t].ticket < |s.log| && s.log[s.threads[t].ticket] == Popped(s.threads[t].value)
      ensures s.threads[t].ticket !in s.returned && s.threads[t].node in s.heap && s.threads[t].node !in s.list
    {
      assert ThreadOk(s, s.threads[t]);
      assert Ticket(s.threads[t]) == s.threads[t].ticket;
    }
  }

  lemma InvNoUseAfterFree<T>(s: State<T>)
    requires Inv(s)
    ensures NoUseAfterFree(s)
  {
    hide Rem, Replay, Linked, Exclusive, Accounted, ReturnsOk;
    forall t | 0 <= t < |s.threads| && Owned(s.threads[t]) != 0
      ensures Owned(s.threads[t]) in s.heap
    {
      assert ThreadOk(s, s.threads[t]);
    }
  }

  lemma InvGuards<T>(s: State<T>, t: nat)
    requires Inv(s) && t < |s.threads|
    ensures var th := s.threads[t];
      && (th.PushLoaded? ==> Enabled(s, PushLink(t)))
      && (th.PushLinked? ==> Enabled(s, PushCas(t, false)))
      && (th.Unlinked? ==> Enabled(s, ReadData(t)))
      && (th.HasValue? ==> Enabled(s, Delete(t)) && th.node in s.heap)
  {
    hide Rem, Replay, Linked, Exclusive, Accounted, ReturnsOk;
    assert ThreadOk(s, s.threads[t]);
  }

  lemma InvIsSafe<T>(s: State<T>)
    requires Inv(s) && Balanced(s)
    ensures Safe(s)
  {
    InvConserves(s);
    InvNoUseAfterFree(s);
    InvResultsUnique(s);
    hide Rem, Replay, Linked, Values, ThreadsOk, Exclusive, Accounted;
    hide ReturnsOk, ResultsUnique, Conserved, NoUseAfterFree;
  }

  lemma {:induction false} RunKeepsBalance<T>(s: State<T>, steps: seq<Step<T>>)
    requires Balanced(s) && ValidRun(s, steps)
    ensures Balanced(After(s, steps))
    decreases |steps|
  {
    hide Balanced, Do, Enabled;
    if steps != [] {
      StepKeepsBalance(s, steps[0]);
      RunKeepsBalance(Do(s, steps[0]), steps[1..]);
    }
  }

  lemma InitInv<T>(s: State<T>)
    requires Init(s)
    ensures Inv(s)
  {
    RemSmall(0, s.modulus);
    assert Values(s.list, s.heap) == [];
  }

  // ---- Calls and returns ----

  datatype Invocation<T> = PushOf(value: T) | PopOf

  /** The call a thread is in: the step it began at and what was asked. */
  datatype Active<T> = Active(called: nat, invocation: Invocation<T>)

  /** A call that has returned: it began with step `called`, was over after `returned` steps, and took
      effect as entry `entry` of the log. */
  datatype Call<T> = Call(thread: nat, invocation: Invocation<T>, called: nat, returned: nat, entry: nat, result: Op<T>)

  /** An observer of a run. `lengths[i]` is the length of the log after i steps. */
  datatype Track<T> = Track(lengths: seq<nat>, active: seq<Active<T>>, calls: seq<Call<T>>)

  /** What the caller learns when a thread in this state returns. */
  function Result<T>(th: Thread<T>): Op<T>
  {
    if th.PushLinked? then Pushed(th.arg) else if th.HasValue? then Popped(th.value) else FoundEmpty
  }

  function Entry<T>(s: State<T>, th: Thread<T>): nat
  {
    if th.HasValue? then th.ticket else |s.log|
  }

  function NewTrack<T>(s: State<T>): Track<T>
  {
    Track([|s.log|], seq(|s.threads|, _ => Active(0, PopOf)), [])
  }

  /** An idle thread's step begins a call; a step that leaves its thread idle returns from one. */
  function Observe<T>(s: State<T>, step: Step<T>, k: Track<T>): (k': Track<T>)
    requires Enabled(s, step) && |k.active| == |s.threads| && k.lengths != []
    ensures |k'.active| == |k.active| && k'.lengths != []
  {
    var s', t, th := Do(s, step), step.t, s.threads[step.t];
    var current := if th.Idle? then Active(|k.lengths| - 1, if step.Alloc? then PushOf(step.value) else PopOf)
                   else k.active[t];
    var call := Call(t, current.invocation, current.called, |k.lengths|, Entry(s, th), Result(th));
    Track(k.lengths + [|s'.log|], k.active[t := current],
          if t < |s'.threads| && s'.threads[t].Idle? then k.calls + [call] else k.calls)
  }

  lemma ThreadsStay<T>(s: State<T>, step: Step<T>)
    requires Enabled(s, step)
    ensures OnlyThread(s, Do(s, step), step.t)
  {
    hide Rem;
  }

  function Watch<T>(s: State<T>, steps: seq<Step<T>>, k: Track<T>): Track<T>
    requires ValidRun(s, steps) && |k.active| == |s.threads| && k.lengths != []
    decreases |steps|
  {
    if steps == [] then k
    else
      ThreadsStay(s, steps[0]);
      Watch(Do(s, steps[0]), steps[1..], Observe(s, steps[0], k))
  }

  ghost predicate Answers<T>(invocation: Invocation<T>, result: Op<T>)
  {
    match invocation
    case PushOf(v) => result == Pushed(v)
    case PopOf => !result.Pushed?
  }

  /** The call took effect between its first step and its return, with the result it returned. */
  ghost predicate CallOk<T>(c: Call<T>, log: seq<Op<T>>, lengths: seq<nat>)
  {
    && c.called < c.returned < |lengths|
    && lengths[c.called] <= c.entry < lengths[c.returned] <= |log|
    && log[c.entry] == c.result && Answers(c.invocation, c.result)
  }

  ghost predicate CallsOk<T>(s: State<T>, k: Track<T>)
  {
    forall i :: 0 <= i < |k.calls| ==> CallOk(k.calls[i], s.log, k.lengths)
  }

  /** No two calls share an effect, and none has that of a pop still under way. */
  ghost predicate OneEffectEach<T>(s: State<T>, k: Track<T>)
  {
    && (forall i, j :: 0 <= i < j < |k.calls| ==> k.calls[i].entry != k.calls[j].entry)
    && (forall i, t :: 0 <= i < |k.calls| && 0 <= t < |s.threads| ==> Ticket(s.threads[t]) != k.calls[i].entry)
  }

  /** `n` is the effect of a call that has returned or of a pop under way. */
  ghost predicate Explained<T>(s: State<T>, k: Track<T>, n: nat)
  {
    || (exists i :: 0 <= i < |k.calls| && k.calls[i].entry == n)
    || (exists t :: 0 <= t < |s.threads| && Ticket(s.threads[t]) == n)
  }

  ghost predicate AllExplained<T>(s: State<T>, k: Track<T>)
  {
    forall n: nat :: n < |s.log| ==> Explained(s, k, n)
  }

  /** A call that returned before another began took effect before it. */
  ghost predicate RealTime<T>(k: Track<T>)
  {
    forall i, j :: 0 <= i < |k.calls| && 0 <= j < |k.calls| && k.calls[i].returned <= k.calls[j].called ==>
      k.calls[i].entry < k.calls[j].entry
  }

  /** The calls of the run so far, whatever they returned, are those of the log, each once and in an
      order that respects real time, and the log is a legal history of a LIFO stack. */
  ghost predicate Linearizable<T>(s: State<T>, k: Track<T>)
  {
    LegalHistory(s) && CallsOk(s, k) && OneEffectEach(s, k) && AllExplained(s, k) && RealTime(k)
  }

  // ---- The observer's invariant ----

  ghost predicate Rising(lengths: seq<nat>)
  {
    forall i, j :: 0 <= i <= j < |lengths| ==> lengths[i] <= lengths[j]
  }

  ghost predicate ClockOk<T>(s: State<T>, k: Track<T>)
  {
    k.lengths != [] && k.lengths[|k.lengths| - 1] == |s.log| && Rising(k.lengths) && |k.active| == |s.threads|
  }

  ghost predicate InCall<T>(a: Active<T>, th: Thread<T>, lengths: seq<nat>)
  {
    th.Idle? ||
    (&& a.called < |lengths| && (Ticket(th) != -1 ==> lengths[a.called] <= Ticket(th))
     && match th
        case NewNode(_, v) => a.invocation == PushOf(v)
        case PushLoaded(_, v, _) => a.invocation == PushOf(v)
        case PushLinked(_, v, _) => a.invocation == PushOf(v)
        case _ => a.invocation.PopOf?)
  }

  ghost predicate Tracked<T>(s: State<T>, k: Track<T>)
  {
    && ClockOk(s, k) && CallsOk(s, k) && OneEffectEach(s, k) && AllExplained(s, k)
    && forall t :: 0 <= t < |s.threads| ==> InCall(k.active[t], s.threads[t], k.lengths)
  }

  lemma {:induction false} NothingTracked<T>(s: State<T>)
    requires Init(s)
    ensures Tracked(s, NewTrack(s))
  {
  }

  /** What one step does to the log and to its thread's ticket. */
  ghost predicate Effect<T>(s: State<T>, s': State<T>, t: nat)
    requires t < |s.threads| == |s'.threads|
  {
    var th, th' := s.threads[t], s'.threads[t];
    if th'.Idle? then
      && !th.NewNode? && !th.PushLoaded?
      && if th.HasValue? then s'.log == s.log && th.ticket < |s.log| && s.log[th.ticket] == Result(th)
         else s'.log == s.log + [Result(th)] && Ticket(th) == -1
    else
      || (s'.log == s.log && Ticket(th') == Ticket(th))
      || (|s'.log| == |s.log| + 1 && s.log <= s'.log && Ticket(th') == |s.log| && Ticket(th) == -1)
  }

  lemma {:induction false} PopWinEffect<T>(s: State<T>, t: nat)
    requires Inv(s) && Enabled(s, PopCas(t, false)) && CasSucceeds(s, PopCas(t, false)) && Fresh(s, PopCas(t, false))
    ensures var s' := PopWins(s, t);
      && |s'.threads| == |s.threads| && s'.threads[t] == Unlinked(s.threads[t].seen.ptr, |s.log|)
      && |s'.log| == |s.log| + 1 && s.log <= s'.log
  {
    PopWinsExactly(s, t);
    hide Rem, Inv;
  }

  lemma {:induction false} StepEffect<T>(s: State<T>, step: Step<T>)
    requires Inv(s) && Enabled(s, step) && Fresh(s, step)
    ensures OnlyThread(s, Do(s, step), step.t) && Effect(s, Do(s, step), step.t)
    ensures s.threads[step.t].Idle? && Do(s, step).threads[step.t].Idle? ==> step.PopLoad?
  {
    assert ThreadOk(s, s.threads[step.t]);
    hide Rem, Inv, ThreadOk, PopWins, OnlyThread;
    ThreadsStay(s, step);
    if step.PopCas? && CasSucceeds(s, step) { PopWinEffect(s, step.t); } else { OtherEffect(s, step); }
  }

  lemma {:induction false} OtherEffect<T>(s: State<T>, step: Step<T>)
    requires Enabled(s, step) && !(step.PopCas? && CasSucceeds(s, step)) && |Do(s, step).threads| == |s.threads|
    requires var th := s.threads[step.t];
      th.HasValue? ==> th.ticket < |s.log| && s.log[th.ticket] == Popped(th.value)
    ensures Effect(s, Do(s, step), step.t)
    ensures s.threads[step.t].Idle? && Do(s, step).threads[step.t].Idle? ==> step.PopLoad?
  {
    hide Rem, PopWins;
  }

  lemma LiveTickets<T>(s: State<T>)
    requires Inv(s)
    ensures forall t :: 0 <= t < |s.threads| ==> Ticket(s.threads[t]) < |s.log|
    ensures forall t, u :: 0 <= t < |s.threads| && 0 <= u < |s.threads| && t != u && Ticket(s.threads[t]) != -1 ==>
      Ticket(s.threads[t]) != Ticket(s.threads[u])
  {
    hide Rem, Replay, Linked, Accounted, ReturnsOk;
    forall t | 0 <= t < |s.threads|
      ensures Ticket(s.threads[t]) < |s.log|
    {
      assert ThreadOk(s, s.threads[t]);
    }
  }

  lemma ClockStep<T>(s: State<T>, step: Step<T>, k: Track<T>)
    requires Enabled(s, step) && ClockOk(s, k)
    requires OnlyThread(s, Do(s, step), step.t) && |s.log| <= |Do(s, step).log|
    ensures ClockOk(Do(s, step), Observe(s, step, k))
  {
    hide Do, Enabled;
  }

  lemma CallLasts<T>(c: Call<T>, log: seq<Op<T>>, log': seq<Op<T>>, lengths: seq<nat>, more: nat)
    requires CallOk(c, log, lengths) && log <= log'
    ensures CallOk(c, log', lengths + [more])
  {
  }

  lemma {:induction false} CallsStep<T>(s: State<T>, step: Step<T>, k: Track<T>)
    requires Inv(s) && Enabled(s, step) && Fresh(s, step) && Tracked(s, k)
    ensures s.log <= Do(s, step).log && CallsOk(Do(s, step), Observe(s, step, k))
  {
    StepEffect(s, step);
    var s', t, th := Do(s, step), step.t, s.threads[step.t];
    var k', n := Observe(s, step, k), |k.calls|;
    hide Inv, Do, Enabled, AllExplained, OneEffectEach, CallOk, Fresh;
    assert s.log <= s'.log;
    forall i | 0 <= i < |k'.calls|
      ensures CallOk(k'.calls[i], s'.log, k'.lengths)
    {
      if i < n {
        CallLasts(k.calls[i], s.log, s'.log, k.lengths, |s'.log|);
      } else {
        NewCallOk(s, step, k);
      }
    }
  }

  lemma {:induction false} NewCallOk<T>(s: State<T>, step: Step<T>, k: Track<T>)
    requires Enabled(s, step) && Tracked(s, k)
    requires OnlyThread(s, Do(s, step), step.t) && Effect(s, Do(s, step), step.t)
    requires s.threads[step.t].Idle? && Do(s, step).threads[step.t].Idle? ==> step.PopLoad?
    requires Do(s, step).threads[step.t].Idle?
    ensures var k' := Observe(s, step, k);
      k'.calls != [] && CallOk(k'.calls[|k'.calls| - 1], Do(s, step).log, k'.lengths)
  {
    hide Do, Enabled, CallsOk, AllExplained, OneEffectEach;
    assert InCall(k.active[step.t], s.threads[step.t], k.lengths);
  }

  lemma PastEntries<T>(s: State<T>, k: Track<T>, th: Thread<T>)
    requires Tracked(s, k) && th in s.threads
    ensures forall i :: 0 <= i < |k.calls| ==> k.calls[i].entry < |s.log| && k.calls[i].entry != Entry(s, th)
  {
    hide AllExplained, Answers, InCall, ClockOk;
    var t :| 0 <= t < |s.threads| && s.threads[t] == th;
    forall i | 0 <= i < |k.calls|
      ensures k.calls[i].entry < |s.log| && k.calls[i].entry != Entry(s, th)
    {
      assert CallOk(k.calls[i], s.log, k.lengths);
      assert Ticket(s.threads[t]) != k.calls[i].entry;
    }
  }

  /** No live ticket after the step is the entry of a call returned by then. */
  lemma {:induction false} TicketStaysApart<T>(s: State<T>, step: Step<T>, k: Track<T>, u: nat, i: nat)
    requires Inv(s) && Enabled(s, step) && Fresh(s, step) && Tracked(s, k)
    requires u < |Do(s, step).threads| && i < |Observe(s, step, k).calls|
    ensures Ticket(Do(s, step).threads[u]) != Observe(s, step, k).calls[i].entry
  {
    StepEffect(s, step);
    var s', t := Do(s, step), step.t;
    if i < |k.calls| { PastEntries(s, k, s.threads[t]); } else if u != t { OtherTickets(s, t, u); }
    assert i < |k.calls| ==> Ticket(s.threads[u]) != k.calls[i].entry;
    hide Inv, Do, Enabled, AllExplained, Fresh, CallsOk, ClockOk, InCall, Result, OneEffectEach;
    assert u != t ==> s'.threads[u] == s.threads[u];
  }

  lemma OtherTickets<T>(s: State<T>, t: nat, u: nat)
    requires Inv(s) && t < |s.threads| && u < |s.threads| && u != t
    ensures Ticket(s.threads[u]) != Entry(s, s.threads[t])
  {
    LiveTickets(s);
    hide Inv;
    assert s.threads[t].HasValue? ==> Ticket(s.threads[t]) == s.threads[t].ticket;
  }

  lemma {:induction false} EffectsStep<T>(s: State<T>, step: Step<T>, k: Track<T>)
    requires Inv(s) && Enabled(s, step) && Fresh(s, step) && Tracked(s, k)
    ensures OneEffectEach(Do(s, step), Observe(s, step, k))
  {
    PastEntries(s, k, s.threads[step.t]);
    var s', k' := Do(s, step), Observe(s, step, k);
    hide Inv, Do, Enabled, AllExplained, Fresh, CallsOk, ClockOk, InCall, Result, Ticket;
    forall i, u | 0 <= i < |k'.calls| && 0 <= u < |s'.threads|
      ensures Ticket(s'.threads[u]) != k'.calls[i].entry
    {
      TicketStaysApart(s, step, k, u, i);
    }
  }

  lemma ExplainedLasts<T>(s: State<T>, step: Step<T>, k: Track<T>, n: nat)
    requires Enabled(s, step) && |k.active| == |s.threads| && k.lengths != []
    requires OnlyThread(s, Do(s, step), step.t) && Effect(s, Do(s, step), step.t)
    requires Explained(s, k, n)
    ensures Explained(Do(s, step), Observe(s, step, k), n)
  {
    hide Do, Enabled;
    var s', k', t := Do(s, step), Observe(s, step, k), step.t;
    if i :| 0 <= i < |k.calls| && k.calls[i].entry == n {
      assert k'.calls[i].entry == n;
    } else {
      var u :| 0 <= u < |s.threads| && Ticket(s.threads[u]) == n;
      if u == t && s'.threads[t].Idle? {
        assert k'.calls[|k.calls|].entry == n;
      } else {
        assert Ticket(s'.threads[u]) == n;
      }
    }
  }

  lemma {:induction false} ExplainedStep<T>(s: State<T>, step: Step<T>, k: Track<T>)
    requires Inv(s) && Enabled(s, step) && Fresh(s, step) && Tracked(s, k)
    ensures AllExplained(Do(s, step), Observe(s, step, k))
  {
    StepEffect(s, step);
    var s', k', t := Do(s, step), Observe(s, step, k), step.t;
    hide Inv, Do, Enabled, Explained, CallsOk, OneEffectEach, Fresh;
    forall n: nat | n < |s'.log|
      ensures Explained(s', k', n)
    {
      if n < |s.log| { ExplainedLasts(s, step, k, n); } else { NewEntryExplained(s, step, k); }
    }
  }

  lemma NewEntryExplained<T>(s: State<T>, step: Step<T>, k: Track<T>)
    requires Enabled(s, step) && |k.active| == |s.threads| && k.lengths != []
    requires OnlyThread(s, Do(s, step), step.t) && Effect(s, Do(s, step), step.t)
    requires |Do(s, step).log| > |s.log|
    ensures |Do(s, step).log| == |s.log| + 1 && Explained(Do(s, step), Observe(s, step, k), |s.log|)
  {
    hide Do, Enabled;
    var s', k', t := Do(s, step), Observe(s, step, k), step.t;
    if s'.threads[t].Idle? {
      assert k'.calls[|k.calls|].entry == |s.log|;
    } else {
      assert Ticket(s'.threads[t]) == |s.log|;
    }
  }

  /** The stepping thread is in the call it was in, or in the one it has just begun. */
  lemma {:induction false} InCallStep<T>(s: State<T>, step: Step<T>, k: Track<T>)
    requires Inv(s) && Enabled(s, step) && Fresh(s, step) && Tracked(s, k)
    ensures InCall(Observe(s, step, k).active[step.t], Do(s, step).threads[step.t], Observe(s, step, k).lengths)
  {
    StepEffect(s, step);
    LiveTickets(s);
    assert InCall(k.active[step.t], s.threads[step.t], k.lengths);
    hide Rem, Inv, CallsOk, OneEffectEach, AllExplained, PushWins, PopWins, PopEntry, Fresh;
    SameInvocation(s, step);
  }

  /** A step keeps a thread on its side of the stack's interface, with its argument. */
  lemma SameInvocation<T>(s: State<T>, step: Step<T>)
    requires Enabled(s, step)
    ensures var th, th' := s.threads[step.t], Do(s, step).threads[step.t];
      && (th'.NewNode? ==> th.Idle? && step.Alloc? && th'.arg == step.value)
      && (th'.PushLoaded? || th'.PushLinked? ==> (th.NewNode? || th.PushLoaded? || th.PushLinked?) && th'.arg == th.arg)
      && (th'.PopLoaded? || th'.PopNext? || th'.Unlinked? || th'.HasValue? ==>
            if th.Idle? then step.PopLoad? else !(th.NewNode? || th.PushLoaded? || th.PushLinked?))
  {
    hide Rem;
  }

  lemma {:induction false} StepKeepsTracked<T>(s: State<T>, step: Step<T>, k: Track<T>)
    requires Inv(s) && Enabled(s, step) && Fresh(s, step) && Tracked(s, k)
    ensures Tracked(Do(s, step), Observe(s, step, k))
  {
    StepEffect(s, step);
    CallsStep(s, step, k);
    ClockStep(s, step, k);
    EffectsStep(s, step, k);
    ExplainedStep(s, step, k);
    InCallStep(s, step, k);
    var s', k', t := Do(s, step), Observe(s, step, k), step.t;
    hide Inv, Do, Enabled, Fresh, CallsOk, OneEffectEach, AllExplained, Effect, Rising;
    forall u | 0 <= u < |s'.threads|
      ensures InCall(k'.active[u], s'.threads[u], k'.lengths)
    {
      if u != t { assert InCall(k.active[u], s.threads[u], k.lengths); }
    }
  }

  /** Every pop that wins in this run is fresh. */
  ghost predicate FreshRun<T>(s: State<T>, steps: seq<Step<T>>)
    requires ValidRun(s, steps)
    decreases |steps|
  {
    steps == [] || (Fresh(s, steps[0]) && FreshRun(Do(s, steps[0]), steps[1..]))
  }

  lemma {:induction false} FreshRunKeepsInv<T>(s: State<T>, steps: seq<Step<T>>)
    requires Inv(s) && ValidRun(s, steps) && FreshRun(s, steps)
    ensures Inv(After(s, steps))
    decreases |steps|
  {
    hide Inv, Do, Enabled, Fresh;
    if steps != [] {
      StepKeepsInv(s, steps[0]);
      FreshRunKeepsInv(Do(s, steps[0]), steps[1..]);
    }
  }

  lemma {:induction false} FreshRunKeepsTracked<T>(s: State<T>, steps: seq<Step<T>>, k: Track<T>)
    requires Inv(s) && Tracked(s, k) && ValidRun(s, steps) && FreshRun(s, steps)
    ensures |k.active| == |s.threads| && k.lengths != [] && Tracked(After(s, steps), Watch(s, steps, k))
    decreases |steps|
  {
    TrackedFits(s, k);
    hide Inv, Tracked, Do, Enabled, Fresh, Observe;
    if steps != [] {
      StepKeepsInv(s, steps[0]);
      StepKeepsTracked(s, steps[0], k);
      FreshRunKeepsTracked(Do(s, steps[0]), steps[1..], Observe(s, steps[0], k));
    }
  }

  lemma TrackedFits<T>(s: State<T>, k: Track<T>)
    requires Tracked(s, k)
    ensures |k.active| == |s.threads| && k.lengths != []
  {
  }

  lemma TrackedIsLinearizable<T>(s: State<T>, k: Track<T>)
    requires Inv(s) && Tracked(s, k)
    ensures Linearizable(s, k)
  {
    hide Rem, Replay, Linked, Values, ThreadsOk, Exclusive, Accounted, ReturnsOk, OneEffectEach, AllExplained;
    forall i, j | 0 <= i < |k.calls| && 0 <= j < |k.calls| && k.calls[i].returned <= k.calls[j].called
      ensures k.calls[i].entry < k.calls[j].entry
    {
      assert CallOk(k.calls[i], s.log, k.lengths) && CallOk(k.calls[j], s.log, k.lengths);
    }
  }

  // ---- The tagged stack ----

  /** Fewer than `modulus` successful CASes fall between the head load of a pop and its own CAS, if
      that finds the word it expects. */
  ghost predicate InTime<T>(s: State<T>, step: Step<T>)
    requires Enabled(s, step)
  {
    step.PopCas? && CasSucceeds(s, step) ==> s.cas - s.threads[step.t].at < s.modulus
  }

  ghost predicate Bounded<T>(s: State<T>, steps: seq<Step<T>>)
    requires ValidRun(s, steps)
    decreases |steps|
  {
    steps == [] ||
    (InTime(s, steps[0]) && Bounded(Do(s, steps[0]), steps[1..]))
  }

  /** A winning pop is fresh exactly when the tag has not come round since its head load. */
  lemma {:induction false} BoundedIsFresh<T>(s: State<T>, step: Step<T>)
    requires Inv(s) && Enabled(s, step)
    ensures InTime(s, step) <==> Fresh(s, step)
  {
    hide Rem;
    if step.PopCas? && CasSucceeds(s, step) {
      assert ThreadOk(s, s.threads[step.t]);
      if InTime(s, step) { RemDistance(s.threads[step.t].at, s.cas, s.modulus); }
    }
  }

  lemma {:induction false} BoundedIsFreshRun<T>(s: State<T>, steps: seq<Step<T>>)
    requires Inv(s) && ValidRun(s, steps) && Bounded(s, steps)
    ensures FreshRun(s, steps)
    decreases |steps|
  {
    hide Inv, Do, Enabled, Fresh, InTime;
    if steps != [] {
      BoundedIsFresh(s, steps[0]);
      StepKeepsInv(s, steps[0]);
      BoundedIsFreshRun(Do(s, steps[0]), steps[1..]);
    }
  }

  /** The tagged stack is linearizable for any threads, any address reuse and any garbage read
      through a freed node, as long as no pop is overtaken by 2^16 successful CASes. */
  lemma TaggedStackSafe<T>(init: State<T>, steps: seq<Step<T>>)
    requires Init(init) && init.modulus == 0x1_0000 && ValidRun(init, steps) && Bounded(init, steps)
    ensures Safe(After(init, steps))
    ensures Linearizable(After(init, steps), Watch(init, steps, NewTrack(init)))
  {
    InitInv(init);
    InitBalanced(init);
    NothingTracked(init);
    BoundedIsFreshRun(init, steps);
    FreshRunKeepsInv(init, steps);
    RunKeepsBalance(init, steps);
    FreshRunKeepsTracked(init, steps, NewTrack(init));
    hide Safe, Linearizable, Inv, Balanced, Tracked;
    InvIsSafe(After(init, steps));
    TrackedIsLinearizable(After(init, steps), Watch(init, steps, NewTrack(init)));
  }

  /** The liveness guards of the step relation never bind: in every reachable state a thread about to
      link, publish, read or free its node finds it allocated. */
  lemma MemoryGuardsHold<T>(init: State<T>, steps: seq<Step<T>>, t: nat)
    requires Init(init) && init.modulus == 0x1_0000 && ValidRun(init, steps) && Bounded(init, steps)
    requires t < |After(init, steps).threads|
    ensures var s := After(init, steps); var th := s.threads[t];
      && (th.PushLoaded? ==> Enabled(s, PushLink(t)))
      && (th.PushLinked? ==> Enabled(s, PushCas(t, false)))
      && (th.Unlinked? ==> Enabled(s, ReadData(t)))
      && (th.HasValue? ==> Enabled(s, Delete(t)) && th.node in s.heap)
  {
    hide Inv, Enabled;
    InitInv(init);
    BoundedIsFreshRun(init, steps);
    FreshRunKeepsInv(init, steps);
    InvGuards(After(init, steps), t);
  }

  // ---- The untagged stack in push-only and pop-only phases ----

  predicate IsPushStep<T>(step: Step<T>)
  {
    step.Alloc? || step.PushLoad? || step.PushLink? || step.PushCas?
  }

  lemma {:induction false} PushPhaseIsFresh<T>(s: State<T>, steps: seq<Step<T>>)
    requires ValidRun(s, steps) && forall i :: 0 <= i < |steps| ==> IsPushStep(steps[i])
    ensures FreshRun(s, steps)
    decreases |steps|
  {
    if steps != [] { PushPhaseIsFresh(Do(s, steps[0]), steps[1..]); }
  }

  predicate PopOnly<T>(th: Thread<T>)
  {
    th.Idle? || th.PopLoaded? || th.PopNext? || th.Unlinked? || th.HasValue?
  }

  /** `a` is what remains of `b` after removals at its front. */
  ghost predicate Suffix(a: seq<Addr>, b: seq<Addr>)
  {
    exists k: nat :: k <= |b| && a == b[k..]
  }

  lemma SuffixSelf(a: seq<Addr>)
    ensures Suffix(a, a)
  {
    assert a[0..] == a;
  }

  lemma SuffixTransitive(a: seq<Addr>, b: seq<Addr>, c: seq<Addr>)
    requires Suffix(a, b) && Suffix(b, c)
    ensures Suffix(a, c)
  {
    var j: nat :| j <= |c| && b == c[j..];
    var k: nat :| k <= |b| && a == b[k..];
    assert c[j..][k..] == c[j + k..];
  }

  /** A head seen before the last successful CAS is off the list for good. */
  ghost predicate PhaseInv<T>(s: State<T>)
  {
    && Inv(s)
    && forall t :: 0 <= t < |s.threads| ==>
         && PopOnly(s.threads[t])
         && (s.threads[t].PopLoaded? || s.threads[t].PopNext? ==>
               s.threads[t].at == s.cas || s.threads[t].seen.ptr !in s.list)
  }

  lemma {:induction false} PhaseStep<T>(s: State<T>, step: Step<T>)
    requires PhaseInv(s) && Enabled(s, step) && !IsPushStep(step)
    ensures Fresh(s, step) && PhaseInv(Do(s, step))
    ensures Suffix(Do(s, step).list, s.list)
  {
    hide Rem, Replay, Exclusive, Accounted, ReturnsOk, Linked;
    var th := s.threads[step.t];
    assert ThreadOk(s, th);
    assert Fresh(s, step);
    StepKeepsInv(s, step);
    assert s.list[0..] == s.list;
    if step.PopCas? && CasSucceeds(s, step) {
      PopWinsExactly(s, step.t);
      forall u | 0 <= u < |s.threads| && u != step.t
        ensures s.threads[u].PopLoaded? || s.threads[u].PopNext? ==> s.threads[u].seen.ptr !in s.list[1..]
      {
        assert ThreadOk(s, s.threads[u]);
      }
    }
  }

  lemma {:induction false} PopPhase<T>(s: State<T>, steps: seq<Step<T>>)
    requires PhaseInv(s) && ValidRun(s, steps) && forall i :: 0 <= i < |steps| ==> !IsPushStep(steps[i])
    ensures PhaseInv(After(s, steps)) && FreshRun(s, steps)
    ensures Suffix(After(s, steps).list, s.list)
    decreases |steps|
  {
    hide PhaseInv, Suffix, Do, Enabled, Fresh;
    if steps == [] {
      SuffixSelf(s.list);
    } else {
      PhaseStep(s, steps[0]);
      var s' := Do(s, steps[0]);
      PopPhase(s', steps[1..]);
      SuffixTransitive(After(s', steps[1..]).list, s'.list, s.list);
    }
  }

  lemma {:induction false} RunSplit<T>(s: State<T>, steps: seq<Step<T>>, k: nat)
    requires ValidRun(s, steps) && k <= |steps|
    ensures ValidRun(s, steps[..k]) && ValidRun(After(s, steps[..k]), steps[k..])
    ensures After(After(s, steps[..k]), steps[k..]) == After(s, steps)
    decreases |steps|
  {
    hide Do, Enabled;
    if k > 0 {
      RunSplit(Do(s, steps[0]), steps[1..], k - 1);
      assert steps[..k][1..] == steps[1..][..k - 1] && steps[1..][k - 1..] == steps[k..];
    } else {
      assert steps[0..] == steps;
    }
  }

  /** Whatever is off the list after `k` steps of the phase is never head again, and a CAS that
      expects it fails. */
  ghost predicate GoneForGood<T>(mid: State<T>, pops: seq<Step<T>>, k: nat)
    requires ValidRun(mid, pops)
  {
    k <= |pops| ==>
      && ValidRun(mid, pops[..k])
      && var past, s := After(mid, pops[..k]), After(mid, pops);
         && Suffix(s.list, past.list)
         && (forall a :: a != 0 && a !in past.list ==> s.head.ptr != a)
         && (forall t :: 0 <= t < |s.threads| && s.threads[t].PopNext? && s.threads[t].seen.ptr !in past.list ==>
               s.head != s.threads[t].seen)
  }

  lemma {:induction false} StaysGone<T>(mid: State<T>, pops: seq<Step<T>>, k: nat)
    requires PhaseInv(mid) && ValidRun(mid, pops) && forall i :: 0 <= i < |pops| ==> !IsPushStep(pops[i])
    ensures GoneForGood(mid, pops, k)
  {
    if k <= |pops| {
      RunSplit(mid, pops, k);
      PopPhase(mid, pops[..k]);
      PopPhase(After(mid, pops[..k]), pops[k..]);
      hide Do, Enabled, ValidRun, After;
      OffTheList(After(mid, pops), After(mid, pops[..k]));
    }
  }

  lemma OffTheList<T>(s: State<T>, past: State<T>)
    requires PhaseInv(s) && Suffix(s.list, past.list)
    ensures forall a :: a != 0 && a !in past.list ==> s.head.ptr != a
    ensures forall t :: 0 <= t < |s.threads| && s.threads[t].PopNext? && s.threads[t].seen.ptr !in past.list ==>
      s.head != s.threads[t].seen
  {
    hide Rem, Replay, Linked, Exclusive, Accounted, ReturnsOk;
    assert s.head.ptr == At(s.list, 0);
    assert s.list != [] ==> s.list[0] in past.list by {
      var k: nat :| k <= |past.list| && s.list == past.list[k..];
    }
    forall t | 0 <= t < |s.threads| && s.threads[t].PopNext?
      ensures s.threads[t].seen.ptr != 0
    {
      assert ThreadOk(s, s.threads[t]);
    }
  }

  lemma {:induction false} PushPhase<T>(init: State<T>, pushes: seq<Step<T>>)
    requires Init(init) && ValidRun(init, pushes)
    requires forall i :: 0 <= i < |pushes| ==> IsPushStep(pushes[i])
    ensures var mid, k := After(init, pushes), Watch(init, pushes, NewTrack(init));
      Inv(mid) && Balanced(mid) && |k.active| == |mid.threads| && k.lengths != [] && Tracked(mid, k)
  {
    InitInv(init);
    InitBalanced(init);
    NothingTracked(init);
    hide Do, Enabled, Inv, Balanced, FreshRun;
    PushPhaseIsFresh(init, pushes);
    FreshRunKeepsInv(init, pushes);
    RunKeepsBalance(init, pushes);
    FreshRunKeepsTracked(init, pushes, NewTrack(init));
    TrackedFits(After(init, pushes), Watch(init, pushes, NewTrack(init)));
  }

  lemma {:induction false} PhasedRun<T>(init: State<T>, pushes: seq<Step<T>>, pops: seq<Step<T>>)
    requires Init(init) && ValidRun(init, pushes)
    requires forall i :: 0 <= i < |pushes| ==> IsPushStep(pushes[i])
    requires AtRest(After(init, pushes)) && ValidRun(After(init, pushes), pops)
    requires forall i :: 0 <= i < |pops| ==> !IsPushStep(pops[i])
    ensures var mid, k := After(init, pushes), Watch(init, pushes, NewTrack(init));
      && PhaseInv(mid) && |k.active| == |mid.threads| && k.lengths != []
      && Inv(After(mid, pops)) && Balanced(After(mid, pops)) && Tracked(After(mid, pops), Watch(mid, pops, k))
  {
    PushPhase(init, pushes);
    var mid, k := After(init, pushes), Watch(init, pushes, NewTrack(init));
    assert PhaseInv(mid);
    hide Do, Enabled, Inv, Balanced, FreshRun, ValidRun, After, Watch, Tracked;
    PopPhase(mid, pops);
    RunKeepsBalance(mid, pops);
    FreshRunKeepsTracked(mid, pops, k);
  }

  /** The stress test's two phases, for any modulus and so without tags: all pushes, every thread
      joined, then only pops. The list only ever loses its front, so an address once popped is
      never head again, and a CAS computed from such an address cannot succeed. */
  lemma PhasedStackSafe<T>(init: State<T>, pushes: seq<Step<T>>, pops: seq<Step<T>>)
    requires Init(init) && ValidRun(init, pushes)
    requires forall i :: 0 <= i < |pushes| ==> IsPushStep(pushes[i])
    requires AtRest(After(init, pushes)) && ValidRun(After(init, pushes), pops)
    requires forall i :: 0 <= i < |pops| ==> !IsPushStep(pops[i])
    ensures Safe(After(After(init, pushes), pops))
    ensures var k := Watch(init, pushes, NewTrack(init)); var mid := After(init, pushes);
      |k.active| == |mid.threads| && k.lengths != [] && Linearizable(After(mid, pops), Watch(mid, pops, k))
    ensures forall k: nat :: GoneForGood(After(init, pushes), pops, k)
  {
    PhasedRun(init, pushes, pops);
    var mid, k := After(init, pushes), Watch(init, pushes, NewTrack(init));
    hide Do, Enabled, ValidRun, After, Safe, GoneForGood, Balanced, Tracked, Linearizable, Watch, PhaseInv, Inv;
    InvIsSafe(After(mid, pops));
    TrackedIsLinearizable(After(mid, pops), Watch(mid, pops, k));
    forall n: nat
      ensures GoneForGood(mid, pops, n)
    {
      StaysGone(mid, pops, n);
    }
  }
}
