/** The single-producer single-consumer ring as two threads over a memory with store buffers.

    Every step is one atomic access. Loads read memory (or the thread's own youngest pending
    store to that location); stores enter the issuing thread's FIFO buffer and reach memory
    later, by a flush step. An item is `width` words, and a slot is stored and loaded a word at a
    time. `calls`, `pops`, `pushed`, `popped`, the three `vis` positions and the `count` of an index store
    are history: no step's guard or memory effect depends on them. */
module SpscProtocol {
  import opened Bits
  import opened Common

  /** Number of slots; one stays empty, so the capacity is one less. */
  type RingSize = n: nat | n >= 2 witness 2

  type Item<W> = seq<W>

  datatype Store<W> =
    | Word(index: nat, word: nat, value: W)
    | Tail(index: nat, count: nat)   // tail_ := index, publishing the first `count` items ever pushed
    | Done                           // the shutdown flag that programs around the queue set last

  datatype HeadStore = HeadStore(index: nat, count: nat)

  datatype Producer<W> =
    | PIdle
    | PTail(items: seq<Item<W>>, batch: bool, tail: nat)
    | PCopy(items: seq<Item<W>>, count: nat, tail: nat, i: nat, word: nat)

  datatype Consumer<W> =
    | CIdle
    | CHead(want: nat, batch: bool, head: nat)
    | CCopy(head: nat, k: nat, got: seq<Item<W>>, part: seq<W>)

  /** A push call that has returned: what it was offered and how many it took. */
  datatype Call<W> = Call(items: seq<Item<W>>, taken: nat)

  /** What a pop call asks for, and how many items one that has done its check returns. */
  datatype Request = Request(want: nat, batch: bool)
  datatype PopCall = PopCall(request: Request, count: nat)

  /** Word `word` of item `slot`, counted from the first item ever pushed. */
  datatype Position = At(slot: nat, word: nat)

  datatype State<W> = State(
    n: RingSize, width: nat, slots: seq<Item<W>>, head: nat, tail: nat, done: bool,
    pending: seq<Store<W>>, pendingHead: seq<HeadStore>,
    producer: Producer<W>, closed: bool, consumer: Consumer<W>,
    calls: seq<Call<W>>, pops: seq<PopCall>, pushed: seq<Item<W>>, popped: seq<Item<W>>,
    vis: Position, visTail: nat, visHead: nat)

  datatype Step<W> =
    | PushBegin(items: seq<Item<W>>, batch: bool) | PushCheck | PushWord | PushPublish | SignalDone | FlushProducer
    | PopBegin(want: nat, batch: bool) | PopCheck | PopWord | PopPublish | FlushConsumer

  predicate Widths<W>(items: seq<Item<W>>, width: nat)
  {
    forall i :: 0 <= i < |items| ==> |items[i]| == width
  }

  predicate Init<W(==)>(s: State<W>)
  {
    |s.slots| == s.n && s.width >= 1 && Widths(s.slots, s.width) &&
    s == State(s.n, s.width, s.slots, 0, 0, false, [], [], PIdle, false, CIdle, [], [], [], [], At(0, 0), 0, 0)
  }

  /** The producer's view of tail_: its youngest pending store, else memory. */
  function OwnTail<W>(pending: seq<Store<W>>, tail: nat): nat
  {
    if pending == [] then tail
    else OwnTail(pending[1..], if pending[0].Tail? then pending[0].index else tail)
  }

  function OwnHead(pending: seq<HeadStore>, head: nat): nat
  {
    if pending == [] then head else pending[|pending| - 1].index
  }

  function PushSpace(head: nat, tail: nat, n: nat): nat
    requires n >= 1
  {
    Rem(head - tail - 1, n)
  }

  predicate Enabled<W>(s: State<W>, step: Step<W>)
  {
    match step
    case PushBegin(items, batch) =>
      s.producer.PIdle? && !s.closed && (batch || |items| == 1) && Widths(items, s.width)
    case PushCheck => s.producer.PTail? && (s.producer.batch || |s.producer.items| == 1)
    case PushWord =>
      && s.producer.PCopy? && s.producer.i < s.producer.count <= |s.producer.items|
      && s.producer.word < |s.producer.items[s.producer.i]|
    case PushPublish => s.producer.PCopy? && s.producer.i == s.producer.count <= |s.producer.items|
    case SignalDone => s.producer.PIdle? && !s.closed
    case FlushProducer =>
      s.pending != [] &&
      (s.pending[0].Word? ==> s.pending[0].index < |s.slots| && s.pending[0].word < |s.slots[s.pending[0].index]|)
    case PopBegin(want, batch) => s.consumer.CIdle? && (batch || want == 1)
    case PopCheck => s.consumer.CHead?
    case PopWord =>
      && s.consumer.CCopy? && |s.consumer.got| < s.consumer.k && |s.slots| == s.n
      && |s.consumer.part| < |s.slots[Rem(s.consumer.head + |s.consumer.got|, s.n)]|
    case PopPublish => s.consumer.CCopy? && |s.consumer.got| == s.consumer.k
    case FlushConsumer => s.pendingHead != []
  }

  /** How many of the offered items the check step accepts: one or none by the equality test of
      try_push, min(count, available) by the subtraction of try_push_batch. */
  function Accepted<W>(s: State<W>): nat
    requires s.producer.PTail? && (s.producer.batch || |s.producer.items| == 1)
  {
    var p := s.producer;
    if p.batch then Min(|p.items|, PushSpace(s.head, p.tail, s.n))
    else if Rem(p.tail + 1, s.n) == s.head then 0 else 1
  }

  function Available<W>(s: State<W>): nat
    requires s.consumer.CHead?
  {
    var c := s.consumer;
    if c.batch then Min(c.want, Rem(s.tail - c.head, s.n))
    else if c.head == s.tail then 0 else 1
  }

  function Advance(at: Position, width: nat): Position
  {
    if at.word + 1 < width then At(at.slot, at.word + 1) else At(at.slot + 1, 0)
  }

  function Do<W>(s: State<W>, step: Step<W>): State<W>
    requires Enabled(s, step)
  {
    match step
    case PushBegin(items, batch) =>
      s.(producer := PTail(items, batch, OwnTail(s.pending, s.tail)))
    case PushCheck =>
      var p, a := s.producer, Accepted(s);
      if a == 0 then s.(producer := PIdle, calls := s.calls + [Call(p.items, 0)])
      else s.(producer := PCopy(p.items, a, p.tail, 0, 0))
    case PushWord =>
      var p := s.producer;
      var next := Advance(At(p.i, p.word), s.width);
      s.(pending := s.pending + [Word(Rem(p.tail + p.i, s.n), p.word, p.items[p.i][p.word])],
         producer := p.(i := next.slot, word := next.word))
    case PushPublish =>
      var p := s.producer;
      var all := s.pushed + p.items[..p.count];
      s.(pending := s.pending + [Tail(Rem(p.tail + p.count, s.n), |all|)], producer := PIdle,
         calls := s.calls + [Call(p.items, p.count)], pushed := all)
    case SignalDone =>
      s.(pending := s.pending + [Done], closed := true)
    case FlushProducer =>
      var rest := s.pending[1..];
      (match s.pending[0]
       case Word(i, w, v) =>
         s.(pending := rest, slots := s.slots[i := s.slots[i][w := v]], vis := Advance(s.vis, s.width))
       case Tail(i, c) => s.(pending := rest, tail := i, visTail := c)
       case Done => s.(pending := rest, done := true))
    case PopBegin(want, batch) =>
      s.(consumer := CHead(want, batch, OwnHead(s.pendingHead, s.head)))
    case PopCheck =>
      var k := Available(s);
      s.(consumer := if k == 0 then CIdle else CCopy(s.consumer.head, k, [], []),
         pops := s.pops + [PopCall(Request(s.consumer.want, s.consumer.batch), k)])
    case PopWord =>
      var c := s.consumer;
      var part := c.part + [s.slots[Rem(c.head + |c.got|, s.n)][|c.part|]];
      s.(consumer := if |part| < s.width then c.(part := part) else c.(got := c.got + [part], part := []))
    case PopPublish =>
      var c := s.consumer;
      s.(pendingHead := s.pendingHead + [HeadStore(Rem(c.head + c.k, s.n), |s.popped| + c.k)],
         consumer := CIdle, popped := s.popped + c.got)
    case FlushConsumer =>
      s.(head := s.pendingHead[0].index, visHead := s.pendingHead[0].count, pendingHead := s.pendingHead[1..])
  }

  // ---- Invariant ----

  /** The items a sequence of push calls took: the first ones of what each was offered. */
  function Taken<W>(calls: seq<Call<W>>): seq<Item<W>>
  {
    if calls == [] then []
    else
      var c := calls[|calls| - 1];
      Taken(calls[..|calls| - 1]) + if c.taken <= |c.items| then c.items[..c.taken] else c.items
  }

  function Reserved<W>(s: State<W>): seq<Item<W>>
  {
    if s.producer.PCopy? && s.producer.count <= |s.producer.items| then s.producer.items[..s.producer.count] else []
  }

  /** Everything pushed, followed by the items of the push in progress. */
  function All<W>(s: State<W>): seq<Item<W>>
  {
    s.pushed + Reserved(s)
  }

  /** The next word to be stored. */
  function Issued<W>(s: State<W>): Position
  {
    if s.producer.PCopy? then At(|s.pushed| + s.producer.i, s.producer.word) else At(|s.pushed|, 0)
  }

  predicate UpTo(a: Position, b: Position)
  {
    a.slot < b.slot || (a.slot == b.slot && a.word <= b.word)
  }

  /** The pending stores write the words of `all` from `at` up to `end`, in order, and publish no
      item before all its words; the youngest published position is `count`. */
  ghost predicate PendingOk<W>(p: seq<Store<W>>, at: Position, tail: nat, all: seq<Item<W>>, end: Position,
                               count: nat, closed: bool, width: nat, n: nat)
    requires n >= 1
  {
    if p == [] then at == end && tail == count
    else match p[0]
      case Word(i, w, v) =>
        && at.slot < |all| && i == Rem(at.slot, n) && w == at.word < |all[at.slot]| && v == all[at.slot][w]
        && PendingOk(p[1..], Advance(at, width), tail, all, end, count, closed, width, n)
      case Tail(i, c) =>
        && tail <= c <= at.slot && i == Rem(c, n)
        && PendingOk(p[1..], at, c, all, end, count, closed, width, n)
      case Done => closed && p[1..] == [] && at == end && tail == count
  }

  ghost predicate HeadsOk(p: seq<HeadStore>, head: nat, count: nat, n: nat)
    requires n >= 1
  {
    if p == [] then head == count
    else head <= p[0].count <= count && p[0].index == Rem(p[0].count, n) && HeadsOk(p[1..], p[0].count, count, n)
  }

  ghost predicate Shape<W>(s: State<W>)
  {
    && |s.slots| == s.n && s.width >= 1 && Widths(s.slots, s.width) && Widths(All(s), s.width)
    && s.visHead <= |s.popped| <= s.visTail <= |s.pushed|
    && s.visTail <= s.vis.slot && UpTo(s.vis, Issued(s)) && s.vis.word < s.width
    && |All(s)| <= s.visHead + s.n - 1
    && s.head == Rem(s.visHead, s.n) && s.tail == Rem(s.visTail, s.n)
    && s.popped == s.pushed[..|s.popped|]
    && s.pushed == Taken(s.calls)
  }

  ghost predicate ProducerOk<W>(s: State<W>)
  {
    match s.producer
    case PIdle => true
    case PTail(items, batch, tail) =>
      tail == Rem(|s.pushed|, s.n) && (batch || |items| == 1) && !s.closed && Widths(items, s.width)
    case PCopy(items, count, tail, i, word) =>
      && tail == Rem(|s.pushed|, s.n) && i <= count <= |items| && !s.closed && count > 0
      && word < s.width && (i == count ==> word == 0)
  }

  ghost predicate ConsumerOk<W>(s: State<W>)
  {
    match s.consumer
    case CIdle => true
    case CHead(want, batch, head) => head == Rem(|s.popped|, s.n) && (batch || want == 1)
    case CCopy(head, k, got, part) =>
      && head == Rem(|s.popped|, s.n) && |got| <= k && |s.popped| + k <= s.visTail <= |s.pushed|
      && k > 0 && got == s.pushed[|s.popped|..|s.popped| + |got|]
      && (if |got| == k then part == [] else |part| < s.width && part <= s.pushed[|s.popped| + |got|])
  }

  /** Items [lo, at.slot) are whole in their slots, and the first at.word words of the next one. */
  ghost predicate SlotsOk<W>(slots: seq<Item<W>>, lo: nat, at: Position, all: seq<Item<W>>, n: nat)
    requires |slots| == n >= 1
  {
    && at.slot <= |all|
    && (forall j: nat :: lo <= j < at.slot ==> slots[Rem(j, n)] == all[j])
    && (at.word > 0 ==>
          at.slot < |all| && at.word <= |all[at.slot]| && all[at.slot][..at.word] <= slots[Rem(at.slot, n)])
  }

  ghost predicate Inv<W>(s: State<W>)
  {
    && Shape(s) && ProducerOk(s) && ConsumerOk(s)
    && SlotsOk(s.slots, s.visHead, s.vis, All(s), s.n)
    && PendingOk(s.pending, s.vis, s.visTail, All(s), Issued(s), |s.pushed|, s.closed, s.width, s.n)
    && HeadsOk(s.pendingHead, s.visHead, |s.popped|, s.n)
    && (s.done ==> s.closed && s.pending == [])
    && (s.closed ==> s.done || (s.pending != [] && s.pending[|s.pending| - 1].Done?))
  }

  // ---- Facts about the store buffers ----

  lemma {:induction false} PendingView<W>(p: seq<Store<W>>, at: Position, tail: nat, all: seq<Item<W>>, end: Position,
                                          count: nat, closed: bool, width: nat, n: nat)
    requires n >= 1 && PendingOk(p, at, tail, all, end, count, closed, width, n)
    ensures tail <= count && UpTo(at, end)
    ensures OwnTail(p, Rem(tail, n)) == Rem(count, n)
  {
    if p != [] {
      match p[0]
      case Word(_, _, _) => PendingView(p[1..], Advance(at, width), tail, all, end, count, closed, width, n);
      case Tail(_, c) => PendingView(p[1..], at, c, all, end, count, closed, width, n);
      case Done => assert OwnTail(p, Rem(tail, n)) == OwnTail(p[1..], Rem(tail, n));
    }
  }

  /** More items behind the ones being written change nothing. */
  lemma {:induction false} PendingGrow<W>(p: seq<Store<W>>, at: Position, tail: nat, all: seq<Item<W>>,
                                          more: seq<Item<W>>, end: Position, count: nat, closed: bool,
                                          width: nat, n: nat)
    requires n >= 1 && PendingOk(p, at, tail, all, end, count, closed, width, n)
    ensures PendingOk(p, at, tail, all + more, end, count, closed, width, n)
  {
    if p != [] {
      match p[0]
      case Word(_, _, _) => PendingGrow(p[1..], Advance(at, width), tail, all, more, end, count, closed, width, n);
      case Tail(_, c) => PendingGrow(p[1..], at, c, all, more, end, count, closed, width, n);
      case Done =>
    }
  }

  lemma {:induction false} PendingWord<W>(p: seq<Store<W>>, at: Position, tail: nat, all: seq<Item<W>>, end: Position,
                                          count: nat, width: nat, n: nat)
    requires n >= 1 && PendingOk(p, at, tail, all, end, count, false, width, n)
    requires end.slot < |all| && end.word < |all[end.slot]|
    ensures PendingOk(p + [Word(Rem(end.slot, n), end.word, all[end.slot][end.word])], at, tail, all,
                      Advance(end, width), count, false, width, n)
  {
    var store := Word(Rem(end.slot, n), end.word, all[end.slot][end.word]);
    var q := p + [store];
    if p == [] {
      assert q[1..] == [];
    } else {
      assert q[1..] == p[1..] + [store];
      match p[0]
      case Word(_, _, _) => PendingWord(p[1..], Advance(at, width), tail, all, end, count, width, n);
      case Tail(_, c) => PendingWord(p[1..], at, c, all, end, count, width, n);
    }
  }

  lemma {:induction false} PendingTail<W>(p: seq<Store<W>>, at: Position, tail: nat, all: seq<Item<W>>, end: Position,
                                          count: nat, width: nat, n: nat)
    requires n >= 1 && PendingOk(p, at, tail, all, end, count, false, width, n) && count <= end.slot
    ensures PendingOk(p + [Tail(Rem(end.slot, n), end.slot)], at, tail, all, end, end.slot, false, width, n)
  {
    var q := p + [Tail(Rem(end.slot, n), end.slot)];
    if p == [] {
      assert q[1..] == [];
    } else {
      assert q[1..] == p[1..] + [Tail(Rem(end.slot, n), end.slot)];
      match p[0]
      case Word(_, _, _) => PendingTail(p[1..], Advance(at, width), tail, all, end, count, width, n);
      case Tail(_, c) => PendingTail(p[1..], at, c, all, end, count, width, n);
    }
  }

  lemma {:induction false} PendingDone<W>(p: seq<Store<W>>, at: Position, tail: nat, all: seq<Item<W>>, end: Position,
                                          count: nat, width: nat, n: nat)
    requires n >= 1 && PendingOk(p, at, tail, all, end, count, false, width, n)
    ensures PendingOk(p + [Done], at, tail, all, end, count, true, width, n)
  {
    var q := p + [Done];
    if p == [] {
      assert q[1..] == [];
    } else {
      assert q[1..] == p[1..] + [Done];
      match p[0]
      case Word(_, _, _) => PendingDone(p[1..], Advance(at, width), tail, all, end, count, width, n);
      case Tail(_, c) => PendingDone(p[1..], at, c, all, end, count, width, n);
    }
  }

  lemma {:induction false} HeadsView(p: seq<HeadStore>, head: nat, count: nat, n: nat)
    requires n >= 1 && HeadsOk(p, head, count, n)
    ensures head <= count && OwnHead(p, Rem(head, n)) == Rem(count, n)
  {
    if p != [] { HeadsView(p[1..], p[0].count, count, n); }
  }

  lemma {:induction false} HeadsAppend(p: seq<HeadStore>, head: nat, count: nat, k: nat, n: nat)
    requires n >= 1 && HeadsOk(p, head, count, n)
    ensures HeadsOk(p + [HeadStore(Rem(count + k, n), count + k)], head, count + k, n)
  {
    var q := p + [HeadStore(Rem(count + k, n), count + k)];
    if p == [] {
      assert q[1..] == [];
    } else {
      assert q[1..] == p[1..] + [HeadStore(Rem(count + k, n), count + k)];
      HeadsAppend(p[1..], p[0].count, count, k, n);
    }
  }

  // ---- What the checks compute ----

  /** The full test and the free-space subtraction are exact against the head in memory:
      a refusal means that all n - 1 usable slots hold items not yet released. */
  lemma {:induction false} PushCheckExact<W>(s: State<W>)
    requires Inv(s) && s.producer.PTail?
    ensures s.producer.tail == Rem(|s.pushed|, s.n)
    ensures Accepted(s) == Min(|s.producer.items|, s.n - 1 - (|s.pushed| - s.visHead))
    ensures s.producer.items != [] ==> (Accepted(s) == 0 <==> |s.pushed| - s.visHead == s.n - 1)
  {
    FullTest(s.visHead, |s.pushed|, s.n);
    SpaceExact(s.visHead, |s.pushed|, s.n);
  }

  lemma {:induction false} FullTest(head: nat, tail: nat, n: nat)
    requires n >= 2 && head <= tail <= head + n - 1
    ensures Rem(Rem(tail, n) + 1, n) == Rem(head, n) <==> tail - head == n - 1
  {
    RemShift(tail, 1, n);
    if tail - head < n - 1 {
      RemDistance(head, tail + 1, n);
    } else {
      RemStep(head, n);
    }
  }

  lemma {:induction false} SpaceExact(head: nat, tail: nat, n: nat)
    requires n >= 1 && head <= tail <= head + n - 1
    ensures PushSpace(Rem(head, n), Rem(tail, n), n) == n - 1 - (tail - head)
  {
    hide Rem;
    RemShift(tail, Rem(head, n) - 1, n);
    RemShift(head, -1 - tail, n);
    RemStep(head - tail - 1, n);
    RemSmall(n - 1 - (tail - head), n);
  }

  lemma {:induction false} PopCheckExact<W>(s: State<W>)
    requires Inv(s) && s.consumer.CHead?
    ensures s.consumer.head == Rem(|s.popped|, s.n)
    ensures Available(s) == Min(s.consumer.want, s.visTail - |s.popped|)
    ensures s.consumer.want > 0 ==> (Available(s) == 0 <==> s.visTail == |s.popped|)
  {
    RemDistance(|s.popped|, s.visTail, s.n);
  }

  // ---- Every step keeps the invariant ----

  lemma SlotsGrow<W>(slots: seq<Item<W>>, lo: nat, at: Position, all: seq<Item<W>>, more: seq<Item<W>>, n: nat)
    requires |slots| == n >= 1 && SlotsOk(slots, lo, at, all, n)
    ensures SlotsOk(slots, lo, at, all + more, n)
  {
  }

  /** A word reaching memory completes its item or extends the part already there. */
  lemma {:induction false} SlotsKept<W>(slots: seq<Item<W>>, lo: nat, at: Position, all: seq<Item<W>>,
                                        width: nat, n: nat)
    requires |slots| == n >= 1 && lo <= at.slot < |all| && at.slot < lo + n && SlotsOk(slots, lo, at, all, n)
    requires Widths(slots, width) && |all[at.slot]| == width && at.word < width
    ensures var r := Rem(at.slot, n);
      SlotsOk(slots[r := slots[r][at.word := all[at.slot][at.word]]], lo, Advance(at, width), all, n)
  {
    hide Rem;
    var r, next := Rem(at.slot, n), Advance(at, width);
    var slots' := slots[r := slots[r][at.word := all[at.slot][at.word]]];
    assert all[at.slot][..at.word + 1] == all[at.slot][..at.word] + [all[at.slot][at.word]];
    assert all[at.slot][..at.word + 1] <= slots'[r];
    forall j: nat | lo <= j < next.slot
      ensures slots'[Rem(j, n)] == all[j]
    {
      RemDistance(j, at.slot, n);
      if j == at.slot { assert all[j][..width] == all[j]; }
    }
  }

  lemma {:induction false} PushBeginKeepsInv<W>(s: State<W>, step: Step<W>)
    requires Inv(s) && Enabled(s, step) && step.PushBegin?
    ensures Inv(Do(s, step))
  {
    hide Rem, SlotsOk, HeadsOk, Taken, Widths;
    PendingView(s.pending, s.vis, s.visTail, All(s), Issued(s), |s.pushed|, s.closed, s.width, s.n);
    assert All(Do(s, step)) == All(s);
  }

  lemma TakenSnoc<W>(calls: seq<Call<W>>, c: Call<W>)
    requires c.taken <= |c.items|
    ensures Taken(calls + [c]) == Taken(calls) + c.items[..c.taken]
  {
    assert (calls + [c])[..|calls|] == calls;
  }

  lemma {:induction false} RefusedKeepsInv<W>(s: State<W>)
    requires Inv(s) && s.producer.PTail?
    ensures Inv(s.(producer := PIdle, calls := s.calls + [Call(s.producer.items, 0)]))
  {
    hide Rem, SlotsOk, HeadsOk, PendingOk, Taken, Widths;
    TakenSnoc(s.calls, Call(s.producer.items, 0));
    assert All(s.(producer := PIdle, calls := s.calls + [Call(s.producer.items, 0)])) == All(s) == s.pushed;
  }

  lemma WidthsAppend<W>(a: seq<Item<W>>, b: seq<Item<W>>, k: nat, width: nat)
    requires Widths(a, width) && Widths(b, width) && k <= |b|
    ensures Widths(a + b[..k], width)
  {
  }

  lemma {:induction false} AcceptedKeepsInv<W>(s: State<W>, a: nat)
    requires Inv(s) && s.producer.PTail? && 0 < a <= |s.producer.items| && |s.pushed| + a <= s.visHead + s.n - 1
    ensures Inv(s.(producer := PCopy(s.producer.items, a, s.producer.tail, 0, 0)))
  {
    hide Rem, SlotsOk, HeadsOk, PendingOk, Taken, Widths;
    var s', more := s.(producer := PCopy(s.producer.items, a, s.producer.tail, 0, 0)), s.producer.items[..a];
    assert All(s) == s.pushed && All(s') == s.pushed + more;
    WidthsAppend(s.pushed, s.producer.items, a, s.width);
    PendingGrow(s.pending, s.vis, s.visTail, s.pushed, more, Issued(s), |s.pushed|, s.closed, s.width, s.n);
    SlotsGrow(s.slots, s.visHead, s.vis, s.pushed, more, s.n);
  }

  lemma {:induction false} PushCheckKeepsInv<W>(s: State<W>)
    requires Inv(s) && Enabled(s, PushCheck)
    ensures Inv(Do(s, PushCheck))
  {
    PushCheckExact(s);
    hide Inv, Accepted;
    if Accepted(s) == 0 { RefusedKeepsInv(s); } else { AcceptedKeepsInv(s, Accepted(s)); }
  }

  lemma {:induction false} SignalDoneKeepsInv<W>(s: State<W>)
    requires Inv(s) && Enabled(s, SignalDone)
    ensures Inv(Do(s, SignalDone))
  {
    hide Rem, SlotsOk, HeadsOk, PendingOk, Taken, Widths;
    PendingDone(s.pending, s.vis, s.visTail, All(s), Issued(s), |s.pushed|, s.width, s.n);
  }

  lemma {:induction false} PushWordKeepsInv<W>(s: State<W>)
    requires Inv(s) && Enabled(s, PushWord)
    ensures Inv(Do(s, PushWord))
  {
    hide Rem, HeadsOk, PendingOk, SlotsOk, Taken;
    var p, s', end := s.producer, Do(s, PushWord), Issued(s);
    assert All(s') == All(s) && All(s)[end.slot] == p.items[p.i];
    assert s'.pending == s.pending + [Word(Rem(end.slot, s.n), end.word, All(s)[end.slot][end.word])] by {
      RemShift(|s.pushed|, p.i, s.n);
    }
    assert Issued(s') == Advance(end, s.width);
    PendingWord(s.pending, s.vis, s.visTail, All(s), end, |s.pushed|, s.width, s.n);
  }

  lemma {:induction false} PushPublishKeepsInv<W>(s: State<W>)
    requires Inv(s) && Enabled(s, PushPublish)
    ensures Inv(Do(s, PushPublish))
  {
    hide Rem, SlotsOk, HeadsOk, PendingOk, Taken;
    var p, s' := s.producer, Do(s, PushPublish);
    assert All(s') == All(s) == s'.pushed && Issued(s') == Issued(s);
    TakenSnoc(s.calls, Call(p.items, p.count));
    RemShift(|s.pushed|, p.count, s.n);
    PendingTail(s.pending, s.vis, s.visTail, All(s), Issued(s), |s.pushed|, s.width, s.n);
    assert s'.popped == s'.pushed[..|s'.popped|];
    assert ConsumerOk(s') by { PushedGrows(s, s'); }
  }

  lemma PushedGrows<W>(s: State<W>, s': State<W>)
    requires ConsumerOk(s) && Shape(s) && s'.consumer == s.consumer && s'.popped == s.popped && s'.visTail == s.visTail
    requires s.pushed <= s'.pushed && s'.width == s.width && s'.n == s.n
    ensures ConsumerOk(s')
  {
    hide Rem, Taken;
  }

  lemma {:induction false} FlushWordKeepsInv<W>(s: State<W>)
    requires Inv(s) && Enabled(s, FlushProducer) && s.pending[0].Word?
    ensures Inv(Do(s, FlushProducer))
  {
    hide Rem, SlotsOk, HeadsOk, Taken;
    assert All(Do(s, FlushProducer)) == All(s);
    PendingView(s.pending[1..], Advance(s.vis, s.width), s.visTail, All(s), Issued(s), |s.pushed|, s.closed,
                s.width, s.n);
    SlotsKept(s.slots, s.visHead, s.vis, All(s), s.width, s.n);
  }

  lemma {:induction false} FlushIndexKeepsInv<W>(s: State<W>)
    requires Inv(s) && Enabled(s, FlushProducer) && !s.pending[0].Word?
    ensures Inv(Do(s, FlushProducer))
  {
    hide Rem, SlotsOk, HeadsOk, Taken, Widths;
    assert All(Do(s, FlushProducer)) == All(s);
    if s.pending[0].Tail? {
      PendingView(s.pending[1..], s.vis, s.pending[0].count, All(s), Issued(s), |s.pushed|, s.closed, s.width, s.n);
    }
  }

  /** The consumer's steps leave the producer's half of the invariant alone. */
  lemma ProducerFrame<W>(s: State<W>, s': State<W>)
    requires s'.producer == s.producer && s'.pushed == s.pushed && s'.closed == s.closed
    requires s'.width == s.width && s'.n == s.n
    ensures ProducerOk(s') == ProducerOk(s) && All(s') == All(s) && Issued(s') == Issued(s)
  {
    hide Rem;
  }

  lemma ConsumerFrame<W>(s: State<W>, s': State<W>)
    requires s'.consumer == s.consumer && s'.pushed == s.pushed && s'.popped == s.popped
    requires s'.width == s.width && s'.n == s.n && s'.visTail == s.visTail
    ensures ConsumerOk(s') == ConsumerOk(s)
  {
    hide Rem;
  }

  lemma {:induction false} PopBeginKeepsInv<W>(s: State<W>, step: Step<W>)
    requires Inv(s) && Enabled(s, step) && step.PopBegin?
    ensures Inv(Do(s, step))
  {
    hide Rem, SlotsOk, PendingOk, HeadsOk, Taken, Widths;
    HeadsView(s.pendingHead, s.visHead, |s.popped|, s.n);
  }

  lemma {:induction false} PopCheckKeepsInv<W>(s: State<W>)
    requires Inv(s) && Enabled(s, PopCheck)
    ensures Inv(Do(s, PopCheck))
  {
    PopCheckExact(s);
    ProducerFrame(s, Do(s, PopCheck));
    hide Rem, SlotsOk, PendingOk, HeadsOk, Available, Taken, Widths, ProducerOk, All, Issued, Reserved;
  }

  /** A word load returns the next word of the next unpopped item. */
  lemma {:induction false} PopWordReads<W>(s: State<W>)
    requires Inv(s) && Enabled(s, PopWord)
    ensures var c, j := s.consumer, |s.popped| + |s.consumer.got|;
      && j < |s.pushed| && |s.pushed[j]| == s.width > |c.part|
      && s.slots[Rem(c.head + |c.got|, s.n)] == s.pushed[j]
  {
    hide Rem, HeadsOk, PendingOk, Taken;
    var c, j := s.consumer, |s.popped| + |s.consumer.got|;
    RemShift(|s.popped|, |c.got|, s.n);
    assert All(s)[j] == s.pushed[j];
    assert s.slots[Rem(j, s.n)] == All(s)[j];
  }

  lemma PartGrows<W>(part: seq<W>, item: seq<W>)
    requires part <= item && |part| < |item|
    ensures part + [item[|part|]] <= item
    ensures |part| + 1 == |item| ==> part + [item[|part|]] == item
  {
  }

  lemma NextItem<W>(items: seq<Item<W>>, from: nat, to: nat)
    requires from <= to < |items|
    ensures items[from..to] + [items[to]] == items[from..to + 1]
  {
  }

  /** The consumer after loading the next word of item `item`. */
  function Loaded<W>(c: Consumer<W>, item: Item<W>): Consumer<W>
    requires c.CCopy? && |c.part| < |item|
  {
    var part := c.part + [item[|c.part|]];
    if |part| < |item| then c.(part := part) else c.(got := c.got + [part], part := [])
  }

  lemma PopWordLoads<W>(s: State<W>)
    requires Inv(s) && Enabled(s, PopWord)
    ensures var c, j := s.consumer, |s.popped| + |s.consumer.got|;
      && j < |s.popped| + c.k <= s.visTail <= |s.pushed| && |c.part| < |s.pushed[j]| == s.width
      && c.part <= s.pushed[j]
      && Do(s, PopWord) == s.(consumer := Loaded(c, s.pushed[j]))
  {
    PopWordReads(s);
    hide Rem, SlotsOk, PendingOk, HeadsOk, Taken, Widths, ProducerOk, Shape;
  }

  lemma {:induction false} PopWordKeepsConsumer<W>(s: State<W>)
    requires Inv(s) && Enabled(s, PopWord)
    ensures ConsumerOk(Do(s, PopWord))
  {
    PopWordLoads(s);
    hide Inv, Do, Enabled;
    LoadedOk(s);
  }

  lemma {:induction false} LoadedOk<W>(s: State<W>)
    requires ConsumerOk(s) && s.consumer.CCopy? && |s.consumer.got| < s.consumer.k
    requires var c, j := s.consumer, |s.popped| + |s.consumer.got|;
      |c.part| < |s.pushed[j]| == s.width && c.part <= s.pushed[j]
    ensures ConsumerOk(s.(consumer := Loaded(s.consumer, s.pushed[|s.popped| + |s.consumer.got|])))
  {
    hide Rem;
    var c, j := s.consumer, |s.popped| + |s.consumer.got|;
    PartGrows(c.part, s.pushed[j]);
    NextItem(s.pushed, |s.popped|, j);
  }

  lemma {:induction false} PopWordKeepsInv<W>(s: State<W>)
    requires Inv(s) && Enabled(s, PopWord)
    ensures Inv(Do(s, PopWord))
  {
    PopWordKeepsConsumer(s);
    ProducerFrame(s, Do(s, PopWord));
    hide Rem, SlotsOk, PendingOk, HeadsOk, Taken, Widths, ProducerOk, ConsumerOk, All, Issued, Reserved;
  }

  lemma {:induction false} PopPublishKeepsInv<W>(s: State<W>)
    requires Inv(s) && Enabled(s, PopPublish)
    ensures Inv(Do(s, PopPublish))
  {
    hide Rem, SlotsOk, PendingOk, HeadsOk, Taken, Widths;
    var k, p := s.consumer.k, |s.popped|;
    assert s.popped + s.consumer.got == s.pushed[..p + k];
    HeadsAppend(s.pendingHead, s.visHead, p, k, s.n);
    var s' := Do(s, PopPublish);
    assert s'.pendingHead == s.pendingHead + [HeadStore(Rem(p + k, s.n), p + k)] by {
      RemShift(p, k, s.n);
    }
    assert All(s') == All(s);
  }

  lemma SlotsReleased<W>(slots: seq<Item<W>>, lo: nat, hi: nat, at: Position, all: seq<Item<W>>, n: nat)
    requires |slots| == n >= 1 && lo <= hi && SlotsOk(slots, lo, at, all, n)
    ensures SlotsOk(slots, hi, at, all, n)
  {
  }

  lemma {:induction false} FlushConsumerKeepsInv<W>(s: State<W>)
    requires Inv(s) && Enabled(s, FlushConsumer)
    ensures Inv(Do(s, FlushConsumer))
  {
    hide Rem, PendingOk, Taken, SlotsOk, Widths;
    var s', first := Do(s, FlushConsumer), s.pendingHead[0];
    HeadsView(s.pendingHead[1..], first.count, |s.popped|, s.n);
    ProducerFrame(s, s');
    ConsumerFrame(s, s');
    hide ProducerOk, ConsumerOk, All, Issued, Reserved;
    SlotsReleased(s.slots, s.visHead, first.count, s.vis, All(s), s.n);
  }

  lemma StepKeepsInv<W>(s: State<W>, step: Step<W>)
    requires Inv(s) && Enabled(s, step)
    ensures Inv(Do(s, step))
  {
    match step
    case PushBegin(_, _) => PushBeginKeepsInv(s, step);
    case PushCheck => PushCheckKeepsInv(s);
    case PushWord => PushWordKeepsInv(s);
    case PushPublish => PushPublishKeepsInv(s);
    case SignalDone => SignalDoneKeepsInv(s);
    case FlushProducer => if s.pending[0].Word? { FlushWordKeepsInv(s); } else { FlushIndexKeepsInv(s); }
    case PopBegin(_, _) => PopBeginKeepsInv(s, step);
    case PopCheck => PopCheckKeepsInv(s);
    case PopWord => PopWordKeepsInv(s);
    case PopPublish => PopPublishKeepsInv(s);
    case FlushConsumer => FlushConsumerKeepsInv(s);
  }

  // ---- Runs ----

  predicate ValidRun<W>(s: State<W>, steps: seq<Step<W>>)
    decreases |steps|
  {
    steps == [] || (Enabled(s, steps[0]) && ValidRun(Do(s, steps[0]), steps[1..]))
  }

  function After<W>(s: State<W>, steps: seq<Step<W>>): State<W>
    requires ValidRun(s, steps)
    decreases |steps|
  {
    if steps == [] then s else After(Do(s, steps[0]), steps[1..])
  }

  lemma {:induction false} RunKeepsInv<W>(s: State<W>, steps: seq<Step<W>>)
    requires Inv(s) && ValidRun(s, steps)
    ensures Inv(After(s, steps))
    decreases |steps|
  {
    if steps != [] {
      StepKeepsInv(s, steps[0]);
      RunKeepsInv(Do(s, steps[0]), steps[1..]);
    }
  }

  lemma InitInv<W>(s: State<W>)
    requires Init(s)
    ensures Inv(s)
  {
    RemSmall(0, s.n);
  }

  // ---- The history is that of the run's own steps ----

  /** What the push calls of a run are given, in order. */
  function Offers<W>(steps: seq<Step<W>>): seq<seq<Item<W>>>
  {
    if steps == [] then []
    else (if steps[0].PushBegin? then [steps[0].items] else []) + Offers(steps[1..])
  }

  /** What the pop calls of a run are asked for, in order. */
  function Requests<W>(steps: seq<Step<W>>): seq<Request>
  {
    if steps == [] then []
    else (if steps[0].PopBegin? then [Request(steps[0].want, steps[0].batch)] else []) + Requests(steps[1..])
  }

  function Given<W>(calls: seq<Call<W>>): (r: seq<seq<Item<W>>>)
    ensures |r| == |calls| && forall i :: 0 <= i < |calls| ==> r[i] == calls[i].items
  {
    seq(|calls|, i requires 0 <= i < |calls| => calls[i].items)
  }

  function Asked(pops: seq<PopCall>): (r: seq<Request>)
    ensures |r| == |pops| && forall i :: 0 <= i < |pops| ==> r[i] == pops[i].request
  {
    seq(|pops|, i requires 0 <= i < |pops| => pops[i].request)
  }

  function Total(pops: seq<PopCall>): nat
  {
    if pops == [] then 0 else Total(pops[..|pops| - 1]) + pops[|pops| - 1].count
  }

  /** The push calls on record and the one under way are those that were given `offers`. */
  ghost predicate PushesAre<W>(s: State<W>, offers: seq<seq<Item<W>>>)
  {
    offers == Given(s.calls) + if s.producer.PIdle? then [] else [s.producer.items]
  }

  /** The pop calls on record and the one before its check are those that were asked for `requests`,
      and the pops on record account for every item popped. */
  ghost predicate PopsAre<W>(s: State<W>, requests: seq<Request>)
  {
    && requests == Asked(s.pops) + (if s.consumer.CHead? then [Request(s.consumer.want, s.consumer.batch)] else [])
    && Total(s.pops) == |s.popped| + if s.consumer.CCopy? then s.consumer.k else 0
  }

  lemma {:induction false} StepPushes<W>(s: State<W>, step: Step<W>, offers: seq<seq<Item<W>>>)
    requires Enabled(s, step) && PushesAre(s, offers)
    ensures PushesAre(Do(s, step), offers + if step.PushBegin? then [step.items] else [])
  {
    hide Rem, Accepted, Available;
    if step.PushPublish? || step.PushCheck? {
      var s' := Do(s, step);
      assert s'.producer.PIdle? ==> Given(s'.calls) == Given(s.calls) + [s.producer.items];
    }
  }

  lemma {:induction false} StepPops<W>(s: State<W>, step: Step<W>, requests: seq<Request>)
    requires Enabled(s, step) && PopsAre(s, requests)
    ensures PopsAre(Do(s, step), requests + if step.PopBegin? then [Request(step.want, step.batch)] else [])
  {
    hide Rem, Accepted, Available, Asked, Total;
    if step.PopCheck? {
      PopCheckPops(s, requests);
    } else {
      assert Do(s, step).pops == s.pops;
    }
  }

  lemma PopCheckPops<W>(s: State<W>, requests: seq<Request>)
    requires s.consumer.CHead? && PopsAre(s, requests)
    ensures PopsAre(Do(s, PopCheck), requests)
  {
    hide Rem, Available;
    PopsSnoc(s.pops, PopCall(Request(s.consumer.want, s.consumer.batch), Available(s)));
    hide Asked, Total;
  }

  lemma PopsSnoc(pops: seq<PopCall>, c: PopCall)
    ensures Asked(pops + [c]) == Asked(pops) + [c.request] && Total(pops + [c]) == Total(pops) + c.count
  {
    assert (pops + [c])[..|pops|] == pops;
  }

  lemma {:induction false} RunPushes<W>(s: State<W>, steps: seq<Step<W>>, offers: seq<seq<Item<W>>>)
    requires ValidRun(s, steps) && PushesAre(s, offers)
    ensures PushesAre(After(s, steps), offers + Offers(steps))
    decreases |steps|
  {
    hide PushesAre, Do, Enabled;
    if steps == [] {
      assert offers + [] == offers;
    } else {
      var first := if steps[0].PushBegin? then [steps[0].items] else [];
      StepPushes(s, steps[0], offers);
      RunPushes(Do(s, steps[0]), steps[1..], offers + first);
      assert offers + first + Offers(steps[1..]) == offers + Offers(steps);
    }
  }

  lemma {:induction false} RunPops<W>(s: State<W>, steps: seq<Step<W>>, requests: seq<Request>)
    requires ValidRun(s, steps) && PopsAre(s, requests)
    ensures PopsAre(After(s, steps), requests + Requests(steps))
    decreases |steps|
  {
    hide PopsAre, Do, Enabled;
    if steps == [] {
      assert requests + [] == requests;
    } else {
      var first := if steps[0].PopBegin? then [Request(steps[0].want, steps[0].batch)] else [];
      StepPops(s, steps[0], requests);
      RunPops(Do(s, steps[0]), steps[1..], requests + first);
      assert requests + first + Requests(steps[1..]) == requests + Requests(steps);
    }
  }

  /** Every call on record, and every one under way, is a call of the run with what it was given. */
  lemma CallsAreThoseMade<W>(init: State<W>, steps: seq<Step<W>>)
    requires Init(init) && ValidRun(init, steps)
    ensures PushesAre(After(init, steps), Offers(steps)) && PopsAre(After(init, steps), Requests(steps))
  {
    RunPushes(init, steps, []);
    RunPops(init, steps, []);
    assert [] + Offers(steps) == Offers(steps) && [] + Requests(steps) == Requests(steps);
  }

  /** The bounds in the guards never bind: in every reachable state a call under way and a pending
      store can take their next step, so no access is out of bounds. */
  lemma MemoryGuardsHold<W>(init: State<W>, steps: seq<Step<W>>)
    requires Init(init) && ValidRun(init, steps)
    ensures var s := After(init, steps);
      && (s.producer.PTail? ==> Enabled(s, PushCheck))
      && (s.producer.PCopy? ==> Enabled(s, if s.producer.i < s.producer.count then PushWord else PushPublish))
      && (s.pending != [] ==> Enabled(s, FlushProducer))
      && (s.consumer.CHead? ==> Enabled(s, PopCheck))
      && (s.consumer.CCopy? ==> Enabled(s, if |s.consumer.got| < s.consumer.k then PopWord else PopPublish))
      && (s.pendingHead != [] ==> Enabled(s, FlushConsumer))
  {
    InitInv(init);
    RunKeepsInv(init, steps);
    InvGuards(After(init, steps));
  }

  lemma InvGuards<W>(s: State<W>)
    requires Inv(s)
    ensures s.producer.PTail? ==> Enabled(s, PushCheck)
    ensures s.producer.PCopy? ==> Enabled(s, if s.producer.i < s.producer.count then PushWord else PushPublish)
    ensures s.pending != [] ==> Enabled(s, FlushProducer)
    ensures s.consumer.CHead? ==> Enabled(s, PopCheck)
    ensures s.consumer.CCopy? ==> Enabled(s, if |s.consumer.got| < s.consumer.k then PopWord else PopPublish)
  {
    PushGuards(s);
    FlushGuards(s);
    PopGuards(s);
    hide Inv, Enabled;
  }

  lemma PushGuards<W>(s: State<W>)
    requires Inv(s)
    ensures s.producer.PTail? ==> Enabled(s, PushCheck)
    ensures s.producer.PCopy? ==> Enabled(s, if s.producer.i < s.producer.count then PushWord else PushPublish)
  {
    hide Rem, SlotsOk, HeadsOk, PendingOk, Taken, ConsumerOk;
    if s.producer.PCopy? {
      assert forall i :: 0 <= i < s.producer.count ==> All(s)[|s.pushed| + i] == s.producer.items[i];
    }
  }

  lemma FlushGuards<W>(s: State<W>)
    requires Inv(s)
    ensures s.pending != [] ==> Enabled(s, FlushProducer)
  {
    hide Rem, SlotsOk, HeadsOk, Taken, ConsumerOk, ProducerOk;
    if s.pending != [] && s.pending[0].Word? {
      assert All(s)[s.vis.slot] in All(s);
      RemRange(s.vis.slot, s.n);
    }
  }

  lemma RemRange(x: int, n: nat)
    requires n >= 1
    ensures 0 <= Rem(x, n) < n
  {
  }

  lemma PopGuards<W>(s: State<W>)
    requires Inv(s)
    ensures s.consumer.CHead? ==> Enabled(s, PopCheck)
    ensures s.consumer.CCopy? ==> Enabled(s, if |s.consumer.got| < s.consumer.k then PopWord else PopPublish)
  {
    hide Rem, SlotsOk, HeadsOk, PendingOk, Taken, ProducerOk;
    if s.consumer.CCopy? { RemRange(s.consumer.head + |s.consumer.got|, s.n); }
  }

  /** In every interleaving, with every store of a word or an index delayed for any time in its FIFO
      buffer: what has been pushed is what the push calls of the run took, each the first items of
      what it was given; what has been popped is a prefix of that, so every popped item is one pushed item with all
      its words; and a pop in progress has read the next items and the first words of the one after. */
  lemma PoppedIsPrefix<W>(init: State<W>, steps: seq<Step<W>>)
    requires Init(init) && ValidRun(init, steps)
    ensures var s := After(init, steps);
      && PushesAre(s, Offers(steps)) && PopsAre(s, Requests(steps))
      && s.pushed == Taken(s.calls) && Widths(s.pushed, s.width)
      && s.popped <= s.pushed
      && |s.pushed| - |s.popped| <= s.n - 1
      && (s.consumer.CCopy? ==>
            && s.popped + s.consumer.got <= s.pushed
            && (s.consumer.part != [] ==>
                  var j := |s.popped| + |s.consumer.got|; j < |s.pushed| && s.consumer.part <= s.pushed[j]))
  {
    hide Rem, SlotsOk, PendingOk, HeadsOk, Taken, Widths;
    InitInv(init);
    RunKeepsInv(init, steps);
    var s := After(init, steps);
    PushedWidths(s);
    CallsAreThoseMade(init, steps);
    if s.consumer.CCopy? {
      assert s.popped + s.consumer.got == s.pushed[..|s.popped| + |s.consumer.got|];
    }
  }

  lemma PushedWidths<W>(s: State<W>)
    requires Widths(All(s), s.width)
    ensures Widths(s.pushed, s.width)
  {
    assert forall i :: 0 <= i < |s.pushed| ==> s.pushed[i] == All(s)[i];
  }

  /** A word never reaches a slot in memory while that slot holds an item the consumer may still
      read: neither a published unread one nor one whose read has not been released. */
  lemma NoOverwriteOfUnreadSlot<W>(init: State<W>, steps: seq<Step<W>>, j: nat)
    requires Init(init) && ValidRun(init, steps)
    requires var s := After(init, steps);
      s.pending != [] && s.pending[0].Word? && s.visHead <= j < s.visTail
    ensures var s := After(init, steps);
      && s.visHead <= |s.popped|
      && Rem(j, s.n) != s.pending[0].index
  {
    hide Rem, SlotsOk, HeadsOk, Taken, Widths;
    InitInv(init);
    RunKeepsInv(init, steps);
    var s := After(init, steps);
    RemDistance(j, s.vis.slot, s.n);
  }

  /** A push is refused exactly when the ring was full at the load of head_, and a pop exactly
      when it was empty at the load of tail_; a batch takes the largest possible count, from the
      front of what the caller offered. */
  lemma RefusalsAreHonest<W>(init: State<W>, steps: seq<Step<W>>)
    requires Init(init) && ValidRun(init, steps)
    ensures var s, offers, requests := After(init, steps), Offers(steps), Requests(steps);
      && (!s.producer.PIdle? ==> offers != [] && s.producer.items == offers[|offers| - 1])
      && (s.consumer.CHead? ==>
            requests != [] && Request(s.consumer.want, s.consumer.batch) == requests[|requests| - 1])
    ensures PushIsHonest(After(init, steps)) && PopIsHonest(After(init, steps))
  {
    InitInv(init);
    RunKeepsInv(init, steps);
    CallsAreThoseMade(init, steps);
    hide Inv, PushIsHonest, PopIsHonest;
    InvIsHonest(After(init, steps));
  }

  ghost predicate PushIsHonest<W>(s: State<W>)
  {
    && (Enabled(s, PushCheck) && s.producer.items != [] ==>
          (Do(s, PushCheck).producer.PIdle? <==> |s.pushed| - s.visHead == s.n - 1))
    && (Enabled(s, PushCheck) && Do(s, PushCheck).producer.PCopy? ==>
          && Do(s, PushCheck).producer.items == s.producer.items
          && Do(s, PushCheck).producer.count == Min(|s.producer.items|, s.n - 1 - (|s.pushed| - s.visHead)))
    && (Enabled(s, PushPublish) ==>
          && Do(s, PushPublish).calls == s.calls + [Call(s.producer.items, s.producer.count)]
          && Do(s, PushPublish).pushed == s.pushed + s.producer.items[..s.producer.count])
  }

  ghost predicate PopIsHonest<W>(s: State<W>)
  {
    && (Enabled(s, PopCheck) && s.consumer.want > 0 ==>
          (Do(s, PopCheck).consumer.CIdle? <==> s.visTail == |s.popped|))
    && (Enabled(s, PopCheck) && Do(s, PopCheck).consumer.CCopy? ==>
          Do(s, PopCheck).consumer.k == Min(s.consumer.want, s.visTail - |s.popped|))
    && (Enabled(s, PopPublish) ==>
          Do(s, PopPublish).popped == s.popped + s.consumer.got && |s.consumer.got| == s.consumer.k)
  }

  lemma {:induction false} InvIsHonest<W>(s: State<W>)
    requires Inv(s)
    ensures PushIsHonest(s) && PopIsHonest(s)
  {
    hide Rem, SlotsOk, PendingOk, HeadsOk, Accepted, Available, Taken, Widths;
    if s.producer.PTail? { PushCheckExact(s); }
    if s.consumer.CHead? { PopCheckExact(s); }
    hide Inv;
  }
}
