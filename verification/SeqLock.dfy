/** The sequence lock: many writers behind a spinlock, readers that never block, a payload copied
    element by element, and a sequence counter that wraps at `modulus`.

    A writer's stores go through its FIFO store buffer. A fetch_add, which empties the buffer
    before it acts, has the effect of the store of the next value followed by a flush, because
    only the lock's holder changes the counter. `ticks`, `hist`, `section` and a reader's `at` and
    `begun` are history. */
module SeqLock {
  import opened Bits

  datatype Store<T> = Seq(count: nat) | Data(i: nat, value: T) | Unlock

  datatype WriterPc<T> = WIdle | WLocked(payload: seq<T>) | WWriting(payload: seq<T>, base: nat, issued: nat)

  datatype Writer<T> = Writer(pc: WriterPc<T>, buf: seq<Store<T>>)

  datatype Reader<T> = RIdle | RCopy(s1: nat, got: seq<T>, at: nat, begun: nat)

  /** The write that holds the lock in memory and how many of its stores have reached memory. */
  datatype Section<T> = Free | Held(w: nat, payload: seq<T>, flushed: nat)

  datatype State<T> = State(
    modulus: nat, width: nat, locked: bool, seqno: nat, data: seq<T>,
    writers: seq<Writer<T>>, readers: seq<Reader<T>>,
    ticks: nat, hist: seq<seq<T>>, section: Section<T>)

  datatype Step<T> =
    | Lock(w: nat, payload: seq<T>) | LoadSeq(w: nat) | Issue(w: nat) | Flush(w: nat)
    | ReadBegin(r: nat) | ReadAbandon(r: nat) | ReadCopy(r: nat) | ReadFinish(r: nat)

  predicate Init<T(==)>(s: State<T>)
  {
    && s.modulus >= 2 && s.modulus % 2 == 0 && |s.data| == s.width
    && s == State(s.modulus, s.width, false, 0, s.data, s.writers, s.readers, 0, [s.data], Free)
    && (forall w | 0 <= w < |s.writers| :: s.writers[w] == Writer(WIdle, []))
    && (forall r | 0 <= r < |s.readers| :: s.readers[r] == RIdle)
  }

  /** The j-th store of a write: odd counter, the elements in order, even counter, unlock. */
  function StoreAt<T>(p: seq<T>, base: nat, m: nat, j: nat): Store<T>
    requires m >= 1
  {
    if j == 0 then Seq(Rem(base + 1, m))
    else if j <= |p| then Data(j - 1, p[j - 1])
    else if j == |p| + 1 then Seq(Rem(base + 2, m))
    else Unlock
  }

  predicate Enabled<T>(s: State<T>, step: Step<T>)
  {
    s.modulus >= 1 &&
    match step
    case Lock(w, p) => w < |s.writers| && s.writers[w] == Writer(WIdle, []) && !s.locked && |p| == s.width
    case LoadSeq(w) => w < |s.writers| && s.writers[w].pc.WLocked?
    case Issue(w) => w < |s.writers| && s.writers[w].pc.WWriting?
    case Flush(w) =>
      && w < |s.writers| && s.writers[w].buf != []
      && (s.writers[w].buf[0].Data? ==> s.writers[w].buf[0].i < |s.data|)
    case ReadBegin(r) => r < |s.readers| && s.readers[r].RIdle?
    case ReadAbandon(r) => r < |s.readers| && s.readers[r].RCopy? && s.readers[r].s1 % 2 == 1
    case ReadCopy(r) => r < |s.readers| && s.readers[r].RCopy? && |s.readers[r].got| < s.width == |s.data|
    case ReadFinish(r) => r < |s.readers| && s.readers[r].RCopy? && |s.readers[r].got| == s.width
  }

  /** The reader's final test: the counter is unchanged and even. */
  predicate Accepts<T>(s: State<T>, r: nat)
    requires Enabled(s, ReadFinish(r))
  {
    s.readers[r].s1 == s.seqno && s.readers[r].s1 % 2 == 0
  }

  function Apply<T>(s: State<T>, store: Store<T>): State<T>
    requires store.Data? ==> store.i < |s.data|
  {
    var s' := if s.section.Held? then s.(section := s.section.(flushed := s.section.flushed + 1)) else s;
    match store
    case Seq(v) =>
      var t := s'.(seqno := v, ticks := s.ticks + 1);
      if s.section.Held? && s.section.flushed > 0 then t.(hist := s.hist + [s.section.payload]) else t
    case Data(i, v) => s'.(data := s.data[i := v])
    case Unlock => s'.(locked := false, section := Free)
  }

  function Do<T>(s: State<T>, step: Step<T>): State<T>
    requires Enabled(s, step)
  {
    match step
    case Lock(w, p) =>
      s.(locked := true, section := Held(w, p, 0), writers := s.writers[w := Writer(WLocked(p), [])])
    case LoadSeq(w) =>
      s.(writers := s.writers[w := Writer(WWriting(s.writers[w].pc.payload, s.seqno, 0), s.writers[w].buf)])
    case Issue(w) =>
      var Writer(pc, buf) := s.writers[w];
      var buf' := buf + [StoreAt(pc.payload, pc.base, s.modulus, pc.issued)];
      var pc' := if pc.issued == |pc.payload| + 2 then WIdle else pc.(issued := pc.issued + 1);
      s.(writers := s.writers[w := Writer(pc', buf')])
    case Flush(w) =>
      var Writer(pc, buf) := s.writers[w];
      Apply(s.(writers := s.writers[w := Writer(pc, buf[1..])]), buf[0])
    case ReadBegin(r) => s.(readers := s.readers[r := RCopy(s.seqno, [], s.ticks, |s.hist|)])
    case ReadAbandon(r) => s.(readers := s.readers[r := RIdle])
    case ReadCopy(r) =>
      var rd := s.readers[r];
      s.(readers := s.readers[r := rd.(got := rd.got + [s.data[|rd.got|]])])
    case ReadFinish(r) => s.(readers := s.readers[r := RIdle])
  }

  // ---- Invariant ----

  ghost predicate PendingOk<T>(buf: seq<Store<T>>, p: seq<T>, base: nat, m: nat, flushed: nat, issued: nat)
    requires m >= 1
  {
    flushed <= issued && |buf| == issued - flushed &&
    forall j: nat :: flushed <= j < issued ==> buf[j - flushed] == StoreAt(p, base, m, j)
  }

  /** The holder's program counter and buffer against the stores already flushed. */
  ghost predicate HolderOk<T>(s: State<T>, wr: Writer<T>, p: seq<T>, flushed: nat)
    requires s.modulus >= 1 && |s.hist| > 0
  {
    var base := Rem(2 * (|s.hist| - 1 - if flushed == s.width + 2 then 1 else 0), s.modulus);
    match wr.pc
    case WLocked(q) => q == p && wr.buf == [] && flushed == 0
    case WWriting(q, b, issued) =>
      q == p && b == base && issued <= s.width + 2 && PendingOk(wr.buf, p, base, s.modulus, flushed, issued)
    case WIdle => PendingOk(wr.buf, p, base, s.modulus, flushed, s.width + 3)
  }

  ghost predicate WritersOk<T>(s: State<T>)
    requires s.modulus >= 1 && |s.hist| > 0
  {
    && (forall w :: 0 <= w < |s.writers| && !(s.section.Held? && w == s.section.w) ==>
          s.writers[w] == Writer(WIdle, []))
    && (s.section.Held? ==>
          && s.section.w < |s.writers| && |s.section.payload| == s.width && s.section.flushed <= s.width + 2
          && HolderOk(s, s.writers[s.section.w], s.section.payload, s.section.flushed))
  }

  /** Memory is a whole payload when the counter is even, and a mix of two when it is odd. */
  ghost predicate MemoryOk<T>(s: State<T>)
    requires s.modulus >= 1 && |s.hist| > 0
  {
    var last := s.hist[|s.hist| - 1];
    && |s.data| == s.width == |last|
    && s.seqno == Rem(s.ticks, s.modulus)
    && s.locked == s.section.Held?
    && if s.section.Held? && 1 <= s.section.flushed <= s.width + 1 then
         && s.ticks == 2 * (|s.hist| - 1) + 1
         && |s.section.payload| == s.width
         && (forall i :: 0 <= i < s.width ==>
               s.data[i] == if i < s.section.flushed - 1 then s.section.payload[i] else last[i])
       else
         s.ticks == 2 * (|s.hist| - 1) && s.data == last
  }

  ghost predicate ReaderOk<T>(s: State<T>, rd: Reader<T>)
    requires s.modulus >= 1 && |s.hist| > 0
  {
    rd.RCopy? ==>
      && rd.at <= s.ticks && rd.s1 == Rem(rd.at, s.modulus) && |rd.got| <= s.width
      && 1 <= rd.begun && rd.at / 2 == rd.begun - 1
      && (rd.at == s.ticks && rd.at % 2 == 0 ==> rd.got <= s.data)
  }

  ghost predicate ReadersOk<T>(s: State<T>)
    requires s.modulus >= 1 && |s.hist| > 0
  {
    forall r :: 0 <= r < |s.readers| ==> ReaderOk(s, s.readers[r])
  }

  ghost predicate Inv<T>(s: State<T>)
  {
    && s.modulus >= 2 && s.modulus % 2 == 0 && |s.hist| > 0
    && MemoryOk(s) && WritersOk(s) && |s.data| == s.width && ReadersOk(s)
  }

  // ---- Steps of a writer ----

  lemma {:induction false} LockKeepsInv<T>(s: State<T>, step: Step<T>)
    requires Inv(s) && Enabled(s, step) && (step.Lock? || step.LoadSeq?)
    ensures Inv(Do(s, step))
  {
    hide Rem, ReaderOk;
    assert forall r :: 0 <= r < |s.readers| && ReaderOk(s, s.readers[r]) ==> ReaderOk(Do(s, step), s.readers[r]) by {
      ReadersFramed(s, Do(s, step));
    }
  }

  /** Readers depend only on the memory they read. */
  lemma {:induction false} ReadersFramed<T>(s: State<T>, s': State<T>)
    requires s.modulus >= 1 && |s.hist| > 0 && |s'.hist| > 0
    requires s'.modulus == s.modulus && s'.width == s.width && s.ticks <= s'.ticks
    requires s'.ticks > s.ticks || s.ticks % 2 == 1 || s'.data == s.data
    ensures forall rd: Reader<T> :: ReaderOk(s, rd) ==> ReaderOk(s', rd)
  {
  }

  lemma {:induction false} IssueKeepsInv<T>(s: State<T>, w: nat)
    requires Inv(s) && Enabled(s, Issue(w))
    ensures Inv(Do(s, Issue(w)))
  {
    hide Rem, StoreAt, ReaderOk;
    ReadersFramed(s, Do(s, Issue(w)));
  }

  lemma {:induction false} FlushApplies<T>(s: State<T>, w: nat)
    requires Inv(s) && w < |s.writers| && s.writers[w].buf != []
    ensures s.section.Held? && s.section.w == w
    ensures var h, f := 2 * (|s.hist| - 1), s.section.flushed;
      && f <= s.width + 2 && |s.section.payload| == s.width
      && s.writers[w].buf[0]
         == StoreAt(s.section.payload, Rem(if f == s.width + 2 then h - 2 else h, s.modulus), s.modulus, f)
  {
    hide Rem, StoreAt;
  }

  lemma {:induction false} FlushKeepsMemory<T>(s: State<T>, w: nat)
    requires Inv(s) && Enabled(s, Flush(w))
    ensures MemoryOk(Do(s, Flush(w)))
  {
    hide Rem, ReadersOk, WritersOk;
    FlushApplies(s, w);
    var h := 2 * (|s.hist| - 1);
    RemShift(h, 1, s.modulus);
    RemShift(h, 2, s.modulus);
    var s' := Do(s, Flush(w));
    if s.section.flushed == s.width + 1 {
      assert s.data == s.section.payload;
    }
  }

  lemma {:induction false} FlushKeepsWriters<T>(s: State<T>, w: nat)
    requires Inv(s) && Enabled(s, Flush(w))
    ensures WritersOk(Do(s, Flush(w)))
  {
    hide Rem, ReadersOk;
    FlushApplies(s, w);
  }

  lemma {:induction false} FlushKeepsInv<T>(s: State<T>, w: nat)
    requires Inv(s) && Enabled(s, Flush(w))
    ensures Inv(Do(s, Flush(w)))
  {
    hide Rem, WritersOk, ReaderOk;
    FlushKeepsMemory(s, w);
    FlushKeepsWriters(s, w);
    FlushApplies(s, w);
    ReadersFramed(s, Do(s, Flush(w)));
  }

  // ---- Steps of a reader ----

  lemma {:induction false} ReadKeepsInv<T>(s: State<T>, step: Step<T>)
    requires Inv(s) && Enabled(s, step)
    requires step.ReadBegin? || step.ReadAbandon? || step.ReadCopy? || step.ReadFinish?
    ensures Inv(Do(s, step))
  {
    hide Rem;
    var s' := Do(s, step);
    forall r | 0 <= r < |s'.readers|
      ensures ReaderOk(s', s'.readers[r])
    {
      assert ReaderOk(s, s.readers[r]);
    }
  }

  lemma StepKeepsInv<T>(s: State<T>, step: Step<T>)
    requires Inv(s) && Enabled(s, step)
    ensures Inv(Do(s, step))
  {
    hide Inv, Do;
    match step
    case Lock(_, _) => LockKeepsInv(s, step);
    case LoadSeq(_) => LockKeepsInv(s, step);
    case Issue(w) => IssueKeepsInv(s, w);
    case Flush(w) => FlushKeepsInv(s, w);
    case _ => ReadKeepsInv(s, step);
  }

  // ---- Runs ----

  predicate ValidRun<T>(s: State<T>, steps: seq<Step<T>>)
    decreases |steps|
  {
    steps == [] || (Enabled(s, steps[0]) && ValidRun(Do(s, steps[0]), steps[1..]))
  }

  function After<T>(s: State<T>, steps: seq<Step<T>>): State<T>
    requires ValidRun(s, steps)
    decreases |steps|
  {
    if steps == [] then s else After(Do(s, steps[0]), steps[1..])
  }

  lemma {:induction false} RunKeepsInv<T>(s: State<T>, steps: seq<Step<T>>)
    requires Inv(s) && ValidRun(s, steps)
    ensures Inv(After(s, steps))
    decreases |steps|
  {
    if steps != [] {
      StepKeepsInv(s, steps[0]);
      RunKeepsInv(Do(s, steps[0]), steps[1..]);
    }
  }

  lemma InitInv<T>(s: State<T>)
    requires Init(s)
    ensures Inv(s)
  {
    RemSmall(0, s.modulus);
  }

  /** The bounds in the guards never bind: in every reachable state a write under way, a pending store
      and a read under way can take their next step, so no access is out of bounds. */
  lemma MemoryGuardsHold<T>(init: State<T>, steps: seq<Step<T>>, w: nat, r: nat)
    requires Init(init) && ValidRun(init, steps)
    ensures var s := After(init, steps);
      && (w < |s.writers| && s.writers[w].pc.WLocked? ==> Enabled(s, LoadSeq(w)))
      && (w < |s.writers| && s.writers[w].pc.WWriting? ==> Enabled(s, Issue(w)))
      && (w < |s.writers| && s.writers[w].buf != [] ==> Enabled(s, Flush(w)))
      && (r < |s.readers| && s.readers[r].RCopy? ==>
            Enabled(s, if |s.readers[r].got| < s.width then ReadCopy(r) else ReadFinish(r)))
  {
    InitInv(init);
    RunKeepsInv(init, steps);
    InvGuards(After(init, steps), w, r);
  }

  lemma InvGuards<T>(s: State<T>, w: nat, r: nat)
    requires Inv(s)
    ensures w < |s.writers| && s.writers[w].buf != [] ==> Enabled(s, Flush(w))
    ensures r < |s.readers| && s.readers[r].RCopy? ==>
      Enabled(s, if |s.readers[r].got| < s.width then ReadCopy(r) else ReadFinish(r))
  {
    hide Rem, WritersOk;
    if w < |s.writers| && s.writers[w].buf != [] { FlushApplies(s, w); }
    assert r < |s.readers| ==> ReaderOk(s, s.readers[r]);
  }

  lemma RemParity(x: nat, m: nat)
    requires m >= 2 && m % 2 == 0
    ensures Rem(x, m) % 2 == x % 2
  {
    assert x == 2 * ((m / 2) * (x / m)) + x % m by { assert m * (x / m) == 2 * ((m / 2) * (x / m)); }
  }

  // ---- The history is that of the run's own steps ----

  /** The payloads the writes of a run are called with, in the order in which they take the lock. */
  function Payloads<T>(steps: seq<Step<T>>): seq<seq<T>>
  {
    if steps == [] then []
    else (if steps[0].Lock? then [steps[0].payload] else []) + Payloads(steps[1..])
  }

  /** The payload of the write whose even counter is still to come. */
  function Unpublished<T>(s: State<T>): seq<seq<T>>
  {
    if s.section.Held? && s.section.flushed <= s.width + 1 then [s.section.payload] else []
  }

  /** `asked` are the initial payload and those of the writes so far. */
  ghost predicate WritesAre<T>(s: State<T>, asked: seq<seq<T>>)
  {
    && s.hist + Unpublished(s) == asked
    && (s.section.Held? ==> asked != [] && s.section.payload == asked[|asked| - 1])
  }

  lemma {:induction false} StepWrites<T>(s: State<T>, step: Step<T>, asked: seq<seq<T>>)
    requires Inv(s) && Enabled(s, step) && WritesAre(s, asked)
    ensures WritesAre(Do(s, step), asked + if step.Lock? then [step.payload] else [])
  {
    hide Rem, ReadersOk, WritersOk;
    if step.Flush? {
      FlushApplies(s, step.w);
      hide MemoryOk;
    }
  }

  lemma {:induction false} RunWrites<T>(s: State<T>, steps: seq<Step<T>>, asked: seq<seq<T>>)
    requires Inv(s) && ValidRun(s, steps) && WritesAre(s, asked)
    ensures WritesAre(After(s, steps), asked + Payloads(steps))
    decreases |steps|
  {
    hide Inv, WritesAre, Do, Enabled;
    if steps == [] {
      assert asked + [] == asked;
    } else {
      var first := if steps[0].Lock? then [steps[0].payload] else [];
      StepKeepsInv(s, steps[0]);
      StepWrites(s, steps[0], asked);
      RunWrites(Do(s, steps[0]), steps[1..], asked + first);
      assert asked + first + Payloads(steps[1..]) == asked + Payloads(steps);
    }
  }

  /** The counter stores and the writes that had reached memory when reader `r` last began. */
  function Began<T>(s: State<T>, steps: seq<Step<T>>, r: nat, since: (nat, nat)): (nat, nat)
    requires ValidRun(s, steps)
    decreases |steps|
  {
    if steps == [] then since
    else Began(Do(s, steps[0]), steps[1..], r, if steps[0] == ReadBegin(r) then (s.ticks, |s.hist|) else since)
  }

  ghost predicate ReadSince<T>(s: State<T>, r: nat, since: (nat, nat))
  {
    r < |s.readers| && s.readers[r].RCopy? ==> s.readers[r].at == since.0 && s.readers[r].begun == since.1
  }

  lemma {:induction false} RunReads<T>(s: State<T>, steps: seq<Step<T>>, r: nat, since: (nat, nat))
    requires ValidRun(s, steps) && ReadSince(s, r, since)
    ensures ReadSince(After(s, steps), r, Began(s, steps, r, since))
    decreases |steps|
  {
    if steps != [] {
      var since' := if steps[0] == ReadBegin(r) then (s.ticks, |s.hist|) else since;
      assert ReadSince(Do(s, steps[0]), r, since') by { hide Rem; }
      hide ReadSince, Do, Enabled;
      RunReads(Do(s, steps[0]), steps[1..], r, since');
    }
  }

  /** The history holds the payloads the writes were called with, and a read under way remembers
      what had reached memory when it began. */
  lemma HistoryIsTheRun<T>(init: State<T>, steps: seq<Step<T>>, r: nat)
    requires Init(init) && ValidRun(init, steps)
    ensures Inv(After(init, steps)) && WritesAre(After(init, steps), [init.data] + Payloads(steps))
    ensures ReadSince(After(init, steps), r, Began(init, steps, r, (0, 1)))
  {
    InitInv(init);
    RunKeepsInv(init, steps);
    RunWrites(init, steps, [init.data]);
    RunReads(init, steps, r, (0, 1));
  }

  // ---- What a read returns ----

  /** A read that passes the final test returns exactly the payload that one single write was called
      with (or the initial one), the latest to be complete both when the read began and when it ends,
      provided fewer than half the counter's range of writes completed in between. */
  lemma AcceptedReadIsWhole<T>(init: State<T>, steps: seq<Step<T>>, r: nat)
    requires Init(init) && ValidRun(init, steps)
    requires var s := After(init, steps);
      && Enabled(s, ReadFinish(r)) && Accepts(s, r)
      && |s.hist| - Began(init, steps, r, (0, 1)).1 < s.modulus / 2
    ensures var s, asked := After(init, steps), [init.data] + Payloads(steps);
      && 0 < |s.hist| <= |asked| && s.hist == asked[..|s.hist|]
      && s.readers[r].got == asked[|s.hist| - 1] && Began(init, steps, r, (0, 1)).1 == |s.hist|
  {
    hide Rem;
    HistoryIsTheRun(init, steps, r);
    AcceptedIffUndisturbed(init, steps, r);
    var s := After(init, steps);
    assert ReaderOk(s, s.readers[r]);
    var asked := [init.data] + Payloads(steps);
    assert s.hist == asked[..|s.hist|];
  }

  /** Under the same bound the final test passes exactly when the read began at an even counter and no
      counter store has reached memory since: a write that completes or is under way rejects it, and
      nothing else does. */
  lemma AcceptedIffUndisturbed<T>(init: State<T>, steps: seq<Step<T>>, r: nat)
    requires Init(init) && ValidRun(init, steps)
    requires var s := After(init, steps);
      Enabled(s, ReadFinish(r)) && |s.hist| - Began(init, steps, r, (0, 1)).1 < s.modulus / 2
    ensures var s, began := After(init, steps), Began(init, steps, r, (0, 1)).0;
      Accepts(s, r) <==> s.ticks == began && began % 2 == 0
  {
    hide Rem;
    HistoryIsTheRun(init, steps, r);
    var s := After(init, steps);
    var rd := s.readers[r];
    assert ReaderOk(s, rd);
    RemParity(rd.at, s.modulus);
    RemDistance(rd.at, s.ticks, s.modulus);
  }

  /** The spinlock admits one writer at a time, counting a writer in until its last store is flushed. */
  lemma WritersExclude<T>(init: State<T>, steps: seq<Step<T>>, v: nat, w: nat)
    requires Init(init) && ValidRun(init, steps)
    requires var s := After(init, steps);
      v < |s.writers| && w < |s.writers| && s.writers[v] != Writer(WIdle, []) && s.writers[w] != Writer(WIdle, [])
    ensures v == w && After(init, steps).locked
  {
    InitInv(init);
    RunKeepsInv(init, steps);
  }

  /** At rest memory holds the payload of the last write, whole, and the counter is twice the number
      of writes. */
  lemma QuietMemoryIsLastWrite<T>(init: State<T>, steps: seq<Step<T>>)
    requires Init(init) && ValidRun(init, steps) && !After(init, steps).locked
    ensures var s, asked := After(init, steps), [init.data] + Payloads(steps);
      s.modulus >= 1 && s.data == asked[|asked| - 1] && s.seqno == Rem(2 * |Payloads(steps)|, s.modulus)
  {
    HistoryIsTheRun(init, steps, 0);
  }
}
