/** The bound on overtaking writes is exact: when half the counter's range of writes completes
    during one read, the counter comes round to the value the reader saw and a torn copy passes. */
module SeqLockWrap {
  import opened Bits
  import opened SeqLock

  type Lock = State<int>

  ghost predicate RunsTo(s: Lock, s': Lock)
  {
    exists steps: seq<Step<int>> :: ValidRun(s, steps) && After(s, steps) == s'
  }

  lemma RunsNowhere(s: Lock)
    ensures RunsTo(s, s)
  {
    var steps: seq<Step<int>> := [];
    assert ValidRun(s, steps) && After(s, steps) == s;
  }

  lemma {:induction false} RunAppend(s: Lock, steps: seq<Step<int>>, step: Step<int>)
    requires ValidRun(s, steps) && Enabled(After(s, steps), step)
    ensures ValidRun(s, steps + [step]) && After(s, steps + [step]) == Do(After(s, steps), step)
    decreases |steps|
  {
    if steps == [] {
      assert (steps + [step])[1..] == [];
    } else {
      assert (steps + [step])[1..] == steps[1..] + [step];
      RunAppend(Do(s, steps[0]), steps[1..], step);
    }
  }

  lemma OneMore(s: Lock, s': Lock, step: Step<int>)
    requires RunsTo(s, s') && Enabled(s', step)
    ensures RunsTo(s, Do(s', step))
  {
    var steps: seq<Step<int>> :| ValidRun(s, steps) && After(s, steps) == s';
    RunAppend(s, steps, step);
  }

  ghost predicate Writing(s: Lock, p: seq<int>, base: nat, j: nat)
  {
    && s.modulus >= 1 && s.width == |s.data| == |p| == 2 && |s.writers| >= 1 && j <= 4
    && s.writers[0] == Writer(WWriting(p, base, j), []) && s.section == Held(0, p, j)
  }

  /** Issue and flush the next store of writer 0. */
  function Stored(s: Lock, p: seq<int>, base: nat, j: nat): Lock
    requires s.modulus >= 1 && s.writers != [] && |p| == |s.data| == 2
  {
    var pc := if j == 4 then WIdle else WWriting(p, base, j + 1);
    Apply(s.(writers := s.writers[0 := Writer(pc, [])]), StoreAt(p, base, s.modulus, j))
  }

  /** Writer 0 with its next store in the buffer. */
  function Issued(s: Lock, p: seq<int>, base: nat, j: nat): Lock
    requires s.modulus >= 1 && s.writers != []
  {
    var pc := if j == 4 then WIdle else WWriting(p, base, j + 1);
    s.(writers := s.writers[0 := Writer(pc, [StoreAt(p, base, s.modulus, j)])])
  }

  lemma {:induction false} IssueOne(init: Lock, s: Lock, p: seq<int>, base: nat, j: nat)
    requires RunsTo(init, s) && Writing(s, p, base, j)
    ensures RunsTo(init, Issued(s, p, base, j))
  {
    hide Rem, StoreAt, RunsTo;
    OneMore(init, s, Issue(0));
    assert [] + [StoreAt(p, base, s.modulus, j)] == [StoreAt(p, base, s.modulus, j)];
    assert Do(s, Issue(0)) == Issued(s, p, base, j);
  }

  lemma FlushIssued(s: Lock, p: seq<int>, base: nat, j: nat)
    requires Writing(s, p, base, j)
    ensures var s1 := Issued(s, p, base, j); Enabled(s1, Flush(0)) && Do(s1, Flush(0)) == Stored(s, p, base, j)
  {
    StoreInRange(p, base, s.modulus, j);
    hide Rem, StoreAt;
    var s1 := Issued(s, p, base, j);
    assert s1.writers[0].buf[1..] == [];
    assert s1.writers[0 := Writer(s1.writers[0].pc, [])] == s.writers[0 := Writer(s1.writers[0].pc, [])];
  }

  lemma {:induction false} StoreOne(init: Lock, s: Lock, p: seq<int>, base: nat, j: nat)
    requires RunsTo(init, s) && Writing(s, p, base, j)
    ensures RunsTo(init, Stored(s, p, base, j))
  {
    hide RunsTo, Issued, Stored, Do, Enabled;
    IssueOne(init, s, p, base, j);
    FlushIssued(s, p, base, j);
    OneMore(init, Issued(s, p, base, j), Flush(0));
  }

  lemma StoreInRange(p: seq<int>, base: nat, m: nat, j: nat)
    requires m >= 1 && |p| == 2
    ensures StoreAt(p, base, m, j).Data? ==> StoreAt(p, base, m, j).i < 2
  {
  }

  ghost predicate Quiet(s: Lock)
  {
    && s.modulus >= 2 && s.width == |s.data| == 2 && !s.locked && s.section.Free?
    && |s.writers| >= 1 && s.writers[0] == Writer(WIdle, []) && s.seqno == Rem(s.ticks, s.modulus)
  }

  lemma {:induction false} TakeLock(init: Lock, s: Lock, p: seq<int>)
    requires RunsTo(init, s) && Quiet(s) && |p| == 2
    ensures RunsTo(init, s.(locked := true, section := Held(0, p, 0),
                            writers := s.writers[0 := Writer(WWriting(p, s.seqno, 0), [])]))
  {
    OneMore(init, s, Step.Lock(0, p));
    OneMore(init, Do(s, Step.Lock(0, p)), LoadSeq(0));
    assert s.writers[0 := Writer(WLocked(p), [])][0 := Writer(WWriting(p, s.seqno, 0), [])]
        == s.writers[0 := Writer(WWriting(p, s.seqno, 0), [])];
  }

  ghost predicate SameElse(s: Lock, s': Lock)
  {
    s'.modulus == s.modulus && s'.width == s.width && s'.readers == s.readers && |s'.writers| == |s.writers|
  }

  lemma {:induction false} OddStore(init: Lock, s: Lock, p: seq<int>, base: nat) returns (s': Lock)
    requires RunsTo(init, s) && Writing(s, p, base, 0)
    ensures RunsTo(init, s') && Writing(s', p, base, 1) && SameElse(s, s')
    ensures s'.data == s.data && s'.hist == s.hist && s'.ticks == s.ticks + 1
  {
    hide Rem, RunsTo;
    StoreOne(init, s, p, base, 0);
    s' := Stored(s, p, base, 0);
  }

  lemma {:induction false} ElementStores(init: Lock, s: Lock, p: seq<int>, base: nat) returns (s': Lock)
    requires RunsTo(init, s) && Writing(s, p, base, 1)
    ensures RunsTo(init, s') && Writing(s', p, base, 3) && SameElse(s, s')
    ensures s'.data == p && s'.hist == s.hist && s'.ticks == s.ticks
  {
    hide Rem, RunsTo;
    StoreOne(init, s, p, base, 1);
    var t := Stored(s, p, base, 1);
    StoreOne(init, t, p, base, 2);
    s' := Stored(t, p, base, 2);
  }

  lemma {:induction false} EvenStore(init: Lock, s: Lock, p: seq<int>, base: nat) returns (s': Lock)
    requires RunsTo(init, s) && Writing(s, p, base, 3)
    ensures RunsTo(init, s') && Writing(s', p, base, 4) && SameElse(s, s')
    ensures s'.data == s.data && s'.hist == s.hist + [p] && s'.ticks == s.ticks + 1
    ensures s'.seqno == Rem(base + 2, s.modulus)
  {
    hide Rem, RunsTo;
    StoreOne(init, s, p, base, 3);
    s' := Stored(s, p, base, 3);
  }

  lemma {:induction false} UnlockStore(init: Lock, s: Lock, p: seq<int>, base: nat) returns (s': Lock)
    requires RunsTo(init, s) && Writing(s, p, base, 4)
    ensures RunsTo(init, s') && SameElse(s, s') && !s'.locked && s'.section.Free? && s'.writers[0] == Writer(WIdle, [])
    ensures s'.data == s.data && s'.hist == s.hist && s'.ticks == s.ticks && s'.seqno == s.seqno
  {
    hide Rem, RunsTo;
    StoreOne(init, s, p, base, 4);
    s' := Stored(s, p, base, 4);
  }

  /** One undisturbed write of the pair [1, 1]. */
  lemma {:induction false} WriteOne(init: Lock, s: Lock) returns (s': Lock)
    requires RunsTo(init, s) && Quiet(s)
    ensures RunsTo(init, s') && Quiet(s') && s'.ticks == s.ticks + 2 && s'.modulus == s.modulus
    ensures s'.hist == s.hist + [[1, 1]] && s'.data == [1, 1] && s'.readers == s.readers
  {
    hide Rem, RunsTo;
    var p, base := [1, 1], s.seqno;
    TakeLock(init, s, p);
    s' := s.(locked := true, section := Held(0, p, 0), writers := s.writers[0 := Writer(WWriting(p, base, 0), [])]);
    s' := OddStore(init, s', p, base);
    s' := ElementStores(init, s', p, base);
    s' := EvenStore(init, s', p, base);
    s' := UnlockStore(init, s', p, base);
    RemShift(s.ticks, 2, s.modulus);
  }

  lemma {:induction false} WriteMany(init: Lock, s: Lock, n: nat) returns (s': Lock)
    requires RunsTo(init, s) && Quiet(s)
    ensures RunsTo(init, s') && Quiet(s') && s'.ticks == s.ticks + 2 * n && s'.modulus == s.modulus
    ensures |s'.hist| == |s.hist| + n && s'.readers == s.readers
    ensures n > 0 ==> s'.data == [1, 1]
    ensures forall i :: 0 <= i < |s'.hist| ==> s'.hist[i] == if i < |s.hist| then s.hist[i] else [1, 1]
  {
    s' := s;
    if n > 0 {
      var t := WriteMany(init, s, n - 1);
      s' := WriteOne(init, t);
    }
  }

  /** Reader 0 copies the first element and sleeps. */
  lemma {:induction false} HalfRead(init: Lock) returns (s: Lock)
    requires Init(init) && init.width == 2 && init.data == [0, 0] && |init.writers| >= 1 && |init.readers| >= 1
    ensures RunsTo(init, s) && Quiet(s) && s.modulus == init.modulus && s.ticks == 0 && s.hist == [[0, 0]]
    ensures |s.readers| >= 1 && s.readers[0] == RCopy(0, [0], 0, 1)
  {
    hide Rem;
    RunsNowhere(init);
    RemSmall(0, init.modulus);
    OneMore(init, init, ReadBegin(0));
    var a := Do(init, ReadBegin(0));
    OneMore(init, a, ReadCopy(0));
    s := Do(a, ReadCopy(0));
  }

  /** A read overtaken by exactly `modulus / 2` writes passes the test with a pair nobody wrote. */
  lemma {:induction false} TornReadAtTheBound(init: Lock)
    requires Init(init) && init.width == 2 && init.data == [0, 0] && |init.writers| >= 1 && |init.readers| >= 1
    ensures exists s: Lock :: RunsTo(init, s) && Enabled(s, ReadFinish(0)) && Accepts(s, 0)
                       && |s.hist| - s.readers[0].begun == s.modulus / 2
                       && s.readers[0].got !in s.hist
  {
    hide Rem;
    var m := init.modulus;
    var b := HalfRead(init);
    var c := WriteMany(init, b, m / 2);
    assert c.seqno == 0 by {
      RemStep(0, m);
      RemSmall(0, m);
    }
    OneMore(init, c, ReadCopy(0));
    var d := Do(c, ReadCopy(0));
    assert d.readers[0].got == [0, 1];
    NeverWritten(d.hist);
  }

  lemma NeverWritten(hist: seq<seq<int>>)
    requires forall i :: 0 <= i < |hist| ==> hist[i] == [0, 0] || hist[i] == [1, 1]
    ensures [0, 1] !in hist
  {
    assert [0, 1][1] == 1 && [0, 0][1] == 0 && [0, 1][0] == 0 && [1, 1][0] == 1;
  }
}
