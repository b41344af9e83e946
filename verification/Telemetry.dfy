/** The telemetry programs around the ring: a producer that drops a record when the ring is full,
    a logger that writes what it pops, and the done flag that stops the logger.

    The real-time variant skips a cycle that overran its deadline; the plain pipeline has none. */
module Telemetry {
  import Bits
  import opened Common
  import P = SpscProtocol

  datatype Word = Nanoseconds(ns: nat) | Id(id: nat) | Reading(x: real)

  /** A record is copied word by word; its first word is the timestamp. */
  type Record = seq<Word>

  function Timestamp(rec: Record): nat
  {
    if rec != [] && rec[0].Nanoseconds? then rec[0].ns else 0
  }

  datatype Logger = Polling | SawEmpty | Draining | Finished

  /** `verdicts[i]` is whether try_push accepted `produced[i]`; both are history. */
  datatype State = State(
    ring: P.State<Word>, logger: Logger, file: seq<Record>, written: nat,
    cycles: nat, overruns: nat, dropped: nat,
    produced: seq<Record>, verdicts: seq<bool>)

  datatype Step =
    | Overrun | BeginPush(rec: Record) | Push(step: P.Step<Word>) | SetDone
    | BeginPop | Pop(step: P.Step<Word>) | LoadDone
    | Flush(step: P.Step<Word>)

  predicate Init(s: State)
  {
    P.Init(s.ring) && s == State(s.ring, Polling, [], 0, 0, 0, 0, [], [])
  }

  predicate Enabled(s: State, step: Step)
  {
    match step
    case Overrun => s.ring.producer.PIdle? && !s.ring.closed
    case BeginPush(rec) => P.Enabled(s.ring, P.PushBegin([rec], false))
    case Push(r) => (r.PushCheck? || r.PushWord? || r.PushPublish?) && P.Enabled(s.ring, r)
    case SetDone => P.Enabled(s.ring, P.SignalDone)
    case BeginPop => (s.logger.Polling? || s.logger.Draining?) && P.Enabled(s.ring, P.PopBegin(1, false))
    case Pop(r) => (r.PopCheck? || r.PopWord? || r.PopPublish?) && P.Enabled(s.ring, r)
    case LoadDone => s.logger.SawEmpty?
    case Flush(r) => (r.FlushProducer? || r.FlushConsumer?) && P.Enabled(s.ring, r)
  }

  function Do(s: State, step: Step): State
    requires Enabled(s, step)
  {
    match step
    case Overrun => s.(cycles := s.cycles + 1, overruns := s.overruns + 1)
    case BeginPush(rec) =>
      s.(ring := P.Do(s.ring, P.PushBegin([rec], false)), cycles := s.cycles + 1, produced := s.produced + [rec])
    case Push(r) =>
      var ring := P.Do(s.ring, r);
      if !ring.producer.PIdle? then s.(ring := ring)
      else if r.PushPublish? then s.(ring := ring, verdicts := s.verdicts + [true])
      else s.(ring := ring, verdicts := s.verdicts + [false], dropped := s.dropped + 1)
    case SetDone => s.(ring := P.Do(s.ring, P.SignalDone))
    case BeginPop => s.(ring := P.Do(s.ring, P.PopBegin(1, false)))
    case Pop(r) =>
      var ring := P.Do(s.ring, r);
      if r.PopPublish? then s.(ring := ring, file := s.file + s.ring.consumer.got, written := s.written + 1)
      else if ring.consumer.CIdle? then s.(ring := ring, logger := if s.logger.Draining? then Finished else SawEmpty)
      else s.(ring := ring)
    case LoadDone => s.(logger := if s.ring.done then Draining else Polling)
    case Flush(r) => s.(ring := P.Do(s.ring, r))
  }

  /** The records whose push was accepted, in production order, or what goes with each of them. */
  function Accepted<T>(produced: seq<T>, verdicts: seq<bool>): seq<T>
    requires |verdicts| <= |produced|
  {
    if verdicts == [] then []
    else
      var i := |verdicts| - 1;
      Accepted(produced, verdicts[..i]) + if verdicts[i] then [produced[i]] else []
  }

  ghost predicate PushOk(s: State)
    requires |s.verdicts| <= |s.produced|
  {
    match s.ring.producer
    case PIdle => |s.verdicts| == |s.produced|
    case PTail(items, batch, _) => !batch && |s.verdicts| == |s.produced| - 1 && items == [s.produced[|s.verdicts|]]
    case PCopy(items, count, _, _, _) =>
      count == 1 && |s.verdicts| == |s.produced| - 1 && items == [s.produced[|s.verdicts|]]
  }

  ghost predicate Inv(s: State)
  {
    && P.Inv(s.ring)
    && s.file == s.ring.popped && s.written == |s.file|
    && (s.ring.consumer.CCopy? ==> s.ring.consumer.k == 1)
    && s.cycles == s.overruns + |s.produced|
    && |s.verdicts| <= |s.produced| && PushOk(s)
    && s.ring.pushed == Accepted(s.produced, s.verdicts)
    && |s.verdicts| == |s.ring.pushed| + s.dropped
    && (s.ring.consumer.CHead? ==> s.ring.consumer.want == 1)
    && (s.logger.Draining? || s.logger.Finished? ==> s.ring.done)
    && (s.logger.Finished? ==> s.file == s.ring.pushed && s.ring.consumer.CIdle?)
    && (s.logger.SawEmpty? ==> s.ring.consumer.CIdle?)
  }

  lemma {:induction false} AcceptedGrows<T>(produced: seq<T>, verdicts: seq<bool>, rec: T)
    requires |verdicts| <= |produced|
    ensures Accepted(produced + [rec], verdicts) == Accepted(produced, verdicts)
  {
    if verdicts != [] { AcceptedGrows(produced, verdicts[..|verdicts| - 1], rec); }
  }

  /** Once done is seen in memory, every push has reached memory: an empty ring is final. */
  lemma {:induction false} DoneMeansAllVisible(r: P.State<Word>)
    requires P.Inv(r) && r.done
    ensures r.producer.PIdle? && r.closed && r.visTail == |r.pushed| && r.popped <= r.pushed
  {
    hide Bits.Rem;
    assert P.All(r) == r.pushed;
  }

  lemma {:induction false} ProducerKeepsInv(s: State, step: Step)
    requires Inv(s) && Enabled(s, step) && (step.Overrun? || step.BeginPush? || step.SetDone? || step.Flush?)
    ensures Inv(Do(s, step))
  {
    hide P.Inv, P.Accepted, P.Available, Accepted;
    match step
    case Overrun =>
    case BeginPush(rec) =>
      P.StepKeepsInv(s.ring, P.PushBegin([rec], false));
      AcceptedGrows(s.produced, s.verdicts, rec);
    case SetDone => P.StepKeepsInv(s.ring, P.SignalDone);
    case Flush(r) => P.StepKeepsInv(s.ring, r);
  }

  lemma {:induction false} AcceptedVerdict(produced: seq<Record>, verdicts: seq<bool>, ok: bool)
    requires |verdicts| < |produced|
    ensures Accepted(produced, verdicts + [ok]) ==
            Accepted(produced, verdicts) + if ok then [produced[|verdicts|]] else []
  {
    assert (verdicts + [ok])[..|verdicts|] == verdicts;
  }

  lemma {:induction false} PushKeepsInv(s: State, r: P.Step<Word>)
    requires Inv(s) && Enabled(s, Push(r))
    ensures Inv(Do(s, Push(r)))
  {
    hide P.Inv, P.Available, Accepted;
    P.StepKeepsInv(s.ring, r);
    match r
    case PushPublish => AcceptedVerdict(s.produced, s.verdicts, true);
    case PushCheck =>
      AcceptedVerdict(s.produced, s.verdicts, false);
    case PushWord =>
  }

  lemma {:induction false} PopKeepsInv(s: State, r: P.Step<Word>)
    requires Inv(s) && Enabled(s, Pop(r))
    ensures Inv(Do(s, Pop(r)))
  {
    hide P.Inv, P.Available, P.Accepted, Accepted, PushOk;
    P.StepKeepsInv(s.ring, r);
    if r.PopCheck? { P.PopCheckExact(s.ring); }
    if s.ring.done { DoneMeansAllVisible(s.ring); }
    PushFrame(s, Do(s, Pop(r)));
  }

  lemma PushFrame(s: State, s': State)
    requires |s.verdicts| <= |s.produced| && PushOk(s)
    requires s'.verdicts == s.verdicts && s'.produced == s.produced && s'.ring.producer == s.ring.producer
    ensures PushOk(s')
  {
  }

  lemma {:induction false} LoggerKeepsInv(s: State, step: Step)
    requires Inv(s) && Enabled(s, step) && (step.BeginPop? || step.Pop? || step.LoadDone?)
    ensures Inv(Do(s, step))
  {
    hide P.Inv, P.Available, P.Accepted, Accepted;
    match step
    case BeginPop => P.StepKeepsInv(s.ring, P.PopBegin(1, false));
    case Pop(r) => PopKeepsInv(s, r);
    case LoadDone =>
  }

  lemma StepKeepsInv(s: State, step: Step)
    requires Inv(s) && Enabled(s, step)
    ensures Inv(Do(s, step))
  {
    match step
    case Push(r) => PushKeepsInv(s, r);
    case BeginPop => LoggerKeepsInv(s, step);
    case Pop(_) => LoggerKeepsInv(s, step);
    case LoadDone => LoggerKeepsInv(s, step);
    case _ => ProducerKeepsInv(s, step);
  }

  predicate ValidRun(s: State, steps: seq<Step>)
    decreases |steps|
  {
    steps == [] || (Enabled(s, steps[0]) && ValidRun(Do(s, steps[0]), steps[1..]))
  }

  function After(s: State, steps: seq<Step>): State
    requires ValidRun(s, steps)
    decreases |steps|
  {
    if steps == [] then s else After(Do(s, steps[0]), steps[1..])
  }

  lemma {:induction false} RunKeepsInv(s: State, steps: seq<Step>)
    requires Inv(s) && ValidRun(s, steps)
    ensures Inv(After(s, steps))
    decreases |steps|
  {
    if steps != [] {
      StepKeepsInv(s, steps[0]);
      RunKeepsInv(Do(s, steps[0]), steps[1..]);
    }
  }

  // ---- The history is that of the run's own steps ----

  /** The records the producer makes in a run, in order. */
  function Produced(steps: seq<Step>): seq<Record>
  {
    if steps == [] then []
    else (if steps[0].BeginPush? then [steps[0].rec] else []) + Produced(steps[1..])
  }

  function Overruns(steps: seq<Step>): nat
  {
    if steps == [] then 0 else (if steps[0].Overrun? then 1 else 0) + Overruns(steps[1..])
  }

  lemma {:induction false} RunRecords(s: State, steps: seq<Step>)
    requires ValidRun(s, steps)
    ensures var s' := After(s, steps);
      s'.produced == s.produced + Produced(steps) && s'.overruns == s.overruns + Overruns(steps)
    decreases |steps|
  {
    if steps != [] {
      var s1 := Do(s, steps[0]);
      var first := if steps[0].BeginPush? then [steps[0].rec] else [];
      assert s1.produced == s.produced + first by { hide P.Do; }
      assert s1.overruns == s.overruns + (if steps[0].Overrun? then 1 else 0) by { hide P.Do; }
      hide Do, Enabled;
      RunRecords(s1, steps[1..]);
      assert s.produced + first + Produced(steps[1..]) == s.produced + Produced(steps);
    }
  }

  /** Conservation. When the logger has finished, in every interleaving and with every store
      delayed, the file is the accepted ones of the records made in the run, in that order, and every
      cycle is accounted for once: overrun, dropped or written. */
  lemma Conservation(init: State, steps: seq<Step>)
    requires Init(init) && ValidRun(init, steps) && After(init, steps).logger.Finished?
    ensures var s := After(init, steps);
      && s.ring.closed && s.ring.producer.PIdle? && |s.verdicts| == |s.produced|
      && s.produced == Produced(steps) && s.overruns == Overruns(steps)
      && s.file == Accepted(s.produced, s.verdicts) && s.written == |s.file|
      && s.written + s.dropped == |s.produced|
      && s.cycles == s.overruns + s.dropped + s.written
  {
    P.InitInv(init.ring);
    RunKeepsInv(init, steps);
    RunRecords(init, steps);
    DoneMeansAllVisible(After(init, steps).ring);
  }

  /** Until it has finished the logger always has a step to take. */
  lemma LoggerNeverStuck(init: State, steps: seq<Step>)
    requires Init(init) && ValidRun(init, steps) && !After(init, steps).logger.Finished?
    ensures var s := After(init, steps);
      || Enabled(s, BeginPop) || Enabled(s, LoadDone)
      || Enabled(s, Pop(P.PopCheck)) || Enabled(s, Pop(P.PopWord)) || Enabled(s, Pop(P.PopPublish))
  {
    P.InitInv(init.ring);
    RunKeepsInv(init, steps);
    LoggerCanStep(After(init, steps));
  }

  lemma LoggerCanStep(s: State)
    requires Inv(s) && !s.logger.Finished?
    ensures || Enabled(s, BeginPop) || Enabled(s, LoadDone)
            || Enabled(s, Pop(P.PopCheck)) || Enabled(s, Pop(P.PopWord)) || Enabled(s, Pop(P.PopPublish))
  {
    P.PopGuards(s.ring);
    hide P.Inv, Accepted, PushOk;
    if s.ring.consumer.CIdle? {
      assert P.Enabled(s.ring, P.PopBegin(1, false));
    } else {
      hide P.Enabled;
    }
  }

  /** The summary's configured count is the conserved number exactly when the loop ran to its end. */
  lemma SummaryIsConserved(init: State, steps: seq<Step>, configured: nat)
    requires Init(init) && ValidRun(init, steps) && After(init, steps).logger.Finished?
    ensures var s := After(init, steps);
      configured == s.overruns + s.dropped + s.written <==> s.cycles == configured
  {
    Conservation(init, steps);
  }

  /** A run interrupted before its first cycle finishes with nothing to account for. */
  lemma InterruptedRun(init: State) returns (steps: seq<Step>)
    requires Init(init)
    ensures ValidRun(init, steps) && After(init, steps).logger.Finished? && After(init, steps).cycles == 0
  {
    steps := [SetDone, Flush(P.FlushProducer), BeginPop, Pop(P.PopCheck), LoadDone, BeginPop, Pop(P.PopCheck)];
    var s1 := Do(init, steps[0]);
    var s2 := Do(s1, steps[1]);
    assert s2.ring.pending == [] && s2.ring.done && s2.ring.tail == s2.ring.head == 0;
    var s3 := Do(s2, steps[2]);
    var s4 := Do(s3, steps[3]);
    var s5 := Do(s4, steps[4]);
    var s6 := Do(s5, steps[5]);
    var s7 := Do(s6, steps[6]);
    assert s7.logger.Finished? && s7.cycles == 0;
    ComposeRun(s6, steps[6..]);
    ComposeRun(s5, steps[5..]);
    ComposeRun(s4, steps[4..]);
    ComposeRun(s3, steps[3..]);
    ComposeRun(s2, steps[2..]);
    ComposeRun(s1, steps[1..]);
    ComposeRun(init, steps);
  }

  lemma ComposeRun(s: State, steps: seq<Step>)
    requires steps != [] && Enabled(s, steps[0]) && ValidRun(Do(s, steps[0]), steps[1..])
    ensures ValidRun(s, steps) && After(s, steps) == After(Do(s, steps[0]), steps[1..])
  {
  }

  // ---- verify_output ----

  ghost predicate Ordered(records: seq<Record>)
  {
    forall i, j :: 0 <= i < j < |records| ==> Timestamp(records[i]) <= Timestamp(records[j])
  }

  /** The bytes on disk: whole records and perhaps part of another. */
  datatype OutputFile = OutputFile(records: seq<Record>, trailing: nat)

  /** What the read-back accepts: the file opens, is a whole number of records, as many as expected,
      and its timestamps never decrease. None is a file that cannot be opened. */
  ghost predicate Verifies(file: Option<OutputFile>, expected: nat)
  {
    file.Some? && file.value.trailing == 0 && Ordered(file.value.records) && |file.value.records| == expected
  }

  /** Record i starts with the timestamp `ts[i]`; its other words may be anything. */
  ghost predicate Stamped(records: seq<Record>, ts: seq<nat>)
  {
    |ts| == |records| && forall i :: 0 <= i < |ts| ==> records[i] != [] && records[i][0] == Nanoseconds(ts[i])
  }

  ghost predicate NeverDecreases(ts: seq<nat>)
  {
    forall i, j :: 0 <= i < j < |ts| ==> ts[i] <= ts[j]
  }

  /** What the read-back accepts, on the words of the records: a file that opens, is whole, has the
      expected count and timestamps that never decrease; one step back anywhere rejects it. */
  lemma VerifiesWords(file: OutputFile, expected: nat, ts: seq<nat>)
    requires Stamped(file.records, ts)
    ensures Verifies(Some(file), expected) <==>
      file.trailing == 0 && |file.records| == expected && NeverDecreases(ts)
    ensures (exists i :: 0 <= i < |ts| - 1 && ts[i] > ts[i + 1]) ==> !Verifies(Some(file), expected)
  {
    assert forall i :: 0 <= i < |ts| ==> Timestamp(file.records[i]) == ts[i];
    if i :| 0 <= i < |ts| - 1 && ts[i] > ts[i + 1] { assert !NeverDecreases(ts); }
  }

  lemma WholeRecords(count: nat, trailing: nat, recordSize: nat)
    requires trailing < recordSize
    ensures var size := count * recordSize + trailing;
      size / recordSize == count && size % recordSize == trailing
  {
    var size := count * recordSize + trailing;
    assert size == recordSize * count + trailing;
    Bits.ModUnique(size, recordSize, count, trailing);
    assert recordSize * (size / recordSize) == recordSize * count by {
      assert size == recordSize * (size / recordSize) + size % recordSize;
    }
    Bits.MultipleBound(recordSize, size / recordSize - count);
    assert recordSize * (size / recordSize - count) == 0;
  }

  /** The read-back check of the file against the logger's count. */
  method VerifyOutput(file: Option<OutputFile>, recordSize: nat, expected: nat) returns (ok: bool)
    requires recordSize > 0 && (file.Some? ==> file.value.trailing < recordSize)
    ensures ok <==> Verifies(file, expected)
    ensures forall ts: seq<nat> :: file.Some? && Stamped(file.value.records, ts) ==>
      (ok <==> file.value.trailing == 0 && |file.value.records| == expected && NeverDecreases(ts))
  {
    if file.None? { return false; }
    var records := file.value.records;
    var fileSize := |records| * recordSize + file.value.trailing;
    var recordCount := fileSize / recordSize;
    var sizeOk := fileSize % recordSize == 0;
    WholeRecords(|records|, file.value.trailing, recordSize);
    var monotonic, prev := true, 0;
    for i := 0 to |records|
      invariant monotonic <==> Ordered(records[..i])
      invariant prev == if i == 0 then 0 else Timestamp(records[i - 1])
    {
      if Timestamp(records[i]) < prev { monotonic := false; }
      prev := Timestamp(records[i]);
    }
    assert records[..|records|] == records;
    ok := sizeOk && monotonic && recordCount == expected;
    forall ts: seq<nat> | Stamped(records, ts)
      ensures ok <==> file.value.trailing == 0 && |records| == expected && NeverDecreases(ts)
    {
      VerifiesWords(file.value, expected, ts);
    }
  }

  lemma {:induction false} AcceptedStamps(produced: seq<Record>, verdicts: seq<bool>, ts: seq<nat>)
    requires |verdicts| <= |produced| && Stamped(produced, ts) && NeverDecreases(ts)
    ensures Stamped(Accepted(produced, verdicts), Accepted(ts, verdicts)) && NeverDecreases(Accepted(ts, verdicts))
    ensures verdicts != [] ==> forall t :: t in Accepted(ts, verdicts) ==> t <= ts[|verdicts| - 1]
  {
    if verdicts != [] {
      var i := |verdicts| - 1;
      AcceptedStamps(produced, verdicts[..i], ts);
      var front := Accepted(ts, verdicts[..i]);
      forall k | 0 <= k < |front|
        ensures front[k] <= ts[i]
      {
        assert front[k] in front;
        assert i > 0 && front[k] <= ts[i - 1];
      }
    }
  }

  /** With a clock that never runs backwards, so that the records made in the run start with
      timestamps `ts` that never decrease, the file of any complete run has the timestamps of its own
      records, in order, and reading it back with the logger's own count succeeds. */
  lemma FileAlwaysVerifies(init: State, steps: seq<Step>, ts: seq<nat>)
    requires Init(init) && ValidRun(init, steps) && After(init, steps).logger.Finished?
    requires Stamped(Produced(steps), ts) && NeverDecreases(ts)
    ensures var s := After(init, steps);
      && |s.verdicts| == |ts| && Stamped(s.file, Accepted(ts, s.verdicts)) && NeverDecreases(Accepted(ts, s.verdicts))
      && Verifies(Some(OutputFile(s.file, 0)), s.written)
  {
    Conservation(init, steps);
    var s := After(init, steps);
    AcceptedStamps(s.produced, s.verdicts, ts);
    VerifiesWords(OutputFile(s.file, 0), s.written, Accepted(ts, s.verdicts));
  }
}
