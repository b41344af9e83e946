/** A fixed pool whose free list lives in the free slots themselves. A slot is modelled by its first
    word: the link while the slot is free, the client's own data while it is held. */
module FixedPool {
  import opened Common

  const SENTINEL: nat := 0xFFFF_FFFF_FFFF_FFFF

  datatype Pool = Pool(storage: seq<nat>, freeHead: nat, used: int)

  // ---- The operations ----

  function Initial(n: nat): Pool
    requires n >= 1
  {
    Pool(seq(n, i => if i < n - 1 then i + 1 else SENTINEL), 0, 0)
  }

  function Taken(p: Pool): (Option<nat>, Pool)
  {
    if p.freeHead == SENTINEL || p.freeHead >= |p.storage| then (None, p)
    else (Some(p.freeHead), p.(freeHead := p.storage[p.freeHead], used := p.used + 1))
  }

  /** Return slot `idx`, whether or not it is held: the source does not check. */
  function Returned(p: Pool, idx: nat): Pool
    requires idx < |p.storage|
  {
    Pool(p.storage[idx := p.freeHead], idx, p.used - 1)
  }

  // ---- The embedded list ----

  function Next(s: seq<nat>, i: nat): nat
  {
    if i < |s| then s[i] else SENTINEL
  }

  /** Following the links from freeHead visits exactly the slots of `free`, in order, and ends at
      SENTINEL. */
  ghost predicate FreeList(p: Pool, free: seq<nat>)
  {
    && p.freeHead == Next(free, 0)
    && (forall i :: 0 <= i < |free| ==> free[i] < |p.storage| && p.storage[free[i]] == Next(free, i + 1))
  }

  ghost predicate Sized(p: Pool)
  {
    1 <= |p.storage| < SENTINEL
  }

  /** The free list visits each slot outside `held` once, and the counter counts the held slots. */
  ghost predicate Sound(p: Pool, held: set<nat>, free: seq<nat>)
  {
    && Sized(p) && FreeList(p, free) && Distinct(free)
    && (forall i: nat :: i in free <==> i < |p.storage| && i !in held)
    && (forall i :: i in held ==> i < |p.storage|)
    && p.used == |held|
  }

  /** A pool has at most one free list. */
  lemma {:induction false} FreeListUnique(p: Pool, a: seq<nat>, b: seq<nat>)
    requires Sized(p) && FreeList(p, a) && FreeList(p, b)
    ensures a == b
    decreases |a| + |b|
  {
    if a != [] && b != [] {
      var q := p.(freeHead := Next(a, 1));
      assert forall i :: 0 <= i < |a| - 1 ==> a[1..][i] == a[i + 1];
      assert forall i :: 0 <= i < |b| - 1 ==> b[1..][i] == b[i + 1];
      FreeListUnique(q, a[1..], b[1..]);
      assert a == [a[0]] + a[1..] && b == [b[0]] + b[1..];
    }
  }

  function Upto(n: nat): (s: set<nat>)
    ensures forall i :: i in s <==> 0 <= i < n
    ensures |s| == n
  {
    if n == 0 then {} else Upto(n - 1) + {n - 1}
  }

  function Elements(s: seq<nat>): (e: set<nat>)
    ensures forall x :: x in e <==> x in s
  {
    if s == [] then {}
    else
      assert s == s[..|s| - 1] + [s[|s| - 1]];
      Elements(s[..|s| - 1]) + {s[|s| - 1]}
  }

  lemma {:induction false} DistinctSize(s: seq<nat>)
    requires Distinct(s)
    ensures |Elements(s)| == |s|
  {
    if s != [] {
      DistinctSize(s[..|s| - 1]);
      assert s[|s| - 1] !in s[..|s| - 1];
    }
  }

  /** The list is as long as available() says, and is empty only when every slot is held. */
  lemma ListLength(p: Pool, held: set<nat>, free: seq<nat>)
    requires Sound(p, held, free)
    ensures |free| == |p.storage| - p.used
    ensures p.freeHead == SENTINEL <==> held == Upto(|p.storage|)
  {
    DistinctSize(free);
    assert Elements(free) == Upto(|p.storage|) - held;
    assert held <= Upto(|p.storage|);
    assert free == [] <==> held == Upto(|p.storage|) by {
      if held == Upto(|p.storage|) { assert Elements(free) == {}; }
    }
  }

  lemma InitialSound(n: nat)
    requires 1 <= n < SENTINEL
    ensures Sound(Initial(n), {}, InOrder(n))
  {
    var free := InOrder(n);
    forall i: nat
      ensures i in free <==> i < n
    {
      if i < n { assert free[i] == i; }
    }
  }

  function InOrder(n: nat): (s: seq<nat>)
    ensures |s| == n && forall i :: 0 <= i < n ==> s[i] == i
  {
    seq(n, i => i)
  }

  /** A client that owns a slot may write anything into it. */
  lemma WriteSound(p: Pool, held: set<nat>, free: seq<nat>, idx: nat, word: nat)
    requires Sound(p, held, free) && idx in held
    ensures Sound(p.(storage := p.storage[idx := word]), held, free)
  {
    assert forall i :: 0 <= i < |free| ==> free[i] in free;
  }

  /** allocate hands out a slot nobody holds, the head of the list, and fails only when all are held. */
  lemma AllocateSound(p: Pool, held: set<nat>, free: seq<nat>)
    requires Sound(p, held, free)
    ensures var (r, p') := Taken(p);
      if r.None? then p' == p && held == Upto(|p.storage|)
      else free != [] && r.value == free[0] && r.value !in held && p'.storage == p.storage
           && Sound(p', held + {r.value}, free[1..])
  {
    ListLength(p, held, free);
    if free != [] {
      assert free[0] in free;
      assert |held + {free[0]}| == |held| + 1;
      TailOfList(p, free);
    }
  }

  lemma TailOfList(p: Pool, free: seq<nat>)
    requires FreeList(p, free) && Distinct(free) && free != []
    ensures FreeList(p.(freeHead := p.storage[free[0]]), free[1..]) && Distinct(free[1..])
    ensures forall i: nat :: i in free[1..] <==> i in free && i != free[0]
  {
    assert free == [free[0]] + free[1..];
  }

  lemma DeallocateSound(p: Pool, held: set<nat>, free: seq<nat>, idx: nat)
    requires Sound(p, held, free) && idx in held
    ensures Sound(Returned(p, idx), held - {idx}, [idx] + free)
  {
    var p', free' := Returned(p, idx), [idx] + free;
    forall i | 0 <= i < |free'|
      ensures free'[i] < |p'.storage| && p'.storage[free'[i]] == Next(free', i + 1)
    {
      if i > 0 { assert free'[i] in free; }
    }
    assert |held - {idx}| == |held| - 1;
  }

  /** Returning a slot keeps a free list exactly when the slot was not free already: a double free
      closes the list into a cycle. */
  lemma DeallocateKeepsListIff(p: Pool, held: set<nat>, free: seq<nat>, idx: nat)
    requires Sound(p, held, free) && idx < |p.storage|
    ensures (exists free': seq<nat> :: FreeList(Returned(p, idx), free') && Distinct(free')) <==> idx in held
  {
    if idx in held {
      DeallocateSound(p, held, free, idx);
    } else {
      assert idx in free;
      var k :| 0 <= k < |free| && free[k] == idx;
      forall free': seq<nat> | FreeList(Returned(p, idx), free')
        ensures !Distinct(free')
      {
        CycleReturns(p, free, k, free', k);
      }
    }
  }

  lemma {:induction false} CycleReturns(p: Pool, free: seq<nat>, k: nat, free': seq<nat>, j: nat)
    requires Sized(p) && FreeList(p, free) && Distinct(free) && k < |free| && j <= k
    requires FreeList(Returned(p, free[k]), free')
    ensures |free'| > j + 1 && free'[0] == free[k] && free'[j + 1] == free[j]
  {
    if j > 0 { CycleReturns(p, free, k, free', j - 1); }
  }

  // ---- Runs ----

  datatype Op = Take | Write(idx: nat, word: nat) | GiveBack(idx: nat)

  datatype State = State(pool: Pool, held: set<nat>)

  /** Clients write to and return only slots they hold. */
  predicate Legal(s: State, op: Op)
  {
    match op
    case Take => true
    case Write(idx, _) => idx in s.held && idx < |s.pool.storage|
    case GiveBack(idx) => idx in s.held && idx < |s.pool.storage|
  }

  function Do(s: State, op: Op): State
    requires Legal(s, op)
  {
    match op
    case Take =>
      var (r, p) := Taken(s.pool);
      State(p, if r.Some? then s.held + {r.value} else s.held)
    case Write(idx, word) => s.(pool := s.pool.(storage := s.pool.storage[idx := word]))
    case GiveBack(idx) => State(Returned(s.pool, idx), s.held - {idx})
  }

  ghost predicate LegalRun(s: State, ops: seq<Op>)
    decreases |ops|
  {
    ops == [] || (Legal(s, ops[0]) && LegalRun(Do(s, ops[0]), ops[1..]))
  }

  ghost function Run(s: State, ops: seq<Op>): State
    requires LegalRun(s, ops)
    decreases |ops|
  {
    if ops == [] then s else Run(Do(s, ops[0]), ops[1..])
  }

  /** What each slot's holder last wrote into it, for the slots written since they were handed out;
      `before` is the same for the run so far. */
  ghost function Written(ops: seq<Op>, before: map<nat, nat>): map<nat, nat>
    decreases |ops|
  {
    if ops == [] then before
    else Written(ops[1..], match ops[0]
                           case Take => before
                           case Write(idx, word) => before[idx := word]
                           case GiveBack(idx) => before - {idx})
  }

  ghost predicate Keeps(s: State, data: map<nat, nat>)
  {
    forall i :: i in data ==> i in s.held && i < |s.pool.storage| && s.pool.storage[i] == data[i]
  }

  /** No allocation, write or return of one client touches what another has written. */
  lemma {:induction false} RunKeeps(s: State, ops: seq<Op>, data: map<nat, nat>)
    requires LegalRun(s, ops) && Keeps(s, data)
    ensures Keeps(Run(s, ops), Written(ops, data))
    decreases |ops|
  {
    if ops != [] {
      var data' := match ops[0]
                   case Take => data
                   case Write(idx, word) => data[idx := word]
                   case GiveBack(idx) => data - {idx};
      RunKeeps(Do(s, ops[0]), ops[1..], data');
    }
  }

  lemma {:induction false} RunSound(s: State, free: seq<nat>, ops: seq<Op>) returns (free': seq<nat>)
    requires LegalRun(s, ops) && Sound(s.pool, s.held, free)
    ensures Sound(Run(s, ops).pool, Run(s, ops).held, free') && |Run(s, ops).pool.storage| == |s.pool.storage|
    decreases |ops|
  {
    free' := free;
    if ops != [] {
      match ops[0] {
        case Take =>
          AllocateSound(s.pool, s.held, free);
          if Taken(s.pool).0.Some? { free' := free[1..]; }
        case Write(idx, word) => WriteSound(s.pool, s.held, free, idx, word);
        case GiveBack(idx) =>
          DeallocateSound(s.pool, s.held, free, idx);
          free' := [idx] + free;
      }
      free' := RunSound(Do(s, ops[0]), free', ops[1..]);
    }
  }

  /** After any run of allocations, client writes and returns: the list from freeHead visits exactly
      the slots nobody holds, once each, and is N - used long, and every held slot has what its holder
      last wrote. */
  lemma PoolStaysSound(n: nat, ops: seq<Op>) returns (free: seq<nat>)
    requires 1 <= n < 0xFFFF_FFFF_FFFF_FFFF && LegalRun(State(Initial(n), {}), ops)
    ensures var s := Run(State(Initial(n), {}), ops);
      && |s.pool.storage| == n && Keeps(s, Written(ops, map[]))
      && Sound(s.pool, s.held, free) && |free| == |s.pool.storage| - s.pool.used
      && (Taken(s.pool).0.None? <==> s.held == Upto(|s.pool.storage|))
  {
    InitialSound(n);
    free := RunSound(State(Initial(n), {}), InOrder(n), ops);
    RunKeeps(State(Initial(n), {}), ops, map[]);
    var s := Run(State(Initial(n), {}), ops);
    ListLength(s.pool, s.held, free);
    AllocateSound(s.pool, s.held, free);
  }

  // ---- The class ----

  datatype Pointer = Null | Slot(idx: nat) | Foreign

  class FixedPool {
    const storage: array<nat>
    var freeHead: nat
    var used: int

    ghost function Value(): Pool
      reads this, storage
    {
      Pool(storage[..], freeHead, used)
    }

    constructor (n: nat)
      requires 1 <= n < SENTINEL
      ensures Value() == Initial(n) && fresh(storage)
    {
      storage := new nat[n];
      freeHead, used := 0, 0;
      new;
      for i := 0 to n - 1
        invariant freeHead == 0 && used == 0
        invariant forall j :: 0 <= j < i ==> storage[j] == j + 1
      {
        storage[i] := i + 1;
      }
      storage[n - 1] := SENTINEL;
      assert storage[..] == Initial(n).storage;
    }

    method Allocate() returns (r: Option<nat>)
      requires freeHead == SENTINEL || freeHead < storage.Length
      modifies this
      ensures (r, Value()) == Taken(old(Value()))
    {
      if freeHead == SENTINEL { return None; }
      var idx := freeHead;
      freeHead := storage[idx];
      used := used + 1;
      return Some(idx);
    }

    /** A null pointer is ignored and a pointer from elsewhere aborts. */
    method Deallocate(p: Pointer) returns (aborted: bool)
      modifies this, storage
      ensures aborted <==> p.Foreign? || (p.Slot? && p.idx >= storage.Length)
      ensures Value() == if p.Null? || aborted then old(Value()) else Returned(old(Value()), p.idx)
    {
      if p.Null? { return false; }
      if p.Foreign? || p.idx >= storage.Length { return true; }
      storage[p.idx] := freeHead;
      freeHead := p.idx;
      used := used - 1;
      return false;
    }

    method Write(idx: nat, word: nat)
      requires idx < storage.Length
      modifies storage
      ensures Value() == old(Value()).(storage := old(storage[..])[idx := word])
    {
      storage[idx] := word;
    }
  }
}
