/** The ring buffer's four operations on its arrays and 64-bit indices, run without interference.

    The specification moves one item at a time; the batch operations must leave exactly the
    slots and indices that as many single calls leave. */
module SpscRing {
  import opened Bits
  import opened Common

  datatype Ring<T> = Ring(slots: seq<T>, head: nat, tail: nat)

  predicate Ok<T>(r: Ring<T>)
  {
    |r.slots| >= 2 && r.head < |r.slots| && r.tail < |r.slots|
  }

  /** The static assertions on N: at least 2 and, by its bits, a power of two. */
  predicate RingCapacity(n: nat)
  {
    2 <= n <= WORD && And(n, n - 1) == 0
  }

  function Size<T>(r: Ring<T>): nat
    requires Ok(r)
  {
    Rem(r.tail - r.head, |r.slots|)
  }

  function Items<T>(r: Ring<T>): seq<T>
    requires Ok(r)
  {
    seq(Size(r), i requires 0 <= i < Size(r) => r.slots[Rem(r.head + i, |r.slots|)])
  }

  function PushOne<T>(r: Ring<T>, v: T): (Ring<T>, bool)
    requires Ok(r)
  {
    var next := Rem(r.tail + 1, |r.slots|);
    if next == r.head then (r, false) else (Ring(r.slots[r.tail := v], r.head, next), true)
  }

  function PopOne<T>(r: Ring<T>): (Ring<T>, seq<T>)
    requires Ok(r)
  {
    if r.head == r.tail then (r, []) else (r.(head := Rem(r.head + 1, |r.slots|)), [r.slots[r.head]])
  }

  /** Single pushes until the items run out or one is refused. */
  function PushMany<T>(r: Ring<T>, items: seq<T>): (Ring<T>, nat)
    requires Ok(r)
    decreases |items|
  {
    if items == [] then (r, 0)
    else
      var (r1, ok) := PushOne(r, items[0]);
      if !ok then (r, 0)
      else
        var (r2, k) := PushMany(r1, items[1..]);
        (r2, k + 1)
  }

  function PopMany<T>(r: Ring<T>, count: nat): (Ring<T>, seq<T>)
    requires Ok(r)
    decreases count
  {
    if count == 0 then (r, [])
    else
      var (r1, out) := PopOne(r);
      if out == [] then (r, [])
      else
        var (r2, rest) := PopMany(r1, count - 1);
        (r2, out + rest)
  }

  /** The slots after consecutive writes from position `at`. */
  function Write<T>(slots: seq<T>, at: nat, items: seq<T>): (r: seq<T>)
    requires |slots| >= 1
    ensures |r| == |slots|
    decreases |items|
  {
    if items == [] then slots else Write(slots[Rem(at, |slots|) := items[0]], at + 1, items[1..])
  }

  lemma {:induction false} WriteAppend<T>(slots: seq<T>, at: nat, items: seq<T>, v: T)
    requires |slots| >= 1
    ensures Write(slots, at, items + [v]) == Write(slots, at, items)[Rem(at + |items|, |slots|) := v]
    decreases |items|
  {
    hide Rem;
    if items == [] {
      assert ([v])[1..] == [];
    } else {
      assert (items + [v])[1..] == items[1..] + [v];
      WriteAppend(slots[Rem(at, |slots|) := items[0]], at + 1, items[1..], v);
    }
  }

  lemma WriteStep<T>(slots: seq<T>, at: nat, items: seq<T>, i: nat)
    requires |slots| >= 1 && i < |items|
    ensures Write(slots, at, items[..i + 1]) == Write(slots, at, items[..i])[Rem(at + i, |slots|) := items[i]]
  {
    hide Rem;
    assert items[..i + 1] == items[..i] + [items[i]];
    WriteAppend(slots, at, items[..i], items[i]);
  }

  lemma {:induction false} WriteShift<T>(slots: seq<T>, at: nat, items: seq<T>)
    requires |slots| >= 1
    ensures Write(slots, at, items) == Write(slots, Rem(at, |slots|), items)
    decreases |items|
  {
    hide Rem;
    if items != [] {
      var n := |slots|;
      RemShift(at, 0, n);
      RemShift(at, 1, n);
      WriteShift(slots[Rem(at, n) := items[0]], at + 1, items[1..]);
      WriteShift(slots[Rem(at, n) := items[0]], Rem(at, n) + 1, items[1..]);
    }
  }

  lemma {:induction false} SizeSteps(head: nat, tail: nat, n: nat)
    requires n >= 2 && head < n && tail < n
    ensures var size := Rem(tail - head, n);
      && size <= n - 1
      && (Rem(tail + 1, n) == head <==> size == n - 1)
      && (head == tail <==> size == 0)
      && (size < n - 1 ==> Rem(Rem(tail + 1, n) - head, n) == size + 1)
      && (size > 0 ==> Rem(tail - Rem(head + 1, n), n) == size - 1)
      && Rem(head - tail - 1, n) == n - 1 - size
  {
    hide Rem;
    RemSmall(head, n);
    var d := Rem(tail - head, n);
    RemSmall(if tail >= head then tail - head else tail - head + n, n);
    RemShift(head + 1, tail, n);
    if d < n - 1 {
      RemDistance(head, head + d + 1, n);
      RemShift(tail - head, head + 1, n);
    }
    if d > 0 {
      RemSmall(d - 1, n);
    }
    RemSmall(n - 1 - d, n);
  }

  lemma {:induction false} PushOneAppends<T>(r: Ring<T>, v: T)
    requires Ok(r)
    ensures var (r', ok) := PushOne(r, v);
      Ok(r') && (ok <==> Size(r) < |r.slots| - 1) && Items(r') == if ok then Items(r) + [v] else Items(r)
  {
    hide Rem;
    var n := |r.slots|;
    SizeSteps(r.head, r.tail, n);
    var (r', ok) := PushOne(r, v);
    if ok {
      assert Size(r') == Size(r) + 1;
      RemShift(r.tail - r.head, r.head, n);
      RemSmall(r.tail, n);
      forall i | 0 <= i < Size(r)
        ensures Items(r')[i] == Items(r)[i]
      {
        RemDistance(r.head + i, r.head + Size(r), n);
      }
      assert Items(r') == Items(r) + [v];
    }
  }

  lemma {:induction false} PopOneRemoves<T>(r: Ring<T>)
    requires Ok(r)
    ensures var (r', out) := PopOne(r);
      Ok(r') && Items(r) == out + Items(r') && |out| == Min(1, Size(r))
  {
    hide Rem;
    var n := |r.slots|;
    SizeSteps(r.head, r.tail, n);
    var (r', out) := PopOne(r);
    if out != [] {
      RemSmall(r.head, n);
      forall i | 0 <= i < Size(r')
        ensures Items(r')[i] == Items(r)[i + 1]
      {
        RemShift(r.head + 1, i, n);
      }
      assert Items(r) == out + Items(r');
    }
  }

  /** A run of single pushes accepts min(count, free space) items, in order, at the end. */
  lemma {:induction false} PushManyAppends<T>(r: Ring<T>, items: seq<T>)
    requires Ok(r)
    ensures var (r', k) := PushMany(r, items);
      && Ok(r') && k == Min(|items|, |r.slots| - 1 - Size(r))
      && Items(r') == Items(r) + items[..k]
    decreases |items|
  {
    hide Rem;
    PushManyLayout(r, items);
    if items != [] {
      PushOneAppends(r, items[0]);
      var (r1, ok) := PushOne(r, items[0]);
      if ok {
        PushManyAppends(r1, items[1..]);
        var k := PushMany(r1, items[1..]).1;
        assert items[..k + 1] == [items[0]] + items[1..][..k];
      }
    }
  }

  /** A run of single pops removes min(count, size) items from the front, in order. */
  lemma {:induction false} PopManyRemoves<T>(r: Ring<T>, count: nat)
    requires Ok(r)
    ensures var (r', out) := PopMany(r, count);
      Ok(r') && Items(r) == out + Items(r') && |out| == Min(count, Size(r))
    decreases count
  {
    hide Rem;
    SizeSteps(r.head, r.tail, |r.slots|);
    if count != 0 {
      PopOneRemoves(r);
      var (r1, out) := PopOne(r);
      if out != [] { PopManyRemoves(r1, count - 1); }
    }
  }

  /** Where a run of single pushes puts things. */
  lemma {:induction false} PushManyLayout<T>(r: Ring<T>, items: seq<T>)
    requires Ok(r)
    ensures Rem(r.head - r.tail - 1, |r.slots|) == |r.slots| - 1 - Size(r)
    ensures var k := Min(|items|, |r.slots| - 1 - Size(r));
      && 0 <= k
      && PushMany(r, items) == (Ring(Write(r.slots, r.tail, items[..k]), r.head, Rem(r.tail + k, |r.slots|)), k)
      && (k == 0 ==> PushMany(r, items) == (r, 0))
    decreases |items|
  {
    hide Rem;
    var n := |r.slots|;
    SizeSteps(r.head, r.tail, n);
    var k := Min(|items|, n - 1 - Size(r));
    RemSmall(r.tail, n);
    if k > 0 {
      var (r1, ok) := PushOne(r, items[0]);
      PushManyLayout(r1, items[1..]);
      assert items[..k][1..] == items[1..][..k - 1];
      WriteShift(r1.slots, r.tail + 1, items[1..][..k - 1]);
      RemShift(r.tail + 1, k - 1, n);
    }
  }

  lemma {:induction false} PopManyLayout<T>(r: Ring<T>, count: nat)
    requires Ok(r)
    ensures var k := Min(count, Size(r));
      && 0 <= k
      && PopMany(r, count) == (r.(head := Rem(r.head + k, |r.slots|)), Items(r)[..k])
      && (k == 0 ==> PopMany(r, count) == (r, []))
    decreases count
  {
    hide Rem;
    var n := |r.slots|;
    SizeSteps(r.head, r.tail, n);
    var k := Min(count, Size(r));
    RemSmall(r.head, n);
    PopManyRemoves(r, count);
    if k > 0 {
      var (r1, out) := PopOne(r);
      PopManyLayout(r1, count - 1);
      RemShift(r.head + 1, k - 1, n);
    }
  }

  /** The source's `x & MASK` on a 64-bit index expression. */
  function Masked(x: int, n: nat): (r: nat)
    requires RingCapacity(n)
    ensures r == Rem(x, n) && r < n
  {
    MaskedIndex(x, n);
    And(Wrap64(x), n - 1)
  }

  class SpscQueue<T(0)> {
    var head: nat
    var tail: nat
    const buffer: array<T>

    ghost function Value(): Ring<T>
      reads this, buffer
    {
      Ring(buffer[..], head, tail)
    }

    ghost predicate Valid()
      reads this, buffer
    {
      Ok(Value()) && RingCapacity(buffer.Length)
    }

    constructor (capacity: nat)
      requires RingCapacity(capacity)
      ensures Valid() && fresh(buffer) && buffer.Length == capacity && Items(Value()) == []
    {
      head, tail := 0, 0;
      buffer := new T[capacity];
      new;
      SizeSteps(0, 0, capacity);
    }

    method TryPush(value: T) returns (ok: bool)
      requires Valid()
      modifies this`tail, buffer
      ensures Valid() && (Value(), ok) == PushOne(old(Value()), value)
    {
      hide Rem, And;
      var nextTail := Masked(tail + 1, buffer.Length);
      if nextTail == head { return false; }
      buffer[tail] := value;
      tail := nextTail;
      return true;
    }

    method TryPushBatch(items: seq<T>) returns (toPush: nat)
      requires Valid()
      modifies this`tail, buffer
      ensures Valid() && (Value(), toPush) == PushMany(old(Value()), items)
    {
      hide Rem, And;
      ghost var was := Value();
      var n := buffer.Length;
      var available := Masked(head - tail - 1, n);
      PushManyLayout(was, items);
      toPush := Min(|items|, available);
      if toPush == 0 { return; }
      assert items[..0] == [];
      for i := 0 to toPush
        invariant unchanged(this)
        invariant buffer[..] == Write(was.slots, was.tail, items[..i])
      {
        WriteStep(was.slots, was.tail, items, i);
        buffer[Masked(tail + i, n)] := items[i];
      }
      tail := Masked(tail + toPush, n);
    }

    method TryPop(default: T) returns (ok: bool, value: T)
      requires Valid()
      modifies this`head
      ensures Valid() && (Value(), if ok then [value] else []) == PopOne(old(Value()))
    {
      hide Rem, And;
      if head == tail { return false, default; }
      value := buffer[head];
      head := Masked(head + 1, buffer.Length);
      return true, value;
    }

    method TryPopBatch(items: array<T>, count: nat) returns (toPop: nat)
      requires Valid() && count <= items.Length && items != buffer
      modifies this`head, items
      ensures Valid() && toPop <= count && (Value(), items[..toPop]) == PopMany(old(Value()), count)
      ensures items[toPop..] == old(items[..])[toPop..]
    {
      hide Rem, And;
      ghost var was := Value();
      var n := buffer.Length;
      var available := Masked(tail - head, n);
      PopManyLayout(was, count);
      toPop := Min(count, available);
      if toPop == 0 { return; }
      ghost var want := Items(was);
      for i := 0 to toPop
        invariant unchanged(this) && unchanged(buffer)
        invariant forall j :: 0 <= j < i ==> items[j] == want[j]
        invariant forall j :: i <= j < items.Length ==> items[j] == old(items[j])
      {
        items[i] := buffer[Masked(head + i, n)];
      }
      assert items[..toPop] == want[..toPop];
      head := Masked(head + toPop, n);
    }
  }
}
