/** What the checksum detects, and the storage class that relies on it. */
module CrcProtected {
  import opened Crc32
  import opened CrcPolynomial

  // ---- Errors ----

  lemma {:induction false} SerialLinear(a: bv32, b: bv32, m: Poly, n: Poly)
    requires |m| == |n|
    ensures Serial(Xor(a, b), Add(m, n)) == Xor(Serial(a, m), Serial(b, n))
    decreases |m|
  {
    hide Xor, SerialStep;
    if m != [] {
      SerialStepLinear(a, b, m[0], n[0]);
      SerialLinear(SerialStep(a, m[0]), SerialStep(b, n[0]), m[1..], n[1..]);
      assert Add(m, n)[1..] == Add(m[1..], n[1..]);
    }
  }

  lemma BitWordXor(x: bool, y: bool)
    ensures BitWord(x != y) == Xor(BitWord(x), BitWord(y))
  {
  }

  lemma SerialStepLinear(a: bv32, b: bv32, x: bool, y: bool)
    ensures SerialStep(Xor(a, b), x != y) == Xor(SerialStep(a, x), SerialStep(b, y))
  {
    hide Xor, BitStep, BitWord;
    BitWordXor(x, y);
    XorSwap(a, b, BitWord(x), BitWord(y));
    BitStepLinear(Xor(a, BitWord(x)), Xor(b, BitWord(y)));
  }

  lemma XorSame(a: bv32, b: bv32, c: bv32)
    ensures Xor(a, c) == Xor(b, c) <==> a == b
  {
    hide Xor;
    XorMoves(a, c, Xor(b, c));
    XorMoves(b, c, Xor(b, c));
  }

  lemma XorNone(a: bv32, b: bv32)
    ensures Xor(a, b) == 0 <==> a == b
  {
    hide Xor;
    XorZero(b);
    XorSame(a, b, b);
  }

  /** The bits in which two messages differ. */
  function Difference(a: seq<bv8>, b: seq<bv8>): (d: Poly)
    requires |a| == |b|
    ensures |d| == 8 * |a|
  {
    Add(DataBits(a), DataBits(b))
  }

  /** A change goes unnoticed exactly when the register absorbs its difference. */
  lemma SameCrc(a: seq<bv8>, b: seq<bv8>)
    requires |a| == |b|
    ensures Crc(a) == Crc(b) <==> Serial(0, Difference(a, b)) == 0
  {
    hide Xor, Register, Serial, DataBits;
    var c: bv32 := 0xFFFFFFFF;
    RegisterIsSerial(c, a);
    RegisterIsSerial(c, b);
    XorSame(Register(c, a), Register(c, b), c);
    XorZero(c);
    SerialLinear(c, c, DataBits(a), DataBits(b));
    XorNone(Serial(c, DataBits(a)), Serial(c, DataBits(b)));
  }

  lemma Rejoin(x: bv32, y: bv32)
    requires Odd(x) == Odd(y) && Half(x) == Half(y)
    ensures x == y
  {
  }

  lemma {:induction false} BitsInjective(x: bv32, y: bv32, n: nat)
    requires Bits(x, n) == Bits(y, n) && Shr(x, n) == Shr(y, n)
    ensures x == y
    decreases n
  {
    hide Odd, Half;
    if n > 0 {
      assert Bits(x, n)[0] == Bits(y, n)[0] && Bits(x, n)[1..] == Bits(y, n)[1..];
      BitsInjective(Half(x), Half(y), n - 1);
      Rejoin(x, y);
    }
  }

  lemma RegInjective(x: bv32, y: bv32)
    ensures Reg(x) == Reg(y) <==> x == y
  {
    hide Shr, Bits;
    WordShiftedOut(x);
    WordShiftedOut(y);
    if Reg(x) == Reg(y) { BitsInjective(x, y, 32); }
  }

  lemma ZeroReg()
    ensures Reg(0) == Zeros(32)
  {
    XorZero(0);
    BitsXor(0, 0, 32);
  }

  /** A change goes unnoticed exactly when the generator divides its difference. */
  lemma UndetectedIffDivisible(a: seq<bv8>, b: seq<bv8>)
    requires |a| == |b|
    ensures Crc(a) == Crc(b) <==> Remainder(Difference(a, b) + Zeros(32)) == Zeros(32)
  {
    hide Serial, Crc, DataBits, Remainder, Reg;
    var d := Difference(a, b);
    SameCrc(a, b);
    SerialDivides(0, d);
    ZeroReg();
    assert Dividend(Zeros(32), d) == d + Zeros(32);
    RegInjective(Serial(0, d), 0);
  }

  // ---- Bursts ----

  function Twice(v: bv32): bv32
  {
    v << 1
  }

  /** The register that the bits `w` bring to zero. */
  function Pack(w: Poly): bv32
    decreases |w|
  {
    if w == [] then 0 else Xor(Twice(Pack(w[1..])), BitWord(w[0]))
  }

  function Limit(n: nat): bv32
    requires n <= 31
    decreases 31 - n
  {
    if n == 31 then 0x80000000 else Half(Limit(n + 1))
  }

  lemma LimitPositive()
    ensures Limit(0) == 1
  {
    assert Limit(23) == 0x800000;
    assert Limit(15) == 0x8000;
    assert Limit(7) == 0x80;
  }

  lemma TwiceAndOneBelow(x: bv32, limit: bv32)
    requires (limit >> 1) > x
    ensures (x << 1) ^ 1 < limit
  {
  }

  lemma TwiceAndZeroBelow(x: bv32, limit: bv32)
    requires (limit >> 1) > x
    ensures (x << 1) ^ 0 < limit
  {
  }

  lemma TwiceBelow(x: bv32, bit: bool, limit: bv32)
    requires x < Half(limit)
    ensures Xor(Twice(x), BitWord(bit)) < limit
  {
    if bit { TwiceAndOneBelow(x, limit); } else { TwiceAndZeroBelow(x, limit); }
  }

  lemma {:induction false} PackBelow(w: Poly)
    requires |w| <= 31
    ensures Pack(w) < Limit(|w|)
    decreases |w|
  {
    hide Xor, Twice, BitWord, Half;
    if w == [] {
      LimitPositive();
    } else {
      PackBelow(w[1..]);
      TwiceBelow(Pack(w[1..]), w[0], Limit(|w|));
    }
  }

  lemma {:induction false} LimitAtMost(n: nat)
    requires n <= 31
    ensures Limit(n) <= 0x80000000
    decreases 31 - n
  {
    if n < 31 { LimitAtMost(n + 1); }
  }

  lemma OddStepHigh(y: bv32)
    requires y & 1 == 1
    ensures BitStep(y) >= 0x80000000
  {
  }

  lemma EvenStepBack(y: bv32)
    requires y & 1 != 1
    ensures BitStep(y) == y >> 1 && y == Twice(y >> 1)
  {
  }

  lemma StepForth(p: bv32)
    requires p < 0x80000000
    ensures BitStep(Twice(p)) == p
  {
  }

  lemma StepBack(y: bv32, p: bv32)
    requires p < 0x80000000
    ensures BitStep(y) == p <==> y == Twice(p)
  {
    hide BitStep, Twice;
    StepForth(p);
    if y & 1 == 1 { OddStepHigh(y); } else { EvenStepBack(y); }
  }

  /** Up to 32 bits reduce exactly one register value to zero. */
  lemma {:induction false} SerialZero(c: bv32, w: Poly)
    requires |w| <= 32
    ensures Serial(c, w) == 0 <==> c == Pack(w)
    decreases |w|
  {
    hide Xor, Twice, BitWord, BitStep, Limit;
    if w != [] {
      var p := Pack(w[1..]);
      SerialZero(SerialStep(c, w[0]), w[1..]);
      PackBelow(w[1..]);
      LimitAtMost(|w| - 1);
      StepBack(Xor(c, BitWord(w[0])), p);
      XorMoves(c, BitWord(w[0]), Twice(p));
    }
  }

  lemma TwiceZero(p: bv32, bit: bool)
    requires p < 0x80000000 && Xor(Twice(p), BitWord(bit)) == 0
    ensures p == 0 && !bit
  {
  }

  lemma {:induction false} PackZero(w: Poly)
    requires |w| <= 32
    ensures Pack(w) == 0 <==> w == Zeros(|w|)
    decreases |w|
  {
    hide Xor, Twice, BitWord, Limit;
    if w != [] {
      PackZero(w[1..]);
      PackBelow(w[1..]);
      LimitAtMost(|w| - 1);
      if Pack(w) == 0 { TwiceZero(Pack(w[1..]), w[0]); }
      ZeroPacks();
      assert w == [w[0]] + w[1..];
    }
  }

  lemma ZeroPacks()
    ensures Xor(Twice(0), BitWord(false)) == 0
  {
  }

  lemma BitStepZero(c: bv32)
    ensures BitStep(Xor(c, BitWord(false))) == 0 <==> c == 0
  {
  }

  lemma {:induction false} ZerosKeep(c: bv32, n: nat)
    ensures Serial(c, Zeros(n)) == 0 <==> c == 0
    decreases n
  {
    hide Xor, BitWord, BitStep;
    if n > 0 {
      assert Zeros(n)[1..] == Zeros(n - 1);
      BitStepZero(c);
      ZerosKeep(SerialStep(c, false), n - 1);
    }
  }

  /** A burst of up to 32 bits, anywhere in a message of any length. */
  lemma BurstLeavesTrace(before: nat, w: Poly, after: nat)
    requires |w| <= 32
    ensures Serial(0, Zeros(before) + w + Zeros(after)) == 0 <==> w == Zeros(|w|)
  {
    hide Serial, Pack;
    SerialAppend(0, Zeros(before) + w, Zeros(after));
    SerialAppend(0, Zeros(before), w);
    ZerosKeep(0, before);
    ZerosKeep(Serial(0, w), after);
    SerialZero(0, w);
    PackZero(w);
  }

  lemma {:induction false} DataBitsAt(data: seq<bv8>, i: nat, j: nat)
    requires i < |data| && j < 8
    ensures DataBits(data)[8 * i + j] == Bits(data[i] as bv32, 8)[j]
    decreases i
  {
    hide Bits;
    if i > 0 { DataBitsAt(data[1..], i - 1, j); }
  }

  lemma BytesInjective(x: bv8, y: bv8)
    requires Bits(x as bv32, 8) == Bits(y as bv32, 8)
    ensures x == y
  {
    hide Bits, Shr;
    ByteSmall(x);
    ByteSmall(y);
    WordShiftedOut(x as bv32);
    WordShiftedOut(y as bv32);
    BitsInjective(x as bv32, y as bv32, 8);
    Widened(x, y);
  }

  lemma Widened(x: bv8, y: bv8)
    ensures (x as bv32) == (y as bv32) <==> x == y
  {
  }

  lemma {:induction false} DataBitsInjective(a: seq<bv8>, b: seq<bv8>)
    requires |a| == |b| && DataBits(a) == DataBits(b)
    ensures a == b
  {
    hide Bits, DataBits;
    forall i | 0 <= i < |a|
      ensures a[i] == b[i]
    {
      SameByte(a, b, i);
    }
  }

  lemma SameByte(a: seq<bv8>, b: seq<bv8>, i: nat)
    requires |a| == |b| && DataBits(a) == DataBits(b) && i < |a|
    ensures a[i] == b[i]
  {
    hide Bits, DataBits;
    var x, y := Bits(a[i] as bv32, 8), Bits(b[i] as bv32, 8);
    forall j | 0 <= j < 8
      ensures x[j] == y[j]
    {
      DataBitsAt(a, i, j);
      DataBitsAt(b, i, j);
    }
    BytesInjective(a[i], b[i]);
  }

  /** Changes confined to 32 consecutive bits always change the checksum. */
  lemma BurstDetected(a: seq<bv8>, b: seq<bv8>, s: nat)
    requires |a| == |b| && s <= 8 * |a|
    requires forall i :: 0 <= i < 8 * |a| && !(s <= i < s + 32) ==> DataBits(a)[i] == DataBits(b)[i]
    ensures Crc(a) == Crc(b) <==> a == b
  {
    hide Serial, Crc, DataBits;
    var d := Difference(a, b);
    var e := if s + 32 <= |d| then s + 32 else |d|;
    var w := d[s..e];
    SameCrc(a, b);
    assert d == Zeros(s) + w + Zeros(|d| - e);
    BurstLeavesTrace(s, w, |d| - e);
    if w == Zeros(|w|) {
      forall i | 0 <= i < |d|
        ensures DataBits(a)[i] == DataBits(b)[i]
      {
        assert s <= i < e ==> d[i] == w[i - s];
      }
      assert DataBits(a) == DataBits(b);
      DataBitsInjective(a, b);
    }
  }

  ghost predicate SameOutside(a: seq<bv8>, b: seq<bv8>, s: nat)
  {
    |a| == |b| && forall i :: 0 <= i < |a| && !(s <= i < s + 4) ==> a[i] == b[i]
  }

  /** Changes confined to four consecutive bytes always change the checksum. */
  lemma WindowDetected(a: seq<bv8>, b: seq<bv8>, s: nat)
    requires SameOutside(a, b, s)
    ensures Crc(a) == Crc(b) <==> a == b
  {
    hide Crc, DataBits, Bits;
    if s > |a| {
      assert a == b;
    } else {
      forall i | 0 <= i < 8 * |a| && !(8 * s <= i < 8 * s + 32)
        ensures DataBits(a)[i] == DataBits(b)[i]
      {
        DataBitsAt(a, i / 8, i % 8);
        DataBitsAt(b, i / 8, i % 8);
      }
      BurstDetected(a, b, 8 * s);
    }
  }

  // ---- CRCProtected ----

  function Flip(data: seq<bv8>, offset: nat): (r: seq<bv8>)
    ensures |r| == |data|
  {
    if offset < |data| then data[offset := data[offset] ^ 0x42] else data
  }

  function Flips(data: seq<bv8>, offsets: seq<nat>): (r: seq<bv8>)
    ensures |r| == |data|
  {
    if offsets == [] then data else Flip(Flips(data, offsets[..|offsets| - 1]), offsets[|offsets| - 1])
  }

  function Count(offsets: seq<nat>, i: nat): nat
  {
    if offsets == [] then 0
    else Count(offsets[..|offsets| - 1], i) + if offsets[|offsets| - 1] == i then 1 else 0
  }

  /** Every byte was hit an even number of times. */
  ghost predicate Cancelled(size: nat, offsets: seq<nat>)
  {
    forall i :: 0 <= i < size ==> Count(offsets, i) % 2 == 0
  }

  lemma FlipByte(x: bv8)
    ensures (x ^ 0x42) ^ 0x42 == x && x ^ 0x42 != x
  {
  }

  lemma {:induction false} FlipsParity(data: seq<bv8>, offsets: seq<nat>, i: nat)
    requires i < |data|
    ensures Flips(data, offsets)[i] == if Count(offsets, i) % 2 == 0 then data[i] else data[i] ^ 0x42
  {
    if offsets != [] {
      FlipsParity(data, offsets[..|offsets| - 1], i);
      FlipAt(Flips(data, offsets[..|offsets| - 1]), offsets[|offsets| - 1], i);
      FlipByte(data[i]);
      hide Flip;
      assert Count(offsets, i) == Count(offsets[..|offsets| - 1], i) + if offsets[|offsets| - 1] == i then 1 else 0;
    }
  }

  lemma FlipAt(data: seq<bv8>, offset: nat, i: nat)
    requires i < |data|
    ensures Flip(data, offset)[i] == if offset == i then data[i] ^ 0x42 else data[i]
  {
  }

  lemma {:induction false} FlipsOutside(data: seq<bv8>, offsets: seq<nat>, s: nat)
    requires forall k :: 0 <= k < |offsets| && offsets[k] < |data| ==> s <= offsets[k] < s + 4
    ensures SameOutside(data, Flips(data, offsets), s)
  {
    if offsets != [] { FlipsOutside(data, offsets[..|offsets| - 1], s); }
  }

  /** After any calls of corrupt_byte inside one four-byte window, verification succeeds exactly
      when they have cancelled. */
  lemma VerifiesIffCancelled(data: seq<bv8>, offsets: seq<nat>, s: nat)
    requires forall k :: 0 <= k < |offsets| && offsets[k] < |data| ==> s <= offsets[k] < s + 4
    ensures Crc(Flips(data, offsets)) == Crc(data) <==> Cancelled(|data|, offsets)
  {
    hide Crc, Flips;
    FlipsOutside(data, offsets, s);
    WindowDetected(data, Flips(data, offsets), s);
    forall i | 0 <= i < |data|
      ensures Flips(data, offsets)[i] == data[i] <==> Count(offsets, i) % 2 == 0
    {
      FlipsParity(data, offsets, i);
      FlipByte(data[i]);
    }
    if Cancelled(|data|, offsets) {
      assert data == Flips(data, offsets);
    }
  }

  class CRCProtected {
    const g_crc: CRC32
    const data: array<bv8>
    var crc: bv32
    ghost const original: seq<bv8>

    ghost predicate Valid()
      reads this, data, g_crc.table
    {
      g_crc.Valid() && crc == Crc(original) && data.Length == |original|
    }

    constructor (value: seq<bv8>, g_crc: CRC32)
      requires g_crc.Valid()
      ensures Valid() && original == value && data[..] == value && fresh(data) && this.g_crc == g_crc
    {
      this.g_crc, original := g_crc, value;
      data := new bv8[|value|](i requires 0 <= i < |value| => value[i]);
      crc := 0;
      new;
      assert data[..] == value;
      crc := g_crc.Compute(data[..]);
    }

    /** False whenever the bytes differ from the original inside one four-byte window, true if they
        do not differ at all. */
    method Verify() returns (ok: bool)
      requires Valid()
      ensures ok <==> Crc(data[..]) == crc
      ensures (exists s :: SameOutside(data[..], original, s)) ==> (ok <==> data[..] == original)
    {
      hide Crc;
      var now := g_crc.Compute(data[..]);
      ok := now == crc;
      if s :| SameOutside(data[..], original, s) { WindowDetected(data[..], original, s); }
    }

    method CorruptByte(offset: nat)
      requires Valid()
      modifies data
      ensures Valid() && data[..] == Flip(old(data[..]), offset)
    {
      if offset < data.Length { data[offset] := data[offset] ^ 0x42; }
    }
  }
}
