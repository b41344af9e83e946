/** CRC-32 of section 8 of RFC 1952: the bit-at-a-time register, the table-driven form of the three
    implementations, and what changes the checksum detects. */
module Crc32 {

  const POLY: bv32 := 0xEDB88320

  function BitStep(c: bv32): bv32
  {
    if c & 1 == 1 then (c >> 1) ^ POLY else c >> 1
  }

  function BitSteps(c: bv32, n: nat): bv32
    decreases n
  {
    if n == 0 then c else BitSteps(BitStep(c), n - 1)
  }

  function Xor(a: bv32, b: bv32): bv32
  {
    a ^ b
  }

  function Low(c: bv32): bv32
  {
    c & 0xFF
  }

  /** One byte already in the register. */
  function ByteStep(c: bv32): bv32
  {
    BitSteps(c, 8)
  }

  /** The register after `data`, a bit at a time. */
  function Register(c: bv32, data: seq<bv8>): bv32
    decreases |data|
  {
    if data == [] then c else Register(ByteStep(Xor(c, data[0] as bv32)), data[1..])
  }

  function Crc(data: seq<bv8>): bv32
  {
    Xor(Register(0xFFFFFFFF, data), 0xFFFFFFFF)
  }

  function Odd(v: bv32): bool
  {
    v & 1 == 1
  }

  function Half(v: bv32): bv32
  {
    v >> 1
  }

  // ---- Linearity ----

  lemma XorAssoc(a: bv32, b: bv32, c: bv32)
    ensures Xor(Xor(a, b), c) == Xor(a, Xor(b, c))
  {
  }

  lemma XorCommutes(a: bv32, b: bv32)
    ensures Xor(a, b) == Xor(b, a)
  {
  }

  lemma XorZero(a: bv32)
    ensures Xor(a, 0) == a && Xor(a, a) == 0
  {
  }

  lemma XorSwap(a: bv32, b: bv32, c: bv32, d: bv32)
    ensures Xor(Xor(a, b), Xor(c, d)) == Xor(Xor(a, c), Xor(b, d))
  {
    hide Xor;
    XorAssoc(a, b, Xor(c, d));
    XorAssoc(b, c, d);
    XorCommutes(b, c);
    XorAssoc(c, b, d);
    XorAssoc(a, c, Xor(b, d));
  }

  lemma XorMoves(a: bv32, b: bv32, c: bv32)
    ensures Xor(a, b) == c <==> a == Xor(c, b)
  {
    hide Xor;
    XorAssoc(a, b, b);
    XorAssoc(c, b, b);
    XorZero(b);
    XorZero(a);
    XorZero(c);
  }

  lemma XorHalf(a: bv32, b: bv32)
    ensures Half(Xor(a, b)) == Xor(Half(a), Half(b))
  {
  }

  lemma XorOdd(a: bv32, b: bv32)
    ensures Odd(Xor(a, b)) == (Odd(a) != Odd(b))
  {
  }

  lemma BitStepHalf(c: bv32)
    ensures BitStep(c) == if Odd(c) then Xor(Half(c), POLY) else Half(c)
  {
  }

  lemma BitStepLinear(a: bv32, b: bv32)
    ensures BitStep(Xor(a, b)) == Xor(BitStep(a), BitStep(b))
  {
    hide Xor, Odd, Half, BitStep;
    BitStepHalf(a);
    BitStepHalf(b);
    BitStepHalf(Xor(a, b));
    XorOdd(a, b);
    XorHalf(a, b);
    var h, k := Half(a), Half(b);
    XorSwap(h, POLY, k, POLY);
    XorZero(POLY);
    XorZero(Xor(h, k));
    XorAssoc(h, k, POLY);
    XorAssoc(h, POLY, k);
    XorCommutes(k, POLY);
  }

  lemma {:induction false} BitStepsLinear(a: bv32, b: bv32, n: nat)
    ensures BitSteps(Xor(a, b), n) == Xor(BitSteps(a, n), BitSteps(b, n))
    decreases n
  {
    hide BitStep, Xor;
    if n > 0 {
      BitStepLinear(a, b);
      BitStepsLinear(BitStep(a), BitStep(b), n - 1);
    }
  }

  lemma BitStepEven(c: bv32)
    requires c & 1 == 0
    ensures BitStep(c) == c >> 1
  {
  }

  lemma ByteStepUnrolled(c: bv32)
    ensures ByteStep(c) == BitStep(BitStep(BitStep(BitStep(BitStep(BitStep(BitStep(BitStep(c))))))))
  {
    hide BitStep;
    var c1 := BitStep(c); var c2 := BitStep(c1); var c3 := BitStep(c2); var c4 := BitStep(c3);
    var c5 := BitStep(c4); var c6 := BitStep(c5); var c7 := BitStep(c6); var c8 := BitStep(c7);
    assert BitSteps(c7, 1) == c8;
    assert BitSteps(c6, 2) == c8;
    assert BitSteps(c5, 3) == c8;
    assert BitSteps(c4, 4) == c8;
    assert BitSteps(c3, 5) == c8;
    assert BitSteps(c2, 6) == c8;
    assert BitSteps(c1, 7) == c8;
  }

  lemma ShiftsCompose(c: bv32)
    ensures ((((((((c >> 1) >> 1) >> 1) >> 1) >> 1) >> 1) >> 1) >> 1) == c >> 8
  {
  }

  lemma EvenShifts(c: bv32)
    requires c & 0xFF == 0
    ensures c & 1 == 0 && (c >> 1) & 1 == 0 && ((c >> 1) >> 1) & 1 == 0 && (((c >> 1) >> 1) >> 1) & 1 == 0
    ensures ((((c >> 1) >> 1) >> 1) >> 1) & 1 == 0 && (((((c >> 1) >> 1) >> 1) >> 1) >> 1) & 1 == 0
    ensures ((((((c >> 1) >> 1) >> 1) >> 1) >> 1) >> 1) & 1 == 0
    ensures (((((((c >> 1) >> 1) >> 1) >> 1) >> 1) >> 1) >> 1) & 1 == 0
  {
  }

  /** A clear low byte is just shifted out. */
  lemma HighPart(c: bv32)
    requires c & 0xFF == 0
    ensures ByteStep(c) == c >> 8
  {
    hide BitStep, ByteStep;
    ByteStepUnrolled(c);
    EvenShifts(c);
    ShiftsCompose(c);
    var c1 := c >> 1; var c2 := c1 >> 1; var c3 := c2 >> 1; var c4 := c3 >> 1;
    var c5 := c4 >> 1; var c6 := c5 >> 1; var c7 := c6 >> 1;
    BitStepEven(c); BitStepEven(c1); BitStepEven(c2); BitStepEven(c3);
    BitStepEven(c4); BitStepEven(c5); BitStepEven(c6); BitStepEven(c7);
  }

  lemma SplitBits(c: bv32)
    ensures c == Xor(Low(c), c & 0xFFFFFF00)
    ensures (c & 0xFFFFFF00) & 0xFF == 0 && (c & 0xFFFFFF00) >> 8 == c >> 8
  {
  }

  /** The split behind the table: the low byte is looked up, the rest is shifted. */
  lemma ByteStepSplit(c: bv32)
    ensures ByteStep(c) == Xor(ByteStep(Low(c)), c >> 8)
  {
    SplitBits(c);
    HighPart(c & 0xFFFFFF00);
    ByteStepsLinear(Low(c), c & 0xFFFFFF00);
  }

  lemma ByteStepsLinear(a: bv32, b: bv32)
    ensures ByteStep(Xor(a, b)) == Xor(ByteStep(a), ByteStep(b))
  {
    hide BitSteps, Xor;
    BitStepsLinear(a, b, 8);
  }

  // ---- The table ----

  ghost predicate IsTable(table: seq<bv32>)
  {
    |table| == 256 && forall k: nat :: k < 256 ==> table[k] == ByteStep(k as bv32)
  }

  method TableEntry(i: bv32) returns (crc: bv32)
    ensures crc == ByteStep(i)
  {
    crc := i;
    var j := 0;
    while j < 8
      invariant 0 <= j <= 8
      invariant BitSteps(crc, 8 - j) == ByteStep(i)
    {
      assert BitSteps(crc, 8 - j) == BitSteps(BitStep(crc), 8 - j - 1);
      if crc & 1 == 1 {
        crc := (crc >> 1) ^ POLY;
      } else {
        crc := crc >> 1;
      }
      j := j + 1;
    }
  }

  method BuildTable(table: array<bv32>)
    requires table.Length == 256
    modifies table
    ensures IsTable(table[..])
  {
    hide ByteStep;
    for i := 0 to 256
      invariant forall k: nat :: k < i ==> table[k] == ByteStep(k as bv32)
    {
      table[i] := TableEntry(i as bv32);
    }
  }

  function Index(c: bv32): (i: nat)
    ensures i < 256
  {
    LowSmall(c);
    Low(c) as int
  }

  lemma LowSmall(c: bv32)
    ensures Low(c) < 256
  {
  }

  lemma ThereAndBack(x: bv32)
    ensures ((x as int) as bv32) == x
  {
  }

  lemma IndexIsLow(c: bv32)
    ensures (Index(c) as bv32) == Low(c)
  {
    hide Low;
    ThereAndBack(Low(c));
  }

  /** A table lookup and a shift do what eight bit steps do. */
  lemma LookUp(table: seq<bv32>, c: bv32)
    requires IsTable(table)
    ensures |table| == 256 && Xor(table[Index(c)], c >> 8) == ByteStep(c)
  {
    hide ByteStep, Xor, Low, Index;
    IndexIsLow(c);
    ByteStepSplit(c);
  }

  lemma ShiftPastByte(c: bv32, b: bv8)
    ensures Xor(c, b as bv32) >> 8 == c >> 8
  {
  }

  lemma RegisterEmpty(c: bv32)
    ensures Register(c, []) == c
  {
  }

  lemma {:induction false} RegisterSnoc(c: bv32, data: seq<bv8>, b: bv8)
    ensures Register(c, data + [b]) == ByteStep(Xor(Register(c, data), b as bv32))
    decreases |data|
  {
    hide ByteStep, Xor;
    if data != [] {
      assert (data + [b])[1..] == data[1..] + [b];
      RegisterSnoc(ByteStep(Xor(c, data[0] as bv32)), data[1..], b);
    } else {
      assert data + [b] == [b];
    }
  }

  lemma LookUpByte(table: seq<bv32>, crc: bv32, b: bv8)
    requires IsTable(table)
    ensures var x := Xor(crc, b as bv32); |table| == 256 && Xor(table[Index(x)], crc >> 8) == ByteStep(x)
  {
    hide ByteStep, Xor, Low, Index, IsTable;
    LookUp(table, Xor(crc, b as bv32));
    ShiftPastByte(crc, b);
  }

  lemma {:induction false} NextByte(c: bv32, data: seq<bv8>, i: nat)
    requires i < |data|
    ensures Register(c, data[..i + 1]) == ByteStep(Xor(Register(c, data[..i]), data[i] as bv32))
  {
    hide ByteStep, Xor, Register;
    RegisterSnoc(c, data[..i], data[i]);
    assert data[..i + 1] == data[..i] + [data[i]];
  }

  /** The CRC32 class of the fault-tolerance lesson. */
  class CRC32 {
    const table: array<bv32>

    ghost predicate Valid()
      reads table
    {
      IsTable(table[..])
    }

    constructor ()
      ensures Valid() && fresh(table)
    {
      table := new bv32[256];
      new;
      BuildTable(table);
    }

    method Compute(data: seq<bv8>) returns (r: bv32)
      requires Valid()
      ensures r == Crc(data)
    {
      hide ByteStep, Xor, Low, Index, IsTable, Register;
      var crc: bv32 := 0xFFFFFFFF;
      assert Register(crc, data[..0]) == crc by { RegisterEmpty(crc); }
      for i := 0 to |data|
        invariant crc == Register(0xFFFFFFFF, data[..i])
      {
        var x := Xor(crc, data[i] as bv32);
        LookUpByte(table[..], crc, data[i]);
        NextByte(0xFFFFFFFF, data, i);
        crc := Xor(table[Index(x)], crc >> 8);
      }
      assert data[..|data|] == data;
      r := Xor(crc, 0xFFFFFFFF);
    }
  }

  /** crc32 and crc32_runtime: the index is the low byte cast to eight bits, the operands are swapped. */
  method Crc32WithTable(data: seq<bv8>, table: array<bv32>) returns (r: bv32)
    requires IsTable(table[..])
    ensures r == Crc(data)
  {
    hide ByteStep, Xor, Low, Index, IsTable, Register;
    var crc: bv32 := 0xFFFFFFFF;
    assert Register(crc, data[..0]) == crc by { RegisterEmpty(crc); }
    for i := 0 to |data|
      invariant crc == Register(0xFFFFFFFF, data[..i])
    {
      var x := Xor(crc, data[i] as bv32);
      LookUpByte(table[..], crc, data[i]);
      NextByte(0xFFFFFFFF, data, i);
      LowByte(x);
      XorCommutes(table[Index(x)], crc >> 8);
      var index := Low(x) as bv8;
      crc := Xor(crc >> 8, table[index as int]);
    }
    assert data[..|data|] == data;
    r := Xor(crc, 0xFFFFFFFF);
  }

  lemma LowByte(c: bv32)
    ensures Low(c) <= 255 && ((Low(c) as bv8) as int) == Index(c)
  {
  }

  /** The table entries and the standard test vector that the source checks at compile time. */
  lemma KnownEntries()
    ensures ByteStep(0) == 0 && ByteStep(1) == 0x77073096 && ByteStep(255) == 0x2D02EF8D
  {
  }

  lemma KnownSteps0()
    ensures Xor(0xFFFFFFFF, 0x31) == 0xFFFFFFCE && ByteStep(0xFFFFFFCE) == 0x7C231048
    ensures Xor(0x7C231048, 0x32) == 0x7C23107A && ByteStep(0x7C23107A) == 0xB0ACBB32
    ensures Xor(0xB0ACBB32, 0x33) == 0xB0ACBB01 && ByteStep(0xB0ACBB01) == 0x77B79C2D
  {
  }

  lemma KnownSteps1()
    ensures Xor(0x77B79C2D, 0x34) == 0x77B79C19 && ByteStep(0x77B79C19) == 0x641C1F5C
    ensures Xor(0x641C1F5C, 0x35) == 0x641C1F69 && ByteStep(0x641C1F69) == 0x340AC5E3
    ensures Xor(0x340AC5E3, 0x36) == 0x340AC5D5 && ByteStep(0x340AC5D5) == 0xF68D2C9E
  {
  }

  lemma KnownSteps2()
    ensures Xor(0xF68D2C9E, 0x37) == 0xF68D2CA9 && ByteStep(0xF68D2CA9) == 0xAFFC9660
    ensures Xor(0xAFFC9660, 0x38) == 0xAFFC9658 && ByteStep(0xAFFC9658) == 0x651F2550
    ensures Xor(0x651F2550, 0x39) == 0x651F2569 && ByteStep(0x651F2569) == 0x340BC6D9
  {
  }

  lemma KnownCrc()
    ensures Crc([]) == 0
    ensures Crc([0x31, 0x32, 0x33, 0x34, 0x35, 0x36, 0x37, 0x38, 0x39]) == 0xCBF43926
  {
    assert Xor(0xFFFFFFFF, 0xFFFFFFFF) == 0 && Xor(0x340BC6D9, 0xFFFFFFFF) == 0xCBF43926;
    KnownSteps0();
    KnownSteps1();
    KnownSteps2();
    hide ByteStep, Xor;
    var d: seq<bv8> := [0x31, 0x32, 0x33, 0x34, 0x35, 0x36, 0x37, 0x38, 0x39];
    assert Register(0x651F2550, d[8..]) == 0x340BC6D9;
    assert Register(0xAFFC9660, d[7..]) == 0x340BC6D9;
    assert Register(0xF68D2C9E, d[6..]) == 0x340BC6D9;
    assert Register(0x340AC5E3, d[5..]) == 0x340BC6D9;
    assert Register(0x641C1F5C, d[4..]) == 0x340BC6D9;
    assert Register(0x77B79C2D, d[3..]) == 0x340BC6D9;
    assert Register(0xB0ACBB32, d[2..]) == 0x340BC6D9;
    assert Register(0x7C231048, d[1..]) == 0x340BC6D9;
    assert Register(0xFFFFFFFF, d[0..]) == 0x340BC6D9;
    assert d[0..] == d;
  }
}
