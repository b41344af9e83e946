/** The CRC register read as polynomials over GF(2). A polynomial is its coefficients, highest degree
    first; the generator is x^32 + x^26 + x^23 + x^22 + x^16 + x^12 + x^11 + x^10 + x^8 + x^7 + x^5
    + x^4 + x^2 + x + 1. */
module CrcPolynomial {
  import opened Crc32

  type Poly = seq<bool>

  const EXPONENTS: set<int> := {26, 23, 22, 16, 12, 11, 10, 8, 7, 5, 4, 2, 1, 0}

  /** The generator below its leading x^32. */
  function Generator(): (g: Poly)
    ensures |g| == 32
  {
    seq(32, i => (31 - i) in EXPONENTS)
  }

  function Zeros(n: nat): (z: Poly)
    ensures |z| == n
  {
    seq(n, _ => false)
  }

  function Ones(n: nat): (z: Poly)
    ensures |z| == n
  {
    seq(n, _ => true)
  }

  function Add(a: Poly, b: Poly): (s: Poly)
    requires |a| == |b|
    ensures |s| == |a| && forall i :: 0 <= i < |s| ==> s[i] == (a[i] != b[i])
  {
    seq(|a|, i requires 0 <= i < |a| => a[i] != b[i])
  }

  /** Long division: the remainder of `d` by the generator. */
  function Remainder(d: Poly): (r: Poly)
    requires |d| >= 32
    ensures |r| == 32
    decreases |d|
  {
    if |d| == 32 then d
    else if d[0] then Remainder(Add(d[1..33], Generator()) + d[33..])
    else Remainder(d[1..])
  }

  /** The product of `q` and the generator. */
  function Times(q: Poly): (p: Poly)
    ensures |p| == |q| + 32
  {
    if q == [] then Zeros(32)
    else
      var rest := [false] + Times(q[1..]);
      if q[0] then Add([true] + Generator() + Zeros(|q| - 1), rest) else rest
  }

  // ---- Division is what it says ----

  function Quotient(d: Poly): (q: Poly)
    requires |d| >= 32
    ensures |q| == |d| - 32
    decreases |d|
  {
    if |d| == 32 then []
    else if d[0] then [true] + Quotient(Add(d[1..33], Generator()) + d[33..])
    else [false] + Quotient(d[1..])
  }

  ghost predicate Divides(d: Poly, q: Poly, r: Poly)
  {
    |r| == 32 && |d| == |q| + 32 && d == Add(Times(q), Zeros(|q|) + r)
  }

  lemma {:induction false} DivisionIdentity(d: Poly)
    requires |d| >= 32
    ensures Divides(d, Quotient(d), Remainder(d))
    decreases |d|
  {
    if |d| == 32 {
      assert Zeros(0) + d == d;
    } else {
      var d' := if d[0] then Add(d[1..33], Generator()) + d[33..] else d[1..];
      DivisionIdentity(d');
      var q, r := Quotient(d'), Remainder(d');
      assert Quotient(d) == [d[0]] + q && Remainder(d) == r;
      DivisionStep(d, d', q, r);
    }
  }

  lemma DivisionStep(d: Poly, d': Poly, q: Poly, r: Poly)
    requires |d| > 32 && d' == if d[0] then Add(d[1..33], Generator()) + d[33..] else d[1..]
    requires Divides(d', q, r)
    ensures Divides(d, [d[0]] + q, r)
  {
    var q1 := [d[0]] + q;
    assert q1[1..] == q;
    var rest := [false] + Times(q);
    var lead := [true] + Generator() + Zeros(|q|);
    assert Times(q1) == if d[0] then Add(lead, rest) else rest;
    var sum := Add(Times(q1), Zeros(|q1|) + r);
    forall i | 0 <= i < |d|
      ensures d[i] == sum[i]
    {
      if i > 0 {
        assert d'[i - 1] == (Times(q)[i - 1] != (Zeros(|q|) + r)[i - 1]);
        assert (Zeros(|q1|) + r)[i] == (Zeros(|q|) + r)[i - 1];
      }
    }
  }

  /** Quotient and remainder are unique, so `Remainder` is the remainder. */
  lemma {:induction false} RemainderUnique(d: Poly, q: Poly, r: Poly)
    requires |d| >= 32 && Divides(d, q, r)
    ensures q == Quotient(d) && r == Remainder(d)
    decreases |d|
  {
    if |d| == 32 {
      assert Zeros(0) + r == r;
      assert d == r;
    } else {
      var d' := if d[0] then Add(d[1..33], Generator()) + d[33..] else d[1..];
      var rest, lead := [false] + Times(q[1..]), [true] + Generator() + Zeros(|q| - 1);
      assert Times(q) == if q[0] then Add(lead, rest) else rest;
      assert d[0] == (Times(q)[0] != (Zeros(|q|) + r)[0]);
      assert d[0] == q[0];
      var sum := Add(Times(q[1..]), Zeros(|q| - 1) + r);
      forall i | 0 <= i < |d'|
        ensures d'[i] == sum[i]
      {
        assert d[i + 1] == (Times(q)[i + 1] != (Zeros(|q|) + r)[i + 1]);
        assert (Zeros(|q|) + r)[i + 1] == (Zeros(|q| - 1) + r)[i];
      }
      assert d' == sum;
      RemainderUnique(d', q[1..], r);
      assert q == [q[0]] + q[1..];
    }
  }

  // ---- Bits of a word, least significant first ----

  function Shr(v: bv32, n: nat): bv32
    decreases n
  {
    if n == 0 then v else Shr(Half(v), n - 1)
  }

  function Bits(v: bv32, n: nat): (p: Poly)
    ensures |p| == n
    decreases n
  {
    if n == 0 then [] else [Odd(v)] + Bits(Half(v), n - 1)
  }

  /** The register reflected: bit 0 is the coefficient of x^31. */
  function Reg(c: bv32): (p: Poly)
    ensures |p| == 32
  {
    Bits(c, 32)
  }

  function BitWord(bit: bool): bv32
  {
    if bit then 1 else 0
  }

  /** One message bit. */
  function SerialStep(c: bv32, bit: bool): bv32
  {
    BitStep(Xor(c, BitWord(bit)))
  }

  function Serial(c: bv32, bits: seq<bool>): bv32
    decreases |bits|
  {
    if bits == [] then c else Serial(SerialStep(c, bits[0]), bits[1..])
  }

  function DataBits(data: seq<bv8>): (p: Poly)
    ensures |p| == 8 * |data|
    decreases |data|
  {
    if data == [] then [] else Bits(data[0] as bv32, 8) + DataBits(data[1..])
  }

  lemma {:induction false} BitsXor(a: bv32, b: bv32, n: nat)
    ensures Bits(Xor(a, b), n) == Add(Bits(a, n), Bits(b, n))
    decreases n
  {
    hide Xor, Odd, Half;
    if n > 0 {
      XorOdd(a, b);
      XorHalf(a, b);
      BitsXor(Half(a), Half(b), n - 1);
    }
  }

  lemma {:induction false} BitsSnoc(v: bv32, n: nat)
    ensures Bits(v, n + 1) == Bits(v, n) + [Odd(Shr(v, n))]
    decreases n
  {
    hide Odd, Half;
    if n > 0 { BitsSnoc(Half(v), n - 1); }
  }

  function Upper(v: bv32): bv32
  {
    v >> 8
  }

  lemma Halves(v: bv32)
    ensures Half(Half(Half(Half(Half(Half(Half(Half(v)))))))) == Upper(v)
  {
  }

  lemma ShrByte(v: bv32, n: nat)
    ensures Shr(v, n + 8) == Shr(Upper(v), n)
  {
    Halves(v);
    hide Half, Upper;
    var h1 := Half(v); var h2 := Half(h1); var h3 := Half(h2); var h4 := Half(h3);
    var h5 := Half(h4); var h6 := Half(h5); var h7 := Half(h6);
    assert Shr(v, n + 8) == Shr(h1, n + 7) == Shr(h2, n + 6) == Shr(h3, n + 5) == Shr(h4, n + 4);
    assert Shr(h4, n + 4) == Shr(h5, n + 3) == Shr(h6, n + 2) == Shr(h7, n + 1);
  }

  lemma ShiftedOut(v: bv32)
    ensures Upper(Upper(Upper(Upper(v)))) == 0
    ensures v < 256 ==> Upper(v) == 0
  {
  }

  lemma WordShiftedOut(v: bv32)
    ensures Shr(v, 32) == 0
    ensures v < 256 ==> Shr(v, 8) == 0
  {
    hide Half, Upper;
    ShrByte(v, 24);
    ShrByte(Upper(v), 16);
    ShrByte(Upper(Upper(v)), 8);
    ShrByte(Upper(Upper(Upper(v))), 0);
    ShrByte(v, 0);
    ShiftedOut(v);
  }

  lemma RegHalf(c: bv32)
    ensures Reg(Half(c)) == Reg(c)[1..] + [false]
  {
    hide Half, Bits, Shr;
    BitsSnoc(c, 32);
    BitsTail(c, 32);
    WordShiftedOut(c);
  }

  lemma BitsTail(v: bv32, n: nat)
    ensures Bits(v, n + 1)[1..] == Bits(Half(v), n)
  {
    hide Half, Odd;
  }

  lemma {:induction false} BitsSplit(v: bv32, m: nat, n: nat)
    ensures Bits(v, m + n) == Bits(v, m) + Bits(Shr(v, m), n)
    decreases m
  {
    hide Half, Odd;
    if m > 0 { BitsSplit(Half(v), m - 1, n); }
  }

  lemma BitsByte(v: bv32, n: nat)
    ensures Bits(v, 8 + n) == Bits(v, 8) + Bits(Upper(v), n)
  {
    hide Half, Bits;
    BitsSplit(v, 8, n);
    ShrByte(v, 0);
  }

  /** The four bytes of a word, low byte first. */
  lemma RegBytes(v: bv32)
    ensures Reg(v) == Bits(v, 8) + Bits(Upper(v), 8) + Bits(Upper(Upper(v)), 8) + Bits(Upper(Upper(Upper(v))), 8)
  {
    hide Bits, Upper;
    BitsByte(v, 24);
    BitsByte(Upper(v), 16);
    BitsByte(Upper(Upper(v)), 8);
  }

  lemma GeneratorBytes01()
    ensures Bits(0xEDB88320, 8) == [false, false, false, false, false, true, false, false]
    ensures Bits(0xEDB883, 8) == [true, true, false, false, false, false, false, true]
  {
  }

  lemma GeneratorByte2()
    ensures Bits(0xEDB8, 8) == [false, false, false, true, true, true, false, true]
  {
  }

  lemma GeneratorByte3()
    ensures Bits(0xED, 8) == [true, false, true, true, false, true, true, true]
  {
  }

  lemma PolyShifts()
    ensures Upper(POLY) == 0xEDB883 && Upper(0xEDB883) == 0xEDB8 && Upper(0xEDB8) == 0xED
  {
  }

  lemma GeneratorWord()
    ensures Reg(POLY) == Generator()
  {
    hide Bits, Reg, Upper;
    RegBytes(POLY);
    PolyShifts();
    GeneratorBytes01();
    GeneratorByte2();
    GeneratorByte3();
  }

  lemma BitWordParts(c: bv32, bit: bool)
    ensures Odd(Xor(c, BitWord(bit))) == (Odd(c) != bit) && Half(Xor(c, BitWord(bit))) == Half(c)
  {
    XorOdd(c, BitWord(bit));
    XorHalf(c, BitWord(bit));
    hide Xor;
    XorZero(Half(c));
  }

  lemma RegStep(c: bv32, bit: bool)
    ensures var shifted := Reg(c)[1..] + [false];
      Reg(SerialStep(c, bit)) == if Reg(c)[0] != bit then Add(shifted, Generator()) else shifted
  {
    hide Half, Odd, Xor, BitStep, BitWord, Generator;
    BitWordParts(c, bit);
    BitStepHalf(Xor(c, BitWord(bit)));
    RegHalf(c);
    GeneratorWord();
    BitsXor(Half(c), POLY, 32);
    assert Reg(c)[0] == Odd(c);
  }

  /** The register `r` followed by the message bits `m` and 32 zeros. */
  function Dividend(r: Poly, m: Poly): (d: Poly)
    requires |r| == 32
    ensures |d| == 32 + |m|
  {
    Add(r + Zeros(|m|), m + Zeros(32))
  }

  lemma DividendStep(r: Poly, r': Poly, m: Poly)
    requires |r| == 32 && m != []
    requires var shifted := r[1..] + [false]; r' == if r[0] != m[0] then Add(shifted, Generator()) else shifted
    ensures var d := Dividend(r, m);
      d[0] == (r[0] != m[0]) && Dividend(r', m[1..]) == if d[0] then Add(d[1..33], Generator()) + d[33..] else d[1..]
  {
    hide Generator;
    var d, d' := Dividend(r, m), Dividend(r', m[1..]);
    var n := |m| - 1;
    forall i | 0 <= i < |d'|
      ensures d'[i] == (d[i + 1] != (d[0] && i < 32 && Generator()[i]))
    {
      assert (r' + Zeros(n))[i] == if i < 32 then r'[i] else false;
      assert (r + Zeros(n + 1))[i + 1] == if i < 31 then r[i + 1] else false;
      assert (m + Zeros(32))[i + 1] == (m[1..] + Zeros(32))[i];
    }
  }

  /** Shifting message bits through the register is long division of the message. */
  lemma {:induction false} SerialDivides(c: bv32, m: Poly)
    ensures Reg(Serial(c, m)) == Remainder(Dividend(Reg(c), m))
    decreases |m|
  {
    hide Reg, SerialStep, Generator;
    var d := Dividend(Reg(c), m);
    if m == [] {
      assert d == Reg(c);
    } else {
      RegStep(c, m[0]);
      SerialDivides(SerialStep(c, m[0]), m[1..]);
      DividendStep(Reg(c), Reg(SerialStep(c, m[0])), m);
    }
  }

  // ---- Bytes ----

  lemma XorBack(w: bv32, v: bv32)
    ensures Xor(w, Xor(w, v)) == v
  {
  }

  lemma OddPeel(v: bv32)
    requires v & 1 == 1
    ensures BitStep(Xor(1, v)) == Half(v)
  {
  }

  lemma EvenPeel(v: bv32)
    requires v & 1 != 1
    ensures BitStep(Xor(0, v)) == Half(v)
  {
  }

  lemma PeelFacts(v: bv32)
    ensures var w := BitWord(Odd(v)); Xor(w, Xor(w, v)) == v && BitStep(Xor(w, v)) == Half(v)
  {
    hide BitStep, Xor, Half;
    XorBack(BitWord(Odd(v)), v);
    if Odd(v) { OddPeel(v); } else { EvenPeel(v); }
  }

  lemma SerialPeel(c: bv32, v: bv32)
    ensures BitStep(Xor(c, v)) == Xor(SerialStep(c, Odd(v)), Half(v))
  {
    hide Xor, Odd, Half, BitWord, BitStep;
    var w := BitWord(Odd(v));
    PeelFacts(v);
    XorAssoc(c, w, Xor(w, v));
    BitStepLinear(Xor(c, w), Xor(w, v));
  }

  /** Xoring a word in and stepping is feeding its bits one by one. */
  lemma {:induction false} SerialWord(c: bv32, v: bv32, n: nat)
    ensures BitSteps(Xor(c, v), n) == Xor(Serial(c, Bits(v, n)), Shr(v, n))
    decreases n
  {
    hide Xor, Odd, Half, BitStep, SerialStep;
    if n > 0 {
      SerialPeel(c, v);
      SerialWord(SerialStep(c, Odd(v)), Half(v), n - 1);
      assert Bits(v, n)[1..] == Bits(Half(v), n - 1);
    }
  }

  lemma ByteSmall(b: bv8)
    ensures (b as bv32) < 256
  {
  }

  lemma ByteIsSerial(c: bv32, b: bv8)
    ensures ByteStep(Xor(c, b as bv32)) == Serial(c, Bits(b as bv32, 8))
  {
    hide Xor, BitSteps, Serial, Bits, Shr;
    var v := b as bv32;
    SerialWord(c, v, 8);
    ByteSmall(b);
    WordShiftedOut(v);
    XorZero(Serial(c, Bits(v, 8)));
  }

  lemma {:induction false} SerialAppend(c: bv32, a: Poly, b: Poly)
    ensures Serial(c, a + b) == Serial(Serial(c, a), b)
    decreases |a|
  {
    hide SerialStep;
    if a == [] {
      assert a + b == b;
    } else {
      assert (a + b)[1..] == a[1..] + b;
      SerialAppend(SerialStep(c, a[0]), a[1..], b);
    }
  }

  lemma {:induction false} RegisterIsSerial(c: bv32, data: seq<bv8>)
    ensures Register(c, data) == Serial(c, DataBits(data))
    decreases |data|
  {
    hide Xor, ByteStep, SerialStep, Bits;
    if data != [] {
      var v := data[0] as bv32;
      ByteIsSerial(c, data[0]);
      RegisterIsSerial(ByteStep(Xor(c, v)), data[1..]);
      SerialAppend(c, Bits(v, 8), DataBits(data[1..]));
    }
  }

  lemma OnesBytes01()
    ensures Bits(0xFFFFFFFF, 8) == Ones(8) && Bits(0xFFFFFF, 8) == Ones(8)
  {
  }

  lemma OnesByte2()
    ensures Bits(0xFFFF, 8) == Ones(8)
  {
  }

  lemma OnesByte3()
    ensures Bits(0xFF, 8) == Ones(8)
  {
  }

  lemma OnesShifts()
    ensures Upper(0xFFFFFFFF) == 0xFFFFFF && Upper(0xFFFFFF) == 0xFFFF && Upper(0xFFFF) == 0xFF
  {
  }

  lemma AllOnes()
    ensures Reg(0xFFFFFFFF) == Ones(32)
  {
    hide Bits, Reg, Upper;
    RegBytes(0xFFFFFFFF);
    OnesShifts();
    OnesBytes01();
    OnesByte2();
    OnesByte3();
  }

  /** The CRC is the complemented remainder of the message, its first 32 bits complemented and 32
      zeros appended. */
  lemma CrcIsRemainder(data: seq<bv8>)
    ensures Reg(Crc(data)) == Add(Remainder(Dividend(Ones(32), DataBits(data))), Ones(32))
  {
    hide Register, Serial, Reg, Xor, Remainder, Dividend;
    RegisterIsSerial(0xFFFFFFFF, data);
    SerialDivides(0xFFFFFFFF, DataBits(data));
    AllOnes();
    assert Reg(Crc(data)) == Add(Reg(Register(0xFFFFFFFF, data)), Reg(0xFFFFFFFF)) by {
      RegXor(Register(0xFFFFFFFF, data), 0xFFFFFFFF);
    }
  }

  lemma RegXor(a: bv32, b: bv32)
    ensures Reg(Xor(a, b)) == Add(Reg(a), Reg(b))
  {
    BitsXor(a, b, 32);
  }
}
