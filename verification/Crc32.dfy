/**
  The CRC-32 of PNG chunks: a table-driven register, and the polynomial division it stands for.

  JavaScript's 32-bit patterns are modelled as the integers they stand for when read unsigned, so
  `c >>> k` divides by 2^k, `c & 0xff` is the remainder by 256, and `^` is Xor below.
 */
module Crc32 {
  import opened Numbers

  type Word = c: int | 0 <= c < 0x1_0000_0000

  /** The reflected generator polynomial, as the source writes it. */
  const POLYNOMIAL: Word := 0xedb88320
  const ALL_ONES: Word := 0xffffffff

  function Xor(a: nat, b: nat): (r: nat) {
    if a == 0 && b == 0 then 0
    else (if a % 2 == b % 2 then 0 else 1) + 2 * Xor(a / 2, b / 2)
  }

  // ----- the shift register, one bit at a time -----

  /** Shifts one zero bit through the register. */
  function BitStep(c: nat): nat {
    if c % 2 == 1 then Xor(POLYNOMIAL, c / 2) else c / 2
  }

  function Steps(c: nat, k: nat): nat
    decreases k
  {
    if k == 0 then c else Steps(BitStep(c), k - 1)
  }

  function Bit(b: bool): nat { if b then 1 else 0 }

  /** Shifts a message through the register, first bit first. */
  function Register(c: nat, bits: seq<bool>): nat
    decreases |bits|
  {
    if bits == [] then c else Register(BitStep(Xor(c, Bit(bits[0]))), bits[1..])
  }

  /** The low n bits, least significant first. */
  function Bits(c: nat, n: nat): (bits: seq<bool>)
    ensures |bits| == n
    decreases n
  {
    if n == 0 then [] else [c % 2 == 1] + Bits(c / 2, n - 1)
  }

  /** Bytes go in least significant bit first (section 3.4 of RFC 2083). */
  function MessageBits(buf: seq<Byte>): seq<bool> {
    if buf == [] then [] else Bits(buf[0], 8) + MessageBits(buf[1..])
  }

  // ----- polynomials over GF(2), highest power first -----

  /** Section 15 of RFC 2083 gives the generator by its exponents. */
  predicate InGenerator(k: nat) {
    k == 32 || k == 26 || k == 23 || k == 22 || k == 16 || k == 12 || k == 11 || k == 10 ||
    k == 8 || k == 7 || k == 5 || k == 4 || k == 2 || k == 1 || k == 0
  }

  /** The coefficients of the generator below x^k. */
  function GeneratorTail(k: nat): (r: seq<bool>)
    ensures |r| == k
  {
    if k == 0 then [] else [InGenerator(k - 1)] + GeneratorTail(k - 1)
  }

  function Zeros(n: nat): (z: seq<bool>)
    ensures |z| == n
  {
    if n == 0 then [] else [false] + Zeros(n - 1)
  }

  /** Adds a to the |a| highest coefficients of p. */
  function AddToHead(a: seq<bool>, p: seq<bool>): (r: seq<bool>)
    requires |a| <= |p|
    ensures |r| == |p|
  {
    if a == [] then p else [a[0] != p[0]] + AddToHead(a[1..], p[1..])
  }

  /** Schoolbook long division by the generator: what is left below x^32. */
  function Remainder(p: seq<bool>): (r: seq<bool>)
    requires |p| >= 32
    ensures |r| == 32
    decreases |p|
  {
    if |p| == 32 then p
    else if p[0] then Remainder(AddToHead(GeneratorTail(32), p[1..]))
    else Remainder(p[1..])
  }

  function Complement(bits: seq<bool>): seq<bool> {
    if bits == [] then [] else [!bits[0]] + Complement(bits[1..])
  }

  /**
    The CRC as the standard defines it: the message as a polynomial, times x^32, with its 32 highest
    coefficients inverted, divided by the generator; the remainder is inverted.
   */
  function StandardCrc(buf: seq<Byte>): seq<bool> {
    Complement(Remainder(AddToHead(Bits(ALL_ONES, 32), MessageBits(buf) + Zeros(32))))
  }

  // ----- exclusive or -----

  lemma {:induction false} XorComm(a: nat, b: nat)
    ensures Xor(a, b) == Xor(b, a)
  {
    if a != 0 || b != 0 { XorComm(a / 2, b / 2); }
  }

  lemma {:induction false} XorZero(a: nat)
    ensures Xor(a, 0) == a == Xor(0, a)
  {
    if a != 0 { XorZero(a / 2); }
  }

  lemma {:induction false} XorParts(a: nat, b: nat)
    ensures Xor(a, b) / 2 == Xor(a / 2, b / 2)
    ensures Xor(a, b) % 2 == if a % 2 == b % 2 then 0 else 1
  {
  }

  lemma {:induction false} XorAssoc(a: nat, b: nat, c: nat)
    ensures Xor(Xor(a, b), c) == Xor(a, Xor(b, c))
  {
    if a != 0 || b != 0 || c != 0 {
      XorParts(a, b);
      XorParts(b, c);
      XorParts(Xor(a, b), c);
      XorParts(a, Xor(b, c));
      XorAssoc(a / 2, b / 2, c / 2);
    }
  }

  lemma {:induction false} XorSelf(a: nat)
    ensures Xor(a, a) == 0
  {
    if a != 0 { XorSelf(a / 2); }
  }

  lemma {:induction false} XorCancel(p: nat, a: nat, b: nat)
    requires Xor(p, a) == Xor(p, b)
    ensures a == b
    decreases p + a + b
  {
    if p + a + b > 0 { XorCancel(p / 2, a / 2, b / 2); }
  }

  lemma {:induction false} XorBelow(a: nat, b: nat, n: nat)
    requires a < Pow2(n) && b < Pow2(n)
    ensures Xor(a, b) < Pow2(n)
  {
    if n > 0 { XorBelow(a / 2, b / 2, n - 1); }
  }

  lemma {:induction false} XorKeepsHighBit(a: nat, b: nat, n: nat)
    requires Pow2(n) <= a && b < Pow2(n)
    ensures Pow2(n) <= Xor(a, b)
  {
    if n == 0 { XorZero(a); } else { XorKeepsHighBit(a / 2, b / 2, n - 1); }
  }

  lemma {:induction false} Pow2Values()
    ensures Pow2(8) == 0x100 && Pow2(31) == 0x8000_0000 && Pow2(32) == 0x1_0000_0000
  {
    assert Pow2(4) == 16;
    assert Pow2(8) == 16 * Pow2(4);
    assert Pow2(12) == 16 * Pow2(8);
    assert Pow2(16) == 16 * Pow2(12);
    assert Pow2(20) == 16 * Pow2(16);
    assert Pow2(24) == 16 * Pow2(20);
    assert Pow2(28) == 16 * Pow2(24);
  }

  lemma {:induction false} XorWord(a: Word, b: Word)
    ensures Xor(a, b) < 0x1_0000_0000
  {
    Pow2Values();
    XorBelow(a, b, 32);
  }

  lemma {:induction false} BitStepWord(c: Word)
    ensures BitStep(c) < 0x1_0000_0000
  {
    XorWord(POLYNOMIAL, c / 2);
  }

  // ----- the register computes the remainder -----

  lemma {:induction false} BitsXor(c: nat, d: nat, n: nat)
    ensures Bits(Xor(c, d), n) == AddToHead(Bits(c, n), Bits(d, n))
    decreases n
  {
    if n > 0 {
      XorParts(c, d);
      BitsXor(c / 2, d / 2, n - 1);
    }
  }

  lemma {:induction false} BitsOfHalf(c: nat, n: nat)
    requires n > 0 && c < Pow2(n)
    ensures Bits(c / 2, n) == Bits(c, n)[1..] + [false]
    decreases n
  {
    if n == 1 {
      assert Bits(c / 2, 1) == [false];
    } else {
      BitsOfHalf(c / 2, n - 1);
      assert Bits(c / 2, n) == [c / 2 % 2 == 1] + Bits(c / 2 / 2, n - 1);
      assert Bits(c, n)[1..] == Bits(c / 2, n - 1) == [c / 2 % 2 == 1] + Bits(c / 2, n - 1)[1..];
    }
  }

  /** The generator below x^k as a number, its constant coefficient in the highest place. */
  function GeneratorValue(k: nat): nat {
    if k == 0 then 0 else Bit(InGenerator(k - 1)) + 2 * GeneratorValue(k - 1)
  }

  lemma {:induction false} BitsOfGeneratorValue(k: nat)
    ensures Bits(GeneratorValue(k), k) == GeneratorTail(k)
  {
    if k > 0 {
      BitsOfGeneratorValue(k - 1);
      assert GeneratorValue(k) / 2 == GeneratorValue(k - 1);
    }
  }

  /** The constant in the code is the generator of the standard, bit-reversed. */
  lemma {:induction false} GeneratorMatches()
    ensures GeneratorValue(32) == POLYNOMIAL
    ensures Bits(POLYNOMIAL, 32) == GeneratorTail(32)
  {
    assert GeneratorValue(8) == 0xed;
    assert GeneratorValue(16) == 0xedb8;
    assert GeneratorValue(24) == 0xedb883;
    BitsOfGeneratorValue(32);
  }

  lemma {:induction false} AddToHeadZeros(a: seq<bool>)
    ensures AddToHead(a, Zeros(|a|)) == a
  {
    if a != [] {
      AddToHeadZeros(a[1..]);
    }
  }

  lemma {:induction false} AddToHeadTwice(a: seq<bool>, b: seq<bool>, p: seq<bool>)
    requires |a| == |b| <= |p|
    ensures AddToHead(a, AddToHead(b, p)) == AddToHead(AddToHead(a, b), p)
  {
    if a != [] {
      AddToHeadTwice(a[1..], b[1..], p[1..]);
    }
  }

  lemma {:induction false} AddToHeadFalse(a: seq<bool>, p: seq<bool>)
    requires |a| < |p|
    ensures AddToHead(a + [false], p) == AddToHead(a, p)
  {
    if a == [] {
      assert AddToHead([], p[1..]) == p[1..];
    } else {
      assert (a + [false])[1..] == a[1..] + [false];
      AddToHeadFalse(a[1..], p[1..]);
    }
  }

  /** One bit through the register is one column of the long division. */
  lemma {:induction false} RegisterIsRemainder(c: Word, bits: seq<bool>)
    ensures Bits(Register(c, bits), 32) == Remainder(AddToHead(Bits(c, 32), bits + Zeros(32)))
    decreases |bits|
  {
    if bits == [] {
      AddToHeadZeros(Bits(c, 32));
      assert bits + Zeros(32) == Zeros(32);
    } else {
      var rest := bits[1..] + Zeros(32);
      assert (bits + Zeros(32))[1..] == rest;
      var p := AddToHead(Bits(c, 32), bits + Zeros(32));
      var x := Xor(c, Bit(bits[0]));
      FeedBit(c, bits[0]);
      Pow2Values();
      BitsOfHalf(c, 32);
      AddToHeadFalse(Bits(c, 32)[1..], rest);
      assert p[1..] == AddToHead(Bits(c / 2, 32), rest);
      assert p[0] == (x % 2 == 1);
      BitStepWord(x);
      RegisterIsRemainder(BitStep(x), bits[1..]);
      if p[0] {
        GeneratorMatches();
        BitsXor(POLYNOMIAL, c / 2, 32);
        AddToHeadTwice(GeneratorTail(32), Bits(c / 2, 32), rest);
      }
    }
  }

  lemma {:induction false} FeedBit(c: Word, b: bool)
    ensures (Xor(c, Bit(b)) % 2 == 1) == ((c % 2 == 1) != b)
    ensures Xor(c, Bit(b)) / 2 == c / 2
    ensures Xor(c, Bit(b)) < 0x1_0000_0000
  {
    XorParts(c, Bit(b));
    XorZero(c / 2);
    XorWord(c, Bit(b));
  }

  // ----- linearity, and the table -----

  lemma {:induction false} BitStepXor(c: nat, d: nat)
    ensures BitStep(Xor(c, d)) == Xor(BitStep(c), BitStep(d))
  {
    XorParts(c, d);
    var p, x, y := POLYNOMIAL, c / 2, d / 2;
    XorAssoc(p, x, y);
    XorComm(x, Xor(p, y));
    XorAssoc(p, y, x);
    XorComm(y, x);
    XorAssoc(x, p, Xor(p, y));
    XorAssoc(p, p, y);
    XorSelf(p);
    XorZero(y);
    XorAssoc(p, x, Xor(p, y));
    XorAssoc(x, p, y);
    XorComm(p, x);
    XorAssoc(p, p, Xor(x, y));
    XorZero(Xor(x, y));
    XorAssoc(x, y, p);
  }

  lemma {:induction false} StepsXor(c: nat, d: nat, k: nat)
    ensures Steps(Xor(c, d), k) == Xor(Steps(c, k), Steps(d, k))
    decreases k
  {
    if k > 0 {
      BitStepXor(c, d);
      StepsXor(BitStep(c), BitStep(d), k - 1);
    }
  }

  /** Steps on a register whose low bits are clear only shift it. */
  lemma {:induction false} StepsOfShifted(c: nat, k: nat)
    ensures Steps(Pow2(k) * c, k) == c
    decreases k
  {
    if k > 0 {
      assert Pow2(k) * c == 2 * (Pow2(k - 1) * c);
      StepsOfShifted(c, k - 1);
    }
  }

  lemma {:induction false} XorOfEven(lo: nat, m: nat)
    requires Xor(lo / 2, m) == lo / 2 + m
    ensures Xor(lo, 2 * m) == lo + 2 * m
  {
  }

  lemma {:induction false} XorDisjoint(lo: nat, hi: nat, n: nat)
    requires lo < Pow2(n)
    ensures Xor(lo, Pow2(n) * hi) == lo + Pow2(n) * hi
    decreases n
  {
    if n == 0 {
      XorZero(hi);
    } else {
      var m := Pow2(n - 1) * hi;
      assert Pow2(n) * hi == 2 * m;
      XorDisjoint(lo / 2, hi, n - 1);
      XorOfEven(lo, m);
    }
  }

  /** A byte added to the register changes its low byte only. */
  lemma {:induction false} XorLowByte(c: nat, b: Byte)
    ensures Xor(c, b) / 256 == c / 256
    ensures c == Xor(c % 256, 256 * (c / 256))
  {
    Pow2Values();
    var lo, hi := c % 256, 256 * (c / 256);
    XorDisjoint(lo, c / 256, 8);
    XorComm(lo, hi);
    XorAssoc(hi, lo, b);
    XorBelow(lo, b, 8);
    XorDisjoint(Xor(lo, b), c / 256, 8);
    XorComm(Xor(lo, b), hi);
  }

  /** The table entry for the low byte, and a shift, do the work of eight steps. */
  lemma {:induction false} TableStep(c: nat)
    ensures Xor(Steps(c % 256, 8), c / 256) == Steps(c, 8)
  {
    Pow2Values();
    XorLowByte(c, 0);
    StepsXor(c % 256, 256 * (c / 256), 8);
    StepsOfShifted(c / 256, 8);
  }

  /** The bits of w as a number, first bit lowest. */
  function Pack(w: seq<bool>): nat {
    if w == [] then 0 else Bit(w[0]) + 2 * Pack(w[1..])
  }

  lemma {:induction false} AddLowBit(b: bool, y: nat)
    ensures Xor(Bit(b), 2 * y) == Bit(b) + 2 * y
  {
    XorZero(y);
    XorOfEven(Bit(b), y);
  }

  lemma {:induction false} StepOfEven(y: nat)
    ensures BitStep(2 * y) == y
  {
  }

  lemma {:induction false} StepPastLowBit(x: nat, y: nat)
    ensures BitStep(Xor(x, 2 * y)) == Xor(BitStep(x), y)
  {
    var even := 2 * y;
    StepOfEven(y);
    BitStepXor(x, even);
  }

  lemma {:induction false} AddPacked(c: nat, b: bool, y: nat)
    ensures Xor(c, Bit(b) + 2 * y) == Xor(Xor(c, Bit(b)), 2 * y)
  {
    AddLowBit(b, y);
    XorAssoc(c, Bit(b), 2 * y);
  }

  lemma {:induction false} StepPastPacked(c: nat, b: bool, y: nat)
    ensures BitStep(Xor(c, Bit(b) + 2 * y)) == Xor(BitStep(Xor(c, Bit(b))), y)
  {
    AddPacked(c, b, y);
    StepPastLowBit(Xor(c, Bit(b)), y);
  }

  /** Feeding bits one by one is the same as adding them all to the register first. */
  lemma {:induction false} RegisterPacks(c: nat, w: seq<bool>)
    ensures Register(c, w) == Steps(Xor(c, Pack(w)), |w|)
    decreases |w|
  {
    if w == [] {
      XorZero(c);
    } else {
      StepPastPacked(c, w[0], Pack(w[1..]));
      RegisterPacks(BitStep(Xor(c, Bit(w[0]))), w[1..]);
    }
  }

  lemma {:induction false} PackBits(b: nat, n: nat)
    requires b < Pow2(n)
    ensures Pack(Bits(b, n)) == b
    decreases n
  {
    if n > 0 { PackBits(b / 2, n - 1); }
  }

  lemma {:induction false} RegisterAppend(c: nat, u: seq<bool>, v: seq<bool>)
    ensures Register(c, u + v) == Register(Register(c, u), v)
    decreases |u|
  {
    if u == [] {
      assert u + v == v;
    } else {
      assert (u + v)[1..] == u[1..] + v;
      RegisterAppend(BitStep(Xor(c, Bit(u[0]))), u[1..], v);
    }
  }

  lemma {:induction false} RegisterWord(c: Word, bits: seq<bool>)
    ensures Register(c, bits) < 0x1_0000_0000
    decreases |bits|
  {
    if bits != [] {
      FeedBit(c, bits[0]);
      BitStepWord(Xor(c, Bit(bits[0])));
      RegisterWord(BitStep(Xor(c, Bit(bits[0]))), bits[1..]);
    }
  }

  lemma {:induction false} MessageBitsAppend(a: seq<Byte>, b: seq<Byte>)
    ensures MessageBits(a + b) == MessageBits(a) + MessageBits(b)
  {
    if a == [] {
      assert a + b == b;
    } else {
      assert (a + b)[1..] == a[1..] + b;
      MessageBitsAppend(a[1..], b);
    }
  }

  // ----- the code -----

  /** The register after a whole buffer, complemented: the value the code returns. */
  function Crc(buf: seq<Byte>): (crc: Word) {
    RegisterWord(ALL_ONES, MessageBits(buf));
    XorWord(Register(ALL_ONES, MessageBits(buf)), ALL_ONES);
    Xor(Register(ALL_ONES, MessageBits(buf)), ALL_ONES)
  }

  ghost predicate IsCrcTable(table: seq<Word>) {
    |table| == 256 && forall n :: 0 <= n < 256 ==> table[n] == Steps(n, 8)
  }

  method TableEntry(n: Byte) returns (c: Word)
    ensures c == Steps(n, 8)
  {
    c := n;
    for k := 0 to 8
      invariant Steps(c, 8 - k) == Steps(n, 8)
    {
      BitStepWord(c);
      c := if c % 2 == 1 then Xor(POLYNOMIAL, c / 2) else c / 2;
    }
  }

  method BuildTable() returns (table: array<Word>)
    ensures fresh(table) && IsCrcTable(table[..])
  {
    table := new Word[256];
    for n := 0 to 256
      invariant forall i :: 0 <= i < n ==> table[i] == Steps(i, 8)
    {
      table[n] := TableEntry(n);
    }
  }

  /** The table-driven loop computes the register of the bit-by-bit definition. */
  method ComputeCrc(table: array<Word>, buf: seq<Byte>) returns (crc: Word)
    requires IsCrcTable(table[..])
    ensures crc == Crc(buf)
  {
    var c: Word := ALL_ONES;
    for i := 0 to |buf|
      invariant c == Register(ALL_ONES, MessageBits(buf[..i]))
    {
      ByteIsTableStep(c, buf[i]);
      RegisterNext(buf, i);
      var index := Xor(c, buf[i]) % 256;
      assert table[..][index] == Steps(index, 8);
      c := Xor(table[index], c / 256);
    }
    assert buf[..|buf|] == buf;
    XorWord(c, ALL_ONES);
    crc := Xor(c, ALL_ONES);
  }

  lemma {:induction false} RegisterNext(buf: seq<Byte>, i: nat)
    requires i < |buf|
    ensures Register(ALL_ONES, MessageBits(buf[..i + 1])) ==
            Register(Register(ALL_ONES, MessageBits(buf[..i])), Bits(buf[i], 8))
  {
    MessageBitsAppend(buf[..i], [buf[i]]);
    assert buf[..i + 1] == buf[..i] + [buf[i]];
    assert MessageBits([buf[i]]) == Bits(buf[i], 8);
    RegisterAppend(ALL_ONES, MessageBits(buf[..i]), Bits(buf[i], 8));
  }

  lemma {:induction false} ByteIsTableStep(c: Word, b: Byte)
    ensures Xor(Steps(Xor(c, b) % 256, 8), c / 256) == Register(c, Bits(b, 8))
    ensures Register(c, Bits(b, 8)) < 0x1_0000_0000
  {
    Pow2Values();
    RegisterPacks(c, Bits(b, 8));
    PackBits(b, 8);
    TableStep(Xor(c, b));
    XorLowByte(c, b);
    RegisterWord(c, Bits(b, 8));
  }

  // ----- main results -----

  lemma {:induction false} ComplementBits(c: nat, n: nat)
    requires c < Pow2(n)
    ensures Bits(Xor(c, Pow2(n) - 1), n) == Complement(Bits(c, n))
    decreases n
  {
    if n > 0 {
      XorParts(c, Pow2(n) - 1);
      ComplementBits(c / 2, n - 1);
    }
  }

  /** The fast form computes the CRC of the standard, for every byte string. */
  lemma {:induction false} CrcIsStandard(buf: seq<Byte>)
    ensures Bits(Crc(buf), 32) == StandardCrc(buf)
  {
    var r := Register(ALL_ONES, MessageBits(buf));
    RegisterWord(ALL_ONES, MessageBits(buf));
    XorWord(r, ALL_ONES);
    RegisterIsRemainder(ALL_ONES, MessageBits(buf));
    Pow2Values();
    ComplementBits(r, 32);
  }

  lemma {:induction false} BitStepInjective(c: Word, d: Word)
    requires BitStep(c) == BitStep(d)
    ensures c == d
  {
    Pow2Values();
    XorKeepsHighBit(POLYNOMIAL, c / 2, 31);
    XorKeepsHighBit(POLYNOMIAL, d / 2, 31);
    if c % 2 == 1 && d % 2 == 1 { XorCancel(POLYNOMIAL, c / 2, d / 2); }
  }

  lemma {:induction false} StepsInjective(c: Word, d: Word, k: nat)
    requires Steps(c, k) == Steps(d, k)
    ensures c == d
    decreases k
  {
    if k > 0 {
      BitStepWord(c);
      BitStepWord(d);
      StepsInjective(BitStep(c), BitStep(d), k - 1);
      BitStepInjective(c, d);
    }
  }

  lemma {:induction false} PackInjective(w: seq<bool>, x: seq<bool>)
    requires |w| == |x| && Pack(w) == Pack(x)
    ensures w == x
  {
    if w != [] {
      assert Pack(w) % 2 == Bit(w[0]) && Pack(x) % 2 == Bit(x[0]);
      PackInjective(w[1..], x[1..]);
    }
  }

  lemma {:induction false} PackBelow(w: seq<bool>)
    ensures Pack(w) < Pow2(|w|)
  {
    if w != [] { PackBelow(w[1..]); }
  }

  lemma {:induction false} Pow2Monotone(m: nat, n: nat)
    requires m <= n
    ensures Pow2(m) <= Pow2(n)
  {
    if m < n { Pow2Monotone(m, n - 1); }
  }

  /**
    Any error burst is detected: two messages of one length whose bits differ, but only inside a
    window of 32 consecutive bits, have different CRCs.
   */
  lemma {:induction false} BurstDetected(a: seq<Byte>, b: seq<Byte>, u: seq<bool>, w: seq<bool>, x: seq<bool>,
        v: seq<bool>)
    requires MessageBits(a) == u + w + v && MessageBits(b) == u + x + v
    requires |w| == |x| <= 32 && w != x
    ensures Crc(a) != Crc(b)
  {
    var c := Register(ALL_ONES, u);
    RegisterWord(ALL_ONES, u);
    RegisterAppend(ALL_ONES, u + w, v);
    RegisterAppend(ALL_ONES, u, w);
    RegisterAppend(ALL_ONES, u + x, v);
    RegisterAppend(ALL_ONES, u, x);
    if Crc(a) == Crc(b) {
      var s, t := Register(c, w), Register(c, x);
      RegisterWord(c, w);
      RegisterWord(c, x);
      XorComm(Register(s, v), ALL_ONES);
      XorComm(Register(t, v), ALL_ONES);
      XorCancel(ALL_ONES, Register(s, v), Register(t, v));
      SameFinalRegister(s, t, v);
      WindowInjective(c, w, x);
    }
  }

  lemma {:induction false} SameFinalRegister(s: Word, t: Word, v: seq<bool>)
    requires Register(s, v) == Register(t, v)
    ensures s == t
    decreases |v|
  {
    if v != [] {
      var s', t' := Xor(s, Bit(v[0])), Xor(t, Bit(v[0]));
      FeedBit(s, v[0]);
      FeedBit(t, v[0]);
      BitStepWord(s');
      BitStepWord(t');
      SameFinalRegister(BitStep(s'), BitStep(t'), v[1..]);
      BitStepInjective(s', t');
    }
  }

  lemma {:induction false} WindowInjective(c: Word, w: seq<bool>, x: seq<bool>)
    requires |w| == |x| <= 32 && Register(c, w) == Register(c, x)
    ensures w == x
  {
    Pow2Values();
    PackBelow(w);
    PackBelow(x);
    Pow2Monotone(|w|, 32);
    XorWord(c, Pack(w));
    XorWord(c, Pack(x));
    RegisterPacks(c, w);
    RegisterPacks(c, x);
    StepsInjective(Xor(c, Pack(w)), Xor(c, Pack(x)), |w|);
    XorCancel(c, Pack(w), Pack(x));
    PackInjective(w, x);
  }
}
