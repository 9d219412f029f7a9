/** Disk blocks as bytes, and the two ways the file system reads them: as bits (the free map, fs.c:66-68)
    and as little-endian 32-bit words (the indirect block, fs.c:390). */
module BlockBytes {
  const BSIZE: nat := 512
  const NINDIRECT: nat := 128   // BSIZE / sizeof(uint)
  const BPB: nat := 4096        // bits per block

  type Block = b: seq<bv8> | |b| == BSIZE witness seq(BSIZE, _ => 0)

  function Zero(): (b: Block)
    ensures forall i :: 0 <= i < BSIZE ==> b[i] == 0
  {
    seq(BSIZE, _ => 0)
  }

  // ---- Bits ----

  /** 1 << i */
  function Mask(i: nat): (m: bv8)
    requires i < 8
  {
    if i == 0 then 1 else if i == 1 then 2 else if i == 2 then 4 else if i == 3 then 8
    else if i == 4 then 16 else if i == 5 then 32 else if i == 6 then 64 else 128
  }

  predicate HasBit(x: bv8, i: nat)
    requires i < 8
  {
    x & Mask(i) != 0
  }

  function WithBit(x: bv8, i: nat): (r: bv8)
    requires i < 8
  {
    x | Mask(i)
  }

  function WithoutBit(x: bv8, i: nat): (r: bv8)
    requires i < 8
  {
    x & !Mask(i)
  }

  lemma ByteBits(x: bv8, i: nat, j: nat)
    requires i < 8 && j < 8
    ensures HasBit(WithBit(x, i), j) <==> i == j || HasBit(x, j)
    ensures HasBit(WithoutBit(x, i), j) <==> i != j && HasBit(x, j)
  {
    hide Mask;
    MaskBits(x, i, j);
  }

  lemma MaskBits(x: bv8, i: nat, j: nat)
    requires i < 8 && j < 8
    ensures (x | Mask(i)) & Mask(j) == if i == j then Mask(i) else x & Mask(j)
    ensures (x & !Mask(i)) & Mask(j) == if i == j then 0 else x & Mask(j)
    ensures Mask(i) != 0
  {
  }

  predicate Bit(b: Block, bi: nat)
    requires bi < BPB
  {
    HasBit(b[bi / 8], bi % 8)
  }

  function SetBit(b: Block, bi: nat): (r: Block)
    requires bi < BPB
  {
    b[bi / 8 := WithBit(b[bi / 8], bi % 8)]
  }

  function ClearBit(b: Block, bi: nat): (r: Block)
    requires bi < BPB
  {
    b[bi / 8 := WithoutBit(b[bi / 8], bi % 8)]
  }

  lemma BlockBits(b: Block, bi: nat, j: nat)
    requires bi < BPB && j < BPB
    ensures Bit(SetBit(b, bi), j) <==> j == bi || Bit(b, j)
    ensures Bit(ClearBit(b, bi), j) <==> j != bi && Bit(b, j)
  {
    hide HasBit, WithBit, WithoutBit;
    ByteBits(b[bi / 8], bi % 8, j % 8);
  }

  // ---- Words ----

  /** ((uint*)data)[j] */
  function Word(b: Block, j: nat): (v: nat)
    requires j < NINDIRECT
    ensures v < 0x1_0000_0000
  {
    WordOf(b[4 * j], b[4 * j + 1], b[4 * j + 2], b[4 * j + 3])
  }

  function WordOf(b0: bv8, b1: bv8, b2: bv8, b3: bv8): (v: nat)
    ensures v < 0x1_0000_0000
  {
    Value(b0) + 0x100 * Value(b1) + 0x1_0000 * Value(b2) + 0x100_0000 * Value(b3)
  }

  function ByteOf(v: nat, k: nat): (b: bv8)
    requires v < 0x1_0000_0000 && k < 4
  {
    if k == 0 then ToByte(v % 0x100)
    else if k == 1 then ToByte(v / 0x100 % 0x100)
    else if k == 2 then ToByte(v / 0x1_0000 % 0x100)
    else ToByte(v / 0x100_0000)
  }

  /** The number that a byte stands for, and back, bit by bit. */
  function Value(b: bv8): (n: nat)
    ensures n < 0x100
  {
    (if b & 1 != 0 then 1 else 0) + (if b & 2 != 0 then 2 else 0) + (if b & 4 != 0 then 4 else 0) +
    (if b & 8 != 0 then 8 else 0) + (if b & 16 != 0 then 16 else 0) + (if b & 32 != 0 then 32 else 0) +
    (if b & 64 != 0 then 64 else 0) + (if b & 128 != 0 then 128 else 0)
  }

  function Pick(c: bool, m: bv8): bv8 { if c then m else 0 }

  function OfBits(p0: bool, p1: bool, p2: bool, p3: bool, p4: bool, p5: bool, p6: bool, p7: bool): bv8 {
    Pick(p0, 1) | Pick(p1, 2) | Pick(p2, 4) | Pick(p3, 8) | Pick(p4, 16) | Pick(p5, 32) | Pick(p6, 64) | Pick(p7, 128)
  }

  function Half(n: nat): nat { n / 2 }

  predicate Odd(n: nat) { n % 2 == 1 }

  function ToByte(n: nat): bv8 {
    var n1 := Half(n); var n2 := Half(n1); var n3 := Half(n2); var n4 := Half(n3);
    var n5 := Half(n4); var n6 := Half(n5); var n7 := Half(n6);
    OfBits(Odd(n), Odd(n1), Odd(n2), Odd(n3), Odd(n4), Odd(n5), Odd(n6), Odd(n7))
  }

  function Sum(p0: bool, p1: bool, p2: bool, p3: bool, p4: bool, p5: bool, p6: bool, p7: bool): nat {
    (if p0 then 1 else 0) + (if p1 then 2 else 0) + (if p2 then 4 else 0) + (if p3 then 8 else 0) +
    (if p4 then 16 else 0) + (if p5 then 32 else 0) + (if p6 then 64 else 0) + (if p7 then 128 else 0)
  }

  lemma OfBitsHas(p0: bool, p1: bool, p2: bool, p3: bool, p4: bool, p5: bool, p6: bool, p7: bool)
    ensures var b := OfBits(p0, p1, p2, p3, p4, p5, p6, p7);
            (b & 1 != 0 <==> p0) && (b & 2 != 0 <==> p1) && (b & 4 != 0 <==> p2) && (b & 8 != 0 <==> p3)
            && (b & 16 != 0 <==> p4) && (b & 32 != 0 <==> p5) && (b & 64 != 0 <==> p6) && (b & 128 != 0 <==> p7)
  {
  }

  lemma ValueOfBits(p0: bool, p1: bool, p2: bool, p3: bool, p4: bool, p5: bool, p6: bool, p7: bool)
    ensures Value(OfBits(p0, p1, p2, p3, p4, p5, p6, p7)) == Sum(p0, p1, p2, p3, p4, p5, p6, p7)
  {
    hide OfBits;
    OfBitsHas(p0, p1, p2, p3, p4, p5, p6, p7);
  }

  lemma Halve(n: nat)
    ensures n == 2 * Half(n) + (if Odd(n) then 1 else 0)
  {
  }

  lemma ByteValue(n: nat)
    requires n < 0x100
    ensures Value(ToByte(n)) == n
  {
    hide OfBits, Value, Half, Odd;
    var n1 := Half(n); var n2 := Half(n1); var n3 := Half(n2); var n4 := Half(n3);
    var n5 := Half(n4); var n6 := Half(n5); var n7 := Half(n6);
    Halve(n); Halve(n1); Halve(n2); Halve(n3); Halve(n4); Halve(n5); Halve(n6); Halve(n7);
    ValueOfBits(Odd(n), Odd(n1), Odd(n2), Odd(n3), Odd(n4), Odd(n5), Odd(n6), Odd(n7));
  }

  lemma WordOfBytes(v: nat)
    requires v < 0x1_0000_0000
    ensures WordOf(ByteOf(v, 0), ByteOf(v, 1), ByteOf(v, 2), ByteOf(v, 3)) == v
  {
    hide Value, ToByte;
    Digits(v);
    ByteValue(v % 0x100);
    ByteValue(v / 0x100 % 0x100);
    ByteValue(v / 0x1_0000 % 0x100);
    ByteValue(v / 0x100_0000);
  }

  lemma Digits(v: nat)
    requires v < 0x1_0000_0000
    ensures v / 0x100_0000 < 0x100
    ensures v % 0x100 + 0x100 * (v / 0x100 % 0x100) + 0x1_0000 * (v / 0x1_0000 % 0x100) + 0x100_0000 * (v / 0x100_0000) == v
  {
    assert v / 0x1_0000 == v / 0x100 / 0x100;
    assert v / 0x100_0000 == v / 0x1_0000 / 0x100;
  }

  /** ((uint*)data)[j] = v */
  function PutWord(b: Block, j: nat, v: nat): (r: Block)
    requires j < NINDIRECT && v < 0x1_0000_0000
  {
    b[4 * j := ByteOf(v, 0)][4 * j + 1 := ByteOf(v, 1)][4 * j + 2 := ByteOf(v, 2)][4 * j + 3 := ByteOf(v, 3)]
  }

  lemma PutWordAt(b: Block, j: nat, v: nat, k: nat)
    requires j < NINDIRECT && v < 0x1_0000_0000 && k < NINDIRECT
    ensures Word(PutWord(b, j, v), k) == if k == j then v else Word(b, k)
  {
    hide ByteOf, WordOf;
    WordOfBytes(v);
  }

  // ---- The words of a block determine it ----

  lemma BitsBack(x: bv8)
    ensures OfBits(x & 1 != 0, x & 2 != 0, x & 4 != 0, x & 8 != 0, x & 16 != 0, x & 32 != 0, x & 64 != 0, x & 128 != 0) == x
  {
  }

  lemma SumBits(p0: bool, p1: bool, p2: bool, p3: bool, p4: bool, p5: bool, p6: bool, p7: bool,
                q0: bool, q1: bool, q2: bool, q3: bool, q4: bool, q5: bool, q6: bool, q7: bool)
    requires Sum(p0, p1, p2, p3, p4, p5, p6, p7) == Sum(q0, q1, q2, q3, q4, q5, q6, q7)
    ensures p0 == q0 && p1 == q1 && p2 == q2 && p3 == q3 && p4 == q4 && p5 == q5 && p6 == q6 && p7 == q7
  {
  }

  lemma ValueInjective(x: bv8, y: bv8)
    requires Value(x) == Value(y)
    ensures x == y
  {
    hide OfBits;
    BitsBack(x);
    BitsBack(y);
    SumBits(x & 1 != 0, x & 2 != 0, x & 4 != 0, x & 8 != 0, x & 16 != 0, x & 32 != 0, x & 64 != 0, x & 128 != 0,
            y & 1 != 0, y & 2 != 0, y & 4 != 0, y & 8 != 0, y & 16 != 0, y & 32 != 0, y & 64 != 0, y & 128 != 0);
  }

  lemma DigitsEqual(a: nat, b: nat, c: nat, d: nat)
    requires a < 0x100 && c < 0x100 && a + 0x100 * b == c + 0x100 * d
    ensures a == c && b == d
  {
  }

  lemma FourDigits(a0: nat, a1: nat, a2: nat, a3: nat, b0: nat, b1: nat, b2: nat, b3: nat)
    requires a0 < 0x100 && a1 < 0x100 && a2 < 0x100 && b0 < 0x100 && b1 < 0x100 && b2 < 0x100
    requires a0 + 0x100 * a1 + 0x1_0000 * a2 + 0x100_0000 * a3 == b0 + 0x100 * b1 + 0x1_0000 * b2 + 0x100_0000 * b3
    ensures a0 == b0 && a1 == b1 && a2 == b2 && a3 == b3
  {
    DigitsEqual(a0, a1 + 0x100 * a2 + 0x1_0000 * a3, b0, b1 + 0x100 * b2 + 0x1_0000 * b3);
    DigitsEqual(a1, a2 + 0x100 * a3, b1, b2 + 0x100 * b3);
    DigitsEqual(a2, a3, b2, b3);
  }

  lemma WordOfInjective(x0: bv8, x1: bv8, x2: bv8, x3: bv8, y0: bv8, y1: bv8, y2: bv8, y3: bv8)
    requires WordOf(x0, x1, x2, x3) == WordOf(y0, y1, y2, y3)
    ensures x0 == y0 && x1 == y1 && x2 == y2 && x3 == y3
  {
    hide Value;
    FourDigits(Value(x0), Value(x1), Value(x2), Value(x3), Value(y0), Value(y1), Value(y2), Value(y3));
    ValueInjective(x0, y0);
    ValueInjective(x1, y1);
    ValueInjective(x2, y2);
    ValueInjective(x3, y3);
  }

  lemma WordsDetermine(a: Block, b: Block)
    requires forall j :: 0 <= j < NINDIRECT ==> Word(a, j) == Word(b, j)
    ensures a == b
  {
    hide WordOf;
    forall p | 0 <= p < BSIZE ensures a[p] == b[p] {
      var j := p / 4;
      assert Word(a, j) == Word(b, j);
      assert p == 4 * j + p % 4;
      WordOfInjective(a[4 * j], a[4 * j + 1], a[4 * j + 2], a[4 * j + 3], b[4 * j], b[4 * j + 1], b[4 * j + 2], b[4 * j + 3]);
    }
  }

  lemma ZeroBlock(j: nat)
    requires j < NINDIRECT
    ensures Word(Zero(), j) == 0
  {
  }

  /** The n words from word `at` on. */
  function Words(b: Block, at: nat, n: nat): (ws: seq<nat>)
    requires at + n <= NINDIRECT
    ensures |ws| == n && forall j :: 0 <= j < n ==> ws[j] == Word(b, at + j)
  {
    seq<nat>(n, j requires 0 <= j < n => Word(b, at + j))
  }

  /** The block with the words ws stored from word `at` on. */
  function PutWords(b: Block, at: nat, ws: seq<nat>): (r: Block)
    requires at + |ws| <= NINDIRECT && forall j :: 0 <= j < |ws| ==> ws[j] < 0x1_0000_0000
    decreases |ws|
  {
    if ws == [] then b else PutWords(PutWord(b, at, ws[0]), at + 1, ws[1..])
  }

  lemma {:induction false} PutWordsAt(b: Block, at: nat, ws: seq<nat>, k: nat)
    requires at + |ws| <= NINDIRECT && k < NINDIRECT && forall j :: 0 <= j < |ws| ==> ws[j] < 0x1_0000_0000
    ensures Word(PutWords(b, at, ws), k) == if at <= k < at + |ws| then ws[k - at] else Word(b, k)
    decreases |ws|
  {
    hide Word, PutWord;
    if ws != [] {
      PutWordsAt(PutWord(b, at, ws[0]), at + 1, ws[1..], k);
      PutWordAt(b, at, ws[0], k);
    }
  }
}
