/** The 16-bit frame check sequence of yahdlc.c: the table-driven update the program runs, the bit-by-bit
    remainder it stands for, and the algebra that makes it detect errors. */
module Fcs {
  type byte = bv8

  const FCS_INIT: bv16 := 0xFFFF
  const FCS_GOOD: bv16 := 0xF0B8

  /** The 256-entry table of yahdlc.c, entry by entry. */
  function FcsTable(i: byte): bv16 {
    var column := i & 0x0f;
    match i >> 4
    case 0 => (
      match column
      case 0 => 0x0000 case 1 => 0x1189 case 2 => 0x2312 case 3 => 0x329b
      case 4 => 0x4624 case 5 => 0x57ad case 6 => 0x6536 case 7 => 0x74bf
      case 8 => 0x8c48 case 9 => 0x9dc1 case 10 => 0xaf5a case 11 => 0xbed3
      case 12 => 0xca6c case 13 => 0xdbe5 case 14 => 0xe97e case _ => 0xf8f7)
    case 1 => (
      match column
      case 0 => 0x1081 case 1 => 0x0108 case 2 => 0x3393 case 3 => 0x221a
      case 4 => 0x56a5 case 5 => 0x472c case 6 => 0x75b7 case 7 => 0x643e
      case 8 => 0x9cc9 case 9 => 0x8d40 case 10 => 0xbfdb case 11 => 0xae52
      case 12 => 0xdaed case 13 => 0xcb64 case 14 => 0xf9ff case _ => 0xe876)
    case 2 => (
      match column
      case 0 => 0x2102 case 1 => 0x308b case 2 => 0x0210 case 3 => 0x1399
      case 4 => 0x6726 case 5 => 0x76af case 6 => 0x4434 case 7 => 0x55bd
      case 8 => 0xad4a case 9 => 0xbcc3 case 10 => 0x8e58 case 11 => 0x9fd1
      case 12 => 0xeb6e case 13 => 0xfae7 case 14 => 0xc87c case _ => 0xd9f5)
    case 3 => (
      match column
      case 0 => 0x3183 case 1 => 0x200a case 2 => 0x1291 case 3 => 0x0318
      case 4 => 0x77a7 case 5 => 0x662e case 6 => 0x54b5 case 7 => 0x453c
      case 8 => 0xbdcb case 9 => 0xac42 case 10 => 0x9ed9 case 11 => 0x8f50
      case 12 => 0xfbef case 13 => 0xea66 case 14 => 0xd8fd case _ => 0xc974)
    case 4 => (
      match column
      case 0 => 0x4204 case 1 => 0x538d case 2 => 0x6116 case 3 => 0x709f
      case 4 => 0x0420 case 5 => 0x15a9 case 6 => 0x2732 case 7 => 0x36bb
      case 8 => 0xce4c case 9 => 0xdfc5 case 10 => 0xed5e case 11 => 0xfcd7
      case 12 => 0x8868 case 13 => 0x99e1 case 14 => 0xab7a case _ => 0xbaf3)
    case 5 => (
      match column
      case 0 => 0x5285 case 1 => 0x430c case 2 => 0x7197 case 3 => 0x601e
      case 4 => 0x14a1 case 5 => 0x0528 case 6 => 0x37b3 case 7 => 0x263a
      case 8 => 0xdecd case 9 => 0xcf44 case 10 => 0xfddf case 11 => 0xec56
      case 12 => 0x98e9 case 13 => 0x8960 case 14 => 0xbbfb case _ => 0xaa72)
    case 6 => (
      match column
      case 0 => 0x6306 case 1 => 0x728f case 2 => 0x4014 case 3 => 0x519d
      case 4 => 0x2522 case 5 => 0x34ab case 6 => 0x0630 case 7 => 0x17b9
      case 8 => 0xef4e case 9 => 0xfec7 case 10 => 0xcc5c case 11 => 0xddd5
      case 12 => 0xa96a case 13 => 0xb8e3 case 14 => 0x8a78 case _ => 0x9bf1)
    case 7 => (
      match column
      case 0 => 0x7387 case 1 => 0x620e case 2 => 0x5095 case 3 => 0x411c
      case 4 => 0x35a3 case 5 => 0x242a case 6 => 0x16b1 case 7 => 0x0738
      case 8 => 0xffcf case 9 => 0xee46 case 10 => 0xdcdd case 11 => 0xcd54
      case 12 => 0xb9eb case 13 => 0xa862 case 14 => 0x9af9 case _ => 0x8b70)
    case 8 => (
      match column
      case 0 => 0x8408 case 1 => 0x9581 case 2 => 0xa71a case 3 => 0xb693
      case 4 => 0xc22c case 5 => 0xd3a5 case 6 => 0xe13e case 7 => 0xf0b7
      case 8 => 0x0840 case 9 => 0x19c9 case 10 => 0x2b52 case 11 => 0x3adb
      case 12 => 0x4e64 case 13 => 0x5fed case 14 => 0x6d76 case _ => 0x7cff)
    case 9 => (
      match column
      case 0 => 0x9489 case 1 => 0x8500 case 2 => 0xb79b case 3 => 0xa612
      case 4 => 0xd2ad case 5 => 0xc324 case 6 => 0xf1bf case 7 => 0xe036
      case 8 => 0x18c1 case 9 => 0x0948 case 10 => 0x3bd3 case 11 => 0x2a5a
      case 12 => 0x5ee5 case 13 => 0x4f6c case 14 => 0x7df7 case _ => 0x6c7e)
    case 10 => (
      match column
      case 0 => 0xa50a case 1 => 0xb483 case 2 => 0x8618 case 3 => 0x9791
      case 4 => 0xe32e case 5 => 0xf2a7 case 6 => 0xc03c case 7 => 0xd1b5
      case 8 => 0x2942 case 9 => 0x38cb case 10 => 0x0a50 case 11 => 0x1bd9
      case 12 => 0x6f66 case 13 => 0x7eef case 14 => 0x4c74 case _ => 0x5dfd)
    case 11 => (
      match column
      case 0 => 0xb58b case 1 => 0xa402 case 2 => 0x9699 case 3 => 0x8710
      case 4 => 0xf3af case 5 => 0xe226 case 6 => 0xd0bd case 7 => 0xc134
      case 8 => 0x39c3 case 9 => 0x284a case 10 => 0x1ad1 case 11 => 0x0b58
      case 12 => 0x7fe7 case 13 => 0x6e6e case 14 => 0x5cf5 case _ => 0x4d7c)
    case 12 => (
      match column
      case 0 => 0xc60c case 1 => 0xd785 case 2 => 0xe51e case 3 => 0xf497
      case 4 => 0x8028 case 5 => 0x91a1 case 6 => 0xa33a case 7 => 0xb2b3
      case 8 => 0x4a44 case 9 => 0x5bcd case 10 => 0x6956 case 11 => 0x78df
      case 12 => 0x0c60 case 13 => 0x1de9 case 14 => 0x2f72 case _ => 0x3efb)
    case 13 => (
      match column
      case 0 => 0xd68d case 1 => 0xc704 case 2 => 0xf59f case 3 => 0xe416
      case 4 => 0x90a9 case 5 => 0x8120 case 6 => 0xb3bb case 7 => 0xa232
      case 8 => 0x5ac5 case 9 => 0x4b4c case 10 => 0x79d7 case 11 => 0x685e
      case 12 => 0x1ce1 case 13 => 0x0d68 case 14 => 0x3ff3 case _ => 0x2e7a)
    case 14 => (
      match column
      case 0 => 0xe70e case 1 => 0xf687 case 2 => 0xc41c case 3 => 0xd595
      case 4 => 0xa12a case 5 => 0xb0a3 case 6 => 0x8238 case 7 => 0x93b1
      case 8 => 0x6b46 case 9 => 0x7acf case 10 => 0x4854 case 11 => 0x59dd
      case 12 => 0x2d62 case 13 => 0x3ceb case 14 => 0x0e70 case _ => 0x1ff9)
    case _ => (
      match column
      case 0 => 0xf78f case 1 => 0xe606 case 2 => 0xd49d case 3 => 0xc514
      case 4 => 0xb1ab case 5 => 0xa022 case 6 => 0x92b9 case 7 => 0x8330
      case 8 => 0x7bc7 case 9 => 0x6a4e case 10 => 0x58d5 case 11 => 0x495c
      case 12 => 0x3de3 case 13 => 0x2c6a case 14 => 0x1ef1 case _ => 0x0f78)
  }

  function Lo(fcs: bv16): byte { (fcs & 0xff) as byte }

  function Hi(fcs: bv16): byte { (fcs >> 8) as byte }

  function Fcs16(fcs: bv16, value: byte): bv16 {
    (fcs >> 8) ^ FcsTable(Lo(fcs ^ value as bv16))
  }

  /** The running FCS after every byte of `data`. */
  function FcsOf(fcs: bv16, data: seq<byte>): bv16 {
    if data == [] then fcs else Fcs16(FcsOf(fcs, data[..|data| - 1]), data[|data| - 1])
  }

  // ---- The bit-by-bit definition: division by the reflected polynomial 0x8408 ----

  /** XOR, named so that proofs by linearity need not look inside it. */
  function Xor(x: bv16, y: bv16): bv16 { x ^ y }

  function Shifted(crc: bv16): bv16 { crc >> 1 }

  function Feedback(crc: bv16): bv16 { if crc & 1 == 1 then 0x8408 else 0 }

  function BitStep(crc: bv16): bv16 { Xor(Shifted(crc), Feedback(crc)) }

  function BitSteps(crc: bv16, n: nat): bv16 {
    if n == 0 then crc else BitStep(BitSteps(crc, n - 1))
  }

  function ByteStep(crc: bv16): bv16 { BitSteps(crc, 8) }

  /** One byte enters by XOR into the low half of the register. */
  function Enter(fcs: bv16, value: byte): bv16 { fcs ^ value as bv16 }

  /** After every byte the register is shifted eight times. */
  function PolyOf(fcs: bv16, data: seq<byte>): bv16 {
    if data == [] then fcs else ByteStep(Enter(PolyOf(fcs, data[..|data| - 1]), data[|data| - 1]))
  }

  // Small facts about words.

  lemma XorAssociates(a: bv16, b: bv16, c: bv16)
    ensures Xor(Xor(a, b), c) == Xor(a, Xor(b, c))
  {
  }

  lemma XorCommutes(a: bv16, b: bv16)
    ensures Xor(a, b) == Xor(b, a)
  {
  }

  lemma XorUnits(a: bv16)
    ensures Xor(a, a) == 0 && Xor(a, 0) == a
  {
  }

  lemma XorLaws(a: bv16, b: bv16, c: bv16)
    ensures Xor(Xor(a, b), c) == Xor(a, Xor(b, c))
    ensures Xor(a, b) == Xor(b, a)
    ensures Xor(a, a) == 0 && Xor(a, 0) == a
  {
    hide Xor;
    XorAssociates(a, b, c);
    XorCommutes(a, b);
    XorUnits(a);
  }

  lemma XorShuffle(a: bv16, b: bv16, c: bv16, d: bv16)
    ensures Xor(Xor(a, b), Xor(c, d)) == Xor(Xor(a, c), Xor(b, d))
  {
    hide Xor;
    XorLaws(a, b, Xor(c, d));
    XorLaws(b, c, d);
    XorLaws(c, b, d);
    XorLaws(a, c, Xor(b, d));
  }

  lemma XorCancels(a: bv16, b: bv16)
    ensures Xor(Xor(a, b), b) == a
  {
    hide Xor;
    XorLaws(a, b, b);
    XorLaws(b, b, b);
  }

  lemma XorZero(x: bv16, y: bv16)
    ensures Xor(x, y) == 0 <==> x == y
  {
    hide Xor;
    XorCancels(x, y);
    XorLaws(y, 0, 0);
    XorLaws(0, y, 0);
  }

  lemma XorHigh(x: bv16, y: bv16)
    requires x >> 8 == y >> 8
    ensures Xor(x, y) >> 8 == 0
  {
  }

  lemma XorBytes(a: byte, b: byte)
    requires a ^ b == 0
    ensures a == b
  {
  }

  lemma Halves(x: bv16)
    ensures Xor(x & 0xff00, x & 0xff) == x
  {
  }

  lemma EnterHigh(fcs: bv16, value: byte)
    ensures Enter(fcs, value) >> 8 == fcs >> 8
  {
  }

  lemma EnterDiffers(fcs: bv16, a: byte, b: byte)
    ensures Xor(Enter(fcs, a), Enter(fcs, b)) == (a ^ b) as bv16
  {
  }

  lemma EnterIsXor(fcs: bv16, value: byte)
    ensures Enter(fcs, value) == Xor(value as bv16, fcs)
  {
  }

  lemma WidenInjective(a: byte, b: byte)
    ensures a as bv16 == b as bv16 <==> a == b
  {
  }

  lemma EnterInjective(fcs: bv16, fcs': bv16, a: byte, b: byte)
    requires Enter(fcs, a) == Enter(fcs', b)
    ensures fcs == fcs' <==> a == b
  {
    hide Xor, Enter;
    EnterIsXor(fcs, a);
    EnterIsXor(fcs', b);
    XorCancels(a as bv16, fcs);
    XorCancels(b as bv16, fcs');
    XorLaws(a as bv16, fcs, 0);
    XorLaws(b as bv16, fcs', 0);
    XorCancels(fcs, a as bv16);
    XorCancels(fcs', b as bv16);
    WidenInjective(a, b);
  }

  // ---- Linearity ----

  lemma ShiftedLinear(x: bv16, y: bv16)
    ensures Shifted(Xor(x, y)) == Xor(Shifted(x), Shifted(y))
  {
  }

  lemma FeedbackLinear(x: bv16, y: bv16)
    ensures Feedback(Xor(x, y)) == Xor(Feedback(x), Feedback(y))
  {
  }

  lemma BitStepLinear(x: bv16, y: bv16)
    ensures BitStep(Xor(x, y)) == Xor(BitStep(x), BitStep(y))
  {
    hide Xor, Shifted, Feedback;
    ShiftedLinear(x, y);
    FeedbackLinear(x, y);
    XorShuffle(Shifted(x), Shifted(y), Feedback(x), Feedback(y));
  }

  lemma {:induction false} BitStepsLinear(x: bv16, y: bv16, n: nat)
    ensures BitSteps(Xor(x, y), n) == Xor(BitSteps(x, n), BitSteps(y, n))
  {
    hide Xor, BitStep;
    if n > 0 {
      BitStepsLinear(x, y, n - 1);
      BitStepLinear(BitSteps(x, n - 1), BitSteps(y, n - 1));
    }
  }

  function Unrolled(x: bv16): bv16 {
    BitStep(BitStep(BitStep(BitStep(BitStep(BitStep(BitStep(BitStep(x))))))))
  }

  lemma EightSteps(x: bv16)
    ensures ByteStep(x) == Unrolled(x)
  {
    hide BitStep;
    assert BitSteps(x, 1) == BitStep(x);
    assert BitSteps(x, 2) == BitStep(BitSteps(x, 1));
    assert BitSteps(x, 3) == BitStep(BitSteps(x, 2));
    assert BitSteps(x, 4) == BitStep(BitSteps(x, 3));
    assert BitSteps(x, 5) == BitStep(BitSteps(x, 4));
    assert BitSteps(x, 6) == BitStep(BitSteps(x, 5));
    assert BitSteps(x, 7) == BitStep(BitSteps(x, 6));
  }

  lemma UnrolledLinear(x: bv16, y: bv16, sum: bv16)
    requires Xor(x, y) == sum
    ensures Unrolled(sum) == Xor(Unrolled(x), Unrolled(y))
  {
    hide Xor, BitSteps, Unrolled;
    BitStepsLinear(x, y, 8);
    EightSteps(x);
    EightSteps(y);
    EightSteps(sum);
  }

  function Part(v: byte, mask: byte): bv16 { (v & mask) as bv16 }

  /** What one bit contributes to the remainder of a byte. */
  function Term(v: byte, mask: byte, value: bv16): bv16 { if v & mask == 0 then 0 else value }

  function LowSum(v: byte): bv16 {
    Xor(Xor(Term(v, 0x01, 0x1189), Term(v, 0x02, 0x2312)), Xor(Term(v, 0x04, 0x4624), Term(v, 0x08, 0x8c48)))
  }

  function HighSum(v: byte): bv16 {
    Xor(Xor(Term(v, 0x10, 0x1081), Term(v, 0x20, 0x2102)), Xor(Term(v, 0x40, 0x4204), Term(v, 0x80, 0x8408)))
  }

  lemma UnrolledBits()
    ensures Unrolled(0x01) == 0x1189 && Unrolled(0x02) == 0x2312
    ensures Unrolled(0x04) == 0x4624 && Unrolled(0x08) == 0x8c48
    ensures Unrolled(0x10) == 0x1081 && Unrolled(0x20) == 0x2102
    ensures Unrolled(0x40) == 0x4204 && Unrolled(0x80) == 0x8408
    ensures Unrolled(0) == 0
  {
  }

  lemma UnrolledTerm(v: byte, mask: byte)
    requires v & mask == 0 || v & mask == mask
    ensures Unrolled(Part(v, mask)) == Term(v, mask, Unrolled(mask as bv16))
  {
    hide Unrolled;
    UnrolledBits();
  }

  lemma BitPairs(v: byte)
    ensures Xor(Part(v, 0x01), Part(v, 0x02)) == Part(v, 0x03)
    ensures Xor(Part(v, 0x04), Part(v, 0x08)) == Part(v, 0x0c)
    ensures Xor(Part(v, 0x10), Part(v, 0x20)) == Part(v, 0x30)
    ensures Xor(Part(v, 0x40), Part(v, 0x80)) == Part(v, 0xc0)
  {
  }

  lemma BitNibbles(v: byte)
    ensures Xor(Part(v, 0x03), Part(v, 0x0c)) == Part(v, 0x0f)
    ensures Xor(Part(v, 0x30), Part(v, 0xc0)) == Part(v, 0xf0)
    ensures Xor(Part(v, 0x0f), Part(v, 0xf0)) == v as bv16
  {
  }

  lemma LowTerms(v: byte)
    ensures Unrolled(Part(v, 0x01)) == Term(v, 0x01, 0x1189) && Unrolled(Part(v, 0x02)) == Term(v, 0x02, 0x2312)
    ensures Unrolled(Part(v, 0x04)) == Term(v, 0x04, 0x4624) && Unrolled(Part(v, 0x08)) == Term(v, 0x08, 0x8c48)
  {
    hide Unrolled, Term, Part;
    UnrolledBits();
    UnrolledTerm(v, 0x01);
    UnrolledTerm(v, 0x02);
    UnrolledTerm(v, 0x04);
    UnrolledTerm(v, 0x08);
  }

  lemma HighTerms(v: byte)
    ensures Unrolled(Part(v, 0x10)) == Term(v, 0x10, 0x1081) && Unrolled(Part(v, 0x20)) == Term(v, 0x20, 0x2102)
    ensures Unrolled(Part(v, 0x40)) == Term(v, 0x40, 0x4204) && Unrolled(Part(v, 0x80)) == Term(v, 0x80, 0x8408)
  {
    hide Unrolled, Term, Part;
    UnrolledBits();
    UnrolledTerm(v, 0x10);
    UnrolledTerm(v, 0x20);
    UnrolledTerm(v, 0x40);
    UnrolledTerm(v, 0x80);
  }

  lemma LowNibble(v: byte)
    ensures Unrolled(Part(v, 0x0f)) == LowSum(v)
  {
    hide Unrolled, Term, Xor, Part;
    LowTerms(v);
    BitPairs(v);
    BitNibbles(v);
    UnrolledLinear(Part(v, 0x01), Part(v, 0x02), Part(v, 0x03));
    UnrolledLinear(Part(v, 0x04), Part(v, 0x08), Part(v, 0x0c));
    UnrolledLinear(Part(v, 0x03), Part(v, 0x0c), Part(v, 0x0f));
  }

  lemma HighNibble(v: byte)
    ensures Unrolled(Part(v, 0xf0)) == HighSum(v)
  {
    hide Unrolled, Term, Xor, Part;
    HighTerms(v);
    BitPairs(v);
    BitNibbles(v);
    UnrolledLinear(Part(v, 0x10), Part(v, 0x20), Part(v, 0x30));
    UnrolledLinear(Part(v, 0x40), Part(v, 0x80), Part(v, 0xc0));
    UnrolledLinear(Part(v, 0x30), Part(v, 0xc0), Part(v, 0xf0));
  }

  lemma UnrolledIsSum(v: byte)
    ensures Unrolled(v as bv16) == Xor(LowSum(v), HighSum(v))
  {
    hide Unrolled, LowSum, HighSum, Xor, Part;
    BitNibbles(v);
    LowNibble(v);
    HighNibble(v);
    UnrolledLinear(Part(v, 0x0f), Part(v, 0xf0), v as bv16);
  }

  lemma TableLowRows(value: byte)
    requires value < 0x80
    ensures FcsTable(value) == Xor(LowSum(value), HighSum(value))
  {
  }

  lemma TableMiddleRows(value: byte)
    requires 0x80 <= value < 0xc0
    ensures FcsTable(value) == Xor(LowSum(value), HighSum(value))
  {
  }

  lemma TableHighRows(value: byte)
    requires value >= 0xc0
    ensures FcsTable(value) == Xor(LowSum(value), HighSum(value))
  {
  }

  lemma TableIsUnrolled(x: bv16)
    ensures FcsTable(Lo(x)) == Unrolled(x & 0xff)
  {
    hide FcsTable, Unrolled, LowSum, HighSum, Xor;
    UnrolledIsSum(Lo(x));
    if Lo(x) < 0x80 {
      TableLowRows(Lo(x));
    } else if Lo(x) < 0xc0 {
      TableMiddleRows(Lo(x));
    } else {
      TableHighRows(Lo(x));
    }
  }

  lemma HighHalfShifts(x: bv16)
    ensures Unrolled(x & 0xff00) == x >> 8
  {
  }

  lemma HighHalfOnly(value: byte)
    requires Unrolled(value as bv16) >> 8 == 0
    ensures value == 0
  {
  }

  /** The high half of the register only moves down, and the low half is looked up. */
  lemma ByteStepSplits(x: bv16)
    ensures ByteStep(x) == Xor(x >> 8, FcsTable(Lo(x)))
  {
    hide Xor, BitSteps, Unrolled, FcsTable, Lo;
    Halves(x);
    BitStepsLinear(x & 0xff00, x & 0xff, 8);
    EightSteps(x & 0xff00);
    EightSteps(x & 0xff);
    HighHalfShifts(x);
    TableIsUnrolled(x);
  }

  lemma Fcs16IsByteStep(fcs: bv16, value: byte)
    ensures Fcs16(fcs, value) == ByteStep(Enter(fcs, value))
  {
    hide ByteStep, FcsTable, Lo;
    ByteStepSplits(Enter(fcs, value));
    EnterHigh(fcs, value);
  }

  /** The table-driven FCS is the polynomial remainder, for every starting value and every byte sequence. */
  lemma {:induction false} TableDrivenIsPolynomial(fcs: bv16, data: seq<byte>)
    ensures FcsOf(fcs, data) == PolyOf(fcs, data)
  {
    hide Fcs16, ByteStep, Enter;
    if data != [] {
      TableDrivenIsPolynomial(fcs, data[..|data| - 1]);
      Fcs16IsByteStep(FcsOf(fcs, data[..|data| - 1]), data[|data| - 1]);
    }
  }

  // ---- Injectivity ----

  lemma BitStepInjective(x: bv16, y: bv16)
    requires BitStep(x) == BitStep(y)
    ensures x == y
  {
    hide Xor, BitStep;
    BitStepLinear(x, y);
    XorZero(BitStep(x), BitStep(y));
    BitStepZero(Xor(x, y));
    XorZero(x, y);
  }

  lemma BitStepZero(x: bv16)
    requires BitStep(x) == 0
    ensures x == 0
  {
  }

  lemma {:induction false} BitStepsInjective(x: bv16, y: bv16, n: nat)
    requires BitSteps(x, n) == BitSteps(y, n)
    ensures x == y
  {
    hide BitStep;
    if n > 0 {
      BitStepInjective(BitSteps(x, n - 1), BitSteps(y, n - 1));
      BitStepsInjective(x, y, n - 1);
    }
  }

  lemma ByteStepInjective(x: bv16, y: bv16)
    requires ByteStep(x) == ByteStep(y)
    ensures x == y
  {
    hide BitSteps;
    BitStepsInjective(x, y, 8);
  }

  /** A byte can be read back off the high half of the register that results. */
  lemma HighHalfInjective(s: bv16, a: byte, a': byte)
    requires ByteStep(Enter(s, a)) >> 8 == ByteStep(Enter(s, a')) >> 8
    ensures a == a'
  {
    hide Xor, BitSteps, Unrolled, Enter;
    var d := a ^ a';
    XorHigh(ByteStep(Enter(s, a)), ByteStep(Enter(s, a')));
    BitStepsLinear(Enter(s, a), Enter(s, a'), 8);
    EnterDiffers(s, a, a');
    EightSteps(d as bv16);
    HighHalfOnly(d);
    XorBytes(a, a');
  }

  /** Two bytes fed one after the other can be read back off the register. */
  lemma TwoBytesInjective(s: bv16, a: byte, b: byte, a': byte, b': byte)
    requires Fcs16(Fcs16(s, a), b) == Fcs16(Fcs16(s, a'), b')
    ensures a == a' && b == b'
  {
    hide Fcs16, ByteStep, Enter;
    var t, t' := Fcs16(s, a), Fcs16(s, a');
    Fcs16IsByteStep(s, a);
    Fcs16IsByteStep(s, a');
    Fcs16IsByteStep(t, b);
    Fcs16IsByteStep(t', b');
    ByteStepInjective(Enter(t, b), Enter(t', b'));
    EnterHigh(t, b);
    EnterHigh(t', b');
    HighHalfInjective(s, a, a');
    EnterInjective(t, t', b, b');
  }

  lemma Fcs16Injective(s: bv16, s': bv16, value: byte)
    requires Fcs16(s, value) == Fcs16(s', value)
    ensures s == s'
  {
    hide Fcs16, ByteStep, Enter;
    Fcs16IsByteStep(s, value);
    Fcs16IsByteStep(s', value);
    ByteStepInjective(Enter(s, value), Enter(s', value));
    EnterInjective(s, s', value, value);
  }

  lemma OneByteInjective(s: bv16, a: byte, a': byte)
    requires Fcs16(s, a) == Fcs16(s, a')
    ensures a == a'
  {
    hide Fcs16;
    TwoBytesInjective(s, a, 0, a', 0);
  }

  // ---- Acceptance ----

  /** The two bytes a sender appends: the complemented FCS, low byte first. */
  function Trailer(fcs: bv16): seq<byte> {
    [Lo(fcs ^ 0xFFFF), Hi(fcs ^ 0xFFFF)]
  }

  lemma TrailerIsGood(s: bv16)
    ensures Fcs16(Fcs16(s, Lo(s ^ 0xFFFF)), Hi(s ^ 0xFFFF)) == FCS_GOOD
  {
    hide Fcs16, ByteStep, Unrolled, Enter, Xor, FcsTable;
    var low, high := Lo(s ^ 0xFFFF), Hi(s ^ 0xFFFF);
    var t := Fcs16(s, low);
    LowTrailer(s);
    Fcs16IsByteStep(s, low);
    ByteStepSplits(Enter(s, low));
    HighTrailer(s, t);
    Fcs16IsByteStep(t, high);
    EightSteps(Enter(t, high));
    GoodValue();
  }

  /** What the low trailer byte turns the register into: ones in its low half. */
  lemma LowTrailer(s: bv16)
    ensures Enter(s, Lo(s ^ 0xFFFF)) >> 8 == s >> 8 && Lo(Enter(s, Lo(s ^ 0xFFFF))) == 0xFF
  {
  }

  lemma HighByte(s: bv16)
    ensures Hi(s ^ 0xFFFF) as bv16 == Xor(s >> 8, 0xFF)
  {
  }

  lemma HighTrailer(s: bv16, t: bv16)
    requires t == Xor(s >> 8, FcsTable(0xFF))
    ensures Enter(t, Hi(s ^ 0xFFFF)) == Xor(FcsTable(0xFF), 0xFF)
  {
    hide FcsTable, Xor, Enter, Hi;
    var h, f := s >> 8, FcsTable(0xFF);
    HighByte(s);
    EnterIsXor(t, Hi(s ^ 0xFFFF));
    XorShuffle(h, 0xFF, h, f);
    XorLaws(h, 0, 0);
    XorLaws(0xFF, f, 0);
    XorLaws(0, Xor(f, 0xFF), 0);
    XorLaws(Xor(f, 0xFF), 0, 0);
  }

  lemma GoodValue()
    ensures Unrolled(Xor(FcsTable(0xFF), 0xFF)) == FCS_GOOD
  {
  }

  lemma {:induction false} FcsAppend(s: bv16, p: seq<byte>, q: seq<byte>)
    ensures FcsOf(s, p + q) == FcsOf(FcsOf(s, p), q)
  {
    hide Fcs16;
    if q == [] {
      assert p + q == p;
    } else {
      assert (p + q)[..|p + q| - 1] == p + q[..|q| - 1];
      FcsAppend(s, p, q[..|q| - 1]);
    }
  }

  lemma FcsAppendOne(s: bv16, p: seq<byte>, a: byte)
    ensures FcsOf(s, p + [a]) == Fcs16(FcsOf(s, p), a)
  {
    hide Fcs16;
    assert (p + [a])[..|p|] == p;
  }

  lemma FcsAppendTwo(s: bv16, p: seq<byte>, a: byte, b: byte)
    ensures FcsOf(s, p + [a, b]) == Fcs16(Fcs16(FcsOf(s, p), a), b)
  {
    hide Fcs16, FcsOf;
    FcsAppendOne(s, p, a);
    FcsAppendOne(s, p + [a], b);
    assert p + [a, b] == p + [a] + [b];
  }

  /** Exact acceptance: two further bytes bring the FCS to the good value exactly when they are the trailer. */
  lemma AcceptanceExact(s: bv16, p: seq<byte>, a: byte, b: byte)
    ensures FcsOf(s, p + [a, b]) == FCS_GOOD <==> [a, b] == Trailer(FcsOf(s, p))
  {
    hide Fcs16, FcsOf;
    var f := FcsOf(s, p);
    FcsAppendTwo(s, p, a, b);
    TrailerIsGood(f);
    if Fcs16(Fcs16(f, a), b) == FCS_GOOD {
      TwoBytesInjective(f, a, b, Lo(f ^ 0xFFFF), Hi(f ^ 0xFFFF));
    }
  }

  // ---- Error detection ----

  lemma {:induction false} FcsInjective(s: bv16, s': bv16, data: seq<byte>)
    requires FcsOf(s, data) == FcsOf(s', data)
    ensures s == s'
  {
    hide Fcs16;
    if data != [] {
      var rest := data[..|data| - 1];
      Fcs16Injective(FcsOf(s, rest), FcsOf(s', rest), data[|data| - 1]);
      FcsInjective(s, s', rest);
    }
  }

  lemma ShortInjective(f: bv16, x: seq<byte>, y: seq<byte>)
    requires 1 <= |x| == |y| <= 2
    requires FcsOf(f, x) == FcsOf(f, y)
    ensures x == y
  {
    hide Fcs16;
    if |x| == 1 {
      assert FcsOf(f, x) == Fcs16(FcsOf(f, x[..0]), x[0]) && FcsOf(f, y) == Fcs16(FcsOf(f, y[..0]), y[0]);
      OneByteInjective(f, x[0], y[0]);
    } else {
      assert x == [] + [x[0], x[1]] && y == [] + [y[0], y[1]];
      FcsAppendTwo(f, [], x[0], x[1]);
      FcsAppendTwo(f, [], y[0], y[1]);
      TwoBytesInjective(f, x[0], x[1], y[0], y[1]);
    }
  }

  /** A change confined to one byte or to two adjacent bytes changes the FCS, however long the data. */
  lemma BurstDetected(s: bv16, p: seq<byte>, x: seq<byte>, y: seq<byte>, q: seq<byte>)
    requires 1 <= |x| == |y| <= 2
    requires x != y
    ensures FcsOf(s, p + x + q) != FcsOf(s, p + y + q)
  {
    hide FcsOf;
    FcsAppend(s, p + x, q);
    FcsAppend(s, p + y, q);
    if FcsOf(s, p + x + q) == FcsOf(s, p + y + q) {
      FcsInjective(FcsOf(s, p + x), FcsOf(s, p + y), q);
      FcsAppend(s, p, x);
      FcsAppend(s, p, y);
      ShortInjective(FcsOf(s, p), x, y);
    }
  }

  // ---- The initial value ----

  lemma InitialOnes(a: byte)
    ensures Enter(FCS_INIT, a) == Xor(0xFF00, Enter(0, a ^ 0xFF))
  {
  }

  lemma OnesShift()
    ensures ByteStep(0xFF00) == 0xFF
  {
    EightSteps(0xFF00);
    HighHalfShifts(0xFF00);
  }

  lemma EnterOnes(t: bv16, b: byte)
    ensures Enter(Xor(0xFF, t), b) == Enter(t, b ^ 0xFF)
  {
  }

  lemma InitialTwo(a: byte, b: byte)
    ensures Fcs16(Fcs16(FCS_INIT, a), b) == Fcs16(Fcs16(0, a ^ 0xFF), b ^ 0xFF)
  {
    InitialOnes(a);
    hide Fcs16, BitSteps, Enter, Xor;
    var t := Fcs16(0, a ^ 0xFF);
    Fcs16IsByteStep(FCS_INIT, a);
    Fcs16IsByteStep(0, a ^ 0xFF);
    BitStepsLinear(0xFF00, Enter(0, a ^ 0xFF), 8);
    OnesShift();
    Fcs16IsByteStep(Xor(0xFF, t), b);
    Fcs16IsByteStep(t, b ^ 0xFF);
    EnterOnes(t, b);
  }

  /** What the initial value means: the remainder is that of the data with its first sixteen bits complemented. */
  lemma InitialValueComplements(a: byte, b: byte, q: seq<byte>)
    ensures FcsOf(FCS_INIT, [a, b] + q) == FcsOf(0, [a ^ 0xFF, b ^ 0xFF] + q)
  {
    hide Fcs16, FcsOf;
    FcsAppend(FCS_INIT, [a, b], q);
    FcsAppend(0, [a ^ 0xFF, b ^ 0xFF], q);
    FcsNone(FCS_INIT);
    FcsNone(0);
    assert [] + [a, b] == [a, b] && [] + [a ^ 0xFF, b ^ 0xFF] == [a ^ 0xFF, b ^ 0xFF];
    FcsAppendTwo(FCS_INIT, [], a, b);
    FcsAppendTwo(0, [], a ^ 0xFF, b ^ 0xFF);
    InitialTwo(a, b);
  }

  lemma FcsNone(s: bv16)
    ensures FcsOf(s, []) == s
  {
  }
}
