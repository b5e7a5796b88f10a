// CRC-32C as the journal uses it: a bitwise definition, the table that speeds
// it up, and the facts recovery relies on.
//
// Exclusive-or has a name of its own, so that a proof can hide the bits and
// work with the few laws it needs.
module Crc32c {
  import opened Octets

  function Xor(x: bv32, y: bv32): bv32 { x ^ y }

  function Not(x: bv32): bv32 { !x }

  function LowByte(x: bv32): bv32 { x & 0xFF }

  function HighBytes(x: bv32): bv32 { x & 0xFFFF_FF00 }

  function Down8(x: bv32): bv32 { x >> 8 }

  function Up8(x: bv32): bv32 { x << 8 }

  function Half(crc: bv32): bv32 { crc >> 1 }

  function Poly(crc: bv32): bv32 { 0x82F63B78 & (0 - (crc & 1)) }

  // One bit of the division by the reflected Castagnoli polynomial.
  function BitStep(crc: bv32): bv32 {
    Xor(Half(crc), Poly(crc))
  }

  function BitSteps(crc: bv32, n: nat): bv32
    decreases n, crc
  {
    if n == 0 then crc else BitSteps(BitStep(crc), n - 1)
  }

  function Wide(b: Byte): bv32 { b as bv32 }

  // The reference definition: one byte enters the low end, then eight bit steps.
  function ByteStep(crc: bv32, b: Byte): bv32 {
    BitSteps(Xor(crc, Wide(b)), 8)
  }

  function Run(crc: bv32, bytes: seq<Byte>): bv32
    decreases |bytes|
  {
    if bytes == [] then crc else Run(ByteStep(crc, bytes[0]), bytes[1..])
  }

  function Extend(seed: bv32, bytes: seq<Byte>): bv32 {
    Not(Run(Not(seed), bytes))
  }

  // ---- laws of exclusive-or -----------------------------------------------

  lemma XorCommutes(x: bv32, y: bv32)
    ensures Xor(x, y) == Xor(y, x)
  {
  }

  lemma XorAssociates(x: bv32, y: bv32, z: bv32)
    ensures Xor(Xor(x, y), z) == Xor(x, Xor(y, z))
  {
  }

  lemma XorUndo(x: bv32, y: bv32)
    ensures Xor(Xor(x, y), y) == x
    ensures Xor(x, 0) == x
  {
  }

  lemma XorCancel(x: bv32, y: bv32, z: bv32)
    ensures Xor(x, z) == Xor(y, z) ==> x == y
  {
    hide Xor;
    XorUndo(x, z);
    XorUndo(y, z);
  }

  // ---- algebra of the bit step -------------------------------------------

  lemma HalfLinear(x: bv32, y: bv32)
    ensures Half(Xor(x, y)) == Xor(Half(x), Half(y))
  {
  }

  lemma PolyLinear(x: bv32, y: bv32)
    ensures Poly(Xor(x, y)) == Xor(Poly(x), Poly(y))
  {
  }

  // The polynomial has its top bit set, so the bit shifted out stays visible.
  lemma BitStepInjective(x: bv32, y: bv32)
    ensures BitStep(x) == BitStep(y) ==> x == y
  {
  }

  lemma {:induction false} BitStepsLinear(x: bv32, y: bv32, n: nat)
    ensures BitSteps(Xor(x, y), n) == Xor(BitSteps(x, n), BitSteps(y, n))
    decreases n
  {
    hide Xor, Half, Poly;
    if n > 0 {
      var a, b, c, d := Half(x), Half(y), Poly(x), Poly(y);
      HalfLinear(x, y);
      PolyLinear(x, y);
      XorAssociates(a, b, Xor(c, d));
      XorAssociates(b, c, d);
      XorCommutes(b, c);
      XorAssociates(c, b, d);
      XorAssociates(a, c, Xor(b, d));
      BitStepsLinear(BitStep(x), BitStep(y), n - 1);
    }
  }

  lemma {:induction false} BitStepsInjective(x: bv32, y: bv32, n: nat)
    ensures BitSteps(x, n) == BitSteps(y, n) ==> x == y
    decreases n
  {
    hide BitStep;
    if n > 0 {
      BitStepInjective(x, y);
      BitStepsInjective(BitStep(x), BitStep(y), n - 1);
    }
  }

  lemma {:induction false} BitStepsAdd(x: bv32, n: nat, m: nat)
    ensures BitSteps(BitSteps(x, n), m) == BitSteps(x, n + m)
    decreases n
  {
    hide BitStep;
    if n > 0 {
      BitStepsAdd(BitStep(x), n - 1, m);
    }
  }

  // A word whose low bit is clear is only shifted.
  lemma ClearBitShifts(x: bv32)
    ensures x & 1 == 0 ==> BitStep(x) == Half(x)
  {
  }

  // A word whose low byte is clear is only shifted by eight bit steps.
  lemma HighBitsShift(x: bv32)
    requires LowByte(x) == 0
    ensures BitSteps(x, 8) == Down8(x)
  {
    var x1 := Half(x);
    var x2 := Half(x1);
    var x3 := Half(x2);
    var x4 := Half(x3);
    var x5 := Half(x4);
    var x6 := Half(x5);
    var x7 := Half(x6);
    EightHalves(x);
    ClearBitShifts(x);
    ClearBitShifts(x1);
    ClearBitShifts(x2);
    ClearBitShifts(x3);
    ClearBitShifts(x4);
    ClearBitShifts(x5);
    ClearBitShifts(x6);
    ClearBitShifts(x7);
    hide BitStep, Half, Down8, LowByte;
    assert BitSteps(x, 8) == BitSteps(x1, 7) == BitSteps(x2, 6) == BitSteps(x3, 5) == BitSteps(x4, 4);
    assert BitSteps(x4, 4) == BitSteps(x5, 3) == BitSteps(x6, 2) == BitSteps(x7, 1) == BitSteps(Half(x7), 0);
  }

  lemma EightHalves(x: bv32)
    ensures Half(Half(Half(Half(Half(Half(Half(Half(x)))))))) == Down8(x)
    ensures LowByte(x) == 0 ==>
              && x & 1 == 0 && Half(x) & 1 == 0 && Half(Half(x)) & 1 == 0 && Half(Half(Half(x))) & 1 == 0
              && Half(Half(Half(Half(x)))) & 1 == 0 && Half(Half(Half(Half(Half(x))))) & 1 == 0
              && Half(Half(Half(Half(Half(Half(x)))))) & 1 == 0
              && Half(Half(Half(Half(Half(Half(Half(x))))))) & 1 == 0
  {
  }

  // ---- the table ----------------------------------------------------------

  ghost predicate IsCrcTable(table: seq<bv32>) {
    |table| == 256 && forall i :: 0 <= i < 256 ==> table[i] == BitSteps(i as bv32, 8)
  }

  method MakeCrcTable() returns (table: seq<bv32>)
    ensures IsCrcTable(table)
  {
    hide BitSteps, BitStep;
    var cells := new bv32[256];
    for i := 0 to 256
      invariant forall k :: 0 <= k < i ==> cells[k] == BitSteps(k as bv32, 8)
    {
      var crc := i as bv32;
      StepsZero(crc);
      for bit := 0 to 8
        invariant crc == BitSteps(i as bv32, bit)
        invariant forall k :: 0 <= k < i ==> cells[k] == BitSteps(k as bv32, 8)
      {
        BitStepsAdd(i as bv32, bit, 1);
        crc := ShiftOnce(crc);
      }
      cells[i] := crc;
    }
    table := cells[..];
  }

  // One bit as the table loop writes it.
  function ShiftOnce(crc: bv32): (r: bv32)
    ensures r == BitSteps(crc, 1)
  {
    assert BitSteps(crc, 1) == BitSteps(BitStep(crc), 0);
    (crc >> 1) ^ (0x82F63B78 & (0 - (crc & 1)))
  }

  function TableIndex(crc: bv32, b: Byte): (i: int)
    ensures 0 <= i < 256
  {
    ((crc ^ (b as bv32)) & 0xFF) as int
  }

  lemma TableIndexIsLowByte(crc: bv32, b: Byte)
    ensures TableIndex(crc, b) as bv32 == LowByte(Xor(crc, Wide(b)))
  {
    var low := (crc ^ (b as bv32)) & 0xFF;
    assert (low as int) as bv32 == low;
  }

  lemma SplitWord(x: bv32)
    ensures Xor(LowByte(x), HighBytes(x)) == x
    ensures LowByte(HighBytes(x)) == 0
    ensures Down8(HighBytes(x)) == Down8(x)
  {
  }

  lemma ByteLeavesHighBytes(crc: bv32, b: Byte)
    ensures Down8(Xor(crc, Wide(b))) == Down8(crc)
  {
  }

  // The table form and the bitwise form of one byte agree.
  lemma TableStep(table: seq<bv32>, crc: bv32, b: Byte)
    requires IsCrcTable(table)
    ensures Xor(table[TableIndex(crc, b)], Down8(crc)) == ByteStep(crc, b)
  {
    hide Xor, BitSteps, TableIndex, Wide, LowByte, HighBytes, Down8;
    var x := Xor(crc, Wide(b));
    TableIndexIsLowByte(crc, b);
    SplitWord(x);
    ByteLeavesHighBytes(crc, b);
    BitStepsLinear(LowByte(x), HighBytes(x), 8);
    HighBitsShift(HighBytes(x));
  }

  // One byte as the checksum loop writes it: a table entry and a shift.
  function LookUp(table: seq<bv32>, crc: bv32, b: Byte): (r: bv32)
    requires IsCrcTable(table)
    ensures r == ByteStep(crc, b)
  {
    TableStep(table, crc, b);
    table[TableIndex(crc, b)] ^ (crc >> 8)
  }

  method ExtendWithTable(table: seq<bv32>, seed: bv32, bytes: seq<Byte>) returns (r: bv32)
    requires IsCrcTable(table)
    ensures r == Extend(seed, bytes)
  {
    hide ByteStep, IsCrcTable, LookUp;
    var crc := !seed;
    for i := 0 to |bytes|
      invariant Run(crc, bytes[i..]) == Run(Not(seed), bytes)
    {
      assert bytes[i..][1..] == bytes[i + 1..];
      crc := LookUp(table, crc, bytes[i]);
    }
    r := !crc;
  }

  // ---- composition and injectivity ----------------------------------------

  lemma {:induction false} RunConcat(crc: bv32, a: seq<Byte>, b: seq<Byte>)
    ensures Run(crc, a + b) == Run(Run(crc, a), b)
    decreases |a|
  {
    hide ByteStep;
    if a == [] {
      assert a + b == b;
    } else {
      assert (a + b)[1..] == a[1..] + b;
      RunConcat(ByteStep(crc, a[0]), a[1..], b);
    }
  }

  lemma NotNot(x: bv32)
    ensures Not(Not(x)) == x
  {
  }

  // Extending in two calls equals one pass over the concatenation.
  lemma ExtendConcat(seed: bv32, a: seq<Byte>, b: seq<Byte>)
    ensures Extend(Extend(seed, a), b) == Extend(seed, a + b)
  {
    hide Run, Not;
    RunConcat(Not(seed), a, b);
    NotNot(Run(Not(seed), a));
  }

  lemma ByteStepInjective(x: bv32, y: bv32, b: Byte)
    ensures ByteStep(x, b) == ByteStep(y, b) ==> x == y
  {
    hide Xor, BitSteps, Wide;
    BitStepsInjective(Xor(x, Wide(b)), Xor(y, Wide(b)), 8);
    XorCancel(x, y, Wide(b));
  }

  lemma {:induction false} RunInjective(x: bv32, y: bv32, bytes: seq<Byte>)
    ensures Run(x, bytes) == Run(y, bytes) ==> x == y
    decreases |bytes|
  {
    hide ByteStep;
    if bytes != [] {
      ByteStepInjective(x, y, bytes[0]);
      RunInjective(ByteStep(x, bytes[0]), ByteStep(y, bytes[0]), bytes[1..]);
    }
  }

  // ---- bursts ---------------------------------------------------------------

  // A message of at most four bytes as one word, first byte lowest.
  function Word(m: seq<Byte>): bv32
    requires |m| <= 4
    decreases |m|
  {
    if m == [] then 0 else Xor(Wide(m[0]), Up8(Word(m[1..])))
  }

  lemma {:induction false} WordFits(m: seq<Byte>)
    requires |m| <= 3
    ensures Word(m) <= 0xFF_FFFF
    ensures |m| <= 2 ==> Word(m) <= 0xFFFF
    ensures |m| <= 1 ==> Word(m) <= 0xFF
    ensures |m| == 0 ==> Word(m) == 0
    decreases |m|
  {
    if m != [] {
      WordFits(m[1..]);
      var w := Word(m[1..]);
      hide Word, Xor, Up8, Wide;
      Widen(m[0], w);
    }
  }

  lemma Widen(b: Byte, w: bv32)
    ensures w == 0 ==> Xor(Wide(b), Up8(w)) <= 0xFF
    ensures w <= 0xFF ==> Xor(Wide(b), Up8(w)) <= 0xFFFF
    ensures w <= 0xFFFF ==> Xor(Wide(b), Up8(w)) <= 0xFF_FFFF
  {
  }

  lemma Split(a: Byte, u: bv32, b: Byte, v: bv32)
    requires u <= 0xFF_FFFF && v <= 0xFF_FFFF
    ensures Xor(Wide(a), Up8(u)) == Xor(Wide(b), Up8(v)) ==> a == b && u == v
  {
  }

  lemma {:induction false} WordInjective(a: seq<Byte>, b: seq<Byte>)
    requires |a| == |b| <= 4
    ensures Word(a) == Word(b) ==> a == b
    decreases |a|
  {
    hide Xor, Wide, Up8;
    if a != [] {
      WordFits(a[1..]);
      WordFits(b[1..]);
      WordInjective(a[1..], b[1..]);
      Split(a[0], Word(a[1..]), b[0], Word(b[1..]));
      assert a == [a[0]] + a[1..] && b == [b[0]] + b[1..];
    }
  }

  lemma ShiftBack(w: bv32)
    requires w <= 0xFF_FFFF
    ensures LowByte(Up8(w)) == 0 && Down8(Up8(w)) == w
  {
  }

  // A message of at most four bytes acts like one word folded into the state.
  lemma {:induction false} RunIsWord(crc: bv32, m: seq<Byte>)
    requires |m| <= 4
    ensures Run(crc, m) == BitSteps(Xor(crc, Word(m)), 8 * |m|)
    decreases |m|
  {
    hide Xor, BitSteps, Wide, Up8, Down8, LowByte;
    if m == [] {
      XorUndo(crc, 0);
      StepsZero(crc);
    } else {
      var b := Wide(m[0]);
      var w := Word(m[1..]);
      WordFits(m[1..]);
      RunIsWord(ByteStep(crc, m[0]), m[1..]);
      ShiftBack(w);
      HighBitsShift(Up8(w));
      BitStepsLinear(Xor(crc, b), Up8(w), 8);
      XorAssociates(crc, b, Up8(w));
      BitStepsAdd(Xor(crc, Word(m)), 8, 8 * |m[1..]|);
    }
  }

  lemma StepsZero(crc: bv32)
    ensures BitSteps(crc, 0) == crc
  {
  }

  // Any nonzero change inside four consecutive bytes changes the checksum.
  lemma BurstChangesRun(crc: bv32, before: seq<Byte>, m: seq<Byte>, m': seq<Byte>, after: seq<Byte>)
    requires |m| == |m'| <= 4 && m != m'
    ensures Run(crc, before + m + after) != Run(crc, before + m' + after)
  {
    hide Xor, BitSteps, Run, Word;
    var s := Run(crc, before);
    RunConcat(crc, before + m, after);
    RunConcat(crc, before + m', after);
    RunConcat(crc, before, m);
    RunConcat(crc, before, m');
    RunIsWord(s, m);
    RunIsWord(s, m');
    WordInjective(m, m');
    XorCommutes(s, Word(m));
    XorCommutes(s, Word(m'));
    XorCancel(Word(m), Word(m'), s);
    BitStepsInjective(Xor(s, Word(m)), Xor(s, Word(m')), 8 * |m|);
    RunInjective(Run(s, m), Run(s, m'), after);
  }

  lemma BurstChangesCrc(seed: bv32, before: seq<Byte>, m: seq<Byte>, m': seq<Byte>, after: seq<Byte>)
    requires |m| == |m'| <= 4 && m != m'
    ensures Extend(seed, before + m + after) != Extend(seed, before + m' + after)
  {
    hide Run, Not;
    BurstChangesRun(Not(seed), before, m, m', after);
    NotNot(Run(Not(seed), before + m + after));
    NotNot(Run(Not(seed), before + m' + after));
  }

  lemma CrcAsIntInjective(x: bv32, y: bv32)
    ensures x as int == y as int ==> x == y
  {
    assert (x as int) as bv32 == x && (y as int) as bv32 == y;
  }
}
