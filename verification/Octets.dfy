// One byte, and the number it stands for.
module Octets {
  type Byte = bv8

  function ByteOf(v: nat): Byte {
    (v % 256) as Byte
  }

  function ValueOf(b: Byte): (v: nat)
    ensures v < 256
  {
    b as int
  }

  lemma ByteOfValue(b: Byte)
    ensures ByteOf(ValueOf(b)) == b
  {
    assert (b as int) as Byte == b;
  }

  lemma ValueOfNext(b: Byte)
    requires b != 255
    ensures ValueOf(b + 1) == ValueOf(b) + 1
  {
  }

  // Counting up from zero reaches every number below 256.
  lemma {:induction false} ByteOfSmall(n: nat)
    requires n < 256
    ensures ValueOf(ByteOf(n)) == n
  {
    hide ByteOf, ValueOf;
    if n == 0 {
      ValueOfZero();
    } else {
      ByteOfSmall(n - 1);
      var b := ByteOf(n - 1);
      LastByte(b);
      ValueOfNext(b);
      ByteOfValue(b + 1);
    }
  }

  lemma ValueOfZero()
    ensures ValueOf(0) == 0 && ByteOf(0) == 0
  {
    ByteOfValue(0);
  }

  lemma LastByte(b: Byte)
    ensures b == 255 ==> ValueOf(b) == 255
  {
  }

  lemma ValueOfByte(v: nat)
    ensures ValueOf(ByteOf(v)) == v % 256
  {
    hide ByteOf, ValueOf;
    ByteOfSmall(v % 256);
    ByteOfRemainder(v);
  }

  lemma ByteOfRemainder(v: nat)
    ensures ByteOf(v % 256) == ByteOf(v)
  {
    hide ValueOf;
    assert v % 256 % 256 == v % 256;
  }
}
