// The little-endian writer and reader of the persistence layer.
module Bytes {
  import opened Octets

  type U8 = x: int | 0 <= x < 0x100
  type U16 = x: int | 0 <= x < 0x1_0000
  type U32 = x: int | 0 <= x < 0x1_0000_0000
  type U64 = x: int | 0 <= x < 0x1_0000_0000_0000_0000
  type I64 = x: int | -0x8000_0000_0000_0000 <= x < 0x8000_0000_0000_0000

  // ---- little-endian numbers ----------------------------------------------

  function Pow256(n: nat): (p: nat)
    ensures p > 0
  {
    if n == 0 then 1 else 256 * Pow256(n - 1)
  }

  // The low n bytes of v, lowest first.
  function Le(v: nat, n: nat): (b: seq<Byte>)
    ensures |b| == n
    decreases n, v
  {
    if n == 0 then [] else [ByteOf(v)] + Le(v / 256, n - 1)
  }

  function FromLe(b: seq<Byte>): (v: nat)
    decreases |b|
  {
    if b == [] then 0 else ValueOf(b[0]) + 256 * FromLe(b[1..])
  }

  lemma {:induction false} FromLeOfLe(v: nat, n: nat)
    requires v < Pow256(n)
    ensures FromLe(Le(v, n)) == v
    decreases n
  {
    hide ByteOf, ValueOf;
    if n > 0 {
      FromLeOfLe(v / 256, n - 1);
      ValueOfByte(v);
      assert Le(v, n)[1..] == Le(v / 256, n - 1);
    }
  }

  lemma {:induction false} LeOfFromLe(b: seq<Byte>)
    ensures FromLe(b) < Pow256(|b|)
    ensures Le(FromLe(b), |b|) == b
    decreases |b|
  {
    hide ByteOf, ValueOf;
    if b != [] {
      LeOfFromLe(b[1..]);
      LowByteOnly(ValueOf(b[0]), FromLe(b[1..]));
      ByteOfValue(b[0]);
      assert b == [b[0]] + b[1..];
    }
  }

  lemma LowByteOnly(low: nat, rest: nat)
    requires low < 256
    ensures ByteOf(low + 256 * rest) == ByteOf(low)
    ensures (low + 256 * rest) / 256 == rest
  {
    assert (low + 256 * rest) % 256 == low;
  }

  // A number written as a low and a high part is written part after part.
  lemma {:induction false} LeAppend(low: nat, high: nat, n: nat, m: nat)
    requires low < Pow256(n)
    ensures Le(low + Pow256(n) * high, n + m) == Le(low, n) + Le(high, m)
    decreases n
  {
    hide ByteOf;
    if n == 0 {
      assert Pow256(0) * high == high;
      assert Le(high, m) == [] + Le(high, m);
    } else {
      var p := Pow256(n - 1);
      var t := p * high;
      assert Pow256(n) * high == 256 * t by { Associate(256, p, high); }
      assert (low + 256 * t) / 256 == low / 256 + t;
      LeAppend(low / 256, high, n - 1, m);
      ByteOfSum(low, t);
    }
  }

  lemma Associate(x: nat, y: nat, z: nat)
    ensures (x * y) * z == x * (y * z)
  {
  }

  lemma ByteOfSum(low: nat, rest: nat)
    ensures ByteOf(low + 256 * rest) == ByteOf(low)
  {
    assert (low + 256 * rest) % 256 == low % 256;
  }

  lemma LeHalves(v: nat)
    ensures Le(v, 2) == Le(v % 0x100, 1) + Le(v / 0x100, 1)
    ensures Le(v, 4) == Le(v % 0x1_0000, 2) + Le(v / 0x1_0000, 2)
    ensures Le(v, 8) == Le(v % 0x1_0000_0000, 4) + Le(v / 0x1_0000_0000, 4)
  {
    hide ByteOf, Le;
    Powers();
    hide Pow256;
    LeAppend(v % 0x100, v / 0x100, 1, 1);
    LeAppend(v % 0x1_0000, v / 0x1_0000, 2, 2);
    LeAppend(v % 0x1_0000_0000, v / 0x1_0000_0000, 4, 4);
  }

  lemma Powers()
    ensures Pow256(1) == 0x100
    ensures Pow256(2) == 0x1_0000
    ensures Pow256(4) == 0x1_0000_0000
    ensures Pow256(8) == 0x1_0000_0000_0000_0000
  {
    assert Pow256(3) == 256 * Pow256(2);
    assert Pow256(5) == 256 * Pow256(4);
    assert Pow256(6) == 256 * Pow256(5);
    assert Pow256(7) == 256 * Pow256(6);
  }

  // ---- signed words -------------------------------------------------------

  // The cast from a signed to an unsigned 64-bit word, and back.
  function ToUnsigned(v: I64): U64 {
    if v < 0 then v + 0x1_0000_0000_0000_0000 else v
  }

  function ToSigned(v: U64): I64 {
    if v >= 0x8000_0000_0000_0000 then v - 0x1_0000_0000_0000_0000 else v
  }

  // ---- chunks ----------------------------------------------------------------

  // An encoding is a list of chunks laid end to end.
  function Cat(chunks: seq<seq<Byte>>): seq<Byte> {
    if chunks == [] then [] else Cat(chunks[..|chunks| - 1]) + chunks[|chunks| - 1]
  }

  function Offset(chunks: seq<seq<Byte>>, k: nat): nat
    requires k <= |chunks|
  {
    |Cat(chunks[..k])|
  }

  lemma OffsetStep(chunks: seq<seq<Byte>>, k: nat)
    requires k < |chunks|
    ensures Offset(chunks, k + 1) == Offset(chunks, k) + |chunks[k]|
  {
    assert chunks[..k + 1][..k] == chunks[..k];
  }

  // Chunk k sits at its offset.
  lemma {:induction false} ChunkAt(chunks: seq<seq<Byte>>, k: nat)
    requires k < |chunks|
    ensures Offset(chunks, k) + |chunks[k]| <= |Cat(chunks)|
    ensures Cat(chunks)[Offset(chunks, k)..Offset(chunks, k) + |chunks[k]|] == chunks[k]
    decreases |chunks|
  {
    var front := chunks[..|chunks| - 1];
    if k == |chunks| - 1 {
    } else {
      ChunkAt(front, k);
      assert front[..k] == chunks[..k];
      var from, to := Offset(chunks, k), Offset(chunks, k) + |chunks[k]|;
      assert Cat(chunks)[from..to] == Cat(front)[from..to];
    }
  }

  // ---- the writer -----------------------------------------------------------

  // A cursor over a buffer of fixed size.  The first write that does not fit
  // latches the overflow flag, and nothing is written after that.
  class ByteWriter {
    const buffer: array<Byte>
    var offset: nat
    var overflowed: bool
    // Everything the caller asked for so far, one chunk for each request.
    ghost var asked: seq<seq<Byte>>
    // Some request was longer than a 32-bit length can say.
    ghost var refused: bool

    ghost predicate Valid()
      reads this, buffer
    {
      && offset <= buffer.Length
      && (overflowed <==> |Cat(asked)| > buffer.Length || refused)
      && buffer[..offset] <= Cat(asked)
      && (!overflowed ==> buffer[..offset] == Cat(asked))
    }

    constructor (buffer: array<Byte>)
      ensures Valid() && this.buffer == buffer
      ensures asked == [] && !refused && offset == 0
    {
      this.buffer := buffer;
      offset, overflowed := 0, false;
      asked, refused := [], false;
    }

    method Reserve(count: nat) returns (ok: bool)
      requires offset <= buffer.Length
      modifies `overflowed
      ensures overflowed == (old(overflowed) || count > buffer.Length - offset)
      ensures ok == !overflowed
    {
      if overflowed {
        return false;
      }
      if count > buffer.Length - offset {
        overflowed := true;
        return false;
      }
      return true;
    }

    // Adds one byte string to what was asked for, before anything is written.
    ghost method Ask(chunk: seq<Byte>)
      requires Valid()
      modifies `asked
      ensures asked == old(asked) + [chunk]
      ensures Cat(asked) == old(Cat(asked)) + chunk
    {
      CatSnoc(asked, chunk);
      asked := asked + [chunk];
    }

    // Two requests in a row count as one request for both.
    ghost method Merge(low: seq<Byte>, high: seq<Byte>, before: seq<seq<Byte>>)
      requires Valid() && asked == before + [low] + [high]
      modifies `asked
      ensures Valid() && asked == before + [low + high]
    {
      CatSnoc(before, low);
      CatSnoc(before + [low], high);
      CatSnoc(before, low + high);
      assert Cat(before) + low + high == Cat(before) + (low + high);
      asked := before + [low + high];
    }

    method PutU8(value: U8)
      requires Valid()
      modifies this, buffer
      ensures Valid() && asked == old(asked) + [Le(value, 1)] && refused == old(refused)
    {
      Ask(Le(value, 1));
      var ok := Reserve(1);
      if ok {
        buffer[offset] := ByteOf(value);
        offset := offset + 1;
      }
    }

    method PutU16(value: U16)
      requires Valid()
      modifies this, buffer
      ensures Valid() && asked == old(asked) + [Le(value, 2)] && refused == old(refused)
    {
      PutU8(value % 0x100);
      PutU8(value / 0x100);
      LeHalves(value);
      Merge(Le(value % 0x100, 1), Le(value / 0x100, 1), old(asked));
    }

    method PutU32(value: U32)
      requires Valid()
      modifies this, buffer
      ensures Valid() && asked == old(asked) + [Le(value, 4)] && refused == old(refused)
    {
      PutU16(value % 0x1_0000);
      PutU16(value / 0x1_0000);
      LeHalves(value);
      Merge(Le(value % 0x1_0000, 2), Le(value / 0x1_0000, 2), old(asked));
    }

    method PutU64(value: U64)
      requires Valid()
      modifies this, buffer
      ensures Valid() && asked == old(asked) + [Le(value, 8)] && refused == old(refused)
    {
      PutU32(value % 0x1_0000_0000);
      PutU32(value / 0x1_0000_0000);
      LeHalves(value);
      Merge(Le(value % 0x1_0000_0000, 4), Le(value / 0x1_0000_0000, 4), old(asked));
    }

    method PutI64(value: I64)
      requires Valid()
      modifies this, buffer
      ensures Valid() && asked == old(asked) + [Le(ToUnsigned(value), 8)] && refused == old(refused)
    {
      PutU64(ToUnsigned(value));
    }

    // All of the bytes or none of them.
    method PutRaw(bytes: seq<Byte>)
      requires Valid()
      modifies this, buffer
      ensures Valid() && asked == old(asked) + [bytes] && refused == old(refused)
    {
      Ask(bytes);
      ghost var written := buffer[..offset];
      var ok := Reserve(|bytes|);
      if ok {
        for i := 0 to |bytes|
          invariant offset + |bytes| <= buffer.Length
          invariant buffer[..offset + i] == written + bytes[..i]
          invariant offset == old(offset) && overflowed == false && asked == old(asked) + [bytes]
          invariant refused == old(refused)
          modifies buffer
        {
          buffer[offset + i] := bytes[i];
        }
        offset := offset + |bytes|;
      }
    }

    method PutText(bytes: seq<Byte>)
      requires Valid()
      modifies this, buffer
      ensures Valid()
      ensures |bytes| <= 0xFFFF_FFFF ==>
                asked == old(asked) + [Le(|bytes|, 4), bytes] && refused == old(refused)
      ensures |bytes| > 0xFFFF_FFFF ==> asked == old(asked) && refused
    {
      if |bytes| > 0xFFFF_FFFF {
        overflowed := true;
        refused := true;
        return;
      }
      PutU32(|bytes|);
      PutRaw(bytes);
    }
  }

  lemma CatSnoc(chunks: seq<seq<Byte>>, chunk: seq<Byte>)
    ensures Cat(chunks + [chunk]) == Cat(chunks) + chunk
  {
    assert (chunks + [chunk])[..|chunks|] == chunks;
  }

  // ---- the reader -----------------------------------------------------------

  // A cursor over bytes that are only looked at.  A number that runs past the
  // end is refused after the bytes that are there were used up.
  class ByteReader {
    const buffer: seq<Byte>
    var offset: nat

    ghost predicate Valid()
      reads this
    {
      offset <= |buffer|
    }

    constructor (buffer: seq<Byte>)
      ensures Valid() && this.buffer == buffer && offset == 0
    {
      this.buffer := buffer;
      offset := 0;
    }

    function Remaining(): (n: nat)
      requires Valid()
      reads this
      ensures offset + n == |buffer|
    {
      |buffer| - offset
    }

    predicate AtEnd()
      reads this
    {
      offset == |buffer|
    }

    method Take(count: nat) returns (ok: bool, out: seq<Byte>)
      requires Valid()
      modifies this
      ensures Valid() && ok == (count <= old(Remaining()))
      ensures ok ==> offset == old(offset) + count && out == buffer[old(offset)..offset]
      ensures !ok ==> offset == old(offset)
    {
      ok, out := count <= Remaining(), [];
      if ok {
        out := buffer[offset..offset + count];
        offset := offset + count;
      }
    }

    method GetU8() returns (ok: bool, out: U8)
      requires Valid()
      modifies this
      ensures Valid() && ok == (1 <= old(Remaining()))
      ensures ok ==> offset == old(offset) + 1 && out == FromLe(buffer[old(offset)..offset])
      ensures !ok ==> AtEnd()
    {
      var slice;
      ok, slice := Take(1);
      out := 0;
      if ok {
        out := ValueOf(slice[0]);
        assert FromLe(slice) == ValueOf(slice[0]) + 256 * FromLe(slice[1..]);
      }
    }

    method GetU16() returns (ok: bool, out: U16)
      requires Valid()
      modifies this
      ensures Valid() && ok == (2 <= old(Remaining()))
      ensures ok ==> offset == old(offset) + 2 && out == FromLe(buffer[old(offset)..offset])
      ensures !ok ==> AtEnd()
    {
      var low: int, high: int;
      out := 0;
      ok, low := GetU8();
      if ok {
        ghost var middle := offset;
        ok, high := GetU8();
        if ok {
          out := low + 0x100 * high;
          FromLeHalves(buffer, old(offset), middle, offset);
        }
      }
    }

    method GetU32() returns (ok: bool, out: U32)
      requires Valid()
      modifies this
      ensures Valid() && ok == (4 <= old(Remaining()))
      ensures ok ==> offset == old(offset) + 4 && out == FromLe(buffer[old(offset)..offset])
      ensures !ok ==> AtEnd()
    {
      var low: int, high: int;
      out := 0;
      ok, low := GetU16();
      if ok {
        ghost var middle := offset;
        ok, high := GetU16();
        if ok {
          out := low + 0x1_0000 * high;
          FromLeHalves(buffer, old(offset), middle, offset);
        }
      }
    }

    method GetU64() returns (ok: bool, out: U64)
      requires Valid()
      modifies this
      ensures Valid() && ok == (8 <= old(Remaining()))
      ensures ok ==> offset == old(offset) + 8 && out == FromLe(buffer[old(offset)..offset])
      ensures !ok ==> AtEnd()
    {
      var low: int, high: int;
      out := 0;
      ok, low := GetU32();
      if ok {
        ghost var middle := offset;
        ok, high := GetU32();
        if ok {
          out := low + 0x1_0000_0000 * high;
          FromLeHalves(buffer, old(offset), middle, offset);
        }
      }
    }

    method GetI64() returns (ok: bool, out: I64)
      requires Valid()
      modifies this
      ensures Valid() && ok == (8 <= old(Remaining()))
      ensures ok ==> offset == old(offset) + 8 && FromLe(buffer[old(offset)..offset]) == ToUnsigned(out)
      ensures !ok ==> AtEnd()
    {
      var raw;
      ok, raw := GetU64();
      out := ToSigned(raw);
    }

    // A 32-bit length and that many bytes, if the caller can take so many.
    method GetText(maxBytes: nat) returns (ok: bool, out: seq<Byte>)
      requires Valid()
      modifies this
      ensures Valid() && offset >= old(offset)
      ensures ok ==> 4 <= old(Remaining())
      ensures old(Remaining()) >= 4 ==>
                var length := FromLe(buffer[old(offset)..old(offset) + 4]);
                && ok == (length <= old(Remaining()) - 4 && length <= maxBytes)
                && (ok ==> offset == old(offset) + 4 + length && out == buffer[old(offset) + 4..offset])
    {
      var length;
      out := [];
      ok, length := GetU32();
      if ok {
        ok, out := Take(length);
        if ok && |out| > maxBytes {
          ok, out := false, [];
        }
      }
    }
  }

  lemma FromLeHalves(b: seq<Byte>, from: nat, middle: nat, to: nat)
    requires from <= middle <= to <= |b|
    requires middle - from <= 4
    ensures middle - from == 1 ==>
              FromLe(b[from..to]) == FromLe(b[from..middle]) + 0x100 * FromLe(b[middle..to])
    ensures middle - from == 2 ==>
              FromLe(b[from..to]) == FromLe(b[from..middle]) + 0x1_0000 * FromLe(b[middle..to])
    ensures middle - from == 4 ==>
              FromLe(b[from..to]) == FromLe(b[from..middle]) + 0x1_0000_0000 * FromLe(b[middle..to])
  {
    FromLeAppend(b[from..middle], b[middle..to]);
    assert b[from..middle] + b[middle..to] == b[from..to];
    Powers();
  }

  lemma {:induction false} FromLeAppend(low: seq<Byte>, high: seq<Byte>)
    ensures FromLe(low + high) == FromLe(low) + Pow256(|low|) * FromLe(high)
    decreases |low|
  {
    hide ValueOf;
    if low == [] {
      assert low + high == high;
      assert Pow256(0) * FromLe(high) == FromLe(high);
    } else {
      assert (low + high)[1..] == low[1..] + high;
      FromLeAppend(low[1..], high);
      Associate(256, Pow256(|low| - 1), FromLe(high));
    }
  }
}
