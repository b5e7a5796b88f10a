// The writing side of the journal: framing one record and opening a session.
// The open file is the sequence of its bytes; everything is appended.
module JournalWriter {
  import opened Crc32c
  import opened Octets
  import opened Bytes
  import opened Journal

  const SMALL_BUFFER := 512

  datatype Status = Ok | Internal | CapacityExceeded

  function SessionPayload(epoch: U64, now: I64, incarnation: seq<Byte>): seq<Byte> {
    Le(epoch, 8) + Le(ToUnsigned(now), 8) + Le(|incarnation|, 4) + incarnation
  }

  // Sequence numbers come from a 64-bit counter that starts at one.
  function SequenceAfter(written: U64): U64 {
    (written + 1) % 0x1_0000_0000_0000_0000
  }

  class PersistenceStore {
    const table: seq<bv32>
    const limits: Limits
    var file: seq<Byte>
    var recordsWritten: U64
    var bytesWritten: U64
    var refusedPayloads: U64
    // The records appended since the file was opened, and what it held before.
    ghost var log: seq<Record>
    ghost const base: seq<Byte>

    ghost predicate Valid()
      reads this
    {
      && IsCrcTable(table)
      && file == base + Framed(log)
      && recordsWritten == |log| % 0x1_0000_0000_0000_0000
      && (forall i :: 0 <= i < |log| ==> Written(log[i], i))
    }

    // Every appended record is within bounds and carries its place in the log.
    ghost predicate Written(r: Record, index: nat) {
      && 0 < |r.payload| <= limits.maxPayload
      && r.sequence == (index + 1) % 0x1_0000_0000_0000_0000
    }

    constructor (file: seq<Byte>, limits: Limits)
      ensures Valid() && this.file == file && base == file && log == [] && this.limits == limits
      ensures bytesWritten == |file| % 0x1_0000_0000_0000_0000 && refusedPayloads == 0
    {
      this.limits := limits;
      this.file := file;
      recordsWritten, refusedPayloads := 0, 0;
      bytesWritten := |file| % 0x1_0000_0000_0000_0000;
      log, base := [], file;
      var crcTable := MakeCrcTable();
      table := crcTable;
      new;
      hide IsCrcTable;
      assert file + Framed([]) == file;
    }

    method WriteBytes(bytes: seq<Byte>)
      modifies `file, `bytesWritten
      ensures file == old(file) + bytes
      ensures bytesWritten == (old(bytesWritten) + |bytes|) % 0x1_0000_0000_0000_0000
    {
      file := file + bytes;
      bytesWritten := (bytesWritten + |bytes|) % 0x1_0000_0000_0000_0000;
    }

    // The header of one record, checksum included.
    method FrameHeader(r: Record) returns (header: seq<Byte>)
      requires IsCrcTable(table)
      ensures header + r.payload == Frame(r) && |header| == HEADER_BYTES
    {
      hide IsCrcTable, Extend, Prefix, Le;
      var prefix := EncodePrefix(r);
      var crc := ExtendWithTable(table, 0, prefix);
      crc := ExtendWithTable(table, crc, r.payload);
      var tail := EncodeChecksum(crc as int);
      header := prefix + tail;
    }

    method WriteRecord(kind: U16, payload: seq<Byte>) returns (status: Status)
      requires Valid()
      modifies this
      ensures Valid()
      ensures status == if payload == [] then Internal
                        else if |payload| > limits.maxPayload then CapacityExceeded
                        else Ok
      ensures status.Ok? ==>
                && var r := Record(kind, SequenceAfter(old(recordsWritten)), payload);
                && log == old(log) + [r]
                && file == old(file) + Frame(r)
                && bytesWritten == (old(bytesWritten) + (HEADER_BYTES + |payload|)) % 0x1_0000_0000_0000_0000
      ensures !status.Ok? ==>
                log == old(log) && file == old(file) && recordsWritten == old(recordsWritten)
                && bytesWritten == old(bytesWritten)
      ensures refusedPayloads == if status.CapacityExceeded? then SequenceAfter(old(refusedPayloads))
                                 else old(refusedPayloads)
    {
      hide IsCrcTable, Frame, SequenceAfter;
      if payload == [] {
        return Internal;
      }
      if |payload| > limits.maxPayload {
        refusedPayloads := SequenceAfter(refusedPayloads);
        return CapacityExceeded;
      }
      var r := Record(kind, SequenceAfter(recordsWritten), payload);
      var header := FrameHeader(r);
      WriteBytes(header);
      WriteBytes(payload);
      recordsWritten := SequenceAfter(recordsWritten);
      AppendOne(base, log, r, header);
      CountTwice(old(bytesWritten), |header|, |payload|);
      NextInLog(|log|, old(recordsWritten));
      log := log + [r];
      return Ok;
    }

    // The manifest goes first into an empty file; every session then leaves a
    // record of its own.  The epoch is the caller's.
    method OpenSession(now: I64, product: seq<Byte>, instance: seq<Byte>, epoch: U64, incarnation: seq<Byte>)
        returns (status: Status)
      requires Valid()
      modifies this
      ensures Valid()
      ensures old(file) <= file && old(log) <= log
      ensures status.Ok? ==>
                && (old(file) != [] ==> |log| == |old(log)| + 1)
                && (old(file) == [] ==>
                     && |log| == |old(log)| + 2
                     && log[|log| - 2].kind == MANIFEST
                     && log[|log| - 2].payload == ManifestPayload(product, now, instance))
                && log[|log| - 1].kind == SESSION
                && log[|log| - 1].payload == SessionPayload(epoch, now, incarnation)
      ensures status.Ok? <==>
                && (old(file) == [] ==>
                     && 24 + |product| + |instance| <= SMALL_BUFFER
                     && 24 + |product| + |instance| <= limits.maxPayload)
                && 20 + |incarnation| <= SMALL_BUFFER
                && 20 + |incarnation| <= limits.maxPayload
    {
      hide IsCrcTable, ManifestPayload, SessionPayload, Frame, Written;
      if file == [] {
        var fits, manifest := EncodeManifest(now, product, instance);
        if !fits {
          return Internal;
        }
        status := WriteRecord(MANIFEST, manifest);
        if status != Ok {
          return;
        }
      }
      var fits, session := EncodeSession(epoch, now, incarnation);
      if !fits {
        return Internal;
      }
      status := WriteRecord(SESSION, session);
    }
  }

  method EncodePrefix(r: Record) returns (prefix: seq<Byte>)
    ensures prefix == Prefix(r)
  {
    hide Le, Prefix;
    var bytes := new Byte[HEADER_BYTES];
    var writer := new ByteWriter(bytes);
    writer.PutU32(MAGIC);
    writer.PutU16(r.kind);
    writer.PutU16(0);
    writer.PutU32(|r.payload| % 0x1_0000_0000);
    writer.PutU64(r.sequence);
    PrefixChunks(r, writer.asked);
    prefix := bytes[..writer.offset];
  }

  method EncodeChecksum(crc: U32) returns (bytes: seq<Byte>)
    ensures bytes == Le(crc, 4)
  {
    var tail := new Byte[4];
    var writer := new ByteWriter(tail);
    writer.PutU32(crc);
    CatFirst(Le(crc, 4));
    bytes := tail[..];
  }

  method EncodeManifest(now: I64, product: seq<Byte>, instance: seq<Byte>) returns (ok: bool, bytes: seq<Byte>)
    ensures ok <==> 24 + |product| + |instance| <= SMALL_BUFFER
    ensures ok ==> bytes == ManifestPayload(product, now, instance) && |bytes| == 24 + |product| + |instance|
  {
    hide Le;
    var buffer := new Byte[SMALL_BUFFER];
    var writer := new ByteWriter(buffer);
    writer.PutU32(FORMAT_VERSION);
    writer.PutU32(SEMANTICS_REVISION);
    writer.PutText(product);
    writer.PutI64(now);
    writer.PutText(instance);
    ok, bytes := !writer.overflowed, buffer[..writer.offset];
    if !writer.refused {
      ManifestChunks(now, product, instance, writer.asked);
    }
  }

  method EncodeSession(epoch: U64, now: I64, incarnation: seq<Byte>) returns (ok: bool, bytes: seq<Byte>)
    ensures ok <==> 20 + |incarnation| <= SMALL_BUFFER
    ensures ok ==> bytes == SessionPayload(epoch, now, incarnation) && |bytes| == 20 + |incarnation|
  {
    hide Le;
    var buffer := new Byte[SMALL_BUFFER];
    var writer := new ByteWriter(buffer);
    writer.PutU64(epoch);
    writer.PutI64(now);
    writer.PutText(incarnation);
    ok, bytes := !writer.overflowed, buffer[..writer.offset];
    if !writer.refused {
      SessionChunks(epoch, now, incarnation, writer.asked);
    }
  }

  lemma FramedSnoc(log: seq<Record>, r: Record)
    ensures Framed(log + [r]) == Framed(log) + Frame(r)
  {
    hide Frame;
    FramedAppend(log, [r]);
    assert Framed([r]) == Frame(r) + Framed([]);
  }

  lemma AppendOne(base: seq<Byte>, log: seq<Record>, r: Record, header: seq<Byte>)
    requires header + r.payload == Frame(r)
    ensures base + Framed(log) + header + r.payload == base + Framed(log + [r])
    ensures base + Framed(log) + header + r.payload == base + Framed(log) + Frame(r)
  {
    hide Frame;
    FramedSnoc(log, r);
    assert base + Framed(log) + header + r.payload == base + (Framed(log) + (header + r.payload));
  }

  lemma CountTwice(b: nat, x: nat, y: nat)
    ensures ((b + x) % 0x1_0000_0000_0000_0000 + y) % 0x1_0000_0000_0000_0000
         == (b + (x + y)) % 0x1_0000_0000_0000_0000
  {
  }

  lemma NextInLog(n: nat, written: U64)
    requires written == n % 0x1_0000_0000_0000_0000
    ensures SequenceAfter(written) == (n + 1) % 0x1_0000_0000_0000_0000
  {
  }

  lemma PrefixChunks(r: Record, asked: seq<seq<Byte>>)
    requires asked == [] + [Le(MAGIC, 4)] + [Le(r.kind, 2)] + [Le(0, 2)]
                     + [Le(|r.payload| % 0x1_0000_0000, 4)] + [Le(r.sequence, 8)]
    ensures Cat(asked) == Prefix(r)
  {
    hide Le, Cat;
    var one := [] + [Le(MAGIC, 4)];
    var two := one + [Le(r.kind, 2)];
    var three := two + [Le(0, 2)];
    var four := three + [Le(|r.payload| % 0x1_0000_0000, 4)];
    CatFirst(Le(MAGIC, 4));
    CatSnoc(one, Le(r.kind, 2));
    CatSnoc(two, Le(0, 2));
    CatSnoc(three, Le(|r.payload| % 0x1_0000_0000, 4));
    CatSnoc(four, Le(r.sequence, 8));
  }

  lemma CatFirst(chunk: seq<Byte>)
    ensures Cat([] + [chunk]) == chunk
  {
    CatSnoc([], chunk);
  }

  lemma CatPair(chunks: seq<seq<Byte>>, a: seq<Byte>, b: seq<Byte>)
    ensures Cat(chunks + [a, b]) == Cat(chunks) + a + b
  {
    hide Cat;
    CatSnoc(chunks, a);
    CatSnoc(chunks + [a], b);
    assert chunks + [a, b] == chunks + [a] + [b];
  }

  lemma ManifestChunks(now: I64, product: seq<Byte>, instance: seq<Byte>, asked: seq<seq<Byte>>)
    requires asked == [] + [Le(FORMAT_VERSION, 4)] + [Le(SEMANTICS_REVISION, 4)] + [Le(|product|, 4), product]
                     + [Le(ToUnsigned(now), 8)] + [Le(|instance|, 4), instance]
    ensures Cat(asked) == ManifestPayload(product, now, instance)
  {
    hide Le, Cat, ToUnsigned;
    var one := [] + [Le(FORMAT_VERSION, 4)];
    var two := one + [Le(SEMANTICS_REVISION, 4)];
    var four := two + [Le(|product|, 4), product];
    var five := four + [Le(ToUnsigned(now), 8)];
    CatFirst(Le(FORMAT_VERSION, 4));
    CatSnoc(one, Le(SEMANTICS_REVISION, 4));
    CatPair(two, Le(|product|, 4), product);
    CatSnoc(four, Le(ToUnsigned(now), 8));
    CatPair(five, Le(|instance|, 4), instance);
  }

  lemma SessionChunks(epoch: U64, now: I64, incarnation: seq<Byte>, asked: seq<seq<Byte>>)
    requires asked == [] + [Le(epoch, 8)] + [Le(ToUnsigned(now), 8)] + [Le(|incarnation|, 4), incarnation]
    ensures Cat(asked) == SessionPayload(epoch, now, incarnation)
  {
    hide Le, Cat, ToUnsigned;
    var one := [] + [Le(epoch, 8)];
    var two := one + [Le(ToUnsigned(now), 8)];
    CatFirst(Le(epoch, 8));
    CatSnoc(one, Le(ToUnsigned(now), 8));
    CatPair(two, Le(|incarnation|, 4), incarnation);
  }
}
