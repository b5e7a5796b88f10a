// The binary encoding of one evidence item, and its decoder.
module EvidenceCodec {
  import opened Crc32c
  import opened Octets
  import opened Bytes
  import opened Evidence
  import opened Sequences

  const ENCODING_VERSION: U8 := 1
  const BUFFER_BYTES := 4096
  const MAX_METADATA_BYTES := 512

  // Every refusal carries the same status code; the texts are not modelled.
  datatype Decoded = Ok(item: Item) | Corrupt

  function Flag(b: bool): U8 {
    if b then 1 else 0
  }

  // ---- text as bytes ---------------------------------------------------------

  function TextBytes(t: Text): (b: seq<Byte>)
    ensures |b| == |t|
  {
    seq(|t|, i requires 0 <= i < |t| => ByteOf(t[i] as int))
  }

  function BytesText(b: seq<Byte>): (t: Text)
    ensures |t| == |b|
  {
    seq(|b|, i requires 0 <= i < |b| => ByteChar(b[i]))
  }

  function ByteChar(b: Byte): Char8 {
    ValueOf(b) as char
  }

  lemma TextRoundTrip(t: Text)
    ensures BytesText(TextBytes(t)) == t
  {
    hide ByteOf, ValueOf;
    forall i | 0 <= i < |t|
      ensures BytesText(TextBytes(t))[i] == t[i]
    {
      ValueOfByte(t[i] as int);
      assert BytesText(TextBytes(t))[i] == ByteChar(TextBytes(t)[i]);
    }
  }

  // ---- the encoding ----------------------------------------------------------

  // Each list below is built in the order in which the encoder writes it.
  function HeaderChunks(h: Header): seq<seq<Byte>> {
    []
    + [Le(ENCODING_VERSION, 1)]
    + [Le(h.id, 8)]
    + [Le(h.source, 8)]
    + [Le(h.epoch, 8)]
    + [Le(h.generation, 8)]
    + [Le(h.revision, 8)]
    + [Le(h.sequence, 8)]
    + [Le(ToUnsigned(h.observedAt), 8)]
    + [Le(ToUnsigned(h.receivedAt), 8)]
    + [Le(MethodCode(h.method_), 1)]
    + [Le(GranularityCode(h.granularity), 1)]
    + [Le(SubjectCode(h.subject.kind), 1)]
    + [Le(h.subject.id, 8)]
    + [Le(|h.note|, 4), TextBytes(h.note)]
    + [Le(Flag(h.recovered), 1)]
  }

  function WithPayload(base: seq<seq<Byte>>, p: Payload): seq<seq<Byte>> {
    match p
    case CounterSample(counter, scope, value, widthBits, node, port, queue, hop, link) =>
      base
      + [Le(counter, 8)]
      + [Le(ScopeCode(scope), 1)]
      + [Le(value, 8)]
      + [Le(widthBits, 1)]
      + [Le(node, 8)]
      + [Le(port, 8)]
      + [Le(queue, 8)]
      + [Le(hop, 8)]
      + [Le(link, 8)]
    case ProbeReport(probe, sent, received, timedOut, ttlScoped, ttl, oneWay) =>
      base
      + [Le(probe, 8)]
      + [Le(sent, 4)]
      + [Le(received, 4)]
      + [Le(timedOut, 4)]
      + [Le(Flag(ttlScoped), 1)]
      + [Le(ttl, 1)]
      + [Le(Flag(oneWay), 1)]
    case SequenceReport(lowest, highest, receivedCount, restart) =>
      base
      + [Le(lowest, 8)]
      + [Le(highest, 8)]
      + [Le(receivedCount, 8)]
      + [Le(Flag(restart), 1)]
    case EndpointReport(role, node, port, count, reset) =>
      base
      + [Le(RoleCode(role), 1)]
      + [Le(node, 8)]
      + [Le(port, 8)]
      + [Le(count, 8)]
      + [Le(Flag(reset), 1)]
  }

  function Chunks(item: Item): seq<seq<Byte>> {
    WithPayload(HeaderChunks(item.header) + [Le(KindCode(item.payload), 1)], item.payload)
  }

  // What the encoder returns: nothing when the item does not fit its buffer.
  function Encoding(item: Item): seq<Byte> {
    var b := Cat(Chunks(item));
    if |b| <= BUFFER_BYTES then b else []
  }

  method EncodePayload(writer: ByteWriter, p: Payload)
    requires writer.Valid()
    modifies writer, writer.buffer
    ensures writer.Valid() && writer.refused == old(writer.refused)
    ensures writer.asked == WithPayload(old(writer.asked), p)
  {
    hide Le, Cat, ScopeCode, RoleCode, Flag, ByteWriter.Valid;
    match p {
      case CounterSample(counter, scope, value, widthBits, node, port, queue, hop, link) =>
        writer.PutU64(counter);
        writer.PutU8(ScopeCode(scope));
        writer.PutU64(value);
        writer.PutU8(widthBits);
        writer.PutU64(node);
        writer.PutU64(port);
        writer.PutU64(queue);
        writer.PutU64(hop);
        writer.PutU64(link);
      case ProbeReport(probe, sent, received, timedOut, ttlScoped, ttl, oneWay) =>
        writer.PutU64(probe);
        writer.PutU32(sent);
        writer.PutU32(received);
        writer.PutU32(timedOut);
        writer.PutU8(Flag(ttlScoped));
        writer.PutU8(ttl);
        writer.PutU8(Flag(oneWay));
      case SequenceReport(lowest, highest, receivedCount, restart) =>
        writer.PutU64(lowest);
        writer.PutU64(highest);
        writer.PutU64(receivedCount);
        writer.PutU8(Flag(restart));
      case EndpointReport(role, node, port, count, reset) =>
        writer.PutU8(RoleCode(role));
        writer.PutU64(node);
        writer.PutU64(port);
        writer.PutU64(count);
        writer.PutU8(Flag(reset));
    }
  }

  method EncodeEvidence(item: Item) returns (encoded: seq<Byte>)
    ensures encoded == Encoding(item)
  {
    hide Le, Cat, Flag, ToUnsigned, SubjectCode, GranularityCode, MethodCode, KindCode, WithPayload, TextBytes;
    var buffer := new Byte[BUFFER_BYTES];
    var writer := new ByteWriter(buffer);
    var h := item.header;
    writer.PutU8(ENCODING_VERSION);
    writer.PutU64(h.id);
    writer.PutU64(h.source);
    writer.PutU64(h.epoch);
    writer.PutU64(h.generation);
    writer.PutU64(h.revision);
    writer.PutU64(h.sequence);
    writer.PutI64(h.observedAt);
    writer.PutI64(h.receivedAt);
    writer.PutU8(MethodCode(h.method_));
    writer.PutU8(GranularityCode(h.granularity));
    writer.PutU8(SubjectCode(h.subject.kind));
    writer.PutU64(h.subject.id);
    writer.PutText(TextBytes(h.note));
    writer.PutU8(Flag(h.recovered));
    assert !writer.refused ==> writer.asked == HeaderChunks(h);
    writer.PutU8(KindCode(item.payload));
    EncodePayload(writer, item.payload);
    assert !writer.refused ==> writer.asked == Chunks(item);
    if writer.overflowed {
      NoteBelowTotal(item);
      return [];
    }
    return buffer[..writer.offset];
  }

  lemma NoteBelowTotal(item: Item)
    ensures |item.header.note| <= |Cat(Chunks(item))|
  {
    Layout(item);
  }

  // ---- the decoder -------------------------------------------------------------

  function At(b: seq<Byte>, offset: nat, n: nat): nat
    requires offset + n <= |b|
  {
    FromLe(b[offset..offset + n])
  }

  lemma AtBounds(b: seq<Byte>, offset: nat, n: nat)
    requires offset + n <= |b|
    ensures n == 1 ==> At(b, offset, n) < 0x100
    ensures n == 4 ==> At(b, offset, n) < 0x1_0000_0000
    ensures n == 8 ==> At(b, offset, n) < 0x1_0000_0000_0000_0000
  {
    LeOfFromLe(b[offset..offset + n]);
    Powers();
  }

  function Word8(b: seq<Byte>, offset: nat): U8
    requires offset + 1 <= |b|
  {
    AtBounds(b, offset, 1);
    At(b, offset, 1)
  }

  function Word32(b: seq<Byte>, offset: nat): U32
    requires offset + 4 <= |b|
  {
    AtBounds(b, offset, 4);
    At(b, offset, 4)
  }

  function Word64(b: seq<Byte>, offset: nat): U64
    requires offset + 8 <= |b|
  {
    AtBounds(b, offset, 8);
    At(b, offset, 8)
  }

  function PayloadBytes(kind: int): nat {
    match kind
    case 1 => 58
    case 2 => 23
    case 3 => 25
    case 4 => 26
    case _ => 0
  }

  // What a payload is before anything was read into it.
  const BLANK := CounterSample(0, UnknownScope, 0, 0, 0, 0, 0, 0, 0)

  // The payload behind the discriminator, which must be used up exactly.  Zero is
  // refused; a discriminator that is not known at all reads nothing.
  function DecodedPayload(kind: int, p: seq<Byte>): Option<Payload> {
    if kind == 0 || |p| != PayloadBytes(kind) then None
    else if !(1 <= kind <= 4) then Some(BLANK)
    else
      match kind
      case 1 =>
        var scope := ScopeFromCode(Word8(p, 8));
        if scope.None? then None
        else Some(CounterSample(Word64(p, 0), scope.value, Word64(p, 9), Word8(p, 17), Word64(p, 18),
                                Word64(p, 26), Word64(p, 34), Word64(p, 42), Word64(p, 50)))
      case 2 =>
        Some(ProbeReport(Word64(p, 0), Word32(p, 8), Word32(p, 12), Word32(p, 16),
                         Word8(p, 20) != 0, Word8(p, 21), Word8(p, 22) != 0))
      case 3 =>
        Some(SequenceReport(Word64(p, 0), Word64(p, 8), Word64(p, 16), Word8(p, 24) != 0))
      case _ =>
        var role := RoleFromCode(Word8(p, 0));
        if role.None? then None
        else Some(EndpointReport(role.value, Word64(p, 1), Word64(p, 9), Word64(p, 17), Word8(p, 25) != 0))
  }

  function DecodedHeader(b: seq<Byte>): Option<Header>
    requires |b| >= 82 && |b| >= 82 + At(b, 76, 4)
  {
    var n := Word32(b, 76);
    var m, g, k := MethodFromCode(Word8(b, 65)), GranularityFromCode(Word8(b, 66)), SubjectFromCode(Word8(b, 67));
    if m.None? || g.None? || k.None? || k.value.UnknownSubject? then None
    else Some(Header(Word64(b, 1), Word64(b, 9), Word64(b, 17), Word64(b, 25), Word64(b, 33), Word64(b, 41),
                     ToSigned(Word64(b, 49)), ToSigned(Word64(b, 57)),
                     m.value, SubjectRef(k.value, Word64(b, 68)), g.value,
                     BytesText(b[80..80 + n]), Word8(b, 80 + n) != 0))
  }

  function Decode(b: seq<Byte>): Decoded {
    if |b| < 82 || |b| < 82 + At(b, 76, 4) || At(b, 76, 4) > MAX_METADATA_BYTES then Corrupt
    else if At(b, 0, 1) != ENCODING_VERSION then Corrupt
    else
      var n := At(b, 76, 4);
      var header, payload := DecodedHeader(b), DecodedPayload(At(b, 81 + n, 1), b[82 + n..]);
      if header.None? || payload.None? then Corrupt else Ok(Item(header.value, payload.value))
  }

  // ---- the decoder as it reads ----------------------------------------------

  lemma Shift(b: seq<Byte>, base: nat, offset: nat, n: nat)
    requires base + offset + n <= |b|
    ensures At(b[base..], offset, n) == FromLe(b[base + offset..base + offset + n])
  {
    assert b[base..][offset..offset + n] == b[base + offset..base + offset + n];
  }

  method DecodeCounterSample(reader: ByteReader) returns (payload: Option<Payload>)
    requires reader.Valid()
    modifies reader
    ensures reader.Valid()
    ensures payload.Some? && reader.AtEnd() ==> DecodedPayload(1, reader.buffer[old(reader.offset)..]) == payload
    ensures payload.None? || !reader.AtEnd() ==> DecodedPayload(1, reader.buffer[old(reader.offset)..]) == None
  {
    hide FromLe;
    payload := None;
    ghost var base := reader.offset;
    var ok0, counter := reader.GetU64();
    if !ok0 { return; }
    var ok1, scopeCode := reader.GetU8();
    if !ok1 { return; }
    var ok2, value := reader.GetU64();
    if !ok2 { return; }
    var ok3, width := reader.GetU8();
    if !ok3 { return; }
    Shift(reader.buffer, base, 8, 1);
    var scope := ScopeFromCode(scopeCode);
    if scope.None? { return; }
    var ok4, node := reader.GetU64();
    if !ok4 { return; }
    var ok5, port := reader.GetU64();
    if !ok5 { return; }
    var ok6, queue := reader.GetU64();
    if !ok6 { return; }
    var ok7, hop := reader.GetU64();
    if !ok7 { return; }
    var ok8, link := reader.GetU64();
    if !ok8 { return; }
    payload := Some(CounterSample(counter, scope.value, value, width, node, port, queue, hop, link));
    Shift(reader.buffer, base, 0, 8);
    Shift(reader.buffer, base, 9, 8);
    Shift(reader.buffer, base, 17, 1);
    Shift(reader.buffer, base, 18, 8);
    Shift(reader.buffer, base, 26, 8);
    Shift(reader.buffer, base, 34, 8);
    Shift(reader.buffer, base, 42, 8);
    Shift(reader.buffer, base, 50, 8);
  }

  method DecodeProbeReport(reader: ByteReader) returns (payload: Option<Payload>)
    requires reader.Valid()
    modifies reader
    ensures reader.Valid()
    ensures payload.Some? && reader.AtEnd() ==> DecodedPayload(2, reader.buffer[old(reader.offset)..]) == payload
    ensures payload.None? || !reader.AtEnd() ==> DecodedPayload(2, reader.buffer[old(reader.offset)..]) == None
  {
    hide FromLe;
    payload := None;
    ghost var base := reader.offset;
    var ok0, probe := reader.GetU64();
    if !ok0 { return; }
    var ok1, sent := reader.GetU32();
    if !ok1 { return; }
    var ok2, received := reader.GetU32();
    if !ok2 { return; }
    var ok3, timedOut := reader.GetU32();
    if !ok3 { return; }
    var ok4, ttlScoped := reader.GetU8();
    if !ok4 { return; }
    var ok5, ttl := reader.GetU8();
    if !ok5 { return; }
    var ok6, oneWay := reader.GetU8();
    if !ok6 { return; }
    payload := Some(ProbeReport(probe, sent, received, timedOut, ttlScoped != 0, ttl, oneWay != 0));
    Shift(reader.buffer, base, 0, 8);
    Shift(reader.buffer, base, 8, 4);
    Shift(reader.buffer, base, 12, 4);
    Shift(reader.buffer, base, 16, 4);
    Shift(reader.buffer, base, 20, 1);
    Shift(reader.buffer, base, 21, 1);
    Shift(reader.buffer, base, 22, 1);
  }

  method DecodeSequenceReport(reader: ByteReader) returns (payload: Option<Payload>)
    requires reader.Valid()
    modifies reader
    ensures reader.Valid()
    ensures payload.Some? && reader.AtEnd() ==> DecodedPayload(3, reader.buffer[old(reader.offset)..]) == payload
    ensures payload.None? || !reader.AtEnd() ==> DecodedPayload(3, reader.buffer[old(reader.offset)..]) == None
  {
    hide FromLe;
    payload := None;
    ghost var base := reader.offset;
    var ok0, lowest := reader.GetU64();
    if !ok0 { return; }
    var ok1, highest := reader.GetU64();
    if !ok1 { return; }
    var ok2, receivedCount := reader.GetU64();
    if !ok2 { return; }
    var ok3, restart := reader.GetU8();
    if !ok3 { return; }
    payload := Some(SequenceReport(lowest, highest, receivedCount, restart != 0));
    Shift(reader.buffer, base, 0, 8);
    Shift(reader.buffer, base, 8, 8);
    Shift(reader.buffer, base, 16, 8);
    Shift(reader.buffer, base, 24, 1);
  }

  method DecodeEndpointReport(reader: ByteReader) returns (payload: Option<Payload>)
    requires reader.Valid()
    modifies reader
    ensures reader.Valid()
    ensures payload.Some? && reader.AtEnd() ==> DecodedPayload(4, reader.buffer[old(reader.offset)..]) == payload
    ensures payload.None? || !reader.AtEnd() ==> DecodedPayload(4, reader.buffer[old(reader.offset)..]) == None
  {
    hide FromLe;
    payload := None;
    ghost var base := reader.offset;
    var ok0, roleCode := reader.GetU8();
    if !ok0 { return; }
    var ok1, node := reader.GetU64();
    if !ok1 { return; }
    var ok2, port := reader.GetU64();
    if !ok2 { return; }
    var ok3, count := reader.GetU64();
    if !ok3 { return; }
    var ok4, reset := reader.GetU8();
    if !ok4 { return; }
    Shift(reader.buffer, base, 0, 1);
    var role := RoleFromCode(roleCode);
    if role.None? { return; }
    payload := Some(EndpointReport(role.value, node, port, count, reset != 0));
    Shift(reader.buffer, base, 1, 8);
    Shift(reader.buffer, base, 9, 8);
    Shift(reader.buffer, base, 17, 8);
    Shift(reader.buffer, base, 25, 1);
  }

  // The six identities at the start of the header.
  method ReadIdentities(reader: ByteReader)
      returns (ok: bool, id: U64, source: U64, epoch: U64, generation: U64, revision: U64, sequence: U64)
    requires reader.Valid() && reader.offset == 1
    modifies reader
    ensures reader.Valid() && ok == (49 <= |reader.buffer|)
    ensures ok ==>
              && reader.offset == 49
              && id == At(reader.buffer, 1, 8) && source == At(reader.buffer, 9, 8)
              && epoch == At(reader.buffer, 17, 8) && generation == At(reader.buffer, 25, 8)
              && revision == At(reader.buffer, 33, 8) && sequence == At(reader.buffer, 41, 8)
  {
    hide FromLe;
    id, source, epoch, generation, revision, sequence := 0, 0, 0, 0, 0, 0;
    ok, id := reader.GetU64();
    if !ok { return; }
    ok, source := reader.GetU64();
    if !ok { return; }
    ok, epoch := reader.GetU64();
    if !ok { return; }
    ok, generation := reader.GetU64();
    if !ok { return; }
    ok, revision := reader.GetU64();
    if !ok { return; }
    ok, sequence := reader.GetU64();
  }

  // Everything between the version and the payload.
  method ReadHeader(reader: ByteReader) returns (header: Option<Header>, kind: U8)
    requires reader.Valid() && reader.offset == 1
    modifies reader
    ensures reader.Valid()
    ensures var b := reader.buffer;
            header.Some? <==>
              && |b| >= 82 && |b| >= 82 + At(b, 76, 4) && At(b, 76, 4) <= MAX_METADATA_BYTES
              && DecodedHeader(b).Some?
    ensures header.Some? ==>
              var b := reader.buffer;
              var n := At(b, 76, 4);
              header == DecodedHeader(b) && kind == At(b, 81 + n, 1) && reader.offset == 82 + n
  {
    hide FromLe, SubjectFromCode, GranularityFromCode, MethodFromCode, BytesText;
    header, kind := None, 0;
    var ok, id, source, epoch, generation, revision, sequence := ReadIdentities(reader);
    if !ok { return; }
    var ok7, observed := reader.GetI64();
    if !ok7 { return; }
    var ok8, received := reader.GetI64();
    if !ok8 { return; }
    var ok9, methodCode := reader.GetU8();
    if !ok9 { return; }
    var ok10, granularityCode := reader.GetU8();
    if !ok10 { return; }
    var ok11, subjectCode := reader.GetU8();
    if !ok11 { return; }
    var m, g, k := MethodFromCode(methodCode), GranularityFromCode(granularityCode), SubjectFromCode(subjectCode);
    if m.None? || g.None? || k.None? { return; }
    var ok12, subjectId := reader.GetU64();
    if !ok12 || k.value.UnknownSubject? { return; }
    var ok13, note := reader.GetText(MAX_METADATA_BYTES);
    if !ok13 { return; }
    var ok14, recovered := reader.GetU8();
    if !ok14 { return; }
    var ok15, code := reader.GetU8();
    if !ok15 { return; }
    kind := code;
    header := Some(Header(id, source, epoch, generation, revision, sequence, observed, received,
                          m.value, SubjectRef(k.value, subjectId), g.value, BytesText(note), recovered != 0));
  }

  method DecodeEvidence(bytes: seq<Byte>) returns (decoded: Decoded)
    ensures decoded == Decode(bytes)
  {
    hide FromLe, DecodedPayload, DecodedHeader;
    decoded := Corrupt;
    var reader := new ByteReader(bytes);
    var ok, version := reader.GetU8();
    if !ok || version != ENCODING_VERSION { return; }
    var header, kind := ReadHeader(reader);
    if header.None? { return; }
    var payload: Option<Payload> := None;
    match kind {
      case 1 => payload := DecodeCounterSample(reader);
      case 2 => payload := DecodeProbeReport(reader);
      case 3 => payload := DecodeSequenceReport(reader);
      case 4 => payload := DecodeEndpointReport(reader);
      case _ =>
        OtherKinds(kind, bytes[reader.offset..]);
        if kind != 0 {
          payload := Some(BLANK);
        }
    }
    if payload.None? || !reader.AtEnd() { return; }
    decoded := Ok(Item(header.value, payload.value));
  }

  lemma OtherKinds(kind: int, p: seq<Byte>)
    ensures !(1 <= kind <= 4) ==> DecodedPayload(kind, p) == if kind != 0 && p == [] then Some(BLANK) else None
  {
  }

  // ---- round trip ---------------------------------------------------------------

  // One step down the chunk list: a number stored in a chunk is read back, and
  // the next chunk follows it.
  lemma FieldAt(chunks: seq<seq<Byte>>, k: nat, v: nat, n: nat)
    requires k < |chunks| && chunks[k] == Le(v, n) && v < Pow256(n)
    ensures Offset(chunks, k) + n <= |Cat(chunks)|
    ensures At(Cat(chunks), Offset(chunks, k), n) == v
    ensures Offset(chunks, k + 1) == Offset(chunks, k) + n
  {
    ChunkAt(chunks, k);
    OffsetStep(chunks, k);
    FromLeOfLe(v, n);
  }

  lemma Field1(chunks: seq<seq<Byte>>, k: nat, v: U8)
    requires k < |chunks| && chunks[k] == Le(v, 1)
    ensures Offset(chunks, k) + 1 <= |Cat(chunks)|
    ensures At(Cat(chunks), Offset(chunks, k), 1) == v
    ensures Offset(chunks, k + 1) == Offset(chunks, k) + 1
  {
    Powers();
    FieldAt(chunks, k, v, 1);
  }

  lemma Field4(chunks: seq<seq<Byte>>, k: nat, v: U32)
    requires k < |chunks| && chunks[k] == Le(v, 4)
    ensures Offset(chunks, k) + 4 <= |Cat(chunks)|
    ensures At(Cat(chunks), Offset(chunks, k), 4) == v
    ensures Offset(chunks, k + 1) == Offset(chunks, k) + 4
  {
    Powers();
    FieldAt(chunks, k, v, 4);
  }

  lemma Field8(chunks: seq<seq<Byte>>, k: nat, v: U64)
    requires k < |chunks| && chunks[k] == Le(v, 8)
    ensures Offset(chunks, k) + 8 <= |Cat(chunks)|
    ensures At(Cat(chunks), Offset(chunks, k), 8) == v
    ensures Offset(chunks, k + 1) == Offset(chunks, k) + 8
  {
    Powers();
    FieldAt(chunks, k, v, 8);
  }

  lemma {:induction false} CatAppend(a: seq<seq<Byte>>, b: seq<seq<Byte>>)
    ensures Cat(a + b) == Cat(a) + Cat(b)
    decreases |b|
  {
    if b == [] {
      assert a + b == a;
      assert Cat(a) + [] == Cat(a);
    } else {
      hide Cat;
      var front, last := b[..|b| - 1], b[|b| - 1];
      CatAppend(a, front);
      CatSnoc(a + front, last);
      CatSnoc(front, last);
      assert b == front + [last];
      assert a + (front + [last]) == (a + front) + [last];
      Regroup(Cat(a), Cat(front), last);
    }
  }

  lemma WithPayloadAppends(base: seq<seq<Byte>>, p: Payload)
    ensures WithPayload(base, p) == base + WithPayload([], p)
  {
    hide Le, Flag, ScopeCode, RoleCode;
    match p {
      case CounterSample(counter, scope, value, widthBits, node, port, queue, hop, link) =>
        var few := [] + [Le(counter, 8)] + [Le(ScopeCode(scope), 1)] + [Le(value, 8)] + [Le(widthBits, 1)];
        var most := few + [Le(node, 8)] + [Le(port, 8)];
        assert base + [Le(counter, 8)] + [Le(ScopeCode(scope), 1)] + [Le(value, 8)] + [Le(widthBits, 1)]
            == base + few;
        assert (base + few) + [Le(node, 8)] + [Le(port, 8)] == base + most;
        assert (base + most) + [Le(queue, 8)] + [Le(hop, 8)] + [Le(link, 8)]
            == base + (most + [Le(queue, 8)] + [Le(hop, 8)] + [Le(link, 8)]);
      case ProbeReport(probe, sent, received, timedOut, ttlScoped, ttl, oneWay) =>
        var few := [] + [Le(probe, 8)] + [Le(sent, 4)] + [Le(received, 4)] + [Le(timedOut, 4)];
        assert base + [Le(probe, 8)] + [Le(sent, 4)] + [Le(received, 4)] + [Le(timedOut, 4)] == base + few;
        assert (base + few) + [Le(Flag(ttlScoped), 1)] + [Le(ttl, 1)] + [Le(Flag(oneWay), 1)]
            == base + (few + [Le(Flag(ttlScoped), 1)] + [Le(ttl, 1)] + [Le(Flag(oneWay), 1)]);
      case SequenceReport(_, _, _, _) =>
      case EndpointReport(_, _, _, _, _) =>
    }
  }

  // The chunks of a header and of the kind behind it.
  ghost predicate HeaderList(c: seq<seq<Byte>>, h: Header, kind: U8) {
    |c| == 17 && HeaderStart(c, h) && HeaderEnd(c, h) && c[16] == Le(kind, 1)
  }

  ghost predicate HeaderStart(c: seq<seq<Byte>>, h: Header)
    requires |c| == 17
  {
    && c[0] == Le(ENCODING_VERSION, 1) && c[1] == Le(h.id, 8) && c[2] == Le(h.source, 8) && c[3] == Le(h.epoch, 8)
    && c[4] == Le(h.generation, 8) && c[5] == Le(h.revision, 8) && c[6] == Le(h.sequence, 8)
  }

  ghost predicate HeaderEnd(c: seq<seq<Byte>>, h: Header)
    requires |c| == 17
  {
    && c[7] == Le(ToUnsigned(h.observedAt), 8) && c[8] == Le(ToUnsigned(h.receivedAt), 8)
    && c[9] == Le(MethodCode(h.method_), 1) && c[10] == Le(GranularityCode(h.granularity), 1)
    && c[11] == Le(SubjectCode(h.subject.kind), 1) && c[12] == Le(h.subject.id, 8) && c[13] == Le(|h.note|, 4)
    && c[14] == TextBytes(h.note) && c[15] == Le(Flag(h.recovered), 1)
  }

  lemma HeaderChunkList(h: Header, kind: U8)
    ensures HeaderList(HeaderChunks(h) + [Le(kind, 1)], h, kind)
  {
    hide Le, ToUnsigned, MethodCode, GranularityCode, SubjectCode, Flag, TextBytes;
  }

  // The header part of an encoding, field by field at its offset.
  lemma HeaderIds(c: seq<seq<Byte>>, h: Header, kind: U8)
    requires HeaderList(c, h, kind)
    ensures Offset(c, 5) == 33 && |Cat(c)| >= 33
    ensures var b := Cat(c);
            && At(b, 0, 1) == ENCODING_VERSION
            && At(b, 1, 8) == h.id && At(b, 9, 8) == h.source && At(b, 17, 8) == h.epoch
            && At(b, 25, 8) == h.generation
  {
    hide Le, Cat, Offset, At, ToUnsigned, MethodCode, GranularityCode, SubjectCode, Flag, TextBytes;
    OffsetEnds(c);
    Field1(c, 0, ENCODING_VERSION);
    Field8(c, 1, h.id);
    Field8(c, 2, h.source);
    Field8(c, 3, h.epoch);
    Field8(c, 4, h.generation);
  }

  lemma HeaderTimes(c: seq<seq<Byte>>, h: Header, kind: U8)
    requires HeaderList(c, h, kind) && Offset(c, 5) == 33
    ensures Offset(c, 9) == 65 && |Cat(c)| >= 65
    ensures var b := Cat(c);
            && At(b, 33, 8) == h.revision && At(b, 41, 8) == h.sequence
            && At(b, 49, 8) == ToUnsigned(h.observedAt) && At(b, 57, 8) == ToUnsigned(h.receivedAt)
  {
    hide Le, Cat, Offset, At, ToUnsigned, MethodCode, GranularityCode, SubjectCode, Flag, TextBytes;
    OffsetEnds(c);
    Field8(c, 5, h.revision);
    Field8(c, 6, h.sequence);
    Field8(c, 7, ToUnsigned(h.observedAt));
    Field8(c, 8, ToUnsigned(h.receivedAt));
  }

  lemma HeaderRest(c: seq<seq<Byte>>, h: Header, kind: U8)
    requires HeaderList(c, h, kind) && Offset(c, 9) == 65 && |h.note| <= 0xFFFF_FFFF
    ensures |Cat(c)| == 82 + |h.note|
    ensures var b, n := Cat(c), |h.note|;
            && At(b, 65, 1) == MethodCode(h.method_) && At(b, 66, 1) == GranularityCode(h.granularity)
            && At(b, 67, 1) == SubjectCode(h.subject.kind) && At(b, 68, 8) == h.subject.id
            && At(b, 76, 4) == n && b[80..80 + n] == TextBytes(h.note)
            && At(b, 80 + n, 1) == Flag(h.recovered) && At(b, 81 + n, 1) == kind
  {
    hide Le, Cat, Offset, At, ToUnsigned, MethodCode, GranularityCode, SubjectCode, Flag, TextBytes;
    OffsetEnds(c);
    Field1(c, 9, MethodCode(h.method_));
    Field1(c, 10, GranularityCode(h.granularity));
    Field1(c, 11, SubjectCode(h.subject.kind));
    Field8(c, 12, h.subject.id);
    Field4(c, 13, |h.note|);
    ChunkAt(c, 14);
    OffsetStep(c, 14);
    Field1(c, 15, Flag(h.recovered));
    Field1(c, 16, kind);
  }

  lemma OffsetEnds(chunks: seq<seq<Byte>>)
    ensures Offset(chunks, 0) == 0 && Offset(chunks, |chunks|) == |Cat(chunks)|
  {
    assert chunks[..|chunks|] == chunks;
  }

  lemma CounterRoundTrip(p: Payload)
    requires p.CounterSample?
    ensures DecodedPayload(1, Cat(WithPayload([], p))) == Some(p)
  {
    hide Le, Cat, Offset, At;
    var c := WithPayload([], p);
    OffsetEnds(c);
    Field8(c, 0, p.counter);
    Field1(c, 1, ScopeCode(p.scope));
    Field8(c, 2, p.value);
    Field1(c, 3, p.widthBits);
    Field8(c, 4, p.node);
    Field8(c, 5, p.port);
    Field8(c, 6, p.queue);
    Field8(c, 7, p.hop);
    Field8(c, 8, p.link);
    ScopeCodes(p.scope);
    hide WithPayload, ScopeCode, ScopeFromCode;
  }

  lemma ScopeCodes(s: CounterScope)
    ensures ScopeFromCode(ScopeCode(s)) == Some(s)
  {
  }

  lemma ProbeRoundTripBytes(p: Payload)
    requires p.ProbeReport?
    ensures DecodedPayload(2, Cat(WithPayload([], p))) == Some(p)
  {
    hide Le, Cat, Offset, At;
    var c := WithPayload([], p);
    OffsetEnds(c);
    Field8(c, 0, p.probe);
    Field4(c, 1, p.sent);
    Field4(c, 2, p.received);
    Field4(c, 3, p.timedOut);
    Field1(c, 4, Flag(p.ttlScoped));
    Field1(c, 5, p.ttl);
    Field1(c, 6, Flag(p.oneWay));
  }

  lemma SequenceRoundTrip(p: Payload)
    requires p.SequenceReport?
    ensures DecodedPayload(3, Cat(WithPayload([], p))) == Some(p)
  {
    hide Le, Cat, Offset, At;
    var c := WithPayload([], p);
    OffsetEnds(c);
    Field8(c, 0, p.lowest);
    Field8(c, 1, p.highest);
    Field8(c, 2, p.receivedCount);
    Field1(c, 3, Flag(p.restart));
  }

  lemma EndpointRoundTrip(p: Payload)
    requires p.EndpointReport?
    ensures DecodedPayload(4, Cat(WithPayload([], p))) == Some(p)
  {
    hide Le, Cat, Offset, At;
    var c := WithPayload([], p);
    OffsetEnds(c);
    Field1(c, 0, RoleCode(p.role));
    Field8(c, 1, p.endNode);
    Field8(c, 2, p.endPort);
    Field8(c, 3, p.count);
    Field1(c, 4, Flag(p.reset));
  }

  lemma PayloadRoundTrip(p: Payload)
    ensures DecodedPayload(KindCode(p), Cat(WithPayload([], p))) == Some(p)
  {
    hide DecodedPayload, Cat, WithPayload;
    match p {
      case CounterSample(_, _, _, _, _, _, _, _, _) => CounterRoundTrip(p);
      case ProbeReport(_, _, _, _, _, _, _) => ProbeRoundTripBytes(p);
      case SequenceReport(_, _, _, _) => SequenceRoundTrip(p);
      case EndpointReport(_, _, _, _, _) => EndpointRoundTrip(p);
    }
  }

  lemma Layout(item: Item)
    ensures var front := Cat(HeaderChunks(item.header) + [Le(KindCode(item.payload), 1)]);
            Cat(Chunks(item)) == front + Cat(WithPayload([], item.payload))
    ensures |item.header.note| <= |Cat(Chunks(item))|
  {
    hide Le, HeaderChunks, WithPayload, Cat;
    var front := HeaderChunks(item.header) + [Le(KindCode(item.payload), 1)];
    WithPayloadAppends(front, item.payload);
    CatAppend(front, WithPayload([], item.payload));
    HeaderChunkList(item.header, KindCode(item.payload));
    NoteInHeader(front, item.header, KindCode(item.payload));
  }

  lemma NoteInHeader(c: seq<seq<Byte>>, h: Header, kind: U8)
    requires HeaderList(c, h, kind)
    ensures |h.note| <= |Cat(c)|
  {
    hide Le, Cat, Offset, Flag, TextBytes;
    ChunkAt(c, 14);
  }

  // Reading inside the front part of a concatenation.
  lemma AtFront(front: seq<Byte>, rest: seq<Byte>, offset: nat, n: nat)
    requires offset + n <= |front|
    ensures At(front + rest, offset, n) == At(front, offset, n)
  {
    assert (front + rest)[offset..offset + n] == front[offset..offset + n];
  }

  lemma DecodedHeaderFront(front: seq<Byte>, rest: seq<Byte>)
    requires |front| >= 82 && |front| >= 82 + At(front, 76, 4)
    ensures At(front + rest, 76, 4) == At(front, 76, 4)
    ensures DecodedHeader(front + rest) == DecodedHeader(front)
  {
    hide At;
    forall offset: nat, n: nat | offset + n <= |front|
      ensures At(front + rest, offset, n) == At(front, offset, n)
    {
      AtFront(front, rest, offset, n);
    }
    var n := At(front, 76, 4);
    assert (front + rest)[80..80 + n] == front[80..80 + n];
  }

  // The header is read back as it was written.
  lemma HeaderRoundTrip(c: seq<seq<Byte>>, h: Header, kind: U8)
    requires HeaderList(c, h, kind) && |h.note| <= MAX_METADATA_BYTES && !h.subject.kind.UnknownSubject?
    ensures |Cat(c)| >= 82 && |Cat(c)| >= 82 + At(Cat(c), 76, 4) && DecodedHeader(Cat(c)) == Some(h)
  {
    hide Le, Cat, HeaderList, At;
    HeaderIds(c, h, kind);
    HeaderTimes(c, h, kind);
    HeaderRest(c, h, kind);
    TextRoundTrip(h.note);
    assert ToSigned(ToUnsigned(h.observedAt)) == h.observedAt;
    assert ToSigned(ToUnsigned(h.receivedAt)) == h.receivedAt;
  }

  lemma DecodedPayloadSize(kind: int, p: seq<Byte>)
    ensures DecodedPayload(kind, p).Some? ==> |p| <= 58
  {
  }

  ghost predicate Decodable(item: Item) {
    |item.header.note| <= MAX_METADATA_BYTES && !item.header.subject.kind.UnknownSubject?
  }

  lemma EncodingFits(item: Item)
    requires |item.header.note| <= MAX_METADATA_BYTES
    ensures |Cat(Chunks(item))| == 82 + |item.header.note| + |Cat(WithPayload([], item.payload))|
    ensures |Cat(WithPayload([], item.payload))| <= 58
  {
    hide Le, Cat, HeaderChunks, Chunks, WithPayload, At;
    DecodedPayloadSize(KindCode(item.payload), Cat(WithPayload([], item.payload)));
    hide DecodedPayload;
    Layout(item);
    var c := HeaderChunks(item.header) + [Le(KindCode(item.payload), 1)];
    HeaderChunkList(item.header, KindCode(item.payload));
    hide HeaderList;
    HeaderIds(c, item.header, KindCode(item.payload));
    HeaderTimes(c, item.header, KindCode(item.payload));
    HeaderRest(c, item.header, KindCode(item.payload));
    PayloadRoundTrip(item.payload);
  }

  // An encoded item decodes to itself exactly when its subject is known and its
  // note is within the bound the decoder puts on text.
  lemma RoundTrip(item: Item)
    ensures Decode(Encoding(item)) == Ok(item) <==> Decodable(item)
  {
    hide Le, HeaderChunks, WithPayload, Cat, Chunks;
    if Decodable(item) {
      RoundTripForward(item);
    } else if Decode(Encoding(item)) == Ok(item) {
      DecodedIsDecodable(Encoding(item));
    }
  }

  lemma DecodedIsDecodable(b: seq<Byte>)
    requires Decode(b).Ok?
    ensures Decodable(Decode(b).item)
  {
    hide DecodedPayload;
    var n := At(b, 76, 4);
    assert Decode(b).item.header == DecodedHeader(b).value;
    assert |Decode(b).item.header.note| == n;
  }

  lemma RoundTripForward(item: Item)
    requires Decodable(item)
    ensures Decode(Encoding(item)) == Ok(item)
  {
    hide Le, HeaderChunks, WithPayload, Cat, DecodedPayload, DecodedHeader;
    var kind := KindCode(item.payload);
    var c := HeaderChunks(item.header) + [Le(kind, 1)];
    var front := Cat(c);
    var rest := Cat(WithPayload([], item.payload));
    EncodingFits(item);
    Layout(item);
    HeaderChunkList(item.header, kind);
    hide Chunks, HeaderList;
    HeaderIds(c, item.header, kind);
    HeaderTimes(c, item.header, kind);
    HeaderRest(c, item.header, kind);
    HeaderRoundTrip(c, item.header, kind);
    DecodedHeaderFront(front, rest);
    PayloadRoundTrip(item.payload);
    var n := |item.header.note|;
    AtFront(front, rest, 0, 1);
    AtFront(front, rest, 81 + n, 1);
    assert (front + rest)[82 + n..] == rest;
  }

  // Decodable byte strings are prefix-free.
  lemma PrefixFree(b: seq<Byte>, tail: seq<Byte>)
    requires Decode(b).Ok? && Decode(b + tail).Ok?
    ensures tail == []
  {
    hide DecodedHeader, At;
    AtFront(b, tail, 76, 4);
    var n := At(b, 76, 4);
    AtFront(b, tail, 81 + n, 1);
    assert |(b + tail)[82 + n..]| == |b[82 + n..]| + |tail|;
  }

  // No proper prefix and no proper extension of an encoding decodes.
  lemma EncodingPrefixFree(item: Item, other: seq<Byte>)
    requires Decodable(item)
    requires Encoding(item) <= other || other <= Encoding(item)
    ensures Decode(other).Ok? <==> other == Encoding(item)
  {
    hide Le, HeaderChunks, WithPayload, Cat, Chunks, Encoding, Decode;
    RoundTripForward(item);
    var b := Encoding(item);
    if Decode(other).Ok? {
      if b <= other {
        assert other == b + other[|b|..];
        PrefixFree(b, other[|b|..]);
      } else {
        assert b == other + b[|other|..];
        PrefixFree(other, b[|other|..]);
      }
    }
  }

  // A header that reads and the discriminator behind it.
  ghost predicate HeaderReads(b: seq<Byte>) {
    && |b| >= 82 && |b| >= 82 + At(b, 76, 4) && At(b, 76, 4) <= MAX_METADATA_BYTES
    && At(b, 0, 1) == ENCODING_VERSION && DecodedHeader(b).Some?
  }

  // An unknown discriminator behind a readable header is refused exactly when it is
  // zero or something follows it.
  lemma UnknownKindRefused(b: seq<Byte>)
    requires HeaderReads(b) && !(1 <= At(b, 81 + At(b, 76, 4), 1) <= 4)
    ensures Decode(b) == Corrupt <==> At(b, 81 + At(b, 76, 4), 1) == 0 || |b| > 82 + At(b, 76, 4)
  {
    hide At, DecodedHeader;
    var n := At(b, 76, 4);
    OtherKinds(At(b, 81 + n, 1), b[82 + n..]);
  }

  // So with a header of any item in front of it, every discriminator from five up
  // decodes, as a counter sample of which nothing was written.
  lemma UnknownKindAccepted(h: Header, kind: U8)
    requires kind >= 5 && |h.note| <= MAX_METADATA_BYTES && !h.subject.kind.UnknownSubject?
    ensures Decode(Cat(HeaderChunks(h) + [Le(kind, 1)])) == Ok(Item(h, BLANK))
  {
    hide Le, Cat, HeaderChunks, At, DecodedHeader, DecodedPayload;
    var c := HeaderChunks(h) + [Le(kind, 1)];
    HeaderChunkList(h, kind);
    hide HeaderList;
    HeaderIds(c, h, kind);
    HeaderTimes(c, h, kind);
    HeaderRest(c, h, kind);
    HeaderRoundTrip(c, h, kind);
    var n := |h.note|;
    OtherKinds(kind, Cat(c)[82 + n..]);
  }
}
