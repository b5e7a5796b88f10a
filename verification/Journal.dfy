// The journal: how records are framed, and the recovery loop that reads them
// back and stops at the first damaged one.  A file is its sequence of bytes.
module Journal {
  import opened Crc32c
  import opened Octets
  import opened Bytes
  import opened EvidenceCodec

  const MAGIC: U32 := 0x4C4F_4A31
  const PREFIX_BYTES := 20
  const HEADER_BYTES := 24
  const MANIFEST: U16 := 1
  const SESSION: U16 := 7
  const FORMAT_VERSION: U32 := 1
  const SEMANTICS_REVISION: U32 := 1
  const MAX_MANIFEST_TEXT := 128

  datatype Limits = Limits(maxPayload: nat, maxRecords: nat)

  datatype Record = Record(kind: U16, sequence: U64, payload: seq<Byte>)

  // ---- framing ---------------------------------------------------------------

  // The length field is a 32-bit cast of the payload size.
  function Prefix(r: Record): (p: seq<Byte>)
    ensures |p| == PREFIX_BYTES
  {
    Le(MAGIC, 4) + Le(r.kind, 2) + Le(0, 2) + Le(|r.payload| % 0x1_0000_0000, 4) + Le(r.sequence, 8)
  }

  function Checksum(prefix: seq<Byte>, payload: seq<Byte>): U32 {
    Extend(Extend(0, prefix), payload) as int
  }

  function Frame(r: Record): (f: seq<Byte>)
    ensures |f| == HEADER_BYTES + |r.payload|
  {
    Prefix(r) + Le(Checksum(Prefix(r), r.payload), 4) + r.payload
  }

  function Framed(records: seq<Record>): seq<Byte> {
    if records == [] then [] else Frame(records[0]) + Framed(records[1..])
  }

  lemma {:induction false} FramedAppend(a: seq<Record>, b: seq<Record>)
    ensures Framed(a + b) == Framed(a) + Framed(b)
  {
    hide Frame;
    if a == [] {
      assert a + b == b;
    } else {
      assert (a + b)[1..] == a[1..] + b;
      FramedAppend(a[1..], b);
    }
  }

  // ---- the manifest ------------------------------------------------------------

  datatype Verdict = Good | Undecodable | OtherFormat | OtherSemantics

  function ManifestPayload(product: seq<Byte>, created: I64, instance: seq<Byte>): seq<Byte> {
    Le(FORMAT_VERSION, 4) + Le(SEMANTICS_REVISION, 4) + Le(|product|, 4) + product
    + Le(ToUnsigned(created), 8) + Le(|instance|, 4) + instance
  }

  function ManifestVerdict(p: seq<Byte>): Verdict {
    if |p| < 12 then Undecodable
    else
      var n := At(p, 8, 4);
      if n > MAX_MANIFEST_TEXT || |p| < 24 + n then Undecodable
      else
        var m := At(p, 20 + n, 4);
        if m > MAX_MANIFEST_TEXT || |p| < 24 + n + m then Undecodable
        else if At(p, 0, 4) != FORMAT_VERSION then OtherFormat
        else if At(p, 4, 4) != SEMANTICS_REVISION then OtherSemantics
        else Good
  }

  lemma FieldInFront(p: seq<Byte>, tail: seq<Byte>, offset: nat, n: nat)
    requires offset + n <= |p|
    ensures At(p + tail, offset, n) == At(p, offset, n)
  {
    assert (p + tail)[offset..offset + n] == p[offset..offset + n];
  }

  // A manifest that is read at all is read the same with anything behind it: its
  // decoder never refuses trailing bytes.
  lemma TrailingBytesAreIgnored(p: seq<Byte>, tail: seq<Byte>)
    requires ManifestVerdict(p) != Undecodable
    ensures ManifestVerdict(p + tail) == ManifestVerdict(p)
  {
    hide At;
    var n := At(p, 8, 4);
    FieldInFront(p, tail, 0, 4);
    FieldInFront(p, tail, 4, 4);
    FieldInFront(p, tail, 8, 4);
    FieldInFront(p, tail, 20 + n, 4);
  }

  method ReadManifest(payload: seq<Byte>) returns (v: Verdict)
    ensures v == ManifestVerdict(payload)
  {
    hide FromLe;
    v := Undecodable;
    var body := new ByteReader(payload);
    var ok0, format := body.GetU32();
    if !ok0 { return; }
    var ok1, semantics := body.GetU32();
    if !ok1 { return; }
    var ok2, product := body.GetText(MAX_MANIFEST_TEXT);
    if !ok2 { return; }
    var ok3, created := body.GetI64();
    if !ok3 { return; }
    var ok4, instance := body.GetText(MAX_MANIFEST_TEXT);
    if !ok4 { return; }
    v := if format != FORMAT_VERSION then OtherFormat
         else if semantics != SEMANTICS_REVISION then OtherSemantics
         else Good;
  }

  // ---- recovery ------------------------------------------------------------------

  // What recovery has found so far.  "delivered" lists the records that were
  // handed to the registries, in order.
  datatype Report = Report(
    delivered: seq<Record>,
    read: nat, accepted: nat, discarded: nat,
    bytesRead: nat, validBytes: nat,
    truncated: bool, checksumFailure: bool, otherFormat: bool, otherSemantics: bool,
    manifestSeen: bool)

  const START := Report([], 0, 0, 0, 0, 0, false, false, false, false, false)

  datatype Step = Stop(report: Report) | Next(pos: nat, report: Report)

  // Whether the registries take a record depends on what they were given before.
  type Registry = (seq<Record>, Record) -> bool

  function ParsedHeader(h: seq<Byte>): (U16, U32, U64, U32)
    requires |h| == HEADER_BYTES
  {
    AtBounds(h, 8, 4);
    AtBounds(h, 12, 8);
    AtBounds(h, 20, 4);
    Word16Bounds(h, 4);
    (At(h, 4, 2), At(h, 8, 4), At(h, 12, 8), At(h, 20, 4))
  }

  lemma Word16Bounds(b: seq<Byte>, offset: nat)
    requires offset + 2 <= |b|
    ensures At(b, offset, 2) < 0x1_0000
  {
    LeOfFromLe(b[offset..offset + 2]);
    Powers();
  }

  // A record that passed its integrity check is handed on.
  function Deliver(record: Record, at: Report, registry: Registry): (bool, Report) {
    if !at.manifestSeen && record.kind != MANIFEST then
      (false, at.(truncated := true))
    else
      var handed := at.(delivered := at.delivered + [record]);
      if record.kind == MANIFEST then
        var seen := handed.(manifestSeen := true);
        match ManifestVerdict(record.payload)
        case Good => (true, seen.(accepted := seen.accepted + 1))
        case Undecodable => (false, seen.(truncated := true, accepted := seen.accepted + 1))
        case OtherFormat => (false, seen.(otherFormat := true, discarded := seen.discarded + 1))
        case OtherSemantics => (false, seen.(otherSemantics := true, discarded := seen.discarded + 1))
      else if registry(at.delivered, record) then
        (true, handed.(accepted := handed.accepted + 1))
      else
        (true, handed.(discarded := handed.discarded + 1))
  }

  // Handing over adds at most one record and counts it at most once.
  ghost predicate OneMore(before: Report, after: Report, record: Record) {
    && after.read == before.read
    && (after.delivered == before.delivered || after.delivered == before.delivered + [record])
    && before.accepted <= after.accepted
    && after.accepted + after.discarded <= before.accepted + before.discarded + 1
  }

  lemma DeliverIsOneMore(record: Record, at: Report, registry: Registry)
    ensures OneMore(at, Deliver(record, at, registry).1, record)
  {
    hide ManifestVerdict;
  }

  // What stands at the cursor: nothing, something that is not a whole record,
  // a record that fails its integrity check, or a record.
  datatype Found = Nothing | Broken | Damaged(length: nat) | Intact(record: Record)

  function Look(file: seq<Byte>, pos: nat, limits: Limits): (f: Found)
    requires pos <= |file|
    ensures f.Intact? ==> pos + HEADER_BYTES + |f.record.payload| <= |file|
  {
    var left := |file| - pos;
    if left == 0 then Nothing
    else if left < HEADER_BYTES then Broken
    else
      var header := file[pos..pos + HEADER_BYTES];
      var (kind, length, sequence, stored) := ParsedHeader(header);
      if At(header, 0, 4) != MAGIC || length > limits.maxPayload || left < HEADER_BYTES + length then Broken
      else
        var payload := file[pos + HEADER_BYTES..pos + HEADER_BYTES + length];
        if Checksum(header[..PREFIX_BYTES], payload) != stored then Damaged(length)
        else Intact(Record(kind, sequence, payload))
  }

  // A record was read in full, whatever its checksum says.
  function Counted(at: Report, length: nat): Report {
    at.(bytesRead := at.bytesRead + HEADER_BYTES + length, read := at.read + 1)
  }

  // One turn of the recovery loop.
  function Act(pos: nat, found: Found, at: Report, limits: Limits, registry: Registry): Step {
    match found
    case Nothing => Stop(at)
    case Broken => Stop(at.(truncated := true))
    case Damaged(length) =>
      var counted := Counted(at, length);
      Stop(counted.(checksumFailure := true, truncated := true, discarded := counted.discarded + 1))
    case Intact(record) =>
      var counted := Counted(at, |record.payload|);
      if counted.read > limits.maxRecords then Stop(counted.(truncated := true))
      else
        var (go, report) := Deliver(record, counted.(validBytes := counted.bytesRead), registry);
        if go then Next(pos + HEADER_BYTES + |record.payload|, report) else Stop(report)
  }

  function ReadOne(file: seq<Byte>, pos: nat, at: Report, limits: Limits, registry: Registry): (s: Step)
    requires pos <= |file|
    ensures s.Next? ==> pos < s.pos <= |file|
  {
    hide Look, Deliver;
    Act(pos, Look(file, pos, limits), at, limits, registry)
  }

  lemma ActKeeps(pos: nat, found: Found, at: Report, limits: Limits, registry: Registry)
    ensures var report := Act(pos, found, at, limits, registry).report;
            && (at.read >= at.accepted + at.discarded ==> report.read >= report.accepted + report.discarded)
            && at.delivered <= report.delivered && at.accepted <= report.accepted
  {
    hide Deliver;
    if found.Intact? {
      var counted := Counted(at, |found.record.payload|);
      DeliverIsOneMore(found.record, counted.(validBytes := counted.bytesRead), registry);
    }
  }

  function Recovered(file: seq<Byte>, pos: nat, at: Report, limits: Limits, registry: Registry): Report
    requires pos <= |file|
    decreases |file| - pos
  {
    match ReadOne(file, pos, at, limits, registry)
    case Stop(report) => report
    case Next(next, report) => Recovered(file, next, report, limits, registry)
  }

  function Load(file: seq<Byte>, limits: Limits, registry: Registry): Report {
    Recovered(file, 0, START, limits, registry)
  }

  // The discarded count is topped up at the end so that every record read is
  // accounted for.
  function Settled(r: Report): Report {
    if r.read >= r.accepted + r.discarded then r.(discarded := r.read - r.accepted) else r
  }

  method DeliverRecord(record: Record, at: Report, registry: Registry) returns (go: bool, report: Report)
    ensures (go, report) == Deliver(record, at, registry)
  {
    hide ManifestVerdict;
    go, report := true, at;
    if !report.manifestSeen && record.kind != MANIFEST {
      report := report.(truncated := true);
      return false, report;
    }
    var accepted := true;
    if record.kind == MANIFEST {
      report := report.(manifestSeen := true);
      var verdict := ReadManifest(record.payload);
      match verdict {
        case Good =>
        case Undecodable => report := report.(truncated := true); go := false;
        case OtherFormat => report := report.(otherFormat := true); accepted := false; go := false;
        case OtherSemantics => report := report.(otherSemantics := true); accepted := false; go := false;
      }
    } else {
      accepted := registry(report.delivered, record);
    }
    report := report.(delivered := report.delivered + [record]);
    if accepted {
      report := report.(accepted := report.accepted + 1);
    } else {
      report := report.(discarded := report.discarded + 1);
    }
  }

  method ReadHeader(header: seq<Byte>) returns (magic: U32, kind: U16, length: U32, sequence: U64, stored: U32)
    requires |header| == HEADER_BYTES
    ensures magic == At(header, 0, 4)
    ensures (kind, length, sequence, stored) == ParsedHeader(header)
  {
    hide FromLe;
    var reader := new ByteReader(header);
    var flags: U16;
    var ok;
    ok, magic := reader.GetU32();
    ok, kind := reader.GetU16();
    ok, flags := reader.GetU16();
    ok, length := reader.GetU32();
    ok, sequence := reader.GetU64();
    ok, stored := reader.GetU32();
  }

  method FindRecord(file: seq<Byte>, pos: nat, table: seq<bv32>, limits: Limits) returns (found: Found)
    requires pos <= |file| && IsCrcTable(table)
    ensures found == Look(file, pos, limits)
  {
    hide IsCrcTable, Extend, At, ParsedHeader;
    var got := if |file| - pos < HEADER_BYTES then |file| - pos else HEADER_BYTES;
    if got == 0 {
      return Nothing;
    }
    if got != HEADER_BYTES {
      return Broken;
    }
    var header := file[pos..pos + HEADER_BYTES];
    var magic, kind, length, sequence, stored := ReadHeader(header);
    if magic != MAGIC {
      return Broken;
    }
    if length > limits.maxPayload {
      return Broken;
    }
    if |file| - pos - HEADER_BYTES < length {
      return Broken;
    }
    var payload := file[pos + HEADER_BYTES..pos + HEADER_BYTES + length];
    var crc := ExtendWithTable(table, 0, header[..PREFIX_BYTES]);
    crc := ExtendWithTable(table, crc, payload);
    if crc as int != stored {
      return Damaged(length);
    }
    return Intact(Record(kind, sequence, payload));
  }

  method TakeRecord(pos: nat, found: Found, at: Report, limits: Limits, registry: Registry)
      returns (go: bool, next: nat, report: Report)
    ensures Act(pos, found, at, limits, registry) == if go then Next(next, report) else Stop(report)
  {
    hide Deliver;
    go, next, report := false, pos, at;
    match found {
      case Nothing =>
      case Broken =>
        report := report.(truncated := true);
      case Damaged(length) =>
        report := report.(bytesRead := report.bytesRead + HEADER_BYTES + length, read := report.read + 1);
        report := report.(checksumFailure := true, truncated := true, discarded := report.discarded + 1);
      case Intact(record) =>
        var length := |record.payload|;
        report := report.(bytesRead := report.bytesRead + HEADER_BYTES + length, read := report.read + 1);
        if report.read > limits.maxRecords {
          report := report.(truncated := true);
        } else {
          report := report.(validBytes := report.bytesRead);
          next := pos + HEADER_BYTES + length;
          go, report := DeliverRecord(record, report, registry);
        }
    }
  }

  method LoadJournal(file: seq<Byte>, table: seq<bv32>, limits: Limits, registry: Registry) returns (report: Report)
    requires IsCrcTable(table)
    ensures report == Settled(Load(file, limits, registry))
  {
    hide IsCrcTable, Look, Act;
    var pos := 0;
    report := START;
    var go := true;
    while go
      invariant go ==> pos <= |file|
      invariant go ==> Recovered(file, pos, report, limits, registry) == Load(file, limits, registry)
      invariant !go ==> report == Load(file, limits, registry)
      invariant report.read >= report.accepted + report.discarded
      decreases go, |file| - pos
    {
      var found := FindRecord(file, pos, table, limits);
      ActKeeps(pos, found, report, limits, registry);
      go, pos, report := TakeRecord(pos, found, report, limits, registry);
    }
    report := report.(discarded := report.discarded + (report.read - report.accepted - report.discarded));
  }
}
