// What recovery gives back: everything that was written, the longest prefix of
// whole records after a cut, and nothing from a damaged record on.
module JournalRecovery {
  import opened Crc32c
  import opened Octets
  import opened Bytes
  import opened EvidenceCodec
  import opened Journal
  import opened Sequences
  import JournalWriter

  // The counters after one record was found intact.
  function Whole(at: Report, r: Record): Report {
    Counted(at, |r.payload|).(validBytes := Counted(at, |r.payload|).bytesRead)
  }

  // Records handed over one after the other, until one of them ends recovery.
  function Absorb(records: seq<Record>, at: Report, registry: Registry): (bool, Report)
    decreases |records|
  {
    if records == [] then (true, at)
    else
      var (go, next) := Deliver(records[0], Whole(at, records[0]), registry);
      if go then Absorb(records[1..], next, registry) else (false, next)
  }

  // The bounds of the reader are not hit.
  ghost predicate Fits(records: seq<Record>, limits: Limits) {
    && limits.maxPayload < 0x1_0000_0000
    && |records| <= limits.maxRecords
    && forall r <- records :: |r.payload| <= limits.maxPayload
  }

  // A manifest comes first and every manifest is one this build understands.
  ghost predicate ManifestFirst(records: seq<Record>) {
    && (records != [] ==> records[0].kind == MANIFEST)
    && GoodManifests(records)
  }

  ghost predicate GoodManifests(records: seq<Record>) {
    forall r <- records :: r.kind == MANIFEST ==> ManifestVerdict(r.payload) == Good
  }

  // ---- one intact record -------------------------------------------------------

  lemma HeaderReads(r: Record, rest: seq<Byte>)
    requires |r.payload| < 0x1_0000_0000
    ensures var f := Frame(r) + rest;
            && f[..PREFIX_BYTES] == Prefix(r)
            && At(f[..HEADER_BYTES], 0, 4) == MAGIC
            && ParsedHeader(f[..HEADER_BYTES])
               == (r.kind, |r.payload|, r.sequence, Checksum(Prefix(r), r.payload))
  {
    hide Le, Checksum, At;
    var c := [Le(MAGIC, 4), Le(r.kind, 2), Le(0, 2), Le(|r.payload| % 0x1_0000_0000, 4), Le(r.sequence, 8),
              Le(Checksum(Prefix(r), r.payload), 4)];
    HeaderIsCat(r);
    assert (Frame(r) + rest)[..HEADER_BYTES] == Cat(c);
    hide Cat, Offset, Frame;
    Powers();
    OffsetEnds(c);
    FieldAt(c, 0, MAGIC, 4);
    FieldAt(c, 1, r.kind, 2);
    FieldAt(c, 2, 0, 2);
    FieldAt(c, 3, |r.payload|, 4);
    FieldAt(c, 4, r.sequence, 8);
    FieldAt(c, 5, Checksum(Prefix(r), r.payload), 4);
    assert (Frame(r) + rest)[..PREFIX_BYTES] == Cat(c)[..PREFIX_BYTES] == Prefix(r);
  }

  lemma HeaderIsCat(r: Record)
    ensures Prefix(r) + Le(Checksum(Prefix(r), r.payload), 4)
         == Cat([Le(MAGIC, 4), Le(r.kind, 2), Le(0, 2), Le(|r.payload| % 0x1_0000_0000, 4), Le(r.sequence, 8),
                 Le(Checksum(Prefix(r), r.payload), 4)])
  {
    hide Le, Cat, Checksum;
    var one := [Le(MAGIC, 4)];
    var two := one + [Le(r.kind, 2)];
    var three := two + [Le(0, 2)];
    var four := three + [Le(|r.payload| % 0x1_0000_0000, 4)];
    var five := four + [Le(r.sequence, 8)];
    var crc := Le(Checksum(Prefix(r), r.payload), 4);
    CatSingle(Le(MAGIC, 4));
    CatSnoc(one, Le(r.kind, 2));
    CatSnoc(two, Le(0, 2));
    CatSnoc(three, Le(|r.payload| % 0x1_0000_0000, 4));
    CatSnoc(four, Le(r.sequence, 8));
    CatSnoc(five, crc);
    assert [Le(MAGIC, 4), Le(r.kind, 2), Le(0, 2), Le(|r.payload| % 0x1_0000_0000, 4), Le(r.sequence, 8), crc]
        == five + [crc];
  }

  lemma CatSingle(chunk: seq<Byte>)
    ensures Cat([chunk]) == chunk
  {
    CatSnoc([], chunk);
    assert [] + [chunk] == [chunk];
  }

  // A record found at the cursor is read as it was written.
  lemma LookIntact(file: seq<Byte>, pos: nat, r: Record, rest: seq<Byte>, limits: Limits)
    requires pos <= |file| && file[pos..] == Frame(r) + rest
    requires |r.payload| <= limits.maxPayload < 0x1_0000_0000
    ensures Look(file, pos, limits) == Intact(r)
    ensures pos + |Frame(r)| <= |file| && file[pos + |Frame(r)|..] == rest
  {
    hide Prefix, Checksum, At, ParsedHeader;
    HeaderReads(r, rest);
    var f := Frame(r) + rest;
    assert file[pos..pos + HEADER_BYTES] == f[..HEADER_BYTES];
    assert f[..HEADER_BYTES][..PREFIX_BYTES] == f[..PREFIX_BYTES];
    assert file[pos + HEADER_BYTES..pos + HEADER_BYTES + |r.payload|]
        == f[HEADER_BYTES..HEADER_BYTES + |r.payload|] == r.payload;
    assert file[pos + |Frame(r)|..] == f[|Frame(r)|..] == rest;
  }

  lemma DeliverStep(r: Record, at: Report, registry: Registry)
    ensures var (go, next) := Deliver(r, at, registry);
            && go == ((at.manifestSeen || r.kind == MANIFEST)
                      && (r.kind == MANIFEST ==> ManifestVerdict(r.payload) == Good))
            && (go ==>
                  && next.manifestSeen
                  && next.delivered == at.delivered + [r]
                  && next.accepted + next.discarded == at.accepted + at.discarded + 1
                  && next == at.(delivered := next.delivered, accepted := next.accepted,
                                 discarded := next.discarded, manifestSeen := true))
  {
    hide ManifestVerdict;
  }

  // Whole records at the cursor are absorbed one after the other.
  lemma {:induction false} ReadAll(file: seq<Byte>, pos: nat, records: seq<Record>, rest: seq<Byte>, at: Report,
                                   limits: Limits, registry: Registry)
    requires pos <= |file| && file[pos..] == Framed(records) + rest
    requires limits.maxPayload < 0x1_0000_0000 && at.read + |records| <= limits.maxRecords
    requires forall r <- records :: |r.payload| <= limits.maxPayload
    ensures pos + |Framed(records)| <= |file| && file[pos + |Framed(records)|..] == rest
    ensures var (go, next) := Absorb(records, at, registry);
            Recovered(file, pos, at, limits, registry)
            == if go then Recovered(file, pos + |Framed(records)|, next, limits, registry) else next
    decreases |records|
  {
    hide Frame, Deliver, Act, Look;
    if records == [] {
      assert [] + rest == rest;
    } else {
      var r, more := records[0], Framed(records[1..]) + rest;
      assert Framed(records) == Frame(r) + Framed(records[1..]);
      hide Framed;
      Regroup(Frame(r), Framed(records[1..]), rest);
      AfterFirst(Framed(records), rest);
      LookIntact(file, pos, r, more, limits);
      ActOnIntact(pos, r, at, limits, registry);
      var (go, next) := Deliver(r, Whole(at, r), registry);
      if go {
        ReadAll(file, pos + |Frame(r)|, records[1..], rest, next, limits, registry);
      }
    }
  }

  lemma ActOnIntact(pos: nat, r: Record, at: Report, limits: Limits, registry: Registry)
    requires at.read < limits.maxRecords
    ensures var (go, next) := Deliver(r, Whole(at, r), registry);
            && Act(pos, Intact(r), at, limits, registry) == (if go then Next(pos + |Frame(r)|, next) else Stop(next))
            && next.read == at.read + 1
  {
    hide Frame, Deliver;
    DeliverIsOneMore(r, Whole(at, r), registry);
  }

  // ---- when recovery reaches the end ---------------------------------------------

  // Recovery is never ended by a record itself exactly when a manifest comes
  // first and all manifests are good.
  lemma {:induction false} AbsorbsAll(records: seq<Record>, at: Report, registry: Registry)
    ensures Absorb(records, at, registry).0 <==>
              (at.manifestSeen || ManifestFirst(records)) && GoodManifests(records)
    decreases |records|
  {
    hide ManifestVerdict, Deliver;
    if records != [] {
      var r := records[0];
      DeliverStep(r, Whole(at, r), registry);
      assert records == [r] + records[1..];
      var (go, next) := Deliver(r, Whole(at, r), registry);
      if go {
        AbsorbsAll(records[1..], next, registry);
      }
    }
  }

  // All records are then delivered in order and accounted for.
  lemma {:induction false} AbsorbedInOrder(records: seq<Record>, at: Report, registry: Registry)
    requires Absorb(records, at, registry).0
    ensures var next := Absorb(records, at, registry).1;
            && next.delivered == at.delivered + records
            && next.read == at.read + |records|
            && next.accepted + next.discarded == at.accepted + at.discarded + |records|
            && next.bytesRead == at.bytesRead + |Framed(records)|
            && next.truncated == at.truncated && next.checksumFailure == at.checksumFailure
            && next.otherFormat == at.otherFormat && next.otherSemantics == at.otherSemantics
    decreases |records|
  {
    hide ManifestVerdict, Frame, Deliver;
    if records != [] {
      var r := records[0];
      DeliverStep(r, Whole(at, r), registry);
      var next := Deliver(r, Whole(at, r), registry).1;
      AbsorbedInOrder(records[1..], next, registry);
      assert at.delivered + [r] + records[1..] == at.delivered + records;
    }
  }

  // Everything written is read back.
  lemma LoadsWholeJournal(records: seq<Record>, limits: Limits, registry: Registry)
    requires Fits(records, limits)
    ensures var report := Load(Framed(records), limits, registry);
            report.delivered == records && !report.truncated && !report.otherFormat && !report.otherSemantics
            <==> ManifestFirst(records)
    ensures ManifestFirst(records) ==>
              var report := Load(Framed(records), limits, registry);
              && report.read == |records| == report.accepted + report.discarded
              && report.bytesRead == |Framed(records)|
  {
    hide Framed, ReadOne, Deliver, Absorb, ManifestFirst, GoodManifests;
    var file := Framed(records);
    assert file[0..] == file + [];
    ReadAll(file, 0, records, [], START, limits, registry);
    AbsorbsAll(records, START, registry);
    FirstIsGood(records);
    var (go, next) := Absorb(records, START, registry);
    if go {
      AbsorbedInOrder(records, START, registry);
      AtEnd(file, |file|, next, limits, registry);
    } else {
      StoppedShort(records, START, registry);
    }
  }

  lemma FirstIsGood(records: seq<Record>)
    ensures ManifestFirst(records) ==> GoodManifests(records)
  {
  }

  lemma AtEnd(file: seq<Byte>, pos: nat, at: Report, limits: Limits, registry: Registry)
    requires pos == |file|
    ensures Recovered(file, pos, at, limits, registry) == at
  {
  }

  // A record that ends recovery leaves a mark in the report.
  lemma {:induction false} StoppedShort(records: seq<Record>, at: Report, registry: Registry)
    requires !Absorb(records, at, registry).0
    ensures var next := Absorb(records, at, registry).1;
            next.truncated || next.otherFormat || next.otherSemantics
    decreases |records|
  {
    hide ManifestVerdict;
    var (go, next) := Deliver(records[0], Whole(at, records[0]), registry);
    if go {
      StoppedShort(records[1..], next, registry);
    }
  }

  // In particular what a store has written to a new file is what the file gives back.
  lemma StoreLoads(store: JournalWriter.PersistenceStore, registry: Registry)
    requires store.Valid() && store.base == [] && ManifestFirst(store.log)
    requires store.limits.maxPayload < 0x1_0000_0000 && |store.log| <= store.limits.maxRecords
    ensures var report := Load(store.file, store.limits, registry);
            report.delivered == store.log && !report.truncated && report.read == |store.log|
  {
    hide Framed, Load, IsCrcTable, ManifestFirst;
    assert [] + Framed(store.log) == Framed(store.log);
    LoadsWholeJournal(store.log, store.limits, registry);
  }

  // ---- cuts ------------------------------------------------------------------------

  // How many whole records fit into the first n bytes.
  function WholeRecords(records: seq<Record>, n: nat): (k: nat)
    ensures k <= |records|
    decreases |records|
  {
    if records == [] || n < |Frame(records[0])| then 0
    else WholeRecords(records[1..], n - |Frame(records[0])|) + 1
  }

  lemma {:induction false} WholeRecordsIsLongest(records: seq<Record>, n: nat)
    ensures var k := WholeRecords(records, n);
            && |Framed(records[..k])| <= n
            && (k < |records| ==> n < |Framed(records[..k + 1])|)
    decreases |records|
  {
    hide Frame, Framed;
    NoFrames(records);
    if records != [] {
      FirstFrame(records, 0);
      NoFrames(records[1..]);
      if n >= |Frame(records[0])| {
        WholeRecordsIsLongest(records[1..], n - |Frame(records[0])|);
        var k := WholeRecords(records[1..], n - |Frame(records[0])|);
        FirstFrame(records, k);
        if k + 1 < |records| {
          FirstFrame(records, k + 1);
        }
      }
    }
  }

  lemma NoFrames(records: seq<Record>)
    ensures Framed(records[..0]) == []
  {
  }

  lemma FirstFrame(records: seq<Record>, k: nat)
    requires k < |records|
    ensures |Framed(records[..k + 1])| == |Frame(records[0])| + |Framed(records[1..][..k])|
  {
    hide Frame;
    assert records[..k + 1][1..] == records[1..][..k];
  }

  // Part of a record at the end of the file is not taken.
  lemma ReadPartial(file: seq<Byte>, pos: nat, r: Record, at: Report, limits: Limits, registry: Registry)
    requires pos <= |file| && file[pos..] < Frame(r)
    requires |r.payload| <= limits.maxPayload < 0x1_0000_0000
    ensures Recovered(file, pos, at, limits, registry) == at.(truncated := at.truncated || pos < |file|)
  {
    hide Look, Deliver, Frame;
    LookPartial(file, pos, r, limits);
  }

  lemma LookPartial(file: seq<Byte>, pos: nat, r: Record, limits: Limits)
    requires pos <= |file| && file[pos..] < Frame(r)
    requires |r.payload| <= limits.maxPayload < 0x1_0000_0000
    ensures Look(file, pos, limits) == if pos < |file| then Broken else Nothing
  {
    hide Prefix, Checksum, At, ParsedHeader;
    HeaderReads(r, []);
    var part := file[pos..];
    assert Frame(r) + [] == Frame(r);
    if HEADER_BYTES <= |part| {
      assert file[pos..pos + HEADER_BYTES] == part[..HEADER_BYTES] == Frame(r)[..HEADER_BYTES];
    }
  }

  // A journal cut at any byte gives back exactly its longest prefix of whole
  // records, and is reported as truncated exactly when the cut is inside one.
  lemma CutRecovers(records: seq<Record>, n: nat, limits: Limits, registry: Registry)
    requires Fits(records, limits) && ManifestFirst(records) && n <= |Framed(records)|
    ensures var k := WholeRecords(records, n);
            var report := Load(Framed(records)[..n], limits, registry);
            && report.delivered == records[..k]
            && report.read == report.accepted + report.discarded == k
            && report.validBytes == |Framed(records[..k])|
            && (report.truncated <==> n != |Framed(records[..k])|)
            && !report.checksumFailure
  {
    hide Framed, ReadOne, Deliver, Absorb, Frame, ManifestVerdict, WholeRecords, Recovered;
    WholeRecordsIsLongest(records, n);
    var k := WholeRecords(records, n);
    var file, whole := Framed(records)[..n], records[..k];
    var rest := file[|Framed(whole)|..];
    PrefixOfFramed(records, k);
    assert file[0..] == Framed(whole) + rest;
    ReadAll(file, 0, whole, rest, START, limits, registry);
    AbsorbsAll(whole, START, registry);
    AbsorbedInOrder(whole, START, registry);
    ValidBytes(whole, START, registry);
    var at := Absorb(whole, START, registry).1;
    if k < |records| {
      NextFrame(records, k);
      assert rest < Frame(records[k]) by {
        assert rest == Framed(records)[|Framed(whole)|..n];
      }
      ReadPartial(file, |Framed(whole)|, records[k], at, limits, registry);
    } else {
      assert whole == records;
      AtEnd(file, n, at, limits, registry);
    }
  }

  lemma PrefixOfFramed(records: seq<Record>, k: nat)
    requires k <= |records|
    ensures Framed(records[..k]) <= Framed(records)
  {
    hide Framed;
    FramedAppend(records[..k], records[k..]);
    TakeAndDrop(records, k);
  }

  lemma OneFrame(r: Record)
    ensures Framed([r]) == Frame(r)
  {
    hide Frame;
    assert Framed([r]) == Frame(r) + Framed([]);
  }

  lemma NextFrame(records: seq<Record>, k: nat)
    requires k < |records|
    ensures Framed(records[..k + 1]) == Framed(records[..k]) + Frame(records[k])
    ensures Framed(records[..k + 1]) <= Framed(records)
  {
    OneFrame(records[k]);
    hide Frame, Framed;
    FramedAppend(records[..k], [records[k]]);
    TakeNext(records, k);
    PrefixOfFramed(records, k + 1);
  }

  lemma {:induction false} ValidBytes(records: seq<Record>, at: Report, registry: Registry)
    requires Absorb(records, at, registry).0 && at.validBytes == at.bytesRead
    ensures var next := Absorb(records, at, registry).1;
            next.validBytes == next.bytesRead
    decreases |records|
  {
    hide Deliver;
    if records != [] {
      DeliverStep(records[0], Whole(at, records[0]), registry);
      ValidBytes(records[1..], Deliver(records[0], Whole(at, records[0]), registry).1, registry);
    }
  }

  // ---- what follows the records -----------------------------------------------------

  // Whatever the rest of a file holds, what was delivered stays delivered.
  lemma {:induction false} DeliveredGrows(file: seq<Byte>, pos: nat, at: Report, limits: Limits,
                                          registry: Registry)
    requires pos <= |file|
    ensures var report := Recovered(file, pos, at, limits, registry);
            && at.delivered <= report.delivered
            && at.accepted <= report.accepted
    decreases |file| - pos
  {
    hide Act, Look;
    ActKeeps(pos, Look(file, pos, limits), at, limits, registry);
    match ReadOne(file, pos, at, limits, registry) {
      case Stop(_) =>
      case Next(next, report) => DeliveredGrows(file, next, report, limits, registry);
    }
  }

  // Arbitrary bytes after whole records neither change nor remove them.
  lemma AppendKeeps(records: seq<Record>, junk: seq<Byte>, limits: Limits, registry: Registry)
    requires Fits(records, limits) && ManifestFirst(records)
    ensures var clean := Load(Framed(records), limits, registry);
            var report := Load(Framed(records) + junk, limits, registry);
            && records <= report.delivered
            && clean.accepted <= report.accepted
  {
    hide Framed, ReadOne, Deliver, Absorb, Recovered;
    var file := Framed(records) + junk;
    assert file[0..] == file;
    ReadAll(file, 0, records, junk, START, limits, registry);
    AbsorbsAll(records, START, registry);
    AbsorbedInOrder(records, START, registry);
    var at := Absorb(records, START, registry).1;
    DeliveredGrows(file, |Framed(records)|, at, limits, registry);
    assert Framed(records)[0..] == Framed(records) + [];
    ReadAll(Framed(records), 0, records, [], START, limits, registry);
    AtEnd(Framed(records), |Framed(records)|, at, limits, registry);
  }

  // ---- damage -------------------------------------------------------------------

  // One frame turned into another of the same size by a change within at most
  // four consecutive bytes, all of them in one part of the frame and none of
  // them in the length: magic, kind and flags; sequence; checksum; payload.
  ghost predicate Burst(f: seq<Byte>, f': seq<Byte>, from: nat, to: nat) {
    && |f| == |f'| && f != f'
    && from <= to <= |f| && to - from <= 4
    && f[..from] == f'[..from] && f[to..] == f'[to..]
    && (to <= 8 || 12 <= from)
    && (to <= 20 || 20 <= from) && (to <= 24 || 24 <= from)
  }

  // The bytes a checksum is taken over.
  function Guarded(f: seq<Byte>): seq<Byte>
    requires |f| >= HEADER_BYTES
  {
    f[..PREFIX_BYTES] + f[HEADER_BYTES..]
  }

  lemma ChecksumOfGuarded(f: seq<Byte>)
    requires |f| >= HEADER_BYTES
    ensures Checksum(f[..PREFIX_BYTES], f[HEADER_BYTES..]) == Extend(0, Guarded(f)) as int
  {
    hide Extend;
    ExtendConcat(0, f[..PREFIX_BYTES], f[HEADER_BYTES..]);
  }

  // A burst outside the checksum field changes the checksum.
  lemma BurstChangesGuarded(f: seq<Byte>, f': seq<Byte>, from: nat, to: nat)
    requires |f| >= HEADER_BYTES && Burst(f, f', from, to) && (to <= 20 || 24 <= from)
    ensures Extend(0, Guarded(f)) != Extend(0, Guarded(f'))
  {
    hide Extend;
    var m, m' := f[from..to], f'[from..to];
    assert f == f[..from] + m + f[to..];
    assert f' == f[..from] + m' + f[to..];
    var before := if to <= 20 then f[..from] else f[..PREFIX_BYTES] + f[HEADER_BYTES..from];
    var after := if to <= 20 then f[to..PREFIX_BYTES] + f[HEADER_BYTES..] else f[to..];
    assert Guarded(f) == before + m + after;
    assert Guarded(f') == before + m' + after;
    BurstChangesCrc(0, before, m, m', after);
  }

  // With a burst in it, the checksum in a frame does not match its contents.
  lemma BurstMismatch(r: Record, f': seq<Byte>, from: nat, to: nat)
    requires |r.payload| < 0x1_0000_0000 && Burst(Frame(r), f', from, to)
    ensures ParsedHeader(f'[..HEADER_BYTES]).1 == |r.payload|
    ensures Checksum(f'[..PREFIX_BYTES], f'[HEADER_BYTES..]) != ParsedHeader(f'[..HEADER_BYTES]).3
  {
    hide Prefix, Checksum, At, ParsedHeader, Extend, Le, FromLe;
    var f := Frame(r);
    HeaderReads(r, []);
    assert f + [] == f && f[HEADER_BYTES..] == r.payload;
    hide Frame;
    SameLengthField(f, f', from, to);
    StoredField(f);
    StoredField(f');
    ChecksumOfGuarded(f);
    ChecksumOfGuarded(f');
    if to <= 20 || 24 <= from {
      BurstChangesGuarded(f, f', from, to);
      CrcAsIntInjective(Extend(0, Guarded(f)), Extend(0, Guarded(f')));
      SameChecksumField(f, f', from, to);
    } else {
      ChecksumFieldDiffers(f, f', from, to);
      assert Guarded(f) == Guarded(f');
    }
  }

  lemma SameChecksumField(f: seq<Byte>, f': seq<Byte>, from: nat, to: nat)
    requires |f| >= HEADER_BYTES && Burst(f, f', from, to) && (to <= 20 || 24 <= from)
    ensures f[20..24] == f'[20..24]
  {
    if to <= 20 {
      assert f[20..24] == f[to..][20 - to..24 - to];
      assert f'[20..24] == f'[to..][20 - to..24 - to];
    } else {
      assert f[20..24] == f[..from][20..24];
      assert f'[20..24] == f'[..from][20..24];
    }
  }

  // A frame with a burst in it is never found intact.
  lemma BurstSeen(file: seq<Byte>, pos: nat, r: Record, f': seq<Byte>, rest: seq<Byte>, from: nat, to: nat,
                  limits: Limits)
    requires |r.payload| <= limits.maxPayload < 0x1_0000_0000
    requires Burst(Frame(r), f', from, to)
    requires pos <= |file| && file[pos..] == f' + rest
    ensures Look(file, pos, limits) == if At(f', 0, 4) == MAGIC then Damaged(|r.payload|) else Broken
  {
    hide Frame, Checksum, At, ParsedHeader;
    BurstMismatch(r, f', from, to);
    var header := file[pos..pos + HEADER_BYTES];
    assert header == f'[..HEADER_BYTES];
    assert file[pos + HEADER_BYTES..pos + HEADER_BYTES + |r.payload|] == f'[HEADER_BYTES..];
    assert header[..PREFIX_BYTES] == f'[..PREFIX_BYTES];
    AtPrefix(f', 0, 4);
  }

  lemma AtPrefix(f: seq<Byte>, offset: nat, n: nat)
    requires offset + n <= HEADER_BYTES <= |f|
    ensures At(f[..HEADER_BYTES], offset, n) == At(f, offset, n)
  {
    assert f[..HEADER_BYTES][offset..offset + n] == f[offset..offset + n];
  }

  lemma StoredField(f: seq<Byte>)
    requires |f| >= HEADER_BYTES
    ensures ParsedHeader(f[..HEADER_BYTES]).3 == FromLe(f[20..24])
    ensures ParsedHeader(f[..HEADER_BYTES]).1 == FromLe(f[8..12])
  {
    AtPrefix(f, 20, 4);
    AtPrefix(f, 8, 4);
  }

  lemma SameLengthField(f: seq<Byte>, f': seq<Byte>, from: nat, to: nat)
    requires |f| >= HEADER_BYTES && Burst(f, f', from, to)
    ensures f[8..12] == f'[8..12]
  {
    if to <= 8 {
      assert f[8..12] == f[to..][8 - to..12 - to];
      assert f'[8..12] == f'[to..][8 - to..12 - to];
    } else {
      assert f[8..12] == f[..from][8..12];
      assert f'[8..12] == f'[..from][8..12];
    }
  }

  lemma ChecksumFieldDiffers(f: seq<Byte>, f': seq<Byte>, from: nat, to: nat)
    requires |f| >= HEADER_BYTES && Burst(f, f', from, to) && 20 <= from <= to <= 24
    ensures FromLe(f[20..24]) != FromLe(f'[20..24])
  {
    hide FromLe, Le;
    assert f == f[..from] + f[from..to] + f[to..];
    assert f' == f'[..from] + f'[from..to] + f'[to..];
    assert f[20..24][from - 20..to - 20] == f[from..to];
    assert f'[20..24][from - 20..to - 20] == f'[from..to];
    LeOfFromLe(f[20..24]);
    LeOfFromLe(f'[20..24]);
  }

  // A burst in one record ends recovery there: every record before it is
  // delivered as written, and nothing from it on.
  lemma BurstIsCaught(before: seq<Record>, r: Record, f': seq<Byte>, after: seq<Byte>, from: nat, to: nat,
                      limits: Limits, registry: Registry)
    requires Fits(before + [r], limits) && ManifestFirst(before)
    requires Burst(Frame(r), f', from, to)
    ensures var report := Load(Framed(before) + f' + after, limits, registry);
            && report.delivered == before
            && report.truncated
            && (report.checksumFailure <==> At(f', 0, 4) == MAGIC)
            && report.validBytes == |Framed(before)|
  {
    hide Framed, Frame, Look, Deliver, Absorb, At, ManifestFirst, GoodManifests, Burst;
    var file := Framed(before) + f' + after;
    assert file[0..] == Framed(before) + (f' + after);
    assert (before + [r])[|before|] == r;
    assert forall x <- before :: x in before + [r];
    ReadAll(file, 0, before, f' + after, START, limits, registry);
    FirstIsGood(before);
    AbsorbsAll(before, START, registry);
    AbsorbedInOrder(before, START, registry);
    ValidBytes(before, START, registry);
    BurstSeen(file, |Framed(before)|, r, f', after, from, to, limits);
  }

  // ---- manifests -----------------------------------------------------------------

  lemma ManifestFields(c: seq<seq<Byte>>, product: seq<Byte>, instance: seq<Byte>)
    requires |product| < 0x1_0000_0000 && |instance| < 0x1_0000_0000
    requires |c| == 7 && |c[4]| == 8 && c[3] == product && c[6] == instance
    requires c[0] == Le(FORMAT_VERSION, 4) && c[1] == Le(SEMANTICS_REVISION, 4)
    requires c[2] == Le(|product|, 4) && c[5] == Le(|instance|, 4)
    ensures var p, n := Cat(c), |product|;
            && |p| == 24 + n + |instance|
            && At(p, 0, 4) == FORMAT_VERSION && At(p, 4, 4) == SEMANTICS_REVISION
            && At(p, 8, 4) == n && At(p, 20 + n, 4) == |instance|
  {
    hide Le, Cat, Offset, At;
    OffsetEnds(c);
    Field4(c, 0, FORMAT_VERSION);
    Field4(c, 1, SEMANTICS_REVISION);
    Field4(c, 2, |product|);
    OffsetStep(c, 3);
    OffsetStep(c, 4);
    Field4(c, 5, |instance|);
    OffsetStep(c, 6);
  }

  // The manifest a session writes is understood again exactly when its two
  // texts are within the reader's bound; the writer does not check that bound.
  lemma ManifestReads(product: seq<Byte>, created: I64, instance: seq<Byte>)
    requires |product| < 0x1_0000_0000 && |instance| < 0x1_0000_0000
    ensures ManifestVerdict(ManifestPayload(product, created, instance)) == Good
            <==> |product| <= MAX_MANIFEST_TEXT && |instance| <= MAX_MANIFEST_TEXT
  {
    hide Le, At, Cat, ManifestPayload;
    ManifestIsCat(product, created, instance);
    ManifestFields([Le(FORMAT_VERSION, 4), Le(SEMANTICS_REVISION, 4), Le(|product|, 4), product,
                    Le(ToUnsigned(created), 8), Le(|instance|, 4), instance], product, instance);
  }

  lemma ManifestIsCat(product: seq<Byte>, created: I64, instance: seq<Byte>)
    ensures ManifestPayload(product, created, instance)
         == Cat([Le(FORMAT_VERSION, 4), Le(SEMANTICS_REVISION, 4), Le(|product|, 4), product,
                 Le(ToUnsigned(created), 8), Le(|instance|, 4), instance])
  {
    hide Le, Cat;
    var a, b := Le(FORMAT_VERSION, 4), Le(SEMANTICS_REVISION, 4);
    var c, d, e := Le(|product|, 4), Le(ToUnsigned(created), 8), Le(|instance|, 4);
    CatSingle(a);
    CatSnoc([a], b);
    var two := [a] + [b];
    CatSnoc(two, c);
    CatSnoc(two + [c], product);
    var four := two + [c] + [product];
    CatSnoc(four, d);
    CatSnoc(four + [d], e);
    CatSnoc(four + [d] + [e], instance);
    assert [a, b, c, product, d, e, instance] == four + [d] + [e] + [instance];
  }
}
