// The exported line of an item reads back as the item.
module ExportRoundTrip {
  import opened Bytes
  import opened Evidence
  import opened Lexer
  import opened Sequences
  import opened ScriptValues
  import opened ExportLine
  import opened ScriptLine
  import Calendar
  import Decimal
  import IsoTime
  import Store

  // ---- the values are plain words ----------------------------------------------------------------

  ghost predicate Plain(value: Option<string>, longest: nat) {
    value.Some? ==> value.value != [] && NoSpace(value.value) && |value.value| <= longest
  }

  lemma {:induction false} HexPlain(id: U64)
    ensures Plain(Some(HexText(id)), 30) && Plain(UnlessNil(id), 30)
  {
    HexRoundTrip(id);
  }

  lemma {:induction false} DecimalPlain(v: U64)
    ensures Plain(Some(Decimal.Decimal(v)), 30)
  {
    DecimalRoundTrip(v);
    Pow10Of20();
    Decimal.DecimalLength(v, 20);
  }

  lemma {:induction false} Pow10Of20()
    ensures Decimal.Pow10(20) == 100_000_000_000_000_000_000
  {
    assert Decimal.Pow10(4) == 10_000;
    assert Decimal.Pow10(8) == 100_000_000;
    assert Decimal.Pow10(12) == 1_000_000_000_000;
    assert Decimal.Pow10(16) == 10_000_000_000_000_000;
  }

  lemma {:induction false} NamePlain(name: string)
    ensures IsName(name) ==> Plain(Some(name), 30)
  {
    if IsName(name) {
      NameIsPlain(name);
    }
  }

  lemma {:induction false} JoinPlain(a: string, mark: char, b: string)
    requires NoSpace(a) && NoSpace(b) && !IsSpace(mark)
    ensures NoSpace(a + [mark] + b)
  {
  }

  lemma {:induction false} SubjectPlain(s: SubjectRef)
    ensures Plain(Some(SubjectText(s)), 30)
  {
    assert s.kind.UnknownSubject? ==> SubjectText(s) == SubjectName(s.kind);
    hide HexText, SubjectName, IsName;
    NamePlain(SubjectName(s.kind));
    SubjectIsName(s.kind);
    HexRoundTrip(s.id);
    if !s.kind.UnknownSubject? {
      JoinPlain(SubjectName(s.kind), ':', HexText(s.id));
    }
  }

  lemma {:induction false} PaddedPlain(v: nat, width: nat)
    ensures NoSpace(Decimal.Padded(v, width))
  {
    Decimal.PaddedReads(v, width);
    forall c | c in Decimal.Padded(v, width)
      ensures !IsSpace(c)
    {
      assert Decimal.IsDigit(c);
    }
  }

  lemma {:induction false} TriplePlain(a: nat, width: nat, b: nat, c: nat, mark: char)
    requires !IsSpace(mark)
    ensures NoSpace(Decimal.Padded(a, width) + [mark] + Decimal.Padded(b, 2) + [mark] + Decimal.Padded(c, 2))
  {
    hide Decimal.Padded;
    PaddedPlain(a, width);
    PaddedPlain(b, 2);
    PaddedPlain(c, 2);
    JoinPlain(Decimal.Padded(a, width), mark, Decimal.Padded(b, 2));
    JoinPlain(Decimal.Padded(a, width) + [mark] + Decimal.Padded(b, 2), mark, Decimal.Padded(c, 2));
  }

  lemma {:induction false} TimePlain(nanos: I64)
    ensures Plain(Some(IsoTime.ToText(nanos)), 30)
  {
    hide IsoTime.FloorSecond, IsoTime.DayOf, IsoTime.FractionOf, Calendar.CivilFromDays;
    hide Decimal.Padded, IsoTime.DateText, IsoTime.ClockText, IsoTime.Parse, NoSpace;
    IsoTime.RoundTrip(nanos);
    var seconds := IsoTime.FloorSecond(nanos);
    var days := IsoTime.DayOf(seconds);
    IsoTime.YearInRange(nanos);
    IsoTime.Floors(nanos, seconds);
    TimeShape(Calendar.CivilFromDays(days), seconds - days * IsoTime.DAY, IsoTime.FractionOf(nanos));
  }

  lemma {:induction false} TimeShape(d: Calendar.Date, second: nat, fraction: nat)
    requires d.year >= 0
    ensures NoSpace(IsoTime.DateText(d) + "T" + IsoTime.ClockText(second) + "." + Decimal.Padded(fraction, 9) + "Z")
  {
    hide Decimal.Padded;
    TriplePlain(d.year, 4, d.month, d.day, '-');
    TriplePlain(second / 3600, 2, second % 3600 / 60, second % 60, ':');
    PaddedPlain(fraction, 9);
    hide IsoTime.DateText, IsoTime.ClockText;
    JoinPlain(IsoTime.DateText(d), 'T', IsoTime.ClockText(second));
    JoinPlain(IsoTime.DateText(d) + "T" + IsoTime.ClockText(second), '.', Decimal.Padded(fraction, 9));
    JoinPlain(IsoTime.DateText(d) + "T" + IsoTime.ClockText(second) + "." + Decimal.Padded(fraction, 9), 'Z', []);
  }

  lemma {:induction false} HeaderPlain(h: Header, k: Key)
    requires NoSpace(h.note)
    ensures Plain(HeaderValue(h, k), if k == NoteKey then |h.note| else 30)
  {
    hide HexText, Decimal.Decimal, IsoTime.ToText, MethodName, GranularityName, SubjectText, NoSpace, IsName;
    MethodIsName(h.method_);
    NamePlain(MethodName(h.method_));
    GranularityIsName(h.granularity);
    NamePlain(GranularityName(h.granularity));
    SubjectPlain(h.subject);
    DecimalPlain(h.sequence);
    TimePlain(h.observedAt);
    TimePlain(h.receivedAt);
    HexPlain(h.source);
    HexPlain(h.epoch);
    HexPlain(h.generation);
    HexPlain(h.id);
    HexPlain(h.revision);
  }

  lemma {:induction false} FlagPlain(flag: bool)
    ensures Plain(IfTrue(flag), 30)
  {
  }

  lemma {:induction false} PayloadPlain(p: Payload, k: Key)
    ensures Plain(PayloadValue(p, k), 30)
  {
    hide HexText, UnlessNil, IfTrue, Decimal.Decimal, ScopeName, RoleName, NoSpace, IsName;
    match p {
      case CounterSample(counter, scope, value, widthBits, node, port, queue, hop, link) =>
        HexPlain(counter);
        ScopeIsName(scope);
        NamePlain(ScopeName(scope));
        DecimalPlain(value);
        DecimalPlain(widthBits);
        HexPlain(node);
        HexPlain(port);
        HexPlain(queue);
        HexPlain(hop);
        HexPlain(link);
      case ProbeReport(probe, sent, received, timedOut, ttlScoped, ttl, oneWay) =>
        HexPlain(probe);
        DecimalPlain(sent);
        DecimalPlain(received);
        DecimalPlain(timedOut);
        DecimalPlain(ttl);
        FlagPlain(oneWay);
      case SequenceReport(lowest, highest, receivedCount, restart) =>
        DecimalPlain(lowest);
        DecimalPlain(highest);
        DecimalPlain(receivedCount);
        FlagPlain(restart);
      case EndpointReport(role, node, port, count, reset) =>
        RoleIsName(role);
        NamePlain(RoleName(role));
        DecimalPlain(count);
        HexPlain(node);
        HexPlain(port);
        FlagPlain(reset);
    }
  }

  lemma {:induction false} ValuePlain(item: Item, k: Key)
    requires NoSpace(item.header.note)
    ensures Plain(ValueOf(item, k), if k == NoteKey then |item.header.note| else 30)
  {
    hide HeaderValue, PayloadValue, Plain, NoSpace;
    HeaderPlain(item.header, k);
    PayloadPlain(item.payload, k);
  }

  // ---- the words of the line -----------------------------------------------------------------------

  lemma {:induction false} FieldIsWord(k: Key, value: string)
    requires NoSpace(value)
    ensures NoSpace(Field(k, value)) && Field(k, value) != [] && Field(k, value)[0] != '#'
    ensures |Field(k, value)| <= 9 + |value|
  {
    hide KeyText;
    KeyTextIsPlain(k);
    JoinPlain(KeyText(k), '=', value);
  }

  ghost predicate Wordy(words: seq<string>) {
    AreWords(words) && forall w <- words :: w[0] != '#'
  }

  lemma {:induction false} VerbIsWord(p: Payload)
    ensures Wordy([VerbText(p)]) && |VerbText(p)| <= 8
  {
    hide VerbText, IsLetter;
    VerbLetters(p);
    NameIsPlain(VerbText(p));
    assert IsLetter(VerbText(p)[0]);
    LettersAreNoMark(VerbText(p)[0]);
  }

  lemma {:induction false} LettersAreNoMark(c: char)
    requires IsLetter(c)
    ensures c != '#'
  {
  }

  lemma {:induction false} VerbLetters(p: Payload)
    ensures IsName(VerbText(p)) && |VerbText(p)| <= 8
  {
  }

  lemma {:induction false} ShownAreWords(item: Item, n: nat)
    requires n <= KEYS && NoSpace(item.header.note)
    ensures Wordy(Shown(item, n))
    decreases n
  {
    hide NoSpace, ValueOf, Field, KeyAt, VerbText;
    if n == 0 {
      VerbIsWord(item.payload);
    } else {
      ShownAreWords(item, n - 1);
      ValuePlain(item, KeyAt(n - 1));
      var shown := ValueOf(item, KeyAt(n - 1));
      if shown.Some? {
        FieldIsWord(KeyAt(n - 1), shown.value);
      }
    }
  }

  // How long the line is: 41 characters a field and the note.
  lemma {:induction false} LineLength(item: Item, n: nat)
    requires n <= KEYS && NoSpace(item.header.note)
    ensures |Joined(Shown(item, n))| <= 8 + 41 * n + if n > 32 then |item.header.note| else 0
    decreases n
  {
    hide NoSpace, ValueOf, Field, VerbText, Joined, Shown;
    if n == 0 {
      VerbIsWord(item.payload);
      NoFields(item);
    } else {
      var k := KeyAt(n - 1);
      LineLength(item, n - 1);
      LineGrows(item, n - 1, k);
      ValuePlain(item, k);
      var shown := ValueOf(item, k);
      if shown.Some? {
        FieldIsWord(k, shown.value);
      }
      KeyOfPlace(n - 1);
    }
  }

  // The line of an item whose note is within its bound is within the bound on lines.
  lemma {:induction false} LineFits(item: Item)
    requires NoSpace(item.header.note) && |item.header.note| <= Store.MAX_NOTE
    ensures |LineOf(item)| <= MAX_LINE
  {
    hide Shown, Joined, NoSpace;
    LineLength(item, KEYS);
  }

  // ---- the fields of the line ------------------------------------------------------------------------

  function VerbOf(p: Payload): Verb {
    match p
    case CounterSample(_, _, _, _, _, _, _, _, _) => CounterVerb
    case ProbeReport(_, _, _, _, _, _, _) => ProbeVerb
    case SequenceReport(_, _, _, _) => SequenceVerb
    case EndpointReport(_, _, _, _, _) => EndpointVerb
  }

  lemma {:induction false} VerbBack(p: Payload)
    ensures VerbNamed(VerbText(p)) == Some(VerbOf(p))
  {
  }

  lemma {:induction false} KeyBack(k: Key, n: nat)
    requires n <= KEYS && PlaceOf(k) < n
    ensures KeyNamed(KeyText(k), n) == Some(k)
    decreases n
  {
    hide KeyText, KeyAt, PlaceOf;
    if KeyText(KeyAt(n - 1)) == KeyText(k) {
      KeyTextsDiffer(KeyAt(n - 1), k);
    } else {
      PlaceOfKey(k);
      assert PlaceOf(k) != n - 1;
      KeyBack(k, n - 1);
    }
  }

  lemma {:induction false} HeaderAllowed(h: Header, verb: Verb, k: Key)
    ensures HeaderValue(h, k).Some? ==> Allows(verb, k)
  {
  }

  lemma {:induction false} PayloadAllowed(p: Payload, k: Key)
    ensures PayloadValue(p, k).Some? ==> Allows(VerbOf(p), k)
  {
    hide HexText, Decimal.Decimal, ScopeName, RoleName;
  }

  // A field of the line is read back under its key.
  lemma {:induction false} WordBack(verb: Verb, fields: Fields, k: Key, value: string)
    requires Allows(verb, k) && k !in fields
    ensures WithWord(verb, fields, Field(k, value)) == Some(fields[k := value])
  {
    hide KeyText, Allows, KeyNamed, NoSpace;
    KeyTextIsPlain(k);
    SplitsBack(KeyText(k), value);
    KeyBack(k, KEYS);
  }

  // The fields are the shown values of the first n keys.
  ghost predicate Holds(fields: Fields, item: Item, n: nat) {
    && (forall k :: k in fields ==> PlaceOf(k) < n && ValueOf(item, k) == Some(fields[k]))
    && (forall k :: PlaceOf(k) < n && ValueOf(item, k).Some? ==> k in fields)
  }

  lemma {:induction false} FieldsBack(item: Item, n: nat)
    requires n <= KEYS
    ensures var r := FieldsOf(VerbOf(item.payload), Shown(item, n)); r.Some? && Holds(r.value, item, n)
    decreases n
  {
    hide ValueOf, Field, KeyAt, PlaceOf, WithWord, VerbText, Allows;
    if n > 0 {
      FieldsBack(item, n - 1);
      var verb, words, k := VerbOf(item.payload), Shown(item, n - 1), KeyAt(n - 1);
      var fields := FieldsOf(verb, words).value;
      KeyOfPlace(n - 1);
      HoldsMore(fields, item, n - 1, k);
      if ValueOf(item, k).Some? {
        var value := ValueOf(item, k).value;
        ShownAllowed(item, k);
        WordBack(verb, fields, k, value);
        assert (words + [Field(k, value)])[..|words|] == words;
      }
    }
  }

  lemma {:induction false} ShownAllowed(item: Item, k: Key)
    ensures ValueOf(item, k).Some? ==> Allows(VerbOf(item.payload), k)
  {
    hide HeaderValue, PayloadValue, Allows, VerbOf;
    HeaderAllowed(item.header, VerbOf(item.payload), k);
    PayloadAllowed(item.payload, k);
  }

  lemma {:induction false} HoldsMore(fields: Fields, item: Item, n: nat, k: Key)
    requires Holds(fields, item, n) && n < KEYS && PlaceOf(k) == n && KeyAt(n) == k
    ensures k !in fields
    ensures var shown := ValueOf(item, k);
            Holds(if shown.Some? then fields[k := shown.value] else fields, item, n + 1)
  {
    hide ValueOf, KeyAt, PlaceOf;
    forall other | PlaceOf(other) == n
      ensures other == k
    {
      PlaceOfKey(other);
    }
  }

  function TextAt(item: Item, k: Key): string {
    if ValueOf(item, k).Some? then ValueOf(item, k).value else ""
  }

  ghost predicate Carries(fields: Fields, item: Item) {
    forall k :: Get(fields, k) == TextAt(item, k)
  }

  lemma {:induction false} HoldsCarries(fields: Fields, item: Item)
    requires Holds(fields, item, KEYS)
    ensures Carries(fields, item)
  {
    hide ValueOf, PlaceOf;
    forall k
      ensures Get(fields, k) == TextAt(item, k)
    {
      assert PlaceOf(k) < KEYS;
    }
  }

  lemma {:induction false} ContentBack(item: Item)
    requires NoSpace(item.header.note)
    ensures var line := LineOf(item);
            && Trim(line) == line && Content(line) == line && Words(line) == Shown(item, KEYS)
            && line != [] && !IsSpace(line[0]) && line[0] != '#'
  {
    hide Shown, Content, Words, Joined, NoSpace;
    var words := Shown(item, KEYS);
    ShownAreWords(item, KEYS);
    WordsOfJoined(words);
    ContentOfJoined(words);
    JoinedEnds(words);
    FirstOfWord(words);
  }

  lemma {:induction false} FirstOfWord(words: seq<string>)
    requires Wordy(words) && words != []
    ensures words[0] != [] && !IsSpace(words[0][0]) && words[0][0] != '#'
  {
    hide IsSpace;
    assert words[0] in words && words[0][0] in words[0];
  }

  // The line of an item is read as the command that carries it.
  lemma {:induction false} CommandBack(item: Item)
    requires NoSpace(item.header.note) && |item.header.note| <= Store.MAX_NOTE
    ensures var r := CommandOf(LineOf(item));
            r.Some? && r.value.verb == VerbOf(item.payload) && Carries(r.value.fields, item)
  {
    hide LineOf, Shown, Content, Words, Trim, NoSpace, FieldsOf, Holds, Carries, VerbNamed, VerbText, CommandOf;
    var verb, words := VerbOf(item.payload), Shown(item, KEYS);
    ContentBack(item);
    LineFits(item);
    VerbBack(item.payload);
    FirstShown(item, KEYS);
    FieldsBack(item, KEYS);
    var fields := FieldsOf(verb, words).value;
    CommandOfWords(LineOf(item), words, verb, fields);
    HoldsCarries(fields, item);
  }

  lemma {:induction false} CommandOfWords(line: string, words: seq<string>, verb: Verb, fields: Fields)
    requires |line| <= MAX_LINE && Trim(line) == line && line != [] && line[0] != '#'
    requires Content(line) == line && Words(line) == words && words != []
    requires VerbNamed(words[0]) == Some(verb) && FieldsOf(verb, words) == Some(fields)
    ensures CommandOf(line) == Some(Command(verb, fields))
  {
    hide Trim, Content, Words, VerbNamed, FieldsOf;
  }

  lemma {:induction false} FirstShown(item: Item, n: nat)
    requires n <= KEYS
    ensures Shown(item, n)[0] == VerbText(item.payload)
    decreases n
  {
    hide ValueOf, Field, KeyAt;
    if n > 0 {
      FirstShown(item, n - 1);
    }
  }

  // ---- the values of the fields --------------------------------------------------------------------------

  lemma {:induction false} IdentityBack(id: U64, context: Context)
    ensures HexText(id) != "" && Identity(HexText(id), context) == id
  {
    hide HexText, ParseHex;
    HexRoundTrip(id);
  }

  lemma {:induction false} RequiredBack(fields: Fields, k: Key, id: U64, context: Context)
    requires Get(fields, k) == HexText(id)
    ensures Required(fields, k, context) == Some(id)
  {
    hide HexText, Identity, Get;
    IdentityBack(id, context);
  }

  lemma {:induction false} OrNilBack(fields: Fields, k: Key, id: U64, context: Context)
    requires Get(fields, k) == if UnlessNil(id).Some? then UnlessNil(id).value else ""
    ensures OrNil(fields, k, context) == id
  {
    hide HexText, Identity, Get;
    IdentityBack(id, context);
  }

  lemma {:induction false} NumberBack(fields: Fields, k: Key, v: U64, fallback: U64)
    requires Get(fields, k) == Decimal.Decimal(v)
    ensures Get(fields, k) != "" && OrNumber(fields, k, fallback) == Some(v) == ParseU64(Get(fields, k))
  {
    hide Decimal.Decimal, ParseU64, Get;
    DecimalRoundTrip(v);
  }

  lemma {:induction false} FlagBack(fields: Fields, k: Key, flag: bool)
    requires Get(fields, k) == if IfTrue(flag).Some? then IfTrue(flag).value else ""
    ensures OrFalse(fields, k) == Some(flag)
  {
    hide Get;
  }

  // ---- the payload ------------------------------------------------------------------------------------------

  // The hop limit of a probe that is not scoped by it is not shown.
  function Shape(p: Payload): Payload {
    if p.ProbeReport? && !p.ttlScoped then p.(ttl := 0) else p
  }

  lemma {:induction false} At(fields: Fields, item: Item, k: Key)
    requires Carries(fields, item)
    ensures Get(fields, k) == TextAt(item, k)
  {
  }

  lemma {:induction false} PayloadAt(fields: Fields, item: Item, k: Key)
    requires Carries(fields, item) && !OfHeader(k)
    ensures Get(fields, k)
         == if PayloadValue(item.payload, k).Some? then PayloadValue(item.payload, k).value else ""
  {
    hide HeaderValue, PayloadValue;
    At(fields, item, k);
  }

  lemma {:induction false} CounterBack(fields: Fields, item: Item, context: Context)
    requires Carries(fields, item) && item.payload.CounterSample? && item.payload.widthBits <= 64
    ensures CounterFrom(fields, context) == Some(item.payload)
  {
    hide Carries, Get, HexText, UnlessNil, Decimal.Decimal, ScopeName, ParseScope, ParseU64, OrNumber, Required, OrNil;
    var p := item.payload;
    PayloadAt(fields, item, CounterKey);
    RequiredBack(fields, CounterKey, p.counter, context);
    PayloadAt(fields, item, ScopeKey);
    ScopeRoundTrip(p.scope);
    PayloadAt(fields, item, ValueKey);
    NumberBack(fields, ValueKey, p.value, 0);
    PayloadAt(fields, item, BitsKey);
    NumberBack(fields, BitsKey, p.widthBits, 32);
    PayloadAt(fields, item, NodeKey);
    OrNilBack(fields, NodeKey, p.node, context);
    PayloadAt(fields, item, PortKey);
    OrNilBack(fields, PortKey, p.port, context);
    PayloadAt(fields, item, QueueKey);
    OrNilBack(fields, QueueKey, p.queue, context);
    PayloadAt(fields, item, HopKey);
    OrNilBack(fields, HopKey, p.hop, context);
    PayloadAt(fields, item, LinkKey);
    OrNilBack(fields, LinkKey, p.link, context);
  }

  lemma {:induction false} CountsBack(fields: Fields, item: Item)
    requires Carries(fields, item) && item.payload.ProbeReport?
    ensures OrNumber(fields, SentKey, 0) == Some(item.payload.sent)
    ensures OrNumber(fields, ReceivedKey, 0) == Some(item.payload.received)
    ensures OrNumber(fields, TimeoutKey, 0) == Some(item.payload.timedOut)
  {
    hide Carries, Get, HexText, Decimal.Decimal, IfTrue, ParseU64, OrNumber;
    PayloadAt(fields, item, SentKey);
    NumberBack(fields, SentKey, item.payload.sent, 0);
    PayloadAt(fields, item, ReceivedKey);
    NumberBack(fields, ReceivedKey, item.payload.received, 0);
    PayloadAt(fields, item, TimeoutKey);
    NumberBack(fields, TimeoutKey, item.payload.timedOut, 0);
  }

  lemma {:induction false} ProbeBack(fields: Fields, item: Item, context: Context)
    requires Carries(fields, item) && item.payload.ProbeReport?
    ensures ProbeFrom(fields, context) == Some(Shape(item.payload))
  {
    hide Carries, Get, HexText, Decimal.Decimal, IfTrue, OrNumber, Required, OrFalse;
    var p := item.payload;
    CountsBack(fields, item);
    PayloadAt(fields, item, ProbeKey);
    RequiredBack(fields, ProbeKey, p.probe, context);
    PayloadAt(fields, item, OnewayKey);
    FlagBack(fields, OnewayKey, p.oneWay);
    PayloadAt(fields, item, TtlKey);
    TtlBack(fields, item);
  }

  lemma {:induction false} TtlBack(fields: Fields, item: Item)
    requires item.payload.ProbeReport?
    requires Get(fields, TtlKey) == if item.payload.ttlScoped then Decimal.Decimal(item.payload.ttl) else ""
    ensures (Get(fields, TtlKey) != "") == item.payload.ttlScoped
    ensures OrNumber(fields, TtlKey, 0) == Some(if item.payload.ttlScoped then item.payload.ttl else 0)
  {
    hide Get, ParseU64, Decimal.Decimal;
    DecimalRoundTrip(item.payload.ttl);
  }

  lemma {:induction false} SequenceBack(fields: Fields, item: Item)
    requires Carries(fields, item) && item.payload.SequenceReport?
    ensures SequenceFrom(fields) == Some(item.payload)
  {
    hide Carries, Get, Decimal.Decimal, IfTrue, ParseU64, OrNumber, OrFalse;
    var p := item.payload;
    PayloadAt(fields, item, LowKey);
    NumberBack(fields, LowKey, p.lowest, 0);
    PayloadAt(fields, item, HighKey);
    NumberBack(fields, HighKey, p.highest, 0);
    PayloadAt(fields, item, ReceivedKey);
    NumberBack(fields, ReceivedKey, p.receivedCount, 0);
    PayloadAt(fields, item, RestartKey);
    FlagBack(fields, RestartKey, p.restart);
  }

  lemma {:induction false} EndpointBack(fields: Fields, item: Item, context: Context)
    requires Carries(fields, item) && item.payload.EndpointReport?
    ensures EndpointFrom(fields, context) == Some(item.payload)
  {
    hide Carries, Get, HexText, UnlessNil, Decimal.Decimal, IfTrue, RoleName, ParseRole, ParseU64, OrNumber, OrNil,
      OrFalse;
    var p := item.payload;
    PayloadAt(fields, item, RoleKey);
    RoleRoundTrip(p.role);
    PayloadAt(fields, item, CountKey);
    NumberBack(fields, CountKey, p.count, 0);
    PayloadAt(fields, item, NodeKey);
    OrNilBack(fields, NodeKey, p.endNode, context);
    PayloadAt(fields, item, PortKey);
    OrNilBack(fields, PortKey, p.endPort, context);
    PayloadAt(fields, item, ResetKey);
    FlagBack(fields, ResetKey, p.reset);
  }

  lemma {:induction false} PayloadBack(fields: Fields, item: Item, context: Context)
    requires Carries(fields, item) && (item.payload.CounterSample? ==> item.payload.widthBits <= 64)
    ensures PayloadFrom(Command(VerbOf(item.payload), fields), context) == Some(Shape(item.payload))
  {
    hide Carries, CounterFrom, ProbeFrom, SequenceFrom, EndpointFrom;
    match item.payload {
      case CounterSample(_, _, _, _, _, _, _, _, _) => CounterBack(fields, item, context);
      case ProbeReport(_, _, _, _, _, _, _) => ProbeBack(fields, item, context);
      case SequenceReport(_, _, _, _) => SequenceBack(fields, item);
      case EndpointReport(_, _, _, _, _) => EndpointBack(fields, item, context);
    }
  }

  // ---- the header ---------------------------------------------------------------------------------------------

  lemma {:induction false} HeaderAt(fields: Fields, item: Item, k: Key)
    requires Carries(fields, item) && OfHeader(k)
    ensures Get(fields, k) == if HeaderValue(item.header, k).Some? then HeaderValue(item.header, k).value else ""
  {
    hide HeaderValue, PayloadValue;
    At(fields, item, k);
  }

  // The whole second of an instant fits the word the parser computes it in.
  predicate Readable(nanos: I64) {
    IsoTime.FloorSecond(nanos) * IsoTime.NANOS >= IsoTime.LOWEST
  }

  lemma {:induction false} TimeBack(nanos: I64, fallback: I64, context: Context)
    ensures TimeOr(IsoTime.ToText(nanos), fallback, context) == if Readable(nanos) then Some(nanos) else None
  {
    hide IsoTime.ToText, IsoTime.Parse, IsoTime.FloorSecond;
    IsoTime.RoundTrip(nanos);
    FirstIsDigit(IsoTime.ToText(nanos));
  }

  lemma {:induction false} FirstIsDigit(text: string)
    ensures IsoTime.Parse(text).Instant? || IsoTime.Parse(text).Undefined? ==>
              text != "" && text[0] != '+' && text[0] != '-'
  {
    hide IsoTime.InstantOf, IsoTime.ReadFraction, IsoTime.NumberAt;
    if IsoTime.HasShape(text) {
      assert text[0..0 + 4][0] in text[0..0 + 4];
    }
  }

  lemma {:induction false} FirstColon(before: string, rest: string)
    requires ':' !in before && (rest == "" || rest[0] == ':')
    ensures ColonAt(before + rest) == |before|
  {
    if before == "" {
      assert before + rest == rest;
    } else {
      assert (before + rest)[1..] == before[1..] + rest;
      FirstColon(before[1..], rest);
    }
  }

  lemma {:induction false} SubjectBack(s: SubjectRef, g: Granularity, context: Context)
    requires !s.kind.UnknownSubject?
    ensures SubjectText(s) != "" && ExplicitSubject(SubjectText(s), Some(g), context) == Some(Bound(s, g))
  {
    hide HexText, SubjectName, ParseSubjectKind, Identity;
    var kind, id := SubjectName(s.kind), HexText(s.id);
    SubjectIsName(s.kind);
    NameIsPlain(kind);
    SubjectKindRoundTrip(s.kind);
    HexRoundTrip(s.id);
    IdentityBack(s.id, context);
    FirstColon(kind, [':'] + id);
    assert SubjectText(s) == kind + ([':'] + id);
    assert (kind + [':'] + id)[..|kind|] == kind && (kind + [':'] + id)[|kind| + 1..] == id;
  }

  lemma {:induction false} BoundBack(fields: Fields, item: Item, context: Context)
    requires Carries(fields, item) && !item.header.subject.kind.UnknownSubject?
    ensures SubjectFor(fields, context) == Some(Bound(item.header.subject, item.header.granularity))
  {
    hide Carries, Get, SubjectText, ExplicitSubject, ImpliedSubject, GranularityName, ParseGranularity;
    var h := item.header;
    HeaderAt(fields, item, ClassKey);
    GranularityRoundTrip(h.granularity);
    GranularityIsName(h.granularity);
    HeaderAt(fields, item, SubjectKey);
    SubjectBack(h.subject, h.granularity, context);
  }

  lemma {:induction false} MethodBack(fields: Fields, item: Item, fallback: Method)
    requires Carries(fields, item)
    ensures MethodOr(fields, fallback) == Some(item.header.method_)
  {
    hide Carries, Get, MethodName, ParseMethod;
    HeaderAt(fields, item, MethodKey);
    MethodRoundTrip(item.header.method_);
    MethodIsName(item.header.method_);
  }

  lemma {:induction false} SequenceNumberBack(fields: Fields, item: Item, source: U64, epoch: U64, context: Context)
    requires Carries(fields, item)
    ensures SequenceFor(fields, source, epoch, context) == Some(item.header.sequence)
  {
    hide Carries, Get, Decimal.Decimal, ParseU64;
    HeaderAt(fields, item, SeqKey);
    NumberBack(fields, SeqKey, item.header.sequence, 0);
  }

  lemma {:induction false} NoteBack(fields: Fields, item: Item)
    requires Carries(fields, item)
    ensures IsText(Get(fields, NoteKey)) && AsText(Get(fields, NoteKey)) == item.header.note
  {
    hide Carries, Get;
    HeaderAt(fields, item, NoteKey);
    assert Get(fields, NoteKey) == item.header.note;
  }

  lemma {:induction false} IdsBack(fields: Fields, item: Item, context: Context)
    requires Carries(fields, item)
    ensures Required(fields, SourceKey, context) == Some(item.header.source)
    ensures Required(fields, EpochKey, context) == Some(item.header.epoch)
    ensures Required(fields, GenKey, context) == Some(item.header.generation)
    ensures Required(fields, IdKey, context) == Some(item.header.id)
    ensures OrNil(fields, RevKey, context) == item.header.revision
  {
    hide Carries, Get, HexText, Identity;
    var h := item.header;
    HeaderAt(fields, item, SourceKey);
    RequiredBack(fields, SourceKey, h.source, context);
    HeaderAt(fields, item, EpochKey);
    RequiredBack(fields, EpochKey, h.epoch, context);
    HeaderAt(fields, item, GenKey);
    RequiredBack(fields, GenKey, h.generation, context);
    HeaderAt(fields, item, IdKey);
    RequiredBack(fields, IdKey, h.id, context);
    HeaderAt(fields, item, RevKey);
    RequiredBack(fields, RevKey, h.revision, context);
  }

  lemma {:induction false} HeaderBack(fields: Fields, item: Item, context: Context)
    requires Carries(fields, item)
    requires !item.header.subject.kind.UnknownSubject? && item.header.granularity != UnknownGranularity
    ensures HeaderFrom(fields, Shape(item.payload), context)
         == if Readable(item.header.observedAt) && Readable(item.header.receivedAt)
            then Some(item.header.(recovered := false)) else None
  {
    hide Carries, Get, Identity, OrNil, SubjectFor, MethodOr, SequenceFor, TimeOr, IsText, IsoTime.ToText, Readable;
    hide Store.MethodFor, DefaultGranularity, Shape;
    var h := item.header;
    IdsBack(fields, item, context);
    BoundBack(fields, item, context);
    HeaderAt(fields, item, ObservedKey);
    TimeBack(h.observedAt, context.now, context);
    HeaderAt(fields, item, RecvKey);
    TimeBack(h.receivedAt, h.observedAt, context);
    MethodBack(fields, item, Store.MethodFor(Shape(item.payload)));
    SequenceNumberBack(fields, item, h.source, h.epoch, context);
    NoteBack(fields, item);
  }

  // ---- every line that is read has a note without white space ---------------------------------------------------

  ghost predicate Spaceless(fields: Fields) {
    forall k <- fields :: NoSpace(fields[k])
  }

  lemma {:induction false} FieldsSpaceless(verb: Verb, words: seq<string>)
    requires words != [] && forall w <- words :: NoSpace(w)
    ensures FieldsOf(verb, words).Some? ==> Spaceless(FieldsOf(verb, words).value)
  {
    hide KeyNamed, Allows, NoSpace;
    if |words| > 1 {
      var front, last := words[..|words| - 1], words[|words| - 1];
      FieldsSpaceless(verb, front);
      var equals := EqualsAt(last);
      if equals < |last| {
        NoSpaceAfter(last, equals + 1);
      }
    }
  }

  lemma {:induction false} NoSpaceAfter(word: string, i: nat)
    requires i <= |word| && NoSpace(word)
    ensures NoSpace(word[i..])
  {
  }

  lemma {:induction false} NotesHaveNoSpace(raw: string, context: Context)
    ensures ItemOf(raw, context).Some? ==> NoSpace(ItemOf(raw, context).value.header.note)
  {
    hide Words, Content, Trim, VerbNamed, FieldsOf, PayloadFrom, NoSpace;
    var words := Words(Content(raw));
    WordsHaveNoSpace(Content(raw));
    if CommandOf(raw).Some? {
      var command := CommandOf(raw).value;
      FieldsSpaceless(command.verb, words);
      var payload := PayloadFrom(command, context);
      if payload.Some? {
        NoteIsField(command.fields, payload.value, context);
        EmptyHasNoSpace();
      }
    }
  }

  lemma {:induction false} EmptyHasNoSpace()
    ensures NoSpace("")
  {
  }

  lemma {:induction false} NoteIsField(fields: Fields, p: Payload, context: Context)
    ensures HeaderFrom(fields, p, context).Some? ==>
              HeaderFrom(fields, p, context).value.note == Get(fields, NoteKey)
  {
    hide Get, Required, OrNil, SubjectFor, TimeOr, MethodOr, SequenceFor, Identity, IsText;
  }

  // ---- the round trip --------------------------------------------------------------------------------------------

  predicate Exportable(item: Item) {
    && NoSpace(item.header.note)
    && Readable(item.header.observedAt) && Readable(item.header.receivedAt)
    && (item.payload.ProbeReport? && !item.payload.ttlScoped ==> item.payload.ttl == 0)
  }

  function AsSubmitted(item: Item): Item {
    item.(header := item.header.(recovered := false))
  }

  lemma {:induction false} ItemBack(item: Item, context: Context)
    requires Store.Validate(item) == Store.NoReason && NoSpace(item.header.note)
    ensures ItemOf(LineOf(item), context)
         == if Readable(item.header.observedAt) && Readable(item.header.receivedAt)
            then Some(Item(item.header.(recovered := false), Shape(item.payload))) else None
  {
    hide LineOf, NoSpace, CommandOf, PayloadFrom, HeaderFrom, Carries, Readable, Shape;
    CommandBack(item);
    var command := CommandOf(LineOf(item)).value;
    PayloadBack(command.fields, item, context);
    HeaderBack(command.fields, item, context);
  }

  // The line of a valid item reads back as the item, apart from the mark of recovery,
  // exactly when its note has no white space, the whole seconds of its two times are
  // within the range the parser computes in, and the probe it may hold has no hop
  // limit that the line leaves out.
  lemma {:induction false} ExportReadsBack(item: Item, context: Context)
    requires Store.Validate(item) == Store.NoReason
    ensures ItemOf(LineOf(item), context) == Some(AsSubmitted(item)) <==> Exportable(item)
  {
    hide LineOf, ItemOf, Readable, NoSpace;
    if NoSpace(item.header.note) {
      ItemBack(item, context);
    } else {
      NotesHaveNoSpace(LineOf(item), context);
    }
  }

  // Different exportable items have different lines.
  lemma {:induction false} LinesDiffer(a: Item, b: Item, context: Context)
    requires Store.Validate(a) == Store.NoReason && Store.Validate(b) == Store.NoReason
    requires Exportable(a) && Exportable(b) && LineOf(a) == LineOf(b)
    ensures AsSubmitted(a) == AsSubmitted(b)
  {
    hide LineOf, ItemOf, Exportable, AsSubmitted, Store.Validate;
    ExportReadsBack(a, context);
    ExportReadsBack(b, context);
  }

  // A hop limit that is not in use is lost.
  lemma {:induction false} UnusedTtlIsLost(context: Context)
    ensures var item := Item(Header(1, 1, 1, 1, 0, 1, 1, 1, ProbeRoundTrip, SubjectRef(Flow, 1), PathWide, [], false),
                             ProbeReport(1, 0, 0, 0, false, 5, false));
            Store.Validate(item) == Store.NoReason && ItemOf(LineOf(item), context) != Some(AsSubmitted(item))
  {
    hide LineOf, ItemOf, Readable;
    ExportReadsBack(Item(Header(1, 1, 1, 1, 0, 1, 1, 1, ProbeRoundTrip, SubjectRef(Flow, 1), PathWide, [], false),
                         ProbeReport(1, 0, 0, 0, false, 5, false)), context);
  }
}
