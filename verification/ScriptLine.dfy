// Reading a script line that carries evidence: the words of the line become a
// command, and the command becomes an item.
module ScriptLine {
  import opened Bytes
  import opened Evidence
  import opened Lexer
  import opened ScriptValues
  import opened ExportLine
  import IsoTime
  import Store

  // ---- from a line to a command ------------------------------------------------------------------

  datatype Verb = CounterVerb | ProbeVerb | SequenceVerb | EndpointVerb

  function VerbNamed(word: string): Option<Verb> {
    if word == "counter" then Some(CounterVerb)
    else if word == "probe" then Some(ProbeVerb)
    else if word == "sequence" then Some(SequenceVerb)
    else if word == "endpoint" then Some(EndpointVerb)
    else None
  }

  predicate Allows(verb: Verb, k: Key) {
    match k
    case IdKey => true
    case SourceKey => true
    case EpochKey => true
    case GenKey => true
    case SeqKey => true
    case ClassKey => true
    case SubjectKey => true
    case ObservedKey => true
    case RecvKey => true
    case NoteKey => true
    case MethodKey => true
    case RevKey => true
    case CounterKey => verb.CounterVerb?
    case ScopeKey => verb.CounterVerb?
    case ValueKey => verb.CounterVerb?
    case BitsKey => verb.CounterVerb?
    case NodeKey => verb.CounterVerb? || verb.EndpointVerb?
    case PortKey => verb.CounterVerb? || verb.EndpointVerb?
    case QueueKey => verb.CounterVerb? || verb.ProbeVerb?
    case HopKey => verb.CounterVerb? || verb.ProbeVerb?
    case LinkKey => verb.CounterVerb? || verb.ProbeVerb?
    case ProbeKey => verb.ProbeVerb?
    case SentKey => verb.ProbeVerb?
    case TimeoutKey => verb.ProbeVerb?
    case TtlKey => verb.ProbeVerb?
    case OnewayKey => verb.ProbeVerb?
    case ReceivedKey => verb.ProbeVerb? || verb.SequenceVerb?
    case LowKey => verb.SequenceVerb?
    case HighKey => verb.SequenceVerb?
    case RestartKey => verb.SequenceVerb?
    case RoleKey => verb.EndpointVerb?
    case CountKey => verb.EndpointVerb?
    case ResetKey => verb.EndpointVerb?
    case FlowKey => !verb.CounterVerb?
    case PathKey => verb.ProbeVerb? || verb.SequenceVerb?
  }

  // The key with this text among the first n.
  function KeyNamed(text: string, n: nat): (k: Option<Key>)
    requires n <= KEYS
    ensures k.Some? ==> KeyText(k.value) == text
  {
    if n == 0 then None
    else if KeyText(KeyAt(n - 1)) == text then Some(KeyAt(n - 1))
    else KeyNamed(text, n - 1)
  }

  type Fields = map<Key, string>

  // One more word of the command; none if the word is not a field, its key is not
  // known to the verb, or the key was there before.
  function WithWord(verb: Verb, fields: Fields, word: string): Option<Fields> {
    var equals := EqualsAt(word);
    if equals == |word| || equals == 0 then None
    else
      match KeyNamed(word[..equals], KEYS)
      case None => None
      case Some(k) => if !Allows(verb, k) || k in fields then None else Some(fields[k := word[equals + 1..]])
  }

  // The first word is the verb.
  function FieldsOf(verb: Verb, words: seq<string>): Option<Fields>
    requires words != []
  {
    if |words| == 1 then Some(map[])
    else
      match FieldsOf(verb, words[..|words| - 1])
      case None => None
      case Some(fields) => WithWord(verb, fields, words[|words| - 1])
  }

  const MAX_LINE := 8192

  datatype Command = Command(verb: Verb, fields: Fields)

  // The evidence command of a line, if it holds one.
  function CommandOf(raw: string): Option<Command> {
    var content := Content(raw);
    var words := Words(content);
    if |raw| > MAX_LINE || Trim(raw) == [] || Trim(raw)[0] == '#' || words == [] then None
    else
      match VerbNamed(words[0])
      case None => None
      case Some(verb) =>
        match FieldsOf(verb, words)
        case None => None
        case Some(fields) => Some(Command(verb, fields))
  }

  method ParseLine(raw: string) returns (command: Option<Command>)
    ensures command == CommandOf(raw)
  {
    hide Words, Content, Trim, FieldsOf, WithWord, VerbNamed;
    if |raw| > MAX_LINE {
      return None;
    }
    var trimmed := Trim(raw);
    if trimmed == [] || trimmed[0] == '#' {
      return None;
    }
    var tokens := Tokenize(Content(raw));
    if tokens == [] {
      return None;
    }
    var verb := VerbNamed(tokens[0]);
    if verb.None? {
      return None;
    }
    var fields := ParseFields(verb.value, tokens);
    command := if fields.None? then None else Some(Command(verb.value, fields.value));
  }

  method ParseFields(verb: Verb, tokens: seq<string>) returns (r: Option<Fields>)
    requires tokens != []
    ensures r == FieldsOf(verb, tokens)
  {
    hide KeyNamed, Allows, WithWord;
    var fields: Fields := map[];
    var i := 1;
    assert tokens[..1] == [tokens[0]];
    while i < |tokens|
      invariant 1 <= i <= |tokens| && FieldsOf(verb, tokens[..i]) == Some(fields)
    {
      assert tokens[..i + 1][..i] == tokens[..i] && tokens[..i + 1][i] == tokens[i];
      var more := WithWord(verb, fields, tokens[i]);
      if more.None? {
        NoFieldsAfter(verb, tokens, i + 1);
        return None;
      }
      fields := more.value;
      i := i + 1;
    }
    assert tokens[..i] == tokens;
    r := Some(fields);
  }

  lemma {:induction false} NoFieldsAfter(verb: Verb, words: seq<string>, i: nat)
    requires 1 <= i <= |words| && FieldsOf(verb, words[..i]).None?
    ensures FieldsOf(verb, words).None?
    decreases |words| - i
  {
    if i < |words| {
      assert words[..i + 1][..i] == words[..i];
      NoFieldsAfter(verb, words, i + 1);
    } else {
      assert words[..i] == words;
    }
  }

  // ---- from a command to an item --------------------------------------------------------------------

  // What the line does not hold: the time of the script, the hash of symbolic
  // names, the sequence number and the identity given when the line has none, and
  // times written as offsets.
  datatype Context = Context(
    now: I64,
    hash: string -> U64,
    nextSequence: (U64, U64) -> U64,
    derivedId: (U64, U64, U64) -> U64,
    offset: (string, I64) -> Option<I64>)

  function Get(fields: Fields, k: Key): string {
    if k in fields then fields[k] else ""
  }

  function Identity(text: string, context: Context): U64 {
    match ParseHex(text)
    case Some(v) => v
    case None => context.hash(text)
  }

  function Required(fields: Fields, k: Key, context: Context): Option<U64> {
    if Get(fields, k) == "" then None else Some(Identity(Get(fields, k), context))
  }

  function OrNil(fields: Fields, k: Key, context: Context): U64 {
    if Get(fields, k) == "" then 0 else Identity(Get(fields, k), context)
  }

  function OrNumber(fields: Fields, k: Key, fallback: U64): Option<U64> {
    if Get(fields, k) == "" then Some(fallback) else ParseU64(Get(fields, k))
  }

  function OrFalse(fields: Fields, k: Key): Option<bool> {
    if Get(fields, k) == "" then Some(false) else ParseBool(Get(fields, k))
  }

  function TimeOr(text: string, fallback: I64, context: Context): Option<I64> {
    if text == "" then Some(fallback)
    else if text[0] == '+' || text[0] == '-' then context.offset(text, fallback)
    else
      match IsoTime.Parse(text)
      case Instant(nanos) => Some(nanos)
      case _ => None
  }

  // The position of the first colon.
  function ColonAt(text: string): (n: nat)
    ensures n <= |text|
  {
    if text == [] || text[0] == ':' then 0 else 1 + ColonAt(text[1..])
  }

  datatype Bound = Bound(subject: SubjectRef, granularity: Granularity)

  // The subject written out as kind and identity.
  function ExplicitSubject(text: string, granularity: Option<Granularity>, context: Context): Option<Bound> {
    var colon := ColonAt(text);
    if colon == |text| then None
    else
      var kind := ParseSubjectKind(text[..colon]);
      if kind.None? || kind == Some(UnknownSubject) || colon + 1 == |text| then None
      else Some(Bound(SubjectRef(kind.value, Identity(text[colon + 1..], context)),
                      if granularity.Some? then granularity.value else FlowWide))
  }

  // The subject named by one of the keys of a verb.
  function ImpliedSubject(fields: Fields, granularity: Option<Granularity>, context: Context): Option<Bound> {
    var as_ := (g: Granularity) => if granularity.Some? then granularity.value else g;
    if Get(fields, QueueKey) != "" then Some(Bound(SubjectRef(Queue, OrNil(fields, QueueKey, context)), as_(QueueWide)))
    else if Get(fields, HopKey) != "" then Some(Bound(SubjectRef(Hop, OrNil(fields, HopKey, context)), as_(HopWide)))
    else if Get(fields, LinkKey) != "" then
      Some(Bound(SubjectRef(Link, OrNil(fields, LinkKey, context)), as_(LinkWide)))
    else if Get(fields, FlowKey) != "" then
      Some(Bound(SubjectRef(Flow, OrNil(fields, FlowKey, context)), as_(UnknownGranularity)))
    else if Get(fields, PathKey) != "" then
      Some(Bound(SubjectRef(Path, OrNil(fields, PathKey, context)), as_(UnknownGranularity)))
    else None
  }

  function SubjectFor(fields: Fields, context: Context): Option<Bound> {
    var class_ := Get(fields, ClassKey);
    var granularity := ParseGranularity(class_);
    if class_ != "" && granularity.None? then None
    else if Get(fields, SubjectKey) != "" then ExplicitSubject(Get(fields, SubjectKey), granularity, context)
    else ImpliedSubject(fields, granularity, context)
  }

  function SequenceFor(fields: Fields, source: U64, epoch: U64, context: Context): Option<U64> {
    if Get(fields, SeqKey) == "" then Some(context.nextSequence(source, epoch)) else ParseU64(Get(fields, SeqKey))
  }

  function MethodOr(fields: Fields, fallback: Method): Option<Method> {
    if Get(fields, MethodKey) == "" then Some(fallback) else ParseMethod(Get(fields, MethodKey))
  }

  predicate IsText(s: string) {
    forall c <- s :: c as int < 256
  }

  function AsText(s: string): (t: Text)
    requires IsText(s)
    ensures t == s
  {
    assert forall i :: 0 <= i < |s| ==> s[i] in s;
    s
  }

  // The granularity of evidence that declares none.
  function DefaultGranularity(p: Payload): Granularity {
    match p
    case CounterSample(_, _, _, _, _, _, _, _, _) => UnknownGranularity
    case ProbeReport(_, _, _, _, _, _, _) => PathWide
    case SequenceReport(_, _, _, _) => FlowWide
    case EndpointReport(_, _, _, _, _) => FlowWide
  }

  function HeaderFrom(fields: Fields, p: Payload, context: Context): Option<Header> {
    var source := Required(fields, SourceKey, context);
    var epoch := Required(fields, EpochKey, context);
    var generation := Required(fields, GenKey, context);
    var bound := SubjectFor(fields, context);
    var observed := TimeOr(Get(fields, ObservedKey), context.now, context);
    var method_ := MethodOr(fields, Store.MethodFor(p));
    var note := Get(fields, NoteKey);
    if source.None? || epoch.None? || generation.None? || bound.None? || observed.None? || method_.None? then None
    else if !IsText(note) then None
    else
      var sequence := SequenceFor(fields, source.value, epoch.value, context);
      var received := TimeOr(Get(fields, RecvKey), observed.value, context);
      if sequence.None? || received.None? then None
      else
        var id := if Get(fields, IdKey) == "" then context.derivedId(source.value, epoch.value, sequence.value)
                  else Identity(Get(fields, IdKey), context);
        var granularity := if bound.value.granularity == UnknownGranularity then DefaultGranularity(p)
                           else bound.value.granularity;
        Some(Header(id, source.value, epoch.value, generation.value, OrNil(fields, RevKey, context), sequence.value,
                    observed.value, received.value, method_.value, bound.value.subject, granularity,
                    AsText(note), false))
  }

  function CounterFrom(fields: Fields, context: Context): Option<Payload> {
    var scope := ParseScope(Get(fields, ScopeKey));
    var value := ParseU64(Get(fields, ValueKey));
    var bits := OrNumber(fields, BitsKey, 32);
    var counter := Required(fields, CounterKey, context);
    if scope.None? || value.None? || bits.None? || counter.None? then None
    else Some(CounterSample(counter.value, scope.value, value.value, if bits.value > 64 then 64 else bits.value,
                            OrNil(fields, NodeKey, context), OrNil(fields, PortKey, context),
                            OrNil(fields, QueueKey, context), OrNil(fields, HopKey, context),
                            OrNil(fields, LinkKey, context)))
  }

  // Counts are cut to their 32 bits, the hop limit to its 8.
  function ProbeFrom(fields: Fields, context: Context): Option<Payload> {
    var probe := Required(fields, ProbeKey, context);
    var sent := OrNumber(fields, SentKey, 0);
    var received := OrNumber(fields, ReceivedKey, 0);
    var timeout := OrNumber(fields, TimeoutKey, 0);
    var oneway := OrFalse(fields, OnewayKey);
    var ttl := OrNumber(fields, TtlKey, 0);
    if probe.None? || sent.None? || received.None? || timeout.None? || oneway.None? || ttl.None? then None
    else Some(ProbeReport(probe.value, sent.value % 0x1_0000_0000, received.value % 0x1_0000_0000,
                          timeout.value % 0x1_0000_0000, Get(fields, TtlKey) != "", ttl.value % 0x100, oneway.value))
  }

  function SequenceFrom(fields: Fields): Option<Payload> {
    var low := ParseU64(Get(fields, LowKey));
    var high := ParseU64(Get(fields, HighKey));
    var received := ParseU64(Get(fields, ReceivedKey));
    var restart := OrFalse(fields, RestartKey);
    if low.None? || high.None? || received.None? || restart.None? then None
    else Some(SequenceReport(low.value, high.value, received.value, restart.value))
  }

  function EndpointFrom(fields: Fields, context: Context): Option<Payload> {
    var role := ParseRole(Get(fields, RoleKey));
    var count := ParseU64(Get(fields, CountKey));
    var reset := OrFalse(fields, ResetKey);
    if role.None? || count.None? || reset.None? then None
    else Some(EndpointReport(role.value, OrNil(fields, NodeKey, context), OrNil(fields, PortKey, context),
                             count.value, reset.value))
  }

  function PayloadFrom(command: Command, context: Context): Option<Payload> {
    match command.verb
    case CounterVerb => CounterFrom(command.fields, context)
    case ProbeVerb => ProbeFrom(command.fields, context)
    case SequenceVerb => SequenceFrom(command.fields)
    case EndpointVerb => EndpointFrom(command.fields, context)
  }

  // The item a command hands to the engine, if it gets that far.
  function ItemFrom(command: Command, context: Context): Option<Item> {
    match PayloadFrom(command, context)
    case None => None
    case Some(payload) =>
      match HeaderFrom(command.fields, payload, context)
      case None => None
      case Some(header) => Some(Item(header, payload))
  }

  function ItemOf(raw: string, context: Context): Option<Item> {
    match CommandOf(raw)
    case None => None
    case Some(command) => ItemFrom(command, context)
  }
}
