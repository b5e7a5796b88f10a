// The exported line of an evidence item: a verb and "key=value" words in a fixed
// order.
module ExportLine {
  import opened Bytes
  import opened Evidence
  import opened Lexer
  import opened ScriptValues
  import Decimal
  import IsoTime

  // ---- keys ------------------------------------------------------------------------------------

  datatype Key =
    | MethodKey | SourceKey | EpochKey | GenKey | IdKey | SeqKey | SubjectKey | ClassKey | RevKey
    | ObservedKey | RecvKey
    | CounterKey | ScopeKey | ValueKey | BitsKey | RoleKey | CountKey
    | NodeKey | PortKey | QueueKey | HopKey | LinkKey
    | ProbeKey | SentKey | LowKey | HighKey | ReceivedKey | TimeoutKey | TtlKey | OnewayKey
    | RestartKey | ResetKey | NoteKey
    | FlowKey | PathKey

  function KeyText(k: Key): string {
    match k
    case MethodKey => "method"
    case SourceKey => "source"
    case EpochKey => "epoch"
    case GenKey => "gen"
    case IdKey => "id"
    case SeqKey => "seq"
    case SubjectKey => "subject"
    case ClassKey => "class"
    case RevKey => "rev"
    case ObservedKey => "observed"
    case RecvKey => "recv"
    case CounterKey => "counter"
    case ScopeKey => "scope"
    case ValueKey => "value"
    case BitsKey => "bits"
    case RoleKey => "role"
    case CountKey => "count"
    case NodeKey => "node"
    case PortKey => "port"
    case QueueKey => "queue"
    case HopKey => "hop"
    case LinkKey => "link"
    case ProbeKey => "probe"
    case SentKey => "sent"
    case LowKey => "low"
    case HighKey => "high"
    case ReceivedKey => "received"
    case TimeoutKey => "timeout"
    case TtlKey => "ttl"
    case OnewayKey => "oneway"
    case RestartKey => "restart"
    case ResetKey => "reset"
    case NoteKey => "note"
    case FlowKey => "flow"
    case PathKey => "path"
  }

  const KEYS := 35

  // The keys in the order of the line.
  function KeyAt(i: nat): Key
    requires i < KEYS
  {
    match i
    case 0 => MethodKey
    case 1 => SourceKey
    case 2 => EpochKey
    case 3 => GenKey
    case 4 => IdKey
    case 5 => SeqKey
    case 6 => SubjectKey
    case 7 => ClassKey
    case 8 => RevKey
    case 9 => ObservedKey
    case 10 => RecvKey
    case 11 => CounterKey
    case 12 => ScopeKey
    case 13 => ValueKey
    case 14 => BitsKey
    case 15 => RoleKey
    case 16 => CountKey
    case 17 => NodeKey
    case 18 => PortKey
    case 19 => QueueKey
    case 20 => HopKey
    case 21 => LinkKey
    case 22 => ProbeKey
    case 23 => SentKey
    case 24 => LowKey
    case 25 => HighKey
    case 26 => ReceivedKey
    case 27 => TimeoutKey
    case 28 => TtlKey
    case 29 => OnewayKey
    case 30 => RestartKey
    case 31 => ResetKey
    case 32 => NoteKey
    case 33 => FlowKey
    case _ => PathKey
  }

  function PlaceOf(k: Key): (i: nat)
    ensures i < KEYS
  {
    match k
    case MethodKey => 0
    case SourceKey => 1
    case EpochKey => 2
    case GenKey => 3
    case IdKey => 4
    case SeqKey => 5
    case SubjectKey => 6
    case ClassKey => 7
    case RevKey => 8
    case ObservedKey => 9
    case RecvKey => 10
    case CounterKey => 11
    case ScopeKey => 12
    case ValueKey => 13
    case BitsKey => 14
    case RoleKey => 15
    case CountKey => 16
    case NodeKey => 17
    case PortKey => 18
    case QueueKey => 19
    case HopKey => 20
    case LinkKey => 21
    case ProbeKey => 22
    case SentKey => 23
    case LowKey => 24
    case HighKey => 25
    case ReceivedKey => 26
    case TimeoutKey => 27
    case TtlKey => 28
    case OnewayKey => 29
    case RestartKey => 30
    case ResetKey => 31
    case NoteKey => 32
    case FlowKey => 33
    case PathKey => 34
  }

  lemma {:induction false} PlaceOfKey(k: Key)
    ensures KeyAt(PlaceOf(k)) == k
  {
  }

  lemma {:induction false} KeyOfPlace(i: nat)
    requires i < KEYS
    ensures PlaceOf(KeyAt(i)) == i
  {
  }

  // A key is known by the length and the first and third characters of its text.
  function Marked(length: nat, first: char, third: char): Key {
    match length
    case 2 => IdKey
    case 3 =>
      if first == 'g' then GenKey
      else if first == 's' then SeqKey
      else if first == 'r' then RevKey
      else if first == 'h' then HopKey
      else if first == 'l' then LowKey
      else TtlKey
    case 4 =>
      if first == 'b' then BitsKey
      else if first == 'l' then LinkKey
      else if first == 's' then SentKey
      else if first == 'h' then HighKey
      else if first == 'f' then FlowKey
      else if first == 'r' then (if third == 'c' then RecvKey else RoleKey)
      else if first == 'n' then (if third == 'd' then NodeKey else NoteKey)
      else if third == 'r' then PortKey
      else PathKey
    case 5 =>
      if first == 'e' then EpochKey
      else if first == 's' then ScopeKey
      else if first == 'v' then ValueKey
      else if first == 'q' then QueueKey
      else if first == 'p' then ProbeKey
      else if first == 'r' then ResetKey
      else if third == 'a' then ClassKey
      else CountKey
    case 6 => if first == 'm' then MethodKey else if first == 's' then SourceKey else OnewayKey
    case 7 =>
      if first == 'c' then CounterKey
      else if first == 's' then SubjectKey
      else if first == 't' then TimeoutKey
      else RestartKey
    case _ => if first == 'o' then ObservedKey else ReceivedKey
  }

  lemma {:induction false} KeyIsMarked(k: Key)
    ensures |KeyText(k)| >= 2
    ensures var t := KeyText(k); Marked(|t|, t[0], if |t| == 2 then ' ' else t[2]) == k
  {
  }

  // Different keys have different texts.
  lemma {:induction false} KeyTextsDiffer(a: Key, b: Key)
    requires KeyText(a) == KeyText(b)
    ensures a == b
  {
    hide KeyText, Marked;
    KeyIsMarked(a);
    KeyIsMarked(b);
  }

  lemma {:induction false} KeyTextLength(k: Key)
    ensures 2 <= |KeyText(k)| <= 8
  {
  }

  lemma {:induction false} EarlyLetter(k: Key, i: nat)
    requires i < |KeyText(k)| && PlaceOf(k) < 17
    ensures 'a' <= KeyText(k)[i] <= 'z'
  {
  }

  lemma {:induction false} LateLetter(k: Key, i: nat)
    requires i < |KeyText(k)| && PlaceOf(k) >= 17
    ensures 'a' <= KeyText(k)[i] <= 'z'
  {
  }

  lemma {:induction false} KeyTextIsPlain(k: Key)
    ensures 2 <= |KeyText(k)| <= 8
    ensures NoSpace(KeyText(k)) && '=' !in KeyText(k) && KeyText(k)[0] != '#'
  {
    hide KeyText, PlaceOf;
    KeyTextLength(k);
    forall i | 0 <= i < |KeyText(k)|
      ensures 'a' <= KeyText(k)[i] <= 'z'
    {
      if PlaceOf(k) < 17 {
        EarlyLetter(k, i);
      } else {
        LateLetter(k, i);
      }
    }
  }

  // ---- values ----------------------------------------------------------------------------------

  function VerbText(p: Payload): string {
    match p
    case CounterSample(_, _, _, _, _, _, _, _, _) => "counter"
    case ProbeReport(_, _, _, _, _, _, _) => "probe"
    case SequenceReport(_, _, _, _) => "sequence"
    case EndpointReport(_, _, _, _, _) => "endpoint"
  }

  function SubjectText(s: SubjectRef): string {
    if s.kind == UnknownSubject then "unknown" else SubjectName(s.kind) + [':'] + HexText(s.id)
  }

  function UnlessNil(id: U64): Option<string> {
    if id == 0 then None else Some(HexText(id))
  }

  function IfTrue(flag: bool): Option<string> {
    if flag then Some("true") else None
  }

  function HeaderValue(h: Header, k: Key): Option<string> {
    match k
    case MethodKey => Some(MethodName(h.method_))
    case SourceKey => Some(HexText(h.source))
    case EpochKey => Some(HexText(h.epoch))
    case GenKey => Some(HexText(h.generation))
    case IdKey => Some(HexText(h.id))
    case SeqKey => Some(Decimal.Decimal(h.sequence))
    case SubjectKey => Some(SubjectText(h.subject))
    case ClassKey => Some(GranularityName(h.granularity))
    case RevKey => Some(HexText(h.revision))
    case ObservedKey => Some(IsoTime.ToText(h.observedAt))
    case RecvKey => Some(IsoTime.ToText(h.receivedAt))
    case NoteKey => if h.note == [] then None else Some(h.note)
    case _ => None
  }

  function PayloadValue(p: Payload, k: Key): Option<string> {
    match p
    case CounterSample(counter, scope, value, widthBits, node, port, queue, hop, link) => (
      match k
      case CounterKey => Some(HexText(counter))
      case ScopeKey => Some(ScopeName(scope))
      case ValueKey => Some(Decimal.Decimal(value))
      case BitsKey => Some(Decimal.Decimal(widthBits))
      case NodeKey => UnlessNil(node)
      case PortKey => UnlessNil(port)
      case QueueKey => UnlessNil(queue)
      case HopKey => UnlessNil(hop)
      case LinkKey => UnlessNil(link)
      case _ => None)
    case ProbeReport(probe, sent, received, timedOut, ttlScoped, ttl, oneWay) => (
      match k
      case ProbeKey => Some(HexText(probe))
      case SentKey => Some(Decimal.Decimal(sent))
      case ReceivedKey => Some(Decimal.Decimal(received))
      case TimeoutKey => Some(Decimal.Decimal(timedOut))
      case TtlKey => if ttlScoped then Some(Decimal.Decimal(ttl)) else None
      case OnewayKey => IfTrue(oneWay)
      case _ => None)
    case SequenceReport(lowest, highest, receivedCount, restart) => (
      match k
      case LowKey => Some(Decimal.Decimal(lowest))
      case HighKey => Some(Decimal.Decimal(highest))
      case ReceivedKey => Some(Decimal.Decimal(receivedCount))
      case RestartKey => IfTrue(restart)
      case _ => None)
    case EndpointReport(role, node, port, count, reset) => (
      match k
      case RoleKey => Some(RoleName(role))
      case CountKey => Some(Decimal.Decimal(count))
      case NodeKey => UnlessNil(node)
      case PortKey => UnlessNil(port)
      case ResetKey => IfTrue(reset)
      case _ => None)
  }

  predicate OfHeader(k: Key) {
    PlaceOf(k) <= 10 || k == NoteKey
  }

  // What the line shows under a key, if it shows the key.
  function ValueOf(item: Item, k: Key): Option<string> {
    if OfHeader(k) then HeaderValue(item.header, k) else PayloadValue(item.payload, k)
  }

  // ---- the line --------------------------------------------------------------------------------

  function Field(k: Key, value: string): string {
    KeyText(k) + ['='] + value
  }

  function When(shown: bool, value: string): Option<string> {
    if shown then Some(value) else None
  }

  // A line with one more field.
  function With(line: string, k: Key, value: string): string {
    line + [' '] + Field(k, value)
  }

  function WithAny(line: string, k: Key, value: Option<string>): string {
    if value.Some? then With(line, k, value.value) else line
  }

  // The verb and the fields of the first n keys.
  function Shown(item: Item, n: nat): (words: seq<string>)
    requires n <= KEYS
    ensures words != []
  {
    if n == 0 then [VerbText(item.payload)]
    else
      match ValueOf(item, KeyAt(n - 1))
      case None => Shown(item, n - 1)
      case Some(value) => Shown(item, n - 1) + [Field(KeyAt(n - 1), value)]
  }

  function LineOf(item: Item): string {
    Joined(Shown(item, KEYS))
  }

  lemma {:induction false} JoinedOneMore(words: seq<string>, word: string)
    requires words != []
    ensures Joined(words + [word]) == Joined(words) + [' '] + word
  {
    var more := words + [word];
    assert more[1..] == words[1..] + [word] && more[0] == words[0];
    if |words| > 1 {
      JoinedOneMore(words[1..], word);
      assert Joined(more) == words[0] + [' '] + (Joined(words[1..]) + [' '] + word);
    } else {
      assert words[1..] + [word] == [word];
    }
  }

  // The line grows by one field, or not at all.
  lemma {:induction false} LineGrows(item: Item, n: nat, k: Key)
    requires n < KEYS && KeyAt(n) == k
    ensures Joined(Shown(item, n + 1)) == WithAny(Joined(Shown(item, n)), k, ValueOf(item, k))
  {
    hide Field, ValueOf, Joined, KeyAt;
    if ValueOf(item, k).Some? {
      JoinedOneMore(Shown(item, n), Field(k, ValueOf(item, k).value));
    }
  }

  lemma {:induction false} LineStays(item: Item, n: nat, m: nat)
    requires n <= m <= KEYS && forall i :: n <= i < m ==> ValueOf(item, KeyAt(i)).None?
    ensures Shown(item, m) == Shown(item, n)
    decreases m - n
  {
    hide ValueOf, KeyAt;
    if n < m {
      LineStays(item, n, m - 1);
    }
  }

  // ---- writing the line ---------------------------------------------------------------------------

  method AppendField(line: string, k: Key, value: string) returns (longer: string)
    ensures longer == WithAny(line, k, When(true, value)) == With(line, k, value)
  {
    longer := line + " " + KeyText(k) + "=" + value;
    assert longer == With(line, k, value);
  }

  method AppendIf(line: string, shown: bool, k: Key, value: string) returns (longer: string)
    ensures longer == WithAny(line, k, When(shown, value))
  {
    longer := line;
    if shown {
      longer := AppendField(line, k, value);
    }
  }

  lemma {:induction false} HeaderValues(h: Header)
    ensures HeaderValue(h, MethodKey) == Some(MethodName(h.method_))
    ensures HeaderValue(h, SourceKey) == Some(HexText(h.source))
    ensures HeaderValue(h, EpochKey) == Some(HexText(h.epoch))
    ensures HeaderValue(h, GenKey) == Some(HexText(h.generation))
    ensures HeaderValue(h, IdKey) == Some(HexText(h.id))
    ensures HeaderValue(h, SeqKey) == Some(Decimal.Decimal(h.sequence))
    ensures HeaderValue(h, SubjectKey) == Some(SubjectText(h.subject))
    ensures HeaderValue(h, ClassKey) == Some(GranularityName(h.granularity))
    ensures HeaderValue(h, RevKey) == Some(HexText(h.revision))
    ensures HeaderValue(h, ObservedKey) == Some(IsoTime.ToText(h.observedAt))
    ensures HeaderValue(h, RecvKey) == Some(IsoTime.ToText(h.receivedAt))
  {
    hide HexText, Decimal.Decimal, MethodName, SubjectText, GranularityName, IsoTime.ToText;
  }

  // The places of the keys, and the values under them, once for all.
  lemma {:induction false} FirstKeys()
    ensures KeyAt(0) == MethodKey && KeyAt(1) == SourceKey && KeyAt(2) == EpochKey && KeyAt(3) == GenKey
    ensures KeyAt(4) == IdKey && KeyAt(5) == SeqKey && KeyAt(6) == SubjectKey && KeyAt(7) == ClassKey
    ensures KeyAt(8) == RevKey && KeyAt(9) == ObservedKey && KeyAt(10) == RecvKey
  {
  }

  method StartLine(item: Item) returns (line: string)
    ensures line == Joined(Shown(item, 0))
  {
    hide VerbText;
    NoFields(item);
    line := VerbText(item.payload);
  }

  method DescribeHeader(item: Item) returns (line: string)
    ensures line == Joined(Shown(item, 11))
  {
    hide *;
    var h := item.header;
    line := StartLine(item);
    FirstKeys();
    HeaderValues(h);
    HeaderGrows(item, 0, MethodKey);
    line := AppendField(line, MethodKey, MethodName(h.method_));
    HeaderGrows(item, 1, SourceKey);
    line := AppendField(line, SourceKey, HexText(h.source));
    HeaderGrows(item, 2, EpochKey);
    line := AppendField(line, EpochKey, HexText(h.epoch));
    HeaderGrows(item, 3, GenKey);
    line := AppendField(line, GenKey, HexText(h.generation));
    HeaderGrows(item, 4, IdKey);
    line := AppendField(line, IdKey, HexText(h.id));
    HeaderGrows(item, 5, SeqKey);
    line := AppendField(line, SeqKey, Decimal.Decimal(h.sequence));
    HeaderGrows(item, 6, SubjectKey);
    line := AppendField(line, SubjectKey, SubjectText(h.subject));
    HeaderGrows(item, 7, ClassKey);
    line := AppendField(line, ClassKey, GranularityName(h.granularity));
    HeaderGrows(item, 8, RevKey);
    line := AppendField(line, RevKey, HexText(h.revision));
    HeaderGrows(item, 9, ObservedKey);
    line := AppendField(line, ObservedKey, IsoTime.ToText(h.observedAt));
    HeaderGrows(item, 10, RecvKey);
    line := AppendField(line, RecvKey, IsoTime.ToText(h.receivedAt));
  }

  lemma {:induction false} NoFields(item: Item)
    ensures Joined(Shown(item, 0)) == VerbText(item.payload)
  {
  }

  lemma {:induction false} HeaderGrows(item: Item, n: nat, k: Key)
    requires n < 11 && KeyAt(n) == k && HeaderValue(item.header, k).Some?
    ensures Joined(Shown(item, n + 1)) == With(Joined(Shown(item, n)), k, HeaderValue(item.header, k).value)
  {
    hide Shown, Joined, HeaderValue, PayloadValue, With;
    LineGrows(item, n, k);
  }

  lemma {:induction false} PayloadGrows(item: Item, n: nat, k: Key)
    requires 11 <= n < 32 && KeyAt(n) == k
    ensures Joined(Shown(item, n + 1)) == WithAny(Joined(Shown(item, n)), k, PayloadValue(item.payload, k))
  {
    hide Shown, Joined, HeaderValue, PayloadValue, With;
    LineGrows(item, n, k);
  }

  lemma {:induction false} PayloadStays(item: Item, n: nat, m: nat)
    requires 11 <= n <= m <= 32 && forall i :: n <= i < m ==> PayloadValue(item.payload, KeyAt(i)).None?
    ensures Shown(item, m) == Shown(item, n)
  {
    hide Shown, HeaderValue, PayloadValue;
    LineStays(item, n, m);
  }

  lemma {:induction false} CounterKeys()
    ensures KeyAt(11) == CounterKey && KeyAt(12) == ScopeKey && KeyAt(13) == ValueKey && KeyAt(14) == BitsKey
    ensures KeyAt(17) == NodeKey && KeyAt(18) == PortKey && KeyAt(19) == QueueKey && KeyAt(20) == HopKey
    ensures KeyAt(21) == LinkKey
  {
  }

  lemma {:induction false} ProbeKeys()
    ensures KeyAt(22) == ProbeKey && KeyAt(23) == SentKey && KeyAt(26) == ReceivedKey
    ensures KeyAt(27) == TimeoutKey && KeyAt(28) == TtlKey && KeyAt(29) == OnewayKey
  {
  }

  lemma {:induction false} CounterValues(p: Payload)
    requires p.CounterSample?
    ensures PayloadValue(p, CounterKey) == When(true, HexText(p.counter))
    ensures PayloadValue(p, ScopeKey) == When(true, ScopeName(p.scope))
    ensures PayloadValue(p, ValueKey) == When(true, Decimal.Decimal(p.value))
    ensures PayloadValue(p, BitsKey) == When(true, Decimal.Decimal(p.widthBits))
  {
    hide HexText, ScopeName, Decimal.Decimal;
  }

  lemma {:induction false} CounterPlaces(p: Payload)
    requires p.CounterSample?
    ensures PayloadValue(p, NodeKey) == When(p.node != 0, HexText(p.node))
    ensures PayloadValue(p, PortKey) == When(p.port != 0, HexText(p.port))
    ensures PayloadValue(p, QueueKey) == When(p.queue != 0, HexText(p.queue))
    ensures PayloadValue(p, HopKey) == When(p.hop != 0, HexText(p.hop))
    ensures PayloadValue(p, LinkKey) == When(p.link != 0, HexText(p.link))
  {
    hide HexText, ScopeName, Decimal.Decimal;
  }

  lemma {:induction false} ProbeValues(p: Payload)
    requires p.ProbeReport?
    ensures PayloadValue(p, ProbeKey) == When(true, HexText(p.probe))
    ensures PayloadValue(p, SentKey) == When(true, Decimal.Decimal(p.sent))
    ensures PayloadValue(p, ReceivedKey) == When(true, Decimal.Decimal(p.received))
    ensures PayloadValue(p, TimeoutKey) == When(true, Decimal.Decimal(p.timedOut))
  {
    hide HexText, Decimal.Decimal;
  }

  lemma {:induction false} ProbeOptions(p: Payload)
    requires p.ProbeReport?
    ensures PayloadValue(p, TtlKey) == When(p.ttlScoped, Decimal.Decimal(p.ttl))
    ensures PayloadValue(p, OnewayKey) == When(p.oneWay, "true")
  {
    hide HexText, Decimal.Decimal;
  }

  lemma {:induction false} CounterSkips(item: Item)
    requires item.payload.CounterSample?
    ensures Shown(item, 17) == Shown(item, 15)
    ensures Shown(item, 32) == Shown(item, 22)
  {
    hide Shown, HeaderValue;
    PayloadStays(item, 15, 17);
    PayloadStays(item, 22, 32);
  }

  method DescribeCounter(item: Item, header: string) returns (line: string)
    requires item.payload.CounterSample? && header == Joined(Shown(item, 11))
    ensures line == Joined(Shown(item, 32))
  {
    hide *;
    var p := item.payload;
    CounterSkips(item);
    CounterValues(p);
    CounterPlaces(p);
    CounterKeys();
    PayloadGrows(item, 11, CounterKey);
    line := AppendField(header, CounterKey, HexText(p.counter));
    PayloadGrows(item, 12, ScopeKey);
    line := AppendField(line, ScopeKey, ScopeName(p.scope));
    PayloadGrows(item, 13, ValueKey);
    line := AppendField(line, ValueKey, Decimal.Decimal(p.value));
    PayloadGrows(item, 14, BitsKey);
    line := AppendField(line, BitsKey, Decimal.Decimal(p.widthBits));
    PayloadGrows(item, 17, NodeKey);
    line := AppendIf(line, p.node != 0, NodeKey, HexText(p.node));
    PayloadGrows(item, 18, PortKey);
    line := AppendIf(line, p.port != 0, PortKey, HexText(p.port));
    PayloadGrows(item, 19, QueueKey);
    line := AppendIf(line, p.queue != 0, QueueKey, HexText(p.queue));
    PayloadGrows(item, 20, HopKey);
    line := AppendIf(line, p.hop != 0, HopKey, HexText(p.hop));
    PayloadGrows(item, 21, LinkKey);
    line := AppendIf(line, p.link != 0, LinkKey, HexText(p.link));
  }

  lemma {:induction false} ProbeSkips(item: Item)
    requires item.payload.ProbeReport?
    ensures Shown(item, 22) == Shown(item, 11)
    ensures Shown(item, 26) == Shown(item, 24)
    ensures Shown(item, 32) == Shown(item, 30)
  {
    hide Shown, HeaderValue;
    PayloadStays(item, 11, 22);
    PayloadStays(item, 24, 26);
    PayloadStays(item, 30, 32);
  }

  method DescribeProbe(item: Item, header: string) returns (line: string)
    requires item.payload.ProbeReport? && header == Joined(Shown(item, 11))
    ensures line == Joined(Shown(item, 32))
  {
    hide *;
    var p := item.payload;
    ProbeSkips(item);
    ProbeValues(p);
    ProbeOptions(p);
    ProbeKeys();
    PayloadGrows(item, 22, ProbeKey);
    line := AppendField(header, ProbeKey, HexText(p.probe));
    PayloadGrows(item, 23, SentKey);
    line := AppendField(line, SentKey, Decimal.Decimal(p.sent));
    PayloadGrows(item, 26, ReceivedKey);
    line := AppendField(line, ReceivedKey, Decimal.Decimal(p.received));
    PayloadGrows(item, 27, TimeoutKey);
    line := AppendField(line, TimeoutKey, Decimal.Decimal(p.timedOut));
    PayloadGrows(item, 28, TtlKey);
    line := AppendIf(line, p.ttlScoped, TtlKey, Decimal.Decimal(p.ttl));
    PayloadGrows(item, 29, OnewayKey);
    line := AppendIf(line, p.oneWay, OnewayKey, "true");
  }

  lemma {:induction false} SequenceSkips(item: Item)
    requires item.payload.SequenceReport?
    ensures Shown(item, 24) == Shown(item, 11)
    ensures Shown(item, 30) == Shown(item, 27)
    ensures Shown(item, 32) == Shown(item, 31)
  {
    hide Shown, HeaderValue;
    PayloadStays(item, 11, 24);
    PayloadStays(item, 27, 30);
    PayloadStays(item, 31, 32);
  }

  method DescribeSequence(item: Item, header: string) returns (line: string)
    requires item.payload.SequenceReport? && header == Joined(Shown(item, 11))
    ensures line == Joined(Shown(item, 32))
  {
    hide Shown, Joined, With, HexText, ScopeName, RoleName, Decimal.Decimal;
    var p := item.payload;
    SequenceSkips(item);
    PayloadGrows(item, 24, LowKey);
    line := AppendField(header, LowKey, Decimal.Decimal(p.lowest));
    PayloadGrows(item, 25, HighKey);
    line := AppendField(line, HighKey, Decimal.Decimal(p.highest));
    PayloadGrows(item, 26, ReceivedKey);
    line := AppendField(line, ReceivedKey, Decimal.Decimal(p.receivedCount));
    PayloadGrows(item, 30, RestartKey);
    line := AppendIf(line, p.restart, RestartKey, "true");
  }

  lemma {:induction false} EndpointSkips(item: Item)
    requires item.payload.EndpointReport?
    ensures Shown(item, 15) == Shown(item, 11)
    ensures Shown(item, 31) == Shown(item, 19)
  {
    hide Shown, HeaderValue;
    PayloadStays(item, 11, 15);
    PayloadStays(item, 19, 31);
  }

  method DescribeEndpoint(item: Item, header: string) returns (line: string)
    requires item.payload.EndpointReport? && header == Joined(Shown(item, 11))
    ensures line == Joined(Shown(item, 32))
  {
    hide Shown, Joined, With, HexText, ScopeName, RoleName, Decimal.Decimal;
    var p := item.payload;
    EndpointSkips(item);
    PayloadGrows(item, 15, RoleKey);
    line := AppendField(header, RoleKey, RoleName(p.role));
    PayloadGrows(item, 16, CountKey);
    line := AppendField(line, CountKey, Decimal.Decimal(p.count));
    PayloadGrows(item, 17, NodeKey);
    line := AppendIf(line, p.endNode != 0, NodeKey, HexText(p.endNode));
    PayloadGrows(item, 18, PortKey);
    line := AppendIf(line, p.endPort != 0, PortKey, HexText(p.endPort));
    PayloadGrows(item, 31, ResetKey);
    line := AppendIf(line, p.reset, ResetKey, "true");
  }

  method Describe(item: Item) returns (line: string)
    ensures line == LineOf(item)
  {
    hide Shown, Joined, With, WithAny, LineOf, PayloadValue;
    line := DescribeHeader(item);
    match item.payload {
      case CounterSample(_, _, _, _, _, _, _, _, _) => line := DescribeCounter(item, line);
      case ProbeReport(_, _, _, _, _, _, _) => line := DescribeProbe(item, line);
      case SequenceReport(_, _, _, _) => line := DescribeSequence(item, line);
      case EndpointReport(_, _, _, _, _) => line := DescribeEndpoint(item, line);
    }
    NoteComesLast(item);
    line := AppendIf(line, item.header.note != [], NoteKey, item.header.note);
  }

  lemma {:induction false} LastValues(item: Item)
    ensures ValueOf(item, NoteKey) == if item.header.note != [] then Some(item.header.note) else None
    ensures ValueOf(item, FlowKey).None? && ValueOf(item, PathKey).None?
  {
    hide HexText, Decimal.Decimal, ScopeName, RoleName;
  }

  lemma {:induction false} NoteComesLast(item: Item)
    ensures LineOf(item)
         == WithAny(Joined(Shown(item, 32)), NoteKey, if item.header.note != [] then Some(item.header.note) else None)
  {
    hide Shown, Joined, With, ValueOf;
    LastValues(item);
    LineGrows(item, 32, NoteKey);
    LineGrows(item, 33, FlowKey);
    LineGrows(item, 34, PathKey);
  }
}
