// The evidence item and the enumerations it carries.  Identities are 64-bit
// words; zero is the nil identity.
module Evidence {
  import opened Bytes

  datatype Option<+T> = None | Some(value: T)

  type Char8 = c: char | c as int < 256

  // Text is a string of bytes, shown as characters.
  type Text = seq<Char8>

  datatype SubjectKind = UnknownSubject | Flow | Path | Hop | Link | Queue | Source

  datatype SubjectRef = SubjectRef(kind: SubjectKind, id: U64)

  datatype Granularity = UnknownGranularity | FlowWide | PathWide | HopWide | LinkWide | QueueWide

  datatype Method =
    | UnknownMethod
    | CounterDelta
    | ProbeRoundTrip
    | ProbeOneWay
    | SequenceGap
    | EndpointComparison
    | SyntheticInjection

  datatype CounterScope =
    | UnknownScope
    | ReceivedPackets
    | TransmittedPackets
    | DroppedPackets
    | DiscardedPackets
    | ErrorPackets
    | ReceivedBytes
    | TransmittedBytes

  datatype EndpointRole = UnknownRole | Sender | Receiver

  datatype Payload =
    | CounterSample(counter: U64, scope: CounterScope, value: U64, widthBits: U8,
                    node: U64, port: U64, queue: U64, hop: U64, link: U64)
    | ProbeReport(probe: U64, sent: U32, received: U32, timedOut: U32,
                  ttlScoped: bool, ttl: U8, oneWay: bool)
    | SequenceReport(lowest: U64, highest: U64, receivedCount: U64, restart: bool)
    | EndpointReport(role: EndpointRole, endNode: U64, endPort: U64, count: U64, reset: bool)

  datatype Header = Header(
    id: U64, source: U64, epoch: U64, generation: U64, revision: U64, sequence: U64,
    observedAt: I64, receivedAt: I64,
    method_: Method, subject: SubjectRef, granularity: Granularity,
    note: Text, recovered: bool)

  datatype Item = Item(header: Header, payload: Payload)

  // ---- the numeric codes of the enumerations --------------------------------

  function SubjectCode(k: SubjectKind): U8 {
    match k
    case UnknownSubject => 0
    case Flow => 1
    case Path => 2
    case Hop => 3
    case Link => 4
    case Queue => 5
    case Source => 6
  }

  function SubjectFromCode(c: int): Option<SubjectKind> {
    match c
    case 0 => Some(UnknownSubject)
    case 1 => Some(Flow)
    case 2 => Some(Path)
    case 3 => Some(Hop)
    case 4 => Some(Link)
    case 5 => Some(Queue)
    case 6 => Some(Source)
    case _ => None
  }

  // The order of subjects: by kind, then by identity.
  predicate SubjectLess(a: SubjectRef, b: SubjectRef) {
    if a.kind != b.kind then SubjectCode(a.kind) < SubjectCode(b.kind) else a.id < b.id
  }

  lemma SubjectLessIsTotal(a: SubjectRef, b: SubjectRef, c: SubjectRef)
    ensures !SubjectLess(a, a)
    ensures SubjectLess(a, b) && SubjectLess(b, c) ==> SubjectLess(a, c)
    ensures a == b || SubjectLess(a, b) || SubjectLess(b, a)
  {
  }

  function GranularityCode(g: Granularity): U8 {
    match g
    case UnknownGranularity => 0
    case FlowWide => 1
    case PathWide => 2
    case HopWide => 3
    case LinkWide => 4
    case QueueWide => 5
  }

  function GranularityFromCode(c: int): Option<Granularity> {
    match c
    case 0 => Some(UnknownGranularity)
    case 1 => Some(FlowWide)
    case 2 => Some(PathWide)
    case 3 => Some(HopWide)
    case 4 => Some(LinkWide)
    case 5 => Some(QueueWide)
    case _ => None
  }

  function MethodCode(m: Method): U8 {
    match m
    case UnknownMethod => 0
    case CounterDelta => 1
    case ProbeRoundTrip => 2
    case ProbeOneWay => 3
    case SequenceGap => 4
    case EndpointComparison => 5
    case SyntheticInjection => 6
  }

  function MethodFromCode(c: int): Option<Method> {
    match c
    case 0 => Some(UnknownMethod)
    case 1 => Some(CounterDelta)
    case 2 => Some(ProbeRoundTrip)
    case 3 => Some(ProbeOneWay)
    case 4 => Some(SequenceGap)
    case 5 => Some(EndpointComparison)
    case 6 => Some(SyntheticInjection)
    case _ => None
  }

  function ScopeCode(s: CounterScope): U8 {
    match s
    case UnknownScope => 0
    case ReceivedPackets => 1
    case TransmittedPackets => 2
    case DroppedPackets => 3
    case DiscardedPackets => 4
    case ErrorPackets => 5
    case ReceivedBytes => 6
    case TransmittedBytes => 7
  }

  function ScopeFromCode(c: int): Option<CounterScope> {
    match c
    case 0 => Some(UnknownScope)
    case 1 => Some(ReceivedPackets)
    case 2 => Some(TransmittedPackets)
    case 3 => Some(DroppedPackets)
    case 4 => Some(DiscardedPackets)
    case 5 => Some(ErrorPackets)
    case 6 => Some(ReceivedBytes)
    case 7 => Some(TransmittedBytes)
    case _ => None
  }

  function RoleCode(r: EndpointRole): U8 {
    match r
    case UnknownRole => 0
    case Sender => 1
    case Receiver => 2
  }

  function RoleFromCode(c: int): Option<EndpointRole> {
    match c
    case 0 => Some(UnknownRole)
    case 1 => Some(Sender)
    case 2 => Some(Receiver)
    case _ => None
  }

  function KindCode(p: Payload): U8 {
    match p
    case CounterSample(_, _, _, _, _, _, _, _, _) => 1
    case ProbeReport(_, _, _, _, _, _, _) => 2
    case SequenceReport(_, _, _, _) => 3
    case EndpointReport(_, _, _, _, _) => 4
  }

  // ---- granularity order -----------------------------------------------------

  predicate IsFinerThan(a: Granularity, b: Granularity) {
    GranularityCode(a) > GranularityCode(b)
  }

  function FinerOf(a: Granularity, b: Granularity): Granularity {
    if GranularityCode(a) >= GranularityCode(b) then a else b
  }

  function CoarserOf(a: Granularity, b: Granularity): Granularity {
    if GranularityCode(a) <= GranularityCode(b) then a else b
  }
}
