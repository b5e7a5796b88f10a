// The values of script fields: identities as sixteen hexadecimal digits, decimal
// numbers within 64 bits, truth values, and the names of the enumerations.
module ScriptValues {
  import opened Bytes
  import opened Evidence
  import opened Decimal
  import opened Lexer

  const MAX64: U64 := 0xFFFF_FFFF_FFFF_FFFF

  // ---- hexadecimal --------------------------------------------------------------------------

  function HexDigit(v: nat): char
    requires v < 16
  {
    if v < 10 then ('0' as int + v) as char else ('a' as int + v - 10) as char
  }

  function HexValue(c: char): Option<nat> {
    if '0' <= c <= '9' then Some(c as int - '0' as int)
    else if 'a' <= c <= 'f' then Some(c as int - 'a' as int + 10)
    else if 'A' <= c <= 'F' then Some(c as int - 'A' as int + 10)
    else None
  }

  function Pow16(n: nat): (p: nat)
    ensures p > 0
  {
    if n == 0 then 1 else 16 * Pow16(n - 1)
  }

  // The low n hexadecimal digits, highest first.
  function HexDigits(v: nat, n: nat): (s: string)
    ensures |s| == n
  {
    if n == 0 then [] else HexDigits(v / 16, n - 1) + [HexDigit(v % 16)]
  }

  function HexNumber(s: string): Option<nat> {
    if s == [] then Some(0)
    else
      var front, digit := HexNumber(s[..|s| - 1]), HexValue(s[|s| - 1]);
      if front.None? || digit.None? then None else Some(16 * front.value + digit.value)
  }

  function HexText(v: U64): string {
    HexDigits(v, 16)
  }

  function ParseHex(text: string): (r: Option<U64>)
  {
    HexBound(text);
    Pow16Of16();
    if |text| != 16 then None else HexNumber(text)
  }

  lemma {:induction false} HexBound(s: string)
    ensures HexNumber(s).Some? ==> HexNumber(s).value < Pow16(|s|)
  {
    if s != [] {
      HexBound(s[..|s| - 1]);
    }
  }

  lemma {:induction false} Pow16Of16()
    ensures Pow16(16) == 0x1_0000_0000_0000_0000
  {
    assert Pow16(4) == 0x1_0000;
    assert Pow16(8) == 0x1_0000_0000;
    assert Pow16(12) == 0x1_0000_0000_0000;
  }

  lemma {:induction false} HexReads(v: nat, n: nat)
    requires v < Pow16(n)
    ensures HexNumber(HexDigits(v, n)) == Some(v)
    ensures forall c <- HexDigits(v, n) :: HexValue(c).Some? && !IsSpace(c) && c != '#' && c != ':' && c != '='
    decreases n
  {
    if n > 0 {
      HexReads(v / 16, n - 1);
      var s := HexDigits(v, n);
      assert s[..|s| - 1] == HexDigits(v / 16, n - 1);
    }
  }

  lemma {:induction false} HexRoundTrip(v: U64)
    ensures ParseHex(HexText(v)) == Some(v)
    ensures |HexText(v)| == 16 && NoSpace(HexText(v)) && ':' !in HexText(v)
  {
    Pow16Of16();
    HexReads(v, 16);
  }

  method WriteHex(value: U64) returns (text: string)
    ensures text == HexText(value)
  {
    var digits := new char[16](_ => '0');
    var left: nat := value;
    var i := 16;
    while i > 0
      invariant 0 <= i <= 16
      invariant HexDigits(left, i) + digits[i..] == HexText(value)
    {
      i := i - 1;
      ghost var before := digits[i + 1..];
      digits[i] := HexDigit(left % 16);
      assert digits[i..] == [digits[i]] + before;
      assert HexDigits(left, i + 1) == HexDigits(left / 16, i) + [digits[i]];
      left := left / 16;
    }
    text := digits[..];
    assert digits[0..] == digits[..];
  }

  method ReadHex(text: string) returns (r: Option<U64>)
    ensures r == ParseHex(text)
  {
    if |text| != 16 {
      return None;
    }
    var value := 0;
    for i := 0 to 16
      invariant HexNumber(text[..i]) == Some(value)
    {
      assert text[..i + 1][..i] == text[..i];
      var digit := HexValue(text[i]);
      if digit.None? {
        NoHexPrefix(text, i + 1);
        return None;
      }
      value := 16 * value + digit.value;
    }
    assert text[..16] == text;
    HexBound(text);
    Pow16Of16();
    r := Some(value);
  }

  lemma {:induction false} NoHexPrefix(text: string, i: nat)
    requires i <= |text| && HexNumber(text[..i]).None?
    ensures HexNumber(text).None?
    decreases |text| - i
  {
    if i < |text| {
      assert text[..i + 1][..i] == text[..i];
      NoHexPrefix(text, i + 1);
    } else {
      assert text[..i] == text;
    }
  }

  // ---- decimal -------------------------------------------------------------------------------

  // Empty text, anything but digits, and numbers above 64 bits are refused.
  function ParseU64(text: string): Option<U64> {
    if text == [] || !AllDigits(text) || NumberOf(text) > MAX64 then None else Some(NumberOf(text))
  }

  method ReadU64(text: string) returns (r: Option<U64>)
    ensures r == ParseU64(text)
  {
    if text == [] {
      return None;
    }
    var value: int := 0;
    for i := 0 to |text|
      invariant AllDigits(text[..i]) && value == NumberOf(text[..i]) <= MAX64
    {
      assert text[..i + 1] == text[..i] + [text[i]];
      if !IsDigit(text[i]) {
        assert text[i] in text;
        return None;
      }
      TakeOneMore(text, i);
      var next := value * 10;
      if next > MAX64 || next + DigitValue(text[i]) > MAX64 {
        TooLarge(text, i + 1);
        return None;
      }
      value := next + DigitValue(text[i]);
    }
    assert text[..|text|] == text;
    r := Some(value);
  }

  lemma {:induction false} TooLarge(text: string, i: nat)
    requires i <= |text| && AllDigits(text[..i]) && NumberOf(text[..i]) > MAX64
    ensures AllDigits(text) ==> NumberOf(text) > MAX64
    decreases |text| - i
  {
    if AllDigits(text) {
      if i < |text| {
        assert text[..i + 1] == text[..i] + [text[i]] && text[i] in text;
        TakeOneMore(text, i);
        TooLarge(text, i + 1);
      } else {
        assert text[..i] == text;
      }
    }
  }

  lemma {:induction false} DecimalRoundTrip(v: U64)
    ensures ParseU64(Decimal.Decimal(v)) == Some(v)
    ensures Decimal.Decimal(v) != [] && NoSpace(Decimal.Decimal(v))
  {
    PaddedReads(v, 0);
    assert forall c :: IsDigit(c) ==> !IsSpace(c);
  }

  function ParseBool(text: string): Option<bool> {
    if text == "true" || text == "1" || text == "yes" then Some(true)
    else if text == "false" || text == "0" || text == "no" then Some(false)
    else None
  }

  // ---- names -----------------------------------------------------------------------------------

  function GranularityName(g: Granularity): string {
    match g
    case UnknownGranularity => "unknown"
    case FlowWide => "flow"
    case PathWide => "path"
    case HopWide => "hop"
    case LinkWide => "link"
    case QueueWide => "queue"
  }

  function ParseGranularity(text: string): Option<Granularity> {
    if text == "unknown" then Some(UnknownGranularity)
    else if text == "flow" then Some(FlowWide)
    else if text == "path" then Some(PathWide)
    else if text == "hop" then Some(HopWide)
    else if text == "link" then Some(LinkWide)
    else if text == "queue" then Some(QueueWide)
    else None
  }

  function SubjectName(k: SubjectKind): string {
    match k
    case UnknownSubject => "unknown"
    case Flow => "flow"
    case Path => "path"
    case Hop => "hop"
    case Link => "link"
    case Queue => "queue"
    case Source => "source"
  }

  function ParseSubjectKind(text: string): Option<SubjectKind> {
    if text == "flow" then Some(Flow)
    else if text == "path" then Some(Path)
    else if text == "hop" then Some(Hop)
    else if text == "link" then Some(Link)
    else if text == "queue" then Some(Queue)
    else if text == "source" then Some(Source)
    else if text == "unknown" then Some(UnknownSubject)
    else None
  }

  function MethodName(m: Method): string {
    match m
    case UnknownMethod => "unknown"
    case CounterDelta => "counter-delta"
    case ProbeRoundTrip => "probe-round-trip"
    case ProbeOneWay => "probe-one-way"
    case SequenceGap => "sequence-gap"
    case EndpointComparison => "endpoint-comparison"
    case SyntheticInjection => "synthetic-injection"
  }

  function ParseMethod(text: string): Option<Method> {
    if text == "unknown" then Some(UnknownMethod)
    else if text == "counter-delta" || text == "counter" then Some(CounterDelta)
    else if text == "probe-round-trip" || text == "probe-rtt" then Some(ProbeRoundTrip)
    else if text == "probe-one-way" || text == "probe-owd" then Some(ProbeOneWay)
    else if text == "sequence-gap" || text == "sequence" then Some(SequenceGap)
    else if text == "endpoint-comparison" || text == "endpoint" then Some(EndpointComparison)
    else if text == "synthetic-injection" || text == "synthetic" then Some(SyntheticInjection)
    else None
  }

  function ScopeName(s: CounterScope): string {
    match s
    case UnknownScope => "unknown"
    case ReceivedPackets => "received-packets"
    case TransmittedPackets => "transmitted-packets"
    case DroppedPackets => "dropped-packets"
    case DiscardedPackets => "discarded-packets"
    case ErrorPackets => "error-packets"
    case ReceivedBytes => "received-bytes"
    case TransmittedBytes => "transmitted-bytes"
  }

  function ParseScope(text: string): Option<CounterScope> {
    if text == "unknown" then Some(UnknownScope)
    else if text == "received-packets" || text == "rx-packets" then Some(ReceivedPackets)
    else if text == "transmitted-packets" || text == "tx-packets" then Some(TransmittedPackets)
    else if text == "dropped-packets" || text == "drops" then Some(DroppedPackets)
    else if text == "discarded-packets" || text == "discards" then Some(DiscardedPackets)
    else if text == "error-packets" || text == "errors" then Some(ErrorPackets)
    else if text == "received-bytes" || text == "rx-bytes" then Some(ReceivedBytes)
    else if text == "transmitted-bytes" || text == "tx-bytes" then Some(TransmittedBytes)
    else None
  }

  function RoleName(r: EndpointRole): string {
    match r
    case UnknownRole => "unknown"
    case Sender => "sender"
    case Receiver => "receiver"
  }

  function ParseRole(text: string): Option<EndpointRole> {
    if text == "sender" || text == "tx" then Some(Sender)
    else if text == "receiver" || text == "rx" then Some(Receiver)
    else if text == "unknown" then Some(UnknownRole)
    else None
  }

  lemma {:induction false} GranularityRoundTrip(g: Granularity)
    ensures ParseGranularity(GranularityName(g)) == Some(g)
  {
  }

  lemma {:induction false} SubjectKindRoundTrip(k: SubjectKind)
    ensures ParseSubjectKind(SubjectName(k)) == Some(k)
  {
  }

  lemma {:induction false} MethodRoundTrip(m: Method)
    ensures ParseMethod(MethodName(m)) == Some(m)
  {
  }

  lemma {:induction false} ScopeRoundTrip(s: CounterScope)
    ensures ParseScope(ScopeName(s)) == Some(s)
  {
  }

  lemma {:induction false} RoleRoundTrip(r: EndpointRole)
    ensures ParseRole(RoleName(r)) == Some(r)
  {
  }

  // Names are made of small letters and hyphens.
  predicate IsLetter(c: char) {
    'a' <= c <= 'z' || c == '-'
  }

  predicate IsName(s: string) {
    0 < |s| <= 19 && forall i :: 0 <= i < |s| ==> IsLetter(s[i])
  }

  lemma {:induction false} GranularityLetter(g: Granularity, i: nat)
    requires i < |GranularityName(g)|
    ensures IsLetter(GranularityName(g)[i]) && |GranularityName(g)| <= 19
  {
  }

  lemma {:induction false} GranularityIsName(g: Granularity)
    ensures IsName(GranularityName(g))
  {
    assert GranularityName(g) != [];
    hide GranularityName, IsLetter;
    GranularityLetter(g, 0);
    forall i | 0 <= i < |GranularityName(g)|
      ensures IsLetter(GranularityName(g)[i])
    {
      GranularityLetter(g, i);
    }
  }

  lemma {:induction false} SubjectLetter(k: SubjectKind, i: nat)
    requires i < |SubjectName(k)|
    ensures IsLetter(SubjectName(k)[i]) && |SubjectName(k)| <= 19
  {
  }

  lemma {:induction false} SubjectIsName(k: SubjectKind)
    ensures IsName(SubjectName(k))
  {
    assert SubjectName(k) != [];
    hide SubjectName, IsLetter;
    SubjectLetter(k, 0);
    forall i | 0 <= i < |SubjectName(k)|
      ensures IsLetter(SubjectName(k)[i])
    {
      SubjectLetter(k, i);
    }
  }

  lemma {:induction false} MethodLetter(m: Method, i: nat)
    requires i < |MethodName(m)|
    ensures IsLetter(MethodName(m)[i]) && |MethodName(m)| <= 19
  {
  }

  lemma {:induction false} MethodIsName(m: Method)
    ensures IsName(MethodName(m))
  {
    assert MethodName(m) != [];
    hide MethodName, IsLetter;
    MethodLetter(m, 0);
    forall i | 0 <= i < |MethodName(m)|
      ensures IsLetter(MethodName(m)[i])
    {
      MethodLetter(m, i);
    }
  }

  lemma {:induction false} ScopeLetter(s: CounterScope, i: nat)
    requires i < |ScopeName(s)|
    ensures IsLetter(ScopeName(s)[i]) && |ScopeName(s)| <= 19
  {
  }

  lemma {:induction false} ScopeIsName(s: CounterScope)
    ensures IsName(ScopeName(s))
  {
    assert ScopeName(s) != [];
    hide ScopeName, IsLetter;
    ScopeLetter(s, 0);
    forall i | 0 <= i < |ScopeName(s)|
      ensures IsLetter(ScopeName(s)[i])
    {
      ScopeLetter(s, i);
    }
  }

  lemma {:induction false} RoleLetter(r: EndpointRole, i: nat)
    requires i < |RoleName(r)|
    ensures IsLetter(RoleName(r)[i]) && |RoleName(r)| <= 19
  {
  }

  lemma {:induction false} RoleIsName(r: EndpointRole)
    ensures IsName(RoleName(r))
  {
    assert RoleName(r) != [];
    hide RoleName, IsLetter;
    RoleLetter(r, 0);
    forall i | 0 <= i < |RoleName(r)|
      ensures IsLetter(RoleName(r)[i])
    {
      RoleLetter(r, i);
    }
  }

  lemma {:induction false} NameIsPlain(s: string)
    requires IsName(s)
    ensures NoSpace(s) && ':' !in s
  {
  }
}
