/** SyslogMessage and FullMessage as protobuf records (model/types.pb.go, utils/ulid.go). */
module ProtobufMessage {
  import opened Bytes
  import opened Listings
  import opened Varint
  import opened Wire
  import opened Protobuf

  /** P is the type of the properties: a map, or the order in which one is written. */
  datatype SyslogMessage<P> = SyslogMessage(
    priority: int, facility: int, severity: int, version: int,
    timeReported: int, timeGenerated: int,
    hostName: Data, appName: Data, procId: Data, msgId: Data, structured: Data, message: Data,
    properties: P)

  datatype FullMessage<P> = FullMessage(
    txnr: int, clientAddr: Data, sourceType: Data, sourcePath: Data, sourcePort: int,
    connId: Data, confId: Data, uid: Data, fields: Option<SyslogMessage<P>>)

  type Properties = map<Data, Inner>

  // -------------------------------------------------------------- reading

  const NO_SYSLOG: SyslogMessage<Properties> :=
    SyslogMessage(0, 0, 0, 0, 0, 0, [], [], [], [], [], [], map[])

  const NO_MESSAGE: FullMessage<Properties> := FullMessage(0, [], [], [], 0, [], [], [], None)

  function SyslogKind(num: int): Kind {
    if 1 <= num <= 6 then Number else if 7 <= num <= 13 then Bytes else Unknown
  }

  function ApplySyslog(m: SyslogMessage<Properties>, num: int, v: Value): Option<SyslogMessage<Properties>> {
    match v
    case Num(u) => Some(ApplyNumber(m, num, u))
    case Span(from, n) =>
      if n > |from| then None
      else if num == 13 then
        match Unmarshal(OUTER, m.properties, from[..n])
        case None => None
        case Some(p) => Some(m.(properties := p))
      else Some(ApplyString(m, num, from[..n]))
  }

  function ApplyNumber(m: SyslogMessage<Properties>, num: int, u: nat): SyslogMessage<Properties> {
    match num
    case 1 => m.(priority := Signed32(u))
    case 2 => m.(facility := Signed32(u))
    case 3 => m.(severity := Signed32(u))
    case 4 => m.(version := Signed32(u))
    case 5 => m.(timeReported := Signed64(u))
    case 6 => m.(timeGenerated := Signed64(u))
    case _ => m
  }

  function ApplyString(m: SyslogMessage<Properties>, num: int, s: Data): SyslogMessage<Properties> {
    match num
    case 7 => m.(hostName := s)
    case 8 => m.(appName := s)
    case 9 => m.(procId := s)
    case 10 => m.(msgId := s)
    case 11 => m.(structured := s)
    case 12 => m.(message := s)
    case _ => m
  }

  const SYSLOG: Schema<SyslogMessage<Properties>> := Schema(SyslogKind, ApplySyslog)

  function FullKind(num: int): Kind {
    if num == 1 || num == 5 then Number
    else if 2 <= num <= 4 || 6 <= num <= 9 then Bytes
    else Unknown
  }

  function ApplyFull(m: FullMessage<Properties>, num: int, v: Value): Option<FullMessage<Properties>> {
    match v
    case Num(u) => Some(if num == 1 then m.(txnr := Signed32(u)) else m.(sourcePort := Signed32(u)))
    case Span(from, n) => if n > |from| then None else ApplyPayload(m, num, from[..n])
  }

  /** Identifiers are the first sixteen bytes of what is there, and an error when there are fewer. */
  function ApplyPayload(m: FullMessage<Properties>, num: int, p: Data): Option<FullMessage<Properties>> {
    match num
    case 2 => Some(m.(clientAddr := p))
    case 3 => Some(m.(sourceType := p))
    case 4 => Some(m.(sourcePath := p))
    case 9 =>
      (match Unmarshal(SYSLOG, if m.fields.None? then NO_SYSLOG else m.fields.value, p)
       case None => None
       case Some(f) => Some(m.(fields := Some(f))))
    case _ =>
      if |p| < 16 then None
      else if num == 6 then Some(m.(connId := p[..16]))
      else if num == 7 then Some(m.(confId := p[..16]))
      else Some(m.(uid := p[..16]))
  }

  const FULL: Schema<FullMessage<Properties>> := Schema(FullKind, ApplyFull)

  // -------------------------------------------------------------- writing

  type Written = SyslogMessage<OuterListing>
  type WrittenFull = FullMessage<OuterListing>

  function NumberItem(num: nat, x: int): Item
    requires 1 <= num <= 15
  {
    NumItem(num, Bits(x))
  }

  function StringItem(num: nat, s: Data): Item
    requires 1 <= num <= 15 && IsInt64(|s|)
  {
    TextItem(num, s, false)
  }

  function SpanItem(num: nat, p: Data): Item
    requires 1 <= num <= 15 && IsInt64(|p|)
  {
    TextItem(num, p, true)
  }

  function SyslogItems(m: Written): (items: seq<Item>)
    requires SyslogSized(m)
    ensures |items| == 13
  {
    [NumberItem(1, m.priority), NumberItem(2, m.facility), NumberItem(3, m.severity),
     NumberItem(4, m.version), NumberItem(5, m.timeReported), NumberItem(6, m.timeGenerated),
     StringItem(7, m.hostName), StringItem(8, m.appName), StringItem(9, m.procId),
     StringItem(10, m.msgId), StringItem(11, m.structured), StringItem(12, m.message),
     SpanItem(13, MarshalOuter(m.properties))]
  }

  /** MyULID.MarshalTo: shorter identifiers become zero, longer ones are cut. */
  function Ulid(id: Data): (r: Data)
    ensures |r| == 16
  {
    if |id| < 16 then seq(16, i => 0) else id[..16]
  }

  predicate SyslogSized(m: Written) {
    && IsInt32(m.priority) && IsInt32(m.facility) && IsInt32(m.severity) && IsInt32(m.version)
    && IsInt64(m.timeReported) && IsInt64(m.timeGenerated)
    && IsInt64(|m.hostName|) && IsInt64(|m.appName|) && IsInt64(|m.procId|)
    && IsInt64(|m.msgId|) && IsInt64(|m.structured|) && IsInt64(|m.message|)
    && OuterSized(m.properties) && IsInt64(|MarshalOuter(m.properties)|)
  }

  function MarshalSyslog(m: Written): Data
    requires SyslogSized(m)
  {
    EncodeAll(SyslogItems(m))
  }

  predicate FullSized(m: WrittenFull) {
    && IsInt32(m.txnr) && IsInt32(m.sourcePort)
    && IsInt64(|m.clientAddr|) && IsInt64(|m.sourceType|) && IsInt64(|m.sourcePath|)
    && (m.fields.Some? ==> SyslogSized(m.fields.value) && IsInt64(|MarshalSyslog(m.fields.value)|))
  }

  function FullItems(m: WrittenFull): (items: seq<Item>)
    requires FullSized(m)
    ensures |items| == 9
  {
    [NumberItem(1, m.txnr), StringItem(2, m.clientAddr), StringItem(3, m.sourceType),
     StringItem(4, m.sourcePath), NumberItem(5, m.sourcePort), SpanItem(6, Ulid(m.connId)),
     SpanItem(7, Ulid(m.confId)), SpanItem(8, Ulid(m.uid)),
     if m.fields.None? then StringItem(9, []) else SpanItem(9, MarshalSyslog(m.fields.value))]
  }

  function MarshalFull(m: WrittenFull): Data
    requires FullSized(m)
  {
    EncodeAll(FullItems(m))
  }

  // ----------------------------------------------------------- round trips

  function SyslogMeant(m: Written): SyslogMessage<Properties> {
    SyslogMessage(m.priority, m.facility, m.severity, m.version, m.timeReported, m.timeGenerated,
                  m.hostName, m.appName, m.procId, m.msgId, m.structured, m.message,
                  MapFrom(map[], Meaning(InnerMeant, m.properties)))
  }

  /** A message of which only the first k fields have been read. */
  function SyslogUpto(m: Written, k: nat): SyslogMessage<Properties> {
    SyslogMessage(
      if k >= 1 then m.priority else 0, if k >= 2 then m.facility else 0,
      if k >= 3 then m.severity else 0, if k >= 4 then m.version else 0,
      if k >= 5 then m.timeReported else 0, if k >= 6 then m.timeGenerated else 0,
      if k >= 7 then m.hostName else [], if k >= 8 then m.appName else [],
      if k >= 9 then m.procId else [], if k >= 10 then m.msgId else [],
      if k >= 11 then m.structured else [], if k >= 12 then m.message else [],
      if k >= 13 then MapFrom(map[], Meaning(InnerMeant, m.properties)) else map[])
  }

  lemma SpanPayload(p: Data, x: Data)
    ensures (p + x)[..|p|] == p
  {
  }

  lemma NumberApplies(m: Written, k: nat)
    requires SyslogSized(m) && k < 6
    ensures Applies(SYSLOG, SyslogUpto(m, k), SyslogItems(m)[k], SyslogUpto(m, k + 1))
  {
    SignRoundTrip(m.priority);
    SignRoundTrip(m.facility);
    SignRoundTrip(m.severity);
    SignRoundTrip(m.version);
    SignRoundTrip(m.timeReported);
    SignRoundTrip(m.timeGenerated);
  }

  lemma StringApplies(m: Written, k: nat)
    requires SyslogSized(m) && 6 <= k < 12
    ensures Applies(SYSLOG, SyslogUpto(m, k), SyslogItems(m)[k], SyslogUpto(m, k + 1))
  {
    var i := SyslogItems(m)[k];
    StringSet(m, k);
    forall x: Data
      ensures ApplySyslog(SyslogUpto(m, k), k + 1, Span(i.text + x, |i.text|)) == Some(SyslogUpto(m, k + 1))
    {
      SpanPayload(i.text, x);
    }
  }

  lemma StringSet(m: Written, k: nat)
    requires SyslogSized(m) && 6 <= k < 12
    ensures SyslogItems(m)[k].TextItem? && SyslogItems(m)[k].num == k + 1 && !SyslogItems(m)[k].always
    ensures ApplyString(SyslogUpto(m, k), k + 1, SyslogItems(m)[k].text) == SyslogUpto(m, k + 1)
    ensures SyslogItems(m)[k].text == [] ==> SyslogUpto(m, k) == SyslogUpto(m, k + 1)
  {
  }

  lemma PropertiesApply(m: Written)
    requires SyslogSized(m)
    ensures Applies(SYSLOG, SyslogUpto(m, 12), SyslogItems(m)[12], SyslogUpto(m, 13))
  {
    var i := SyslogItems(m)[12];
    OuterFrom(m.properties, map[]);
    forall x: Data
      ensures ApplySyslog(SyslogUpto(m, 12), 13, Span(i.text + x, |i.text|)) == Some(SyslogUpto(m, 13))
    {
      SpanPayload(i.text, x);
    }
  }

  lemma SyslogApplies(m: Written, k: nat)
    requires SyslogSized(m) && k < 13
    ensures Applies(SYSLOG, SyslogUpto(m, k), SyslogItems(m)[k], SyslogUpto(m, k + 1))
  {
    if k < 6 { NumberApplies(m, k); } else if k < 12 { StringApplies(m, k); } else { PropertiesApply(m); }
  }

  /** The messages the reader goes through. */
  function SyslogStates(m: Written): (ms: seq<SyslogMessage<Properties>>)
    ensures |ms| == 14 && forall k :: 0 <= k < 14 ==> ms[k] == SyslogUpto(m, k)
    ensures ms[0] == NO_SYSLOG && ms[13] == SyslogMeant(m)
  {
    seq(14, k requires 0 <= k => SyslogUpto(m, k))
  }

  /** A written SyslogMessage is read back field by field, in whatever order its maps were written. */
  lemma SyslogRoundTrip(m: Written)
    requires SyslogSized(m)
    ensures Unmarshal(SYSLOG, NO_SYSLOG, MarshalSyslog(m)) == Some(SyslogMeant(m))
  {
    var items := SyslogItems(m);
    var ms := SyslogStates(m);
    forall k | 0 <= k < 13 ensures Applies(SYSLOG, ms[k], items[k], ms[k + 1]) {
      SyslogApplies(m, k);
    }
    ItemsRoundTrip(SYSLOG, items, ms, []);
    assert MarshalSyslog(m) + [] == MarshalSyslog(m);
  }

  function FullMeant(m: WrittenFull): FullMessage<Properties> {
    FullMessage(m.txnr, m.clientAddr, m.sourceType, m.sourcePath, m.sourcePort,
                Ulid(m.connId), Ulid(m.confId), Ulid(m.uid),
                if m.fields.None? then None else Some(SyslogMeant(m.fields.value)))
  }

  function FullUpto(m: WrittenFull, k: nat): FullMessage<Properties> {
    var r := FullMeant(m);
    FullMessage(
      if k >= 1 then m.txnr else 0, if k >= 2 then m.clientAddr else [], if k >= 3 then m.sourceType else [],
      if k >= 4 then m.sourcePath else [], if k >= 5 then m.sourcePort else 0,
      if k >= 6 then r.connId else [], if k >= 7 then r.confId else [], if k >= 8 then r.uid else [],
      if k >= 9 then r.fields else None)
  }

  lemma FullNumberApplies(m: WrittenFull, k: nat)
    requires FullSized(m) && (k == 0 || k == 4)
    ensures Applies(FULL, FullUpto(m, k), FullItems(m)[k], FullUpto(m, k + 1))
  {
    SignRoundTrip(m.txnr);
    SignRoundTrip(m.sourcePort);
  }

  lemma FullTextApplies(m: WrittenFull, k: nat)
    requires FullSized(m) && (1 <= k < 4 || 5 <= k < 8)
    ensures Applies(FULL, FullUpto(m, k), FullItems(m)[k], FullUpto(m, k + 1))
  {
    var i := FullItems(m)[k];
    forall x: Data
      ensures
        i.text != [] ==>
        ApplyFull(FullUpto(m, k), i.num, Span(i.text + x, |i.text|)) == Some(FullUpto(m, k + 1))
    {
      SpanPayload(i.text, x);
      if k >= 5 { assert i.text[..16] == i.text; }
    }
  }

  lemma FieldsApply(m: WrittenFull)
    requires FullSized(m)
    ensures Applies(FULL, FullUpto(m, 8), FullItems(m)[8], FullUpto(m, 9))
  {
    var i := FullItems(m)[8];
    if m.fields.Some? {
      SyslogRoundTrip(m.fields.value);
      forall x: Data
        ensures ApplyFull(FullUpto(m, 8), 9, Span(i.text + x, |i.text|)) == Some(FullUpto(m, 9))
      {
        SpanPayload(i.text, x);
      }
    }
  }

  /** A written FullMessage is read back; an identifier survives exactly when it has sixteen bytes. */
  lemma FullRoundTrip(m: WrittenFull)
    requires FullSized(m)
    ensures Unmarshal(FULL, NO_MESSAGE, MarshalFull(m)) == Some(FullMeant(m))
    ensures FullMeant(m).uid == m.uid <==> |m.uid| == 16
    ensures FullMeant(m).connId == m.connId <==> |m.connId| == 16
    ensures FullMeant(m).confId == m.confId <==> |m.confId| == 16
  {
    var items := FullItems(m);
    var ms := seq(10, k requires 0 <= k => FullUpto(m, k));
    forall k | 0 <= k < 9 ensures Applies(FULL, ms[k], items[k], ms[k + 1]) {
      if k == 0 || k == 4 { FullNumberApplies(m, k); }
      else if k < 8 { FullTextApplies(m, k); }
      else { FieldsApply(m); }
    }
    ItemsRoundTrip(FULL, items, ms, []);
    assert MarshalFull(m) + [] == MarshalFull(m);
  }
}
