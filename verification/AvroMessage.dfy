/** The Avro records of a message, written and read field by field (model/avro/primitive.go). */
module AvroMessage {
  import opened Bytes
  import opened Listings
  import opened Varint
  import opened Avro

  /** P is the type of the properties: a map, or the order in which one is written. */
  datatype SyslogMessage<P> = SyslogMessage(
    facility: Data, severity: Data, timeReported: Data, timeGenerated: Data, hostname: Data,
    appname: Data, procid: Data, msgid: Data, message: Data, properties: P)

  datatype FullMessage<P> = FullMessage(
    clientAddr: Data, sourceType: Data, sourcePath: Data, sourcePort: int, uid: Data,
    fields: SyslogMessage<P>)

  type Written = Listing<Listing<Data>>
  type Properties = map<Data, map<Data, Data>>

  const SOURCE_STRINGS: nat := 3
  const SYSLOG_STRINGS: nat := 9

  // ------------------------------------------------------ strings in a row

  function WriteMany(ss: seq<Data>): Data {
    if ss == [] then [] else WriteString(ss[0]) + WriteMany(ss[1..])
  }

  function ReadMany(n: nat, d: Data): (r: Read<seq<Data>>)
    ensures r.Got? ==> |r.value| == n
  {
    if n == 0 then Got([], d)
    else
      var s :- ReadString(d);
      var more :- ReadMany(n - 1, s.1);
      Got([s.0] + more.0, more.1)
  }

  predicate AllShort(ss: seq<Data>) { forall i :: 0 <= i < |ss| ==> Short(ss[i]) }

  predicate Sized(ss: seq<Data>) { forall i :: 0 <= i < |ss| ==> IsInt64(|ss[i]|) }

  lemma {:induction false} ManyRoundTrip(ss: seq<Data>, rest: Data)
    requires Sized(ss)
    ensures ReadMany(|ss|, WriteMany(ss) + rest) == if AllShort(ss) then Got(ss, rest) else Bad
  {
    if ss == [] {
      assert WriteMany(ss) + rest == rest;
    } else {
      var more := WriteMany(ss[1..]) + rest;
      assert WriteMany(ss) + rest == WriteString(ss[0]) + more;
      StringRoundTrip(ss[0], more);
      ManyRoundTrip(ss[1..], rest);
      assert ss == [ss[0]] + ss[1..];
      assert AllShort(ss) <==> Short(ss[0]) && AllShort(ss[1..]) by {
        assert forall i :: 0 < i < |ss| ==> ss[i] == ss[1..][i - 1];
      }
    }
  }

  // ------------------------------------------------------------- properties

  function ReadInner(d: Data): (r: Read<map<Data, Data>>)
    ensures r.Got? ==> |r.rest| <= |d|
  {
    ReadBlocks(ReadString, d, map[])
  }

  function ReadProperties(d: Data): Read<Properties> {
    ReadBlocks(ReadInner, d, map[])
  }

  predicate SizedInner(ps: Listing<Data>) {
    IsInt64(|ps|) && forall i :: 0 <= i < |ps| ==> IsInt64(|ps[i].0|) && IsInt64(|ps[i].1|)
  }

  predicate SizedOuter(qs: Written) {
    IsInt64(|qs|) && forall i :: 0 <= i < |qs| ==> IsInt64(|qs[i].0|) && SizedInner(qs[i].1)
  }

  predicate InnerFits(ps: Listing<Data>) { AllFit(Short, ps) }

  predicate OuterFits(qs: Written) { AllFit(InnerFits, qs) }

  lemma InnerRoundTrip(ps: Listing<Data>, rest: Data)
    requires SizedInner(ps)
    ensures ReadInner(WriteInner(ps) + rest) == if InnerFits(ps) then Got(InnerMap(ps), rest) else Bad
  {
    forall i | 0 <= i < |ps| ensures Inverse(ReadString, WriteString, Same, Short, ps[i].1) {
      forall x: Data
        ensures ReadString(WriteString(ps[i].1) + x) == if Short(ps[i].1) then Got(Same(ps[i].1), x) else Bad
      {
        StringRoundTrip(ps[i].1, x);
      }
    }
    MapRoundTrip(ReadString, WriteString, Same, Short, ps, rest);
    MeaningSame(ps);
  }

  lemma PropertiesRoundTrip(qs: Written, rest: Data)
    requires SizedOuter(qs)
    ensures
      ReadProperties(WriteMap(WriteInner, qs) + rest)
      == if OuterFits(qs) then Got(OuterMap(qs), rest) else Bad
  {
    forall i | 0 <= i < |qs| ensures Inverse(ReadInner, WriteInner, InnerMap, InnerFits, qs[i].1) {
      forall x: Data
        ensures
          ReadInner(WriteInner(qs[i].1) + x)
          == if InnerFits(qs[i].1) then Got(InnerMap(qs[i].1), x) else Bad
      {
        InnerRoundTrip(qs[i].1, x);
      }
    }
    MapRoundTrip(ReadInner, WriteInner, InnerMap, InnerFits, qs, rest);
  }

  // ---------------------------------------------------------------- records

  /** The strings of a record in the order of its schema. */
  function SyslogStrings<P>(m: SyslogMessage<P>): seq<Data> {
    [m.facility, m.severity, m.timeReported, m.timeGenerated, m.hostname,
     m.appname, m.procid, m.msgid, m.message]
  }

  function WriteSyslog(m: SyslogMessage<Written>): Data {
    WriteMany(SyslogStrings(m)) + WriteMap(WriteInner, m.properties)
  }

  function ReadSyslog(d: Data): Read<SyslogMessage<Properties>> {
    var s :- ReadMany(SYSLOG_STRINGS, d);
    var p :- ReadProperties(s.1);
    Got(SyslogMessage(s.0[0], s.0[1], s.0[2], s.0[3], s.0[4], s.0[5], s.0[6], s.0[7], s.0[8], p.0), p.1)
  }

  function SourceStrings<P>(m: FullMessage<P>): seq<Data> {
    [m.clientAddr, m.sourceType, m.sourcePath]
  }

  function WriteFull(m: FullMessage<Written>): Data {
    WriteMany(SourceStrings(m)) + (WriteLong(m.sourcePort) + (WriteString(m.uid) + WriteSyslog(m.fields)))
  }

  function ReadFull(d: Data): Read<FullMessage<Properties>> {
    var s :- ReadMany(SOURCE_STRINGS, d);
    var port :- ReadInt(s.1);
    var uid :- ReadString(port.1);
    var fields :- ReadSyslog(uid.1);
    Got(FullMessage(s.0[0], s.0[1], s.0[2], port.0, uid.0, fields.0), fields.1)
  }

  /** The message that a written one stands for. */
  function SyslogMeant(m: SyslogMessage<Written>): SyslogMessage<Properties> {
    SyslogMessage(m.facility, m.severity, m.timeReported, m.timeGenerated, m.hostname,
                  m.appname, m.procid, m.msgid, m.message, OuterMap(m.properties))
  }

  function FullMeant(m: FullMessage<Written>): FullMessage<Properties> {
    FullMessage(m.clientAddr, m.sourceType, m.sourcePath, m.sourcePort, m.uid, SyslogMeant(m.fields))
  }

  predicate SyslogFits(m: SyslogMessage<Written>) {
    AllShort(SyslogStrings(m)) && OuterFits(m.properties)
  }

  predicate FullFits(m: FullMessage<Written>) {
    AllShort(SourceStrings(m)) && Short(m.uid) && SyslogFits(m.fields)
  }

  predicate SyslogSized(m: SyslogMessage<Written>) {
    Sized(SyslogStrings(m)) && SizedOuter(m.properties)
  }

  predicate FullSized(m: FullMessage<Written>) {
    Sized(SourceStrings(m)) && IsInt32(m.sourcePort) && IsInt64(|m.uid|) && SyslogSized(m.fields)
  }

  lemma SyslogRoundTrip(m: SyslogMessage<Written>, rest: Data)
    requires SyslogSized(m)
    ensures ReadSyslog(WriteSyslog(m) + rest) == if SyslogFits(m) then Got(SyslogMeant(m), rest) else Bad
  {
    var ps := WriteMap(WriteInner, m.properties) + rest;
    assert WriteSyslog(m) + rest == WriteMany(SyslogStrings(m)) + ps;
    ManyRoundTrip(SyslogStrings(m), ps);
    PropertiesRoundTrip(m.properties, rest);
  }

  /** A written message reads back as itself and nothing after it is touched, exactly when all its strings fit. */
  lemma FullRoundTrip(m: FullMessage<Written>, rest: Data)
    requires FullSized(m)
    ensures ReadFull(WriteFull(m) + rest) == if FullFits(m) then Got(FullMeant(m), rest) else Bad
  {
    var d3 := WriteSyslog(m.fields) + rest;
    var d2 := WriteString(m.uid) + d3;
    var d1 := WriteLong(m.sourcePort) + d2;
    assert WriteFull(m) + rest == WriteMany(SourceStrings(m)) + d1;
    ManyRoundTrip(SourceStrings(m), d1);
    IntRoundTrip(m.sourcePort, d2);
    StringRoundTrip(m.uid, d3);
    SyslogRoundTrip(m.fields, rest);
  }

  // ------------------------------------------------------ messages with maps

  predicate ShortInner(m: map<Data, Data>) { forall k :: k in m ==> Short(k) && Short(m[k]) }

  predicate ShortOuter(m: Properties) { forall k :: k in m ==> Short(k) && ShortInner(m[k]) }

  predicate InnerCountable(m: map<Data, Data>) {
    IsInt64(|m|) && forall k :: k in m ==> IsInt64(|k|) && IsInt64(|m[k]|)
  }

  predicate OuterCountable(m: Properties) {
    IsInt64(|m|) && forall k :: k in m ==> IsInt64(|k|) && InnerCountable(m[k])
  }

  lemma InnerAgrees(ps: Listing<Data>, m: map<Data, Data>)
    requires InnerListed(ps, m)
    ensures InnerFits(ps) <==> ShortInner(m)
    ensures InnerCountable(m) ==> SizedInner(ps)
  {
    MeaningSame(ps);
    EntriesAgree(Same, ps, m);
  }

  lemma OuterAgrees(qs: Written, m: Properties)
    requires OuterListed(qs, m)
    ensures OuterFits(qs) <==> ShortOuter(m)
    ensures OuterCountable(m) ==> SizedOuter(qs)
  {
    EntriesAgree(InnerMap, qs, m);
    forall i | 0 <= i < |qs|
      ensures InnerFits(qs[i].1) <==> ShortInner(m[qs[i].0])
      ensures InnerCountable(m[qs[i].0]) ==> SizedInner(qs[i].1)
    {
      InnerAgrees(qs[i].1, InnerMap(qs[i].1));
    }
  }

  function Ordered(m: FullMessage<Properties>, qs: Written): FullMessage<Written> {
    var f := m.fields;
    FullMessage(
      m.clientAddr, m.sourceType, m.sourcePath, m.sourcePort, m.uid,
      SyslogMessage(f.facility, f.severity, f.timeReported, f.timeGenerated, f.hostname,
                    f.appname, f.procid, f.msgid, f.message, qs))
  }

  /** Lengths are what 63 bits can count, and the port has 32 bits. */
  predicate Countable(m: FullMessage<Properties>) {
    && Sized(SourceStrings(m)) && IsInt32(m.sourcePort) && IsInt64(|m.uid|)
    && Sized(SyslogStrings(m.fields)) && OuterCountable(m.fields.properties)
  }

  predicate Fits(m: FullMessage<Properties>) {
    && AllShort(SourceStrings(m)) && Short(m.uid)
    && AllShort(SyslogStrings(m.fields)) && ShortOuter(m.fields.properties)
  }

  lemma OrderedReadBack(m: FullMessage<Properties>, qs: Written, rest: Data)
    requires Countable(m) && OuterListed(qs, m.fields.properties)
    ensures ReadFull(WriteFull(Ordered(m, qs)) + rest) == if Fits(m) then Got(m, rest) else Bad
  {
    var w := Ordered(m, qs);
    OuterAgrees(qs, m.fields.properties);
    assert SourceStrings(w) == SourceStrings(m) && SyslogStrings(w.fields) == SyslogStrings(m.fields);
    FullRoundTrip(w, rest);
    assert FullMeant(w) == m;
  }

  /**
    writeFullMessage: whatever follows it in the stream, the message is read back exactly when all its
    strings fit 31 bits of length, and is refused otherwise.
    */
  method WriteFullMessage(m: FullMessage<Properties>) returns (bs: Data)
    requires Countable(m)
    ensures forall rest :: ReadFull(bs + rest) == if Fits(m) then Got(m, rest) else Bad
  {
    var properties := WriteMapMapString(m.fields.properties);
    ghost var qs :| OuterListed(qs, m.fields.properties) && properties == WriteMap(WriteInner, qs);
    bs := WriteMany(SourceStrings(m)) +
      (WriteLong(m.sourcePort) + (WriteString(m.uid) + (WriteMany(SyslogStrings(m.fields)) + properties)));
    assert bs == WriteFull(Ordered(m, qs));
    forall rest ensures ReadFull(bs + rest) == if Fits(m) then Got(m, rest) else Bad {
      OrderedReadBack(m, qs, rest);
    }
  }
}
