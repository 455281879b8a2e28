/** Building a message from a parse tree (decoders/rfc5424_format.go, model/types.go). */
module Rfc5424Listener {
  import opened Bytes
  import opened Decimal
  import opened Listings
  import opened Rfc5424
  import opened Rfc5424Printer
  import opened Unicode

  type Properties = map<Data, map<Data, Data>>

  const EMPTY: Message<Properties> := Message(0, 0, 0, 0, 0, 0, [], [], [], [], [], [], map[])

  /** SetProperty: the domain is made when it is missing. */
  function SetProperty(ps: Properties, sid: Data, name: Data, value: Data): Properties {
    var inner := if sid in ps then ps[sid] else map[];
    ps[sid := inner[name := value]]
  }

  /** A field that is a lone hyphen is left empty. */
  function Present(old_: Data, text: Data): Data { if text == [HYPHEN] then old_ else text }

  function SetParams(ps: Properties, sid: Data, params: Listing<Data>): Properties
    decreases |params|
  {
    if params == [] then ps
    else SetParams(SetProperty(ps, sid, params[0].0, params[0].1), sid, params[1..])
  }

  function SetElements(ps: Properties, es: Elements): Properties
    decreases |es|
  {
    if es == [] then ps else SetElements(SetParams(ps[es[0].0 := map[]], es[0].0, es[0].1), es[1..])
  }

  /** DIGIT+. */
  predicate Number(text: Data) { text != [] && AllDigits(text) }

  lemma NumberValue(text: Data)
    requires Number(text) && Atoi(text).Some?
    ensures Atoi(text) == Some(Decimal.Value(text))
  {
    assert IsDigit(text[0]);
  }

  /** What the grammar guarantees of a tree. */
  predicate WellFormed(t: Tree) {
    Number(t.pri) && Number(t.version) && forall i :: 0 <= i < |t.elements| ==> t.elements[i].0 != []
  }

  /** The time that a text stands for: a lone hyphen is the time of decoding. */
  function TimeOf(clock: Clock, stamp: Data): Option<int> {
    if stamp == [HYPHEN] then Some(clock.now)
    else
      match clock.parse(stamp)
      case None => None
      case Some(i) => Some(UnixNano(i))
  }

  /** The message a tree stands for; numbers of more than 63 bits and impossible times are refused. */
  function Build(clock: Clock, t: Tree): Option<Message<Properties>>
    requires WellFormed(t)
  {
    if Atoi(t.pri).None? || Atoi(t.version).None? || TimeOf(clock, t.stamp).None? then None
    else Some(Assemble(Decimal.Value(t.pri), Decimal.Value(t.version), TimeOf(clock, t.stamp).value, clock.now, t))
  }

  function Assemble(pri: nat, version: nat, reported: int, generated: int, t: Tree): Message<Properties> {
    Message(Signed32(pri), Signed32(pri / 8), Signed32(pri % 8), Signed32(version), reported, generated,
            Present([], t.host), Present([], t.app), Present([], t.proc), Present([], t.msgid),
            [], if t.msg.None? then [] else t.msg.value, SetElements(map[], t.elements))
  }

  /** The listener: callbacks that fill in the message until one of them fails. */
  class Listener {
    var msg: Message<Properties>
    var failed: bool
    var currentSID: Data

    constructor ()
      ensures msg == EMPTY && !failed && currentSID == []
    {
      msg, failed, currentSID := EMPTY, false, [];
    }

    method ExitPri(text: Data)
      requires Number(text)
      modifies this
      ensures currentSID == old(currentSID)
      ensures failed == (old(failed) || Atoi(text).None?)
      ensures
        msg ==
        if failed then old(msg)
        else
          var pri := Decimal.Value(text);
          old(msg).(priority := Signed32(pri), facility := Signed32(pri / 8), severity := Signed32(pri % 8))
    {
      if failed { return; }
      var pri := Atoi(text);
      if pri.None? {
        failed := true;
        return;
      }
      NumberValue(text);
      msg := msg.(priority := Signed32(pri.value), facility := Signed32(pri.value / 8),
                  severity := Signed32(pri.value % 8));
    }

    method ExitVersion(text: Data)
      requires Number(text)
      modifies this
      ensures currentSID == old(currentSID)
      ensures failed == (old(failed) || Atoi(text).None?)
      ensures msg == if failed then old(msg) else old(msg).(version := Signed32(Decimal.Value(text)))
    {
      if failed { return; }
      var v := Atoi(text);
      if v.None? {
        failed := true;
        return;
      }
      NumberValue(text);
      msg := msg.(version := Signed32(v.value));
    }

    /** The time generated is the time of decoding, whatever the message says. */
    method ExitTimestamp(clock: Clock, text: Data)
      modifies this
      ensures currentSID == old(currentSID)
      ensures failed == (old(failed) || TimeOf(clock, text).None?)
      ensures
        msg ==
        if old(failed) then old(msg)
        else if failed then old(msg).(generated := clock.now)
        else old(msg).(generated := clock.now, reported := TimeOf(clock, text).value)
    {
      if failed { return; }
      msg := msg.(generated := clock.now);
      if text == [HYPHEN] {
        msg := msg.(reported := msg.generated);
        return;
      }
      match clock.parse(text)
      case None => failed := true;
      case Some(rep) => msg := msg.(reported := UnixNano(rep));
    }

    method ExitHostname(text: Data)
      modifies this
      ensures currentSID == old(currentSID) && failed == old(failed)
      ensures msg == if failed then old(msg) else old(msg).(host := Present(old(msg).host, text))
    {
      if failed { return; }
      if text != [HYPHEN] { msg := msg.(host := text); }
    }

    method ExitAppname(text: Data)
      modifies this
      ensures currentSID == old(currentSID) && failed == old(failed)
      ensures msg == if failed then old(msg) else old(msg).(app := Present(old(msg).app, text))
    {
      if failed { return; }
      if text != [HYPHEN] { msg := msg.(app := text); }
    }

    method ExitProcid(text: Data)
      modifies this
      ensures currentSID == old(currentSID) && failed == old(failed)
      ensures msg == if failed then old(msg) else old(msg).(proc := Present(old(msg).proc, text))
    {
      if failed { return; }
      if text != [HYPHEN] { msg := msg.(proc := text); }
    }

    method ExitMsgid(text: Data)
      modifies this
      ensures currentSID == old(currentSID) && failed == old(failed)
      ensures msg == if failed then old(msg) else old(msg).(msgid := Present(old(msg).msgid, text))
    {
      if failed { return; }
      if text != [HYPHEN] { msg := msg.(msgid := text); }
    }

    method ExitSid(text: Data)
      modifies this
      ensures failed == (old(failed) || text == [])
      ensures currentSID == if old(failed) then old(currentSID) else text
      ensures
        msg == if failed then old(msg) else old(msg).(properties := old(msg).properties[text := map[]])
    {
      if failed { return; }
      currentSID := text;
      if |currentSID| == 0 {
        failed := true;
        return;
      }
      msg := msg.(properties := msg.properties[currentSID := map[]]);
    }

    method ExitParam(name: Data, value: Data)
      modifies this
      ensures currentSID == old(currentSID)
      ensures failed == (old(failed) || currentSID == [])
      ensures
        msg ==
        if failed then old(msg)
        else old(msg).(properties := SetProperty(old(msg).properties, currentSID, name, value))
    {
      if failed { return; }
      if |currentSID| == 0 {
        failed := true;
        return;
      }
      msg := msg.(properties := SetProperty(msg.properties, currentSID, name, value));
    }

    method ExitMsg(text: Data)
      modifies this
      ensures currentSID == old(currentSID) && failed == old(failed)
      ensures msg == if failed then old(msg) else old(msg).(text := text)
    {
      if failed { return; }
      msg := msg.(text := text);
    }
  }

  lemma {:induction false} SetParamsSnoc(ps: Properties, sid: Data, params: Listing<Data>, p: (Data, Data))
    ensures
      SetParams(ps, sid, params + [p]) == SetProperty(SetParams(ps, sid, params), sid, p.0, p.1)
    decreases |params|
  {
    if params == [] {
      assert (params + [p])[1..] == [];
    } else {
      assert (params + [p])[1..] == params[1..] + [p];
      SetParamsSnoc(SetProperty(ps, sid, params[0].0, params[0].1), sid, params[1..], p);
    }
  }

  lemma {:induction false} SetElementsSnoc(ps: Properties, es: Elements, e: (Data, Listing<Data>))
    ensures SetElements(ps, es + [e]) == SetParams(SetElements(ps, es)[e.0 := map[]], e.0, e.1)
    decreases |es|
  {
    if es == [] {
      assert (es + [e])[1..] == [];
    } else {
      assert (es + [e])[1..] == es[1..] + [e];
      SetElementsSnoc(SetParams(ps[es[0].0 := map[]], es[0].0, es[0].1), es[1..], e);
    }
  }

  /** The walk over one element. */
  method WalkElement(l: Listener, e: (Data, Listing<Data>))
    requires e.0 != [] && !l.failed
    modifies l
    ensures !l.failed
    ensures
      l.msg == old(l.msg).(properties := SetParams(old(l.msg).properties[e.0 := map[]], e.0, e.1))
  {
    l.ExitSid(e.0);
    for i := 0 to |e.1|
      invariant !l.failed && l.currentSID == e.0
      invariant
        l.msg == old(l.msg).(properties := SetParams(old(l.msg).properties[e.0 := map[]], e.0, e.1[..i]))
    {
      assert e.1[..i + 1] == e.1[..i] + [e.1[i]];
      SetParamsSnoc(old(l.msg).properties[e.0 := map[]], e.0, e.1[..i], e.1[i]);
      l.ExitParam(e.1[i].0, e.1[i].1);
    }
    assert e.1[..|e.1|] == e.1;
  }

  /** The walk over the header. */
  method WalkHeader(l: Listener, clock: Clock, t: Tree)
    requires WellFormed(t) && l.msg == EMPTY && !l.failed
    modifies l
    ensures l.failed <==> Build(clock, t).None?
    ensures !l.failed ==> l.msg == Build(clock, t).value.(text := [], properties := map[])
  {
    l.ExitPri(t.pri);
    l.ExitVersion(t.version);
    l.ExitTimestamp(clock, t.stamp);
    l.ExitHostname(t.host);
    l.ExitAppname(t.app);
    l.ExitProcid(t.proc);
    l.ExitMsgid(t.msgid);
  }

  /** The walk over the structured data. */
  method WalkElements(l: Listener, es: Elements)
    requires !l.failed && l.msg.properties == map[] && forall i :: 0 <= i < |es| ==> es[i].0 != []
    modifies l
    ensures !l.failed && l.msg == old(l.msg).(properties := SetElements(map[], es))
  {
    for i := 0 to |es|
      invariant !l.failed
      invariant l.msg == old(l.msg).(properties := SetElements(map[], es[..i]))
    {
      assert es[..i + 1] == es[..i] + [es[i]];
      SetElementsSnoc(map[], es[..i], es[i]);
      WalkElement(l, es[i]);
    }
    assert es[..|es|] == es;
  }

  /** The walk over the tree, in the order of the text. */
  method Walk(clock: Clock, t: Tree) returns (r: Option<Message<Properties>>)
    requires WellFormed(t)
    ensures r == Build(clock, t)
  {
    var l := new Listener();
    WalkHeader(l, clock, t);
    if l.failed { return None; }
    WalkElements(l, t.elements);
    if t.msg.Some? { l.ExitMsg(t.msg.value); }
    return Some(l.msg);
  }

  // ------------------------------------------------------------- decoding

  lemma {:induction false} SpanAll(cls: Byte -> bool, d: Data)
    ensures All(cls, d[..Span(cls, d)])
  {
    if d == [] || !cls(d[0]) {
    } else {
      var k := Span(cls, d[1..]);
      SpanAll(cls, d[1..]);
      assert d[..k + 1] == [d[0]] + d[1..][..k];
    }
  }

  lemma ManyAll(cls: Byte -> bool, d: Data)
    ensures Many(cls, d).Got? ==> Many(cls, d).value != [] && All(cls, Many(cls, d).value)
  {
    SpanAll(cls, d);
  }

  lemma {:induction false} ElementsWellFormed(d: Data)
    ensures
      ElementsOf(d).Got? ==>
      forall i :: 0 <= i < |ElementsOf(d).value| ==> ElementsOf(d).value[i].0 != []
    decreases |d|
  {
    if d == [] || d[0] != OPEN || !Element(d).Got? {
    } else {
      ManyAll(NameChar, d[1..]);
      ElementsWellFormed(Element(d).rest);
    }
  }

  lemma PreambleWellFormed(d: Data)
    ensures Preamble(d).Got? ==> Number(Preamble(d).value.pri) && Number(Preamble(d).value.version)
  {
    if Preamble(d).Got? {
      var d1 := d[1..];
      ManyAll(IsDigit, d1);
      var d2 := Many(IsDigit, d1).rest[1..];
      ManyAll(IsDigit, d2);
    }
  }

  lemma FullWellFormed(d: Data)
    ensures Full(d).Some? ==> WellFormed(Full(d).value)
  {
    PreambleWellFormed(d);
    if Full(d).Some? {
      var d1 := Preamble(d).rest;
      var d2 := Fields(HEADER_FIELDS, d1).rest;
      ElementsWellFormed(d2);
    }
  }

  /** p5424: the characters, the grammar, then the listener. */
  function Decode(clock: Clock, d: Data): Option<Message<Properties>> {
    var chars := Runes(d);
    FullWellFormed(chars);
    if Full(chars).None? then None else Build(clock, Full(chars).value)
  }

  /** The time reported, as it comes back. */
  function ToTheSecond(reported: int): int { UnixNano(Instant(reported / SECOND, 0)) }

  /** The message as it comes back. */
  function Rebuilt(clock: Clock, m: Message<Elements>): Message<Properties>
    requires m.priority >= 0
  {
    Message(m.priority, m.priority / 8, m.priority % 8, 1, ToTheSecond(m.reported), clock.now,
            Present([], m.host), Present([], m.app), Present([], m.proc), Present([], m.msgid),
            [], Trimmed(Runes(m.text)), OuterMap(ReadElements(m.properties)))
  }

  lemma {:induction false} ParamsBuildMap(ps: Properties, sid: Data, params: Listing<Data>)
    requires sid in ps
    ensures SetParams(ps, sid, params) == ps[sid := MapFrom(ps[sid], params)]
    decreases |params|
  {
    if params == [] {
      assert ps == ps[sid := ps[sid]];
    } else {
      var next := SetProperty(ps, sid, params[0].0, params[0].1);
      ParamsBuildMap(next, sid, params[1..]);
      assert next[sid := MapFrom(next[sid], params[1..])] == ps[sid := MapFrom(next[sid], params[1..])];
    }
  }

  lemma {:induction false} ElementsBuildMap(ps: Properties, es: Elements)
    ensures SetElements(ps, es) == MapFrom(ps, Meaning(InnerMap, es))
    decreases |es|
  {
    if es == [] {
    } else {
      var cleared := ps[es[0].0 := map[]];
      ParamsBuildMap(cleared, es[0].0, es[0].1);
      var next := ps[es[0].0 := InnerMap(es[0].1)];
      assert SetParams(cleared, es[0].0, es[0].1) == next;
      ElementsBuildMap(next, es[1..]);
      MeaningStep(InnerMap, es, ps);
    }
  }

  lemma PresentNilify(s: Data)
    ensures Present([], Nilify(s)) == Present([], s)
  {
  }

  lemma NumberText(n: int)
    requires 0 <= n && IsInt32(n)
    ensures Number(IntText(n)) && Atoi(IntText(n)) == Some(n) && Decimal.Value(IntText(n)) == n
  {
    AtoiInt(n);
    NumberValue(IntText(n));
  }

  lemma AssembledIs(clock: Clock, m: Message<Elements>)
    requires 0 <= m.priority && IsInt32(m.priority)
    ensures
      Assemble(m.priority, 1, ToTheSecond(m.reported), clock.now, TreeOf(clock, m.(text := Runes(m.text))))
      == Rebuilt(clock, m)
  {
    PresentNilify(m.host);
    PresentNilify(m.app);
    PresentNilify(m.proc);
    PresentNilify(m.msgid);
    RunesLength(m.text);
    ElementsBuildMap(map[], ReadElements(m.properties));
  }

  lemma BuiltIs(clock: Clock, m: Message<Elements>)
    requires Sound(clock) && IsInt64(m.reported) && 0 <= m.priority && IsInt32(m.priority)
    requires WellFormed(TreeOf(clock, m.(text := Runes(m.text))))
    ensures Build(clock, TreeOf(clock, m.(text := Runes(m.text)))) == Some(Rebuilt(clock, m))
  {
    NumberText(m.priority);
    NumberText(1);
    assert IntText(1) == [49];
    StampIs(clock, m.reported);
    AssembledIs(clock, m);
  }

  /**
    The round trip: a valid message is read back exactly when its priority is not negative and all its
    names are there. Otherwise it is printed all the same, and refused.
    */
  lemma DecodePrinted(clock: Clock, m: Message<Elements>)
    requires Valid(m) && IsInt32(m.priority) && IsInt64(m.reported) && Sound(clock)
    ensures
      Decode(clock, Print(clock, m))
      == if m.priority >= 0 && AllNamed(m.properties) then Some(Rebuilt(clock, m)) else None
  {
    StampIs(clock, m.reported);
    PrintedIsRead(clock, m);
    FullWellFormed(Runes(Print(clock, m)));
    if m.priority >= 0 && AllNamed(m.properties) { BuiltIs(clock, m); }
  }

  // ---------------------------------------------------- properties as maps

  function EscapeInner(m: map<Data, Data>): map<Data, Data> { map k | k in m :: Escape(m[k]) }

  function EscapeOuter(m: Properties): Properties { map k | k in m :: EscapeInner(m[k]) }

  predicate ShortParams(ps: Listing<Data>) { forall j :: 0 <= j < |ps| ==> |ps[j].0| <= 32 }

  predicate ShortNames(es: Elements) { forall i :: 0 <= i < |es| ==> ShortParams(es[i].1) }

  lemma {:induction false} ParamsEscaped(m: map<Data, Data>, ps: Listing<Data>)
    requires ShortParams(ps)
    ensures MapFrom(EscapeInner(m), ReadParams(ps)) == EscapeInner(MapFrom(m, ps))
    decreases |ps|
  {
    if ps == [] {
    } else {
      var k, v := ps[0].0, ps[0].1;
      assert EscapeInner(m)[k := Escape(v)] == EscapeInner(m[k := v]);
      assert ReadParams(ps)[1..] == ReadParams(ps[1..]);
      ParamsEscaped(m[k := v], ps[1..]);
    }
  }

  lemma {:induction false} ElementsEscaped(m: Properties, es: Elements)
    requires ShortNames(es)
    ensures
      MapFrom(EscapeOuter(m), Meaning(InnerMap, ReadElements(es)))
      == EscapeOuter(MapFrom(m, Meaning(InnerMap, es)))
    decreases |es|
  {
    if es == [] {
    } else {
      var k, ps := es[0].0, es[0].1;
      var none: map<Data, Data> := map[];
      assert EscapeInner(none) == none;
      ParamsEscaped(none, ps);
      assert EscapeOuter(m)[k := InnerMap(ReadParams(ps))] == EscapeOuter(m[k := InnerMap(ps)]);
      assert ReadElements(es)[1..] == ReadElements(es[1..]);
      MeaningStep(InnerMap, ReadElements(es), EscapeOuter(m));
      MeaningStep(InnerMap, es, m);
      ElementsEscaped(m[k := InnerMap(ps)], es[1..]);
    }
  }

  /** Every domain and every property has a name. */
  predicate Named(m: Properties) { forall k :: k in m ==> k != [] && forall n :: n in m[k] ==> n != [] }

  predicate AllShort(m: Properties) { forall k :: k in m ==> forall n :: n in m[k] ==> |n| <= 32 }

  lemma ParamsAgree(ps: Listing<Data>)
    ensures ParamsNamed(ps) <==> forall n :: n in InnerMap(ps) ==> n != []
    ensures ShortParams(ps) <==> forall n :: n in InnerMap(ps) ==> |n| <= 32
  {
    MapFromKeys(map[], ps);
    assert forall i :: 0 <= i < |ps| ==> ps[i].0 in KeysOf(ps);
    assert InnerMap(ps).Keys == KeysOf(ps);
  }

  lemma NamesAgree(es: Elements, m: Properties)
    requires DistinctKeys(es) && OuterMap(es) == m
    ensures AllNamed(es) <==> Named(m)
    ensures ShortNames(es) <==> AllShort(m)
  {
    EntriesAgree(InnerMap, es, m);
    forall i | 0 <= i < |es|
      ensures ParamsNamed(es[i].1) <==> forall n :: n in m[es[i].0] ==> n != []
      ensures ShortParams(es[i].1) <==> forall n :: n in m[es[i].0] ==> |n| <= 32
    {
      ParamsAgree(es[i].1);
    }
  }

  /** A message with its properties in the order in which they are printed. */
  function Ordered(m: Message<Properties>, es: Elements): Message<Elements> {
    Message(m.priority, m.facility, m.severity, m.version, m.reported, m.generated,
            m.host, m.app, m.proc, m.msgid, m.structured, m.text, es)
  }

  /** The message as it comes back, in terms of its maps. */
  function Expected(clock: Clock, m: Message<Properties>): Message<Properties>
    requires m.priority >= 0
  {
    Message(m.priority, m.priority / 8, m.priority % 8, 1, ToTheSecond(m.reported), clock.now,
            Present([], m.host), Present([], m.app), Present([], m.proc), Present([], m.msgid),
            [], Trimmed(Runes(m.text)), EscapeOuter(m.properties))
  }

  /**
    The round trip on maps, whatever the order in which they are printed: with names of at most 32
    bytes, every property comes back under its domain and name with its value escaped.
    */
  lemma MapsComeBack(clock: Clock, m: Message<Properties>, es: Elements)
    requires Valid(Ordered(m, es)) && IsInt32(m.priority) && IsInt64(m.reported) && Sound(clock)
    requires DistinctKeys(es) && OuterMap(es) == m.properties
    ensures
      var d := Decode(clock, Print(clock, Ordered(m, es)));
      && (d.Some? <==> Accepted(m))
      && (Accepted(m) && AllShort(m.properties) ==> d == Some(Expected(clock, m)))
  {
    DecodePrinted(clock, Ordered(m, es));
    NamesAgree(es, m.properties);
    if AllShort(m.properties) {
      var none: Properties := map[];
      assert EscapeOuter(none) == none;
      ElementsEscaped(none, es);
    }
  }

  /** What the decoder accepts of what is printed. */
  predicate Accepted(m: Message<Properties>) {
    m.priority >= 0 && Named(m.properties)
  }

  predicate PlainInner(m: map<Data, Data>) { forall n :: n in m ==> Specials(m[n]) == 0 }

  predicate Plain(m: Properties) { forall k :: k in m ==> PlainInner(m[k]) }

  lemma EscapeKeeps(s: Data)
    ensures Escape(s) == s <==> Specials(s) == 0
  {
    EscapeLength(s);
    if Specials(s) == 0 { NothingToEscape(s); }
  }

  lemma InnerKept(m: map<Data, Data>)
    ensures EscapeInner(m) == m <==> PlainInner(m)
  {
    forall n | n in m ensures EscapeInner(m)[n] == m[n] <==> Specials(m[n]) == 0 { EscapeKeeps(m[n]); }
  }

  lemma OuterKept(m: Properties)
    ensures EscapeOuter(m) == m <==> Plain(m)
  {
    forall k | k in m ensures EscapeOuter(m)[k] == m[k] <==> PlainInner(m[k]) { InnerKept(m[k]); }
  }

  predicate NoHyphens(m: Message<Properties>) {
    m.host != [HYPHEN] && m.app != [HYPHEN] && m.proc != [HYPHEN] && m.msgid != [HYPHEN]
  }

  /** The fields that are not part of what is printed, and the times. */
  predicate Timed(clock: Clock, m: Message<Properties>) {
    m.reported % SECOND == 0 && m.generated == clock.now && m.structured == []
  }

  /** What the way there and back leaves alone, the names of properties aside. */
  predicate Regular(clock: Clock, m: Message<Properties>) {
    && m.version == 1 && 0 <= m.severity < 8 && m.priority == 8 * m.facility + m.severity
    && Timed(clock, m) && NoHyphens(m) && Utf8(m.text) && (m.text == [] || m.text[0] != SP) && Plain(m.properties)
  }

  /** Whole seconds come back, and only they. */
  lemma SecondKept(reported: int)
    requires IsInt64(reported)
    ensures ToTheSecond(reported) == reported <==> reported % SECOND == 0
  {
    var whole := reported / SECOND * SECOND;
    assert reported == whole + reported % SECOND;
  }

  /** Text comes back when it is UTF-8 without a space in front, and only then. */
  lemma TextKept(text: Data)
    ensures Trimmed(Runes(text)) == text <==> Utf8(text) && (text == [] || text[0] != SP)
  {
    RunesLength(text);
    RunesKeeps(text);
    if text != [] {
      SpaceStays(text);
      TrimmedStart(Runes(text));
    }
  }

  lemma SpaceStays(text: Data)
    requires text != []
    ensures Runes(text) != [] && (Runes(text)[0] == SP <==> text[0] == SP)
  {
  }

  lemma {:induction false} TrimmedStart(d: Data)
    ensures Trimmed(d) == [] || Trimmed(d)[0] != SP
    ensures Trimmed(d) == d <==> d == [] || d[0] != SP
  {
    if d == [] || d[0] != SP {
    } else {
      TrimmedStart(d[1..]);
      assert Trimmed(d) == Trimmed(d[1..]);
    }
  }

  lemma ExpectedKept(clock: Clock, m: Message<Properties>)
    requires m.priority >= 0 && IsInt64(m.reported)
    ensures Expected(clock, m) == m <==> Regular(clock, m)
  {
    OuterKept(m.properties);
    TextKept(m.text);
    SecondKept(m.reported);
  }

  lemma {:induction false} ReadParamsShort(ps: Listing<Data>)
    ensures ShortParams(ReadParams(ps))
  {
    if ps == [] {
    } else {
      ReadParamsShort(ps[1..]);
    }
  }

  /** What is read has short names and the domains that were printed. */
  lemma {:induction false} ReadElementsShort(es: Elements)
    ensures ShortNames(ReadElements(es)) && |ReadElements(es)| == |es|
    ensures forall i :: 0 <= i < |es| ==> ReadElements(es)[i].0 == es[i].0
  {
    if es == [] {
    } else {
      ReadParamsShort(es[0].1);
      ReadElementsShort(es[1..]);
    }
  }

  /** A name that is cut never comes back, so only short names do. */
  lemma CutNamesChange(clock: Clock, m: Message<Properties>, es: Elements)
    requires DistinctKeys(es) && m.priority >= 0 && Rebuilt(clock, Ordered(m, es)).properties == m.properties
    ensures AllShort(m.properties)
  {
    ReadElementsShort(es);
    NamesAgree(ReadElements(es), m.properties);
  }

  /** A message is printed and read back unchanged under exactly these conditions. */
  lemma UnchangedWhen(clock: Clock, m: Message<Properties>, es: Elements)
    requires Valid(Ordered(m, es)) && IsInt32(m.priority) && IsInt64(m.reported) && Sound(clock)
    requires DistinctKeys(es) && OuterMap(es) == m.properties
    ensures
      Decode(clock, Print(clock, Ordered(m, es))) == Some(m)
      <==> Accepted(m) && AllShort(m.properties) && Regular(clock, m)
  {
    MapsComeBack(clock, m, es);
    if Accepted(m) {
      DecodePrinted(clock, Ordered(m, es));
      NamesAgree(es, m.properties);
      if Decode(clock, Print(clock, Ordered(m, es))) == Some(m) { CutNamesChange(clock, m, es); }
      ExpectedKept(clock, m);
    }
  }
}
