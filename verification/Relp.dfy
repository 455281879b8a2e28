/**
 Answers to a RELP client (services/network/relp.go, directrelp.go). Parsers
 finish in any order and may give several verdicts for one transaction; the
 response loop must answer in the order of receipt, once each, with the first
 verdict it was given.
 */
module Relp {
  import opened Bytes

  // ------------------------------------------------------------ receiving

  /** What the scanner of a connection remembers. */
  datatype Scan = Scan(previous: int, isOpen: bool, alive: bool)

  datatype Frame = Frame(txnr: int, command: string, data: string)

  /** What a frame makes the connection do, besides answering `open` and `close`. */
  datatype Effect = Nothing | Received(txnr: int, fate: Fate)

  /** A received message is answered at once when empty, goes to the parsers, or is given up as too large. */
  datatype Fate = Immediate | ToParsers | TooLarge

  function FateOf(maxSize: int, data: string): Fate {
    if data == "" then Immediate
    else if maxSize > 0 && |data| > maxSize then TooLarge
    else ToParsers
  }

  /**
   One turn of the loop in scan, with the two-state machine of newMachine. An
   error raised while handling `syslog` does not end the connection: the event
   keeps the machine in its state, and the error that reports this is ignored.
   */
  function ScanFrame(s: Scan, maxSize: int, f: Frame): (r: (Scan, Effect)) {
    if !IsInt32(f.txnr) || f.txnr <= s.previous then (s.(alive := false), Nothing)
    else
      var t := s.(previous := f.txnr);
      if f.command == "open" then
        if s.isOpen then (t.(alive := false), Nothing) else (t.(isOpen := true), Nothing)
      else if f.command == "close" then (t.(isOpen := false, alive := false), Nothing)
      else if f.command == "syslog" && s.isOpen then
        (t, Received(f.txnr, FateOf(maxSize, f.data)))
      else (t.(alive := false), Nothing)
  }

  /** The effects of a stream of frames on a new connection. */
  ghost function ScanAll(maxSize: int, frames: seq<Frame>): (Scan, seq<Effect>) {
    if frames == [] then (Scan(-1, false, true), [])
    else
      var k := |frames| - 1;
      var (s, effects) := ScanAll(maxSize, frames[..k]);
      if !s.alive then (s, effects)
      else var (t, e) := ScanFrame(s, maxSize, frames[k]); (t, effects + [e])
  }

  ghost function ReceivedTxnrs(effects: seq<Effect>): seq<int> {
    if effects == [] then []
    else
      var k := |effects| - 1;
      var rest := ReceivedTxnrs(effects[..k]);
      match effects[k] case Received(t, _) => rest + [t] case Nothing => rest
  }

  /** The frames of a stream that are received as messages. */
  ghost function Messages(maxSize: int, frames: seq<Frame>): seq<Frame> {
    if frames == [] then []
    else
      var k := |frames| - 1;
      var before, s := Messages(maxSize, frames[..k]), ScanAll(maxSize, frames[..k]).0;
      if s.alive && ScanFrame(s, maxSize, frames[k]).1.Received? then before + [frames[k]] else before
  }

  lemma {:induction false} MessagesAreReceived(maxSize: int, frames: seq<Frame>)
    ensures
      var ms, r := Messages(maxSize, frames), ReceivedTxnrs(ScanAll(maxSize, frames).1);
      |ms| == |r| && forall j :: 0 <= j < |ms| ==> r[j] == ms[j].txnr
  {
    if frames == [] {
    } else {
      var k := |frames| - 1;
      MessagesAreReceived(maxSize, frames[..k]);
      var (s, effects) := ScanAll(maxSize, frames[..k]);
      if s.alive {
        var (t, e) := ScanFrame(s, maxSize, frames[k]);
        assert (effects + [e])[..|effects|] == effects;
      }
    }
  }

  ghost predicate Increasing(s: seq<int>) {
    forall i, j :: 0 <= i < j < |s| ==> s[i] < s[j]
  }

  /** Received transaction numbers grow and are never negative, so -1 can stand for "none". */
  lemma {:induction false} ReceivedIncrease(maxSize: int, frames: seq<Frame>)
    ensures
      var (s, effects) := ScanAll(maxSize, frames);
      var r := ReceivedTxnrs(effects);
      Increasing(r) && forall i :: 0 <= i < |r| ==> 0 <= r[i] <= s.previous
  {
    if frames == [] {
    } else {
      var k := |frames| - 1;
      ReceivedIncrease(maxSize, frames[..k]);
      var (s, effects) := ScanAll(maxSize, frames[..k]);
      if s.alive {
        var (t, e) := ScanFrame(s, maxSize, frames[k]);
        assert (effects + [e])[..|effects|] == effects;
        PreviousAtLeast(maxSize, frames[..k]);
      }
    }
  }

  lemma {:induction false} PreviousAtLeast(maxSize: int, frames: seq<Frame>)
    ensures ScanAll(maxSize, frames).0.previous >= -1
  {
    if frames == [] {
    } else {
      PreviousAtLeast(maxSize, frames[..|frames| - 1]);
    }
  }

  // ------------------------------------------------------------ the connection

  datatype Verdict = Verdict(txnr: int, ok: bool)

  datatype Answer = Answer(txnr: int, code: int)

  /**
   comm, succ, fail: the queues of the ackForwarder; scanner: an empty message
   the scanner is about to report as a success; successes, failures, next: the
   variables of handleResponses. The rest is history: txnrs received and what
   became of them, verdicts taken from the queues, answers written.
   */
  datatype State = State(
    comm: seq<int>,
    succ: seq<int>,
    fail: seq<int>,
    scanner: Option<int>,
    successes: map<int, bool>,
    failures: map<int, bool>,
    next: int,
    cooking: bool,
    received: seq<int>,
    fates: map<int, Fate>,
    drained: seq<Verdict>,
    answered: seq<Answer>)

  datatype Step =
    | Receive(txnr: int, fate: Fate)
    | Forward
    | Judge(verdict: Verdict)
    | Drain(s: bool, f: bool)
    | Poll
    | Reply
    | WriteTimeout
    | Rest

  const INIT: State := State([], [], [], None, map[], map[], -1, false, [], map[], [], [])

  /** Records a verdict unless there is one already. */
  function Record(s: State, v: Verdict): State {
    var t := s.(drained := s.drained + [v]);
    if v.txnr in s.successes || v.txnr in s.failures then t
    else if v.ok then t.(successes := s.successes[v.txnr := true])
    else t.(failures := s.failures[v.txnr := true])
  }

  function TakeSucc(s: State): State
    requires s.succ != []
  {
    Record(s.(succ := s.succ[1..]), Verdict(s.succ[0], true))
  }

  function TakeFail(s: State): State
    requires s.fail != []
  {
    Record(s.(fail := s.fail[1..]), Verdict(s.fail[0], false))
  }

  predicate Live(m: map<int, bool>, t: int) { t in m && m[t] }

  function DoReply(s: State): State {
    if Live(s.successes, s.next) then
      s.(answered := s.answered + [Answer(s.next, 200)], successes := s.successes[s.next := false], next := -1)
    else
      s.(answered := s.answered + [Answer(s.next, 500)], failures := s.failures[s.next := false], next := -1)
  }

  /** Steps of the scanner, of parsers and of the response loop, interleaved at each queue operation and write. */
  ghost predicate Next(s: State, step: Step, t: State) {
    match step
    // the commit queue is filled before the message can get a verdict
    case Receive(txnr, fate) =>
      && s.scanner.None? && txnr >= 0 && (s.received == [] || s.received[|s.received| - 1] < txnr)
      && t == s.(comm := s.comm + [txnr], received := s.received + [txnr], fates := s.fates[txnr := fate],
                 scanner := if fate.Immediate? then Some(txnr) else None)
    case Forward => s.scanner.Some? && t == s.(scanner := None, succ := s.succ + [s.scanner.value])
    // a parser, which is given neither empty nor oversized messages
    case Judge(v) =>
      && v.txnr in s.fates && s.fates[v.txnr].ToParsers?
      && t == if v.ok then s.(succ := s.succ + [v.txnr]) else s.(fail := s.fail + [v.txnr])
    case Drain(a, b) =>
      && !s.cooking && (a || b) && (a ==> s.succ != []) && (b ==> s.fail != [])
      && var u := if a then TakeSucc(s) else s;
         t == (if b then TakeFail(u) else u).(cooking := true)
    case Poll =>
      && s.cooking && s.next == -1 && s.comm != []
      && t == s.(next := s.comm[0], comm := s.comm[1..])
    case Reply =>
      && s.cooking && s.next != -1 && (Live(s.successes, s.next) || Live(s.failures, s.next))
      && t == DoReply(s)
    case WriteTimeout =>
      && s.cooking && s.next != -1 && (Live(s.successes, s.next) || Live(s.failures, s.next))
      && t == s
    // the inner loop ends: nothing to commit, or no verdict for it yet
    case Rest =>
      && s.cooking
      && (if s.next == -1 then s.comm == [] else !Live(s.successes, s.next) && !Live(s.failures, s.next))
      && t == s.(cooking := false)
  }

  ghost predicate Run(states: seq<State>, steps: seq<Step>) {
    && |states| == |steps| + 1 && states[0] == INIT
    && forall i :: 0 <= i < |steps| ==> Next(states[i], steps[i], states[i + 1])
  }

  // ------------------------------------------------------------ invariant

  /** The first verdict given for a transaction. */
  ghost function First(drained: seq<Verdict>, txnr: int): Option<bool> {
    if drained == [] then None
    else
      var k := |drained| - 1;
      var f := First(drained[..k], txnr);
      if f.None? && drained[k].txnr == txnr then Some(drained[k].ok) else f
  }

  ghost function Txnrs(answered: seq<Answer>): seq<int> {
    seq(|answered|, i requires 0 <= i < |answered| => answered[i].txnr)
  }

  ghost function Pending(s: State): seq<int> {
    (if s.next == -1 then [] else [s.next]) + s.comm
  }

  ghost predicate Answered(s: State, t: int) {
    exists i :: 0 <= i < |s.answered| && s.answered[i].txnr == t
  }

  /** The two verdict maps hold the first verdicts. */
  ghost predicate Recorded(s: State) {
    && (forall t :: t in s.successes ==> First(s.drained, t) == Some(true))
    && (forall t :: t in s.failures ==> First(s.drained, t) == Some(false))
    && (forall v :: v in s.drained ==> v.txnr in s.successes || v.txnr in s.failures)
  }

  /** A verdict is switched off once it is answered. */
  ghost predicate Switched(s: State) {
    && (forall t :: t in s.successes ==> (s.successes[t] <==> !Answered(s, t)))
    && (forall t :: t in s.failures ==> (s.failures[t] <==> !Answered(s, t)))
  }

  ghost predicate Ordered(s: State) {
    && Txnrs(s.answered) + Pending(s) == s.received
    && Increasing(s.received)
    && (forall t :: t in s.received ==> t >= 0)
    && (s.next == -1 || s.next >= 0)
  }

  ghost predicate Answers(s: State) {
    forall i :: 0 <= i < |s.answered| ==>
      var a := s.answered[i];
      First(s.drained, a.txnr).Some? && a.code == if First(s.drained, a.txnr).value then 200 else 500
  }

  ghost predicate Known(s: State) {
    && (forall t :: t in s.received <==> t in s.fates)
    && (forall v :: v in s.drained ==> Judgeable(s, v.txnr))
    && (forall t :: t in s.succ + s.fail ==> Judgeable(s, t))
    && (s.scanner.Some? ==> Judgeable(s, s.scanner.value))
  }

  /** Received, and not given up as too large. */
  ghost predicate Judgeable(s: State, t: int) { t in s.fates && !s.fates[t].TooLarge? }

  /** At rest, the next transaction to answer has no verdict. */
  ghost predicate Settled(s: State) {
    !s.cooking ==>
      if s.next != -1 then First(s.drained, s.next).None?
      else forall t :: t in s.comm ==> First(s.drained, t).None?
  }

  ghost predicate Inv(s: State) {
    Ordered(s) && Recorded(s) && Switched(s) && Answers(s) && Known(s) && Settled(s)
  }

  // ------------------------------------------------------------ proofs

  lemma FirstSnoc(drained: seq<Verdict>, v: Verdict, t: int)
    ensures First(drained + [v], t)
         == if First(drained, t).None? && v.txnr == t then Some(v.ok) else First(drained, t)
  {
    assert (drained + [v])[..|drained|] == drained;
  }

  lemma {:induction false} FirstNone(drained: seq<Verdict>, t: int)
    ensures First(drained, t).None? <==> forall v :: v in drained ==> v.txnr != t
  {
    if drained == [] {
    } else {
      var k := |drained| - 1;
      FirstNone(drained[..k], t);
      assert drained == drained[..k] + [drained[k]];
    }
  }

  /** A transaction still pending is not answered. */
  lemma PendingUnanswered(s: State, t: int)
    requires Ordered(s) && t in Pending(s)
    ensures !Answered(s, t)
  {
    var x, y := Txnrs(s.answered), Pending(s);
    var j :| 0 <= j < |y| && y[j] == t;
    forall i | 0 <= i < |s.answered| ensures s.answered[i].txnr != t {
      assert s.received[i] == x[i] && s.received[|x| + j] == y[j];
    }
  }

  lemma ReceiveInv(s: State, txnr: int, fate: Fate, t: State)
    requires Inv(s) && Next(s, Receive(txnr, fate), t)
    ensures Inv(t)
  {
    ReceiveOrdered(s, txnr, fate, t);
    assert txnr !in s.received;
    FirstNone(s.drained, txnr);
    GrowJudged(s, t);
    ReceiveKnown(s, txnr, fate, t);
  }

  lemma ReceiveKnown(s: State, txnr: int, fate: Fate, t: State)
    requires Known(s) && txnr !in s.received && Next(s, Receive(txnr, fate), t)
    ensures Known(t)
  {
    forall x | Judgeable(s, x) ensures Judgeable(t, x) { assert x in s.received; }
  }

  lemma ReceiveOrdered(s: State, txnr: int, fate: Fate, t: State)
    requires Ordered(s) && Next(s, Receive(txnr, fate), t)
    ensures Ordered(t)
  {
    assert Txnrs(t.answered) + Pending(t) == s.received + [txnr] by {
      assert Pending(t) == Pending(s) + [txnr];
    }
  }

  lemma GrowJudged(s: State, t: State)
    requires Judged(s) && s.received <= t.received
    requires t == s.(comm := t.comm, received := t.received, fates := t.fates, scanner := t.scanner)
    ensures Judged(t)
  {
    assert forall x :: Answered(t, x) <==> Answered(s, x);
    assert forall x :: x in s.received ==> x in t.received;
  }

  /** The part of the invariant that verdicts concern. */
  ghost predicate Judged(s: State) {
    && Recorded(s) && Switched(s) && Answers(s)
    && (forall v :: v in s.drained ==> v.txnr in s.received)
  }

  lemma RecordRecorded(s: State, v: Verdict)
    requires Recorded(s)
    ensures Recorded(Record(s, v))
  {
    var t := Record(s, v);
    FirstNone(s.drained, v.txnr);
    forall x ensures First(t.drained, x) == if First(s.drained, x).None? && v.txnr == x then Some(v.ok) else First(s.drained, x) {
      FirstSnoc(s.drained, v, x);
    }
    forall w | w in t.drained ensures w.txnr in t.successes || w.txnr in t.failures {
      assert w in s.drained || w == v;
    }
  }

  lemma RecordSwitched(s: State, v: Verdict)
    requires Recorded(s) && Switched(s) && Answers(s)
    ensures Switched(Record(s, v))
  {
    var t := Record(s, v);
    assert forall x :: Answered(t, x) <==> Answered(s, x);
    FirstNone(s.drained, v.txnr);
    if v.txnr !in s.successes && v.txnr !in s.failures {
      UnjudgedUnanswered(s, v.txnr);
    }
  }

  lemma RecordAnswers(s: State, v: Verdict)
    requires Answers(s)
    ensures Answers(Record(s, v))
  {
    forall x ensures First(s.drained, x).Some? ==> First(s.drained + [v], x) == First(s.drained, x) {
      FirstSnoc(s.drained, v, x);
    }
  }

  lemma RecordInv(s: State, v: Verdict)
    requires Judged(s) && v.txnr in s.received
    ensures Judged(Record(s, v))
  {
    RecordRecorded(s, v);
    RecordSwitched(s, v);
    RecordAnswers(s, v);
    var t := Record(s, v);
    forall w | w in t.drained ensures w.txnr in t.received { assert w in s.drained || w == v; }
  }

  lemma SameJudged(s: State, t: State)
    requires Judged(s)
    requires t.successes == s.successes && t.failures == s.failures && t.answered == s.answered
    requires t.drained == s.drained && t.received == s.received
    ensures Judged(t)
  {
    assert forall x :: Answered(t, x) <==> Answered(s, x);
  }

  lemma UnjudgedUnanswered(s: State, t: int)
    requires Answers(s) && First(s.drained, t).None?
    ensures !Answered(s, t)
  {
  }

  function Take(s: State, ok: bool): State
    requires if ok then s.succ != [] else s.fail != []
  {
    if ok then TakeSucc(s) else TakeFail(s)
  }

  lemma TakeKnown(s: State, ok: bool)
    requires Known(s) && (if ok then s.succ != [] else s.fail != [])
    ensures Known(Take(s, ok))
  {
    var t, x := Take(s, ok), if ok then s.succ[0] else s.fail[0];
    assert x in s.succ + s.fail;
    assert forall y :: Judgeable(s, y) <==> Judgeable(t, y);
    forall v | v in t.drained ensures Judgeable(s, v.txnr) { assert v in s.drained || v.txnr == x; }
    forall y | y in t.succ + t.fail ensures y in s.succ + s.fail { }
  }

  lemma TakeJudged(s: State, ok: bool)
    requires Judged(s) && Known(s) && (if ok then s.succ != [] else s.fail != [])
    ensures Judged(Take(s, ok))
  {
    var x := if ok then s.succ[0] else s.fail[0];
    assert x in s.succ + s.fail && Judgeable(s, x);
    var u := if ok then s.(succ := s.succ[1..]) else s.(fail := s.fail[1..]);
    SameJudged(s, u);
    RecordInv(u, Verdict(x, ok));
  }

  lemma SameOrdered(s: State, t: State)
    requires Ordered(s)
    requires t.answered == s.answered && t.next == s.next && t.comm == s.comm && t.received == s.received
    ensures Ordered(t)
  {
    assert Pending(t) == Pending(s) && Txnrs(t.answered) == Txnrs(s.answered);
  }

  /** The part of the invariant that does not depend on whether the loop rests. */
  ghost predicate Sound(s: State) { Ordered(s) && Judged(s) && Known(s) }

  lemma TakeInv(s: State, ok: bool)
    requires Sound(s) && (if ok then s.succ != [] else s.fail != [])
    ensures Sound(Take(s, ok))
  {
    TakeKnown(s, ok);
    TakeJudged(s, ok);
    SameOrdered(s, Take(s, ok));
  }

  lemma CookingSound(s: State, t: State)
    requires Sound(s) && t == s.(cooking := true)
    ensures Inv(t)
  {
    SameJudged(s, t);
    SameOrdered(s, t);
    assert forall y :: Judgeable(s, y) <==> Judgeable(t, y);
  }

  lemma DrainInv(s: State, a: bool, b: bool, t: State)
    requires Inv(s) && Next(s, Drain(a, b), t)
    ensures Inv(t)
  {
    DrainedSound(s, a, b);
    var u := if a then TakeSucc(s) else s;
    CookingSound(if b then TakeFail(u) else u, t);
  }

  lemma DrainedSound(s: State, a: bool, b: bool)
    requires Sound(s) && (a ==> s.succ != []) && (b ==> s.fail != [])
    ensures
      var u := if a then TakeSucc(s) else s;
      Sound(if b then TakeFail(u) else u)
  {
    if a { TakeInv(s, true); }
    var u := if a then TakeSucc(s) else s;
    if b { TakeInv(u, false); }
  }

  lemma PollInv(s: State, t: State)
    requires Inv(s) && Next(s, Poll, t)
    ensures Inv(t)
  {
    assert s.comm[0] in s.received by { assert s.comm[0] in Txnrs(s.answered) + Pending(s); }
    assert Pending(t) == Pending(s);
    SameJudged(s, t);
  }

  lemma ReplyInv(s: State, t: State)
    requires Inv(s) && Next(s, Reply, t)
    ensures Inv(t)
  {
    var code := if Live(s.successes, s.next) then 200 else 500;
    assert t.answered == s.answered + [Answer(s.next, code)];
    assert Txnrs(t.answered) == Txnrs(s.answered) + [s.next];
    assert Pending(s) == [s.next] + Pending(t);
    assert Ordered(t);
    assert forall x :: Answered(t, x) <==> Answered(s, x) || x == s.next by {
      assert t.answered[|s.answered|].txnr == s.next;
      forall x | Answered(s, x) ensures Answered(t, x) {
        var i :| 0 <= i < |s.answered| && s.answered[i].txnr == x;
        assert t.answered[i].txnr == x;
      }
    }
  }

  lemma StepInv(s: State, step: Step, t: State)
    requires Inv(s) && Next(s, step, t)
    ensures Inv(t)
  {
    match step {
      case Receive(txnr, fate) => ReceiveInv(s, txnr, fate, t);
      case Forward => QueueInv(s, t);
      case Judge(v) => QueueInv(s, t);
      case Drain(a, b) => DrainInv(s, a, b, t);
      case Poll => PollInv(s, t);
      case Reply => ReplyInv(s, t);
      case WriteTimeout =>
      case Rest => RestInv(s, t);
    }
  }

  /** A judgeable transaction joins one of the verdict queues. */
  lemma QueueInv(s: State, t: State)
    requires Inv(s) && t == s.(succ := t.succ, fail := t.fail, scanner := t.scanner)
    requires t.scanner == s.scanner || t.scanner.None?
    requires forall x :: x in t.succ + t.fail ==> Judgeable(s, x)
    ensures Inv(t)
  {
    SameJudged(s, t);
    assert Pending(t) == Pending(s);
    assert forall x :: Judgeable(s, x) <==> Judgeable(t, x);
  }

  lemma RestInv(s: State, t: State)
    requires Inv(s) && Next(s, Rest, t)
    ensures Inv(t)
  {
    SameJudged(s, t);
    assert Pending(t) == Pending(s);
    if s.next != -1 {
      PendingUnanswered(s, s.next);
      assert s.next !in s.successes && s.next !in s.failures;
      FirstNone(s.drained, s.next);
    }
  }

  lemma {:induction false} RunInv(states: seq<State>, steps: seq<Step>, i: nat)
    requires Run(states, steps) && i < |states|
    ensures Inv(states[i])
  {
    if i == 0 {
    } else {
      RunInv(states, steps, i - 1);
      StepInv(states[i - 1], steps[i - 1], states[i]);
    }
  }

  // ------------------------------------------------------------ guarantees

  /**
   At every step: answers so far, then what is pending, is exactly what was
   received. So answers are in order of receipt, strictly increasing, none
   twice; and each is the first verdict taken for its transaction.
   */
  lemma AnswersInOrder(states: seq<State>, steps: seq<Step>, i: nat)
    requires Run(states, steps) && i < |states|
    ensures Txnrs(states[i].answered) + Pending(states[i]) == states[i].received
    ensures Increasing(Txnrs(states[i].answered))
    ensures forall j :: 0 <= j < |states[i].answered| ==>
      var a := states[i].answered[j];
      (First(states[i].drained, a.txnr) == Some(true) && a.code == 200)
      || (First(states[i].drained, a.txnr) == Some(false) && a.code == 500)
  {
    RunInv(states, steps, i);
    var x := Txnrs(states[i].answered);
    forall j, k | 0 <= j < k < |x| ensures x[j] < x[k] {
      assert states[i].received[j] == x[j] && states[i].received[k] == x[k];
    }
  }

  /** How many of the first received transactions have all been judged. */
  ghost function JudgedPrefix(drained: seq<Verdict>, received: seq<int>): nat {
    if received == [] || First(drained, received[0]).None? then 0 else 1 + JudgedPrefix(drained, received[1..])
  }

  lemma {:induction false} JudgedPrefixIs(drained: seq<Verdict>, received: seq<int>, n: nat)
    requires n <= |received| && forall i :: 0 <= i < n ==> First(drained, received[i]).Some?
    requires n < |received| ==> First(drained, received[n]).None?
    ensures JudgedPrefix(drained, received) == n
  {
    if n == 0 {
    } else {
      assert First(drained, received[0]).Some?;
      JudgedPrefixIs(drained, received[1..], n - 1);
    }
  }

  /**
   Completeness: whenever the response loop rests, it has answered exactly the
   longest prefix of the received transactions whose verdicts it has taken. In
   particular it has answered all of them as soon as all are judged, and a
   transaction without a verdict holds back every later one.
   */
  lemma AnsweredPrefix(states: seq<State>, steps: seq<Step>, i: nat)
    requires Run(states, steps) && i < |states| && !states[i].cooking
    ensures |states[i].answered| == JudgedPrefix(states[i].drained, states[i].received)
  {
    RunInv(states, steps, i);
    var s := states[i];
    var n := |s.answered|;
    forall j | 0 <= j < n ensures First(s.drained, s.received[j]).Some? {
      assert s.received[j] == Txnrs(s.answered)[j];
    }
    if n < |s.received| {
      assert s.received[n] == Pending(s)[0];
      assert s.next == -1 ==> s.comm[0] in s.comm;
    }
    JudgedPrefixIs(s.drained, s.received, n);
  }

  /** A transaction without a verdict holds back every later one. */
  lemma UnjudgedBlocks(states: seq<State>, steps: seq<Step>, i: nat, n: nat)
    requires Run(states, steps) && i < |states| && n < |states[i].received|
    requires forall v :: v in states[i].drained ==> v.txnr != states[i].received[n]
    ensures |states[i].answered| <= n
  {
    RunInv(states, steps, i);
    var s := states[i];
    FirstNone(s.drained, s.received[n]);
    forall j | 0 <= j < |s.answered| ensures s.answered[j].txnr == s.received[j] {
      assert s.received[j] == Txnrs(s.answered)[j];
    }
  }

  /** The index of the first message over the size limit, or the number of messages. */
  ghost function FirstOversized(maxSize: int, ms: seq<Frame>): (n: nat)
    ensures n <= |ms|
    ensures forall j :: 0 <= j < n ==> !FateOf(maxSize, ms[j].data).TooLarge?
    ensures n < |ms| ==> FateOf(maxSize, ms[n].data).TooLarge?
  {
    if ms == [] || FateOf(maxSize, ms[0].data).TooLarge? then 0 else 1 + FirstOversized(maxSize, ms[1..])
  }

  /** What a connection has received are the messages of a stream of frames. */
  ghost predicate Fed(maxSize: int, frames: seq<Frame>, s: State) {
    var ms := Messages(maxSize, frames);
    && |s.received| == |ms|
    && forall j :: 0 <= j < |ms| ==>
         s.received[j] == ms[j].txnr && s.received[j] in s.fates
         && s.fates[s.received[j]] == FateOf(maxSize, ms[j].data)
  }

  /**
   A message over the size limit is never answered, and neither is anything
   after it: the error that would end the connection is taken for the notice
   that the state did not change.
   */
  lemma OversizedStops(maxSize: int, frames: seq<Frame>, states: seq<State>, steps: seq<Step>, i: nat)
    requires Run(states, steps) && i < |states| && Fed(maxSize, frames, states[i])
    ensures |states[i].answered| <= FirstOversized(maxSize, Messages(maxSize, frames))
  {
    var s, n := states[i], FirstOversized(maxSize, Messages(maxSize, frames));
    RunInv(states, steps, i);
    if n < |s.received| {
      UnjudgedBlocks(states, steps, i, n);
    } else {
      assert |Txnrs(s.answered)| <= |s.received|;
    }
  }

  /**
   And that is all that is held back: at rest, once every other verdict is
   taken, exactly the messages before the first oversized one are answered, all
   of them when none is.
   */
  lemma OthersAreAnswered(maxSize: int, frames: seq<Frame>, states: seq<State>, steps: seq<Step>, i: nat)
    requires Run(states, steps) && i < |states| && Fed(maxSize, frames, states[i]) && !states[i].cooking
    requires forall j :: 0 <= j < |states[i].received| && !states[i].fates[states[i].received[j]].TooLarge? ==>
      First(states[i].drained, states[i].received[j]).Some?
    ensures |states[i].answered| == FirstOversized(maxSize, Messages(maxSize, frames))
  {
    var s, n := states[i], FirstOversized(maxSize, Messages(maxSize, frames));
    RunInv(states, steps, i);
    AnsweredPrefix(states, steps, i);
    forall j | 0 <= j < n ensures First(s.drained, s.received[j]).Some? {
      assert !s.fates[s.received[j]].TooLarge?;
    }
    if n < |s.received| { FirstNone(s.drained, s.received[n]); }
    JudgedPrefixIs(s.drained, s.received, n);
  }

  // ------------------------------------------------------------ the response loop

  predicate NonNegative(s: seq<int>) {
    forall i :: 0 <= i < |s| ==> s[i] >= 0
  }

  /** What a write to the client comes to. */
  datatype Write = Written | TimedOut | Broken

  /** Where the inner loop ends, and whether it ends because the client is gone. */
  datatype Cooked = Cooked(state: State, gone: bool)

  /** The inner loop: the writes come to what is given, and succeed after that. */
  function CookAll(s: State, writes: seq<Write>): Cooked
    requires NonNegative(s.comm)
    decreases |writes|, |s.comm| + (if s.next == -1 then 0 else 1), |s.comm|
  {
    if s.next == -1 then
      if s.comm == [] then Cooked(s.(cooking := false), false)
      else CookAll(s.(next := s.comm[0], comm := s.comm[1..]), writes)
    else if Live(s.successes, s.next) || Live(s.failures, s.next) then
      if writes == [] then CookAll(DoReply(s), [])
      else
        match writes[0]
        case Written => CookAll(DoReply(s), writes[1..])
        case TimedOut => CookAll(s, writes[1..])
        case Broken => Cooked(s, true)
    else Cooked(s.(cooking := false), false)
  }

  /** A path of steps from one state to another. */
  ghost predicate Path(states: seq<State>, steps: seq<Step>) {
    |states| == |steps| + 1 && forall i :: 0 <= i < |steps| ==> Next(states[i], steps[i], states[i + 1])
  }

  lemma PathCons(s: State, step: Step, states: seq<State>, steps: seq<Step>)
    requires Path(states, steps) && Next(s, step, states[0])
    ensures Path([s] + states, [step] + steps)
  {
  }

  /** The loop takes steps of the machine only, and ends, whatever the writes come to. */
  lemma {:induction false} CookIsSteps(s: State, writes: seq<Write>) returns (states: seq<State>, steps: seq<Step>)
    requires s.cooking && NonNegative(s.comm)
    ensures Path(states, steps) && states[0] == s && states[|steps|] == CookAll(s, writes).state
    decreases |writes|, |s.comm| + (if s.next == -1 then 0 else 1), |s.comm|
  {
    var rest := if writes == [] then [] else writes[1..];
    if s.next == -1 && s.comm != [] {
      var t := s.(next := s.comm[0], comm := s.comm[1..]);
      states, steps := CookIsSteps(t, writes);
      PathCons(s, Poll, states, steps);
      states, steps := [s] + states, [Poll] + steps;
    } else if s.next == -1 || !(Live(s.successes, s.next) || Live(s.failures, s.next)) {
      states, steps := [s, s.(cooking := false)], [Rest];
    } else if writes == [] || writes[0].Written? {
      states, steps := CookIsSteps(DoReply(s), rest);
      PathCons(s, Reply, states, steps);
      states, steps := [s] + states, [Reply] + steps;
    } else if writes[0].TimedOut? {
      states, steps := CookIsSteps(s, rest);
      PathCons(s, WriteTimeout, states, steps);
      states, steps := [s] + states, [WriteTimeout] + steps;
    } else {
      states, steps := [s], [];
    }
  }

  class Responder {
    var comm: seq<int>
    var succ: seq<int>
    var fail: seq<int>
    var successes: map<int, bool>
    var failures: map<int, bool>
    var next: int
    var answered: seq<Answer>
    ghost var scanner: Option<int>
    ghost var received: seq<int>
    ghost var fates: map<int, Fate>
    ghost var drained: seq<Verdict>

    ghost function View(cooking: bool): State
      reads this
    {
      State(comm, succ, fail, scanner, successes, failures, next, cooking, received, fates, drained, answered)
    }

    /** One verdict of each kind, if there is one, from the queues into the maps. */
    method Drain() returns (some: bool)
      modifies this
      ensures some <==> old(succ) != [] || old(fail) != []
      ensures
        var s := old(View(false));
        var u := if s.succ != [] then TakeSucc(s) else s;
        View(false) == if u.fail != [] then TakeFail(u) else u
    {
      some := succ != [] || fail != [];
      if succ != [] { DrainSuccess(); }
      if fail != [] { DrainFailure(); }
    }

    method DrainSuccess()
      requires succ != []
      modifies this
      ensures View(false) == TakeSucc(old(View(false)))
    {
      var t := succ[0];
      succ := succ[1..];
      drained := drained + [Verdict(t, true)];
      if t !in successes && t !in failures {
        successes := successes[t := true];
      }
    }

    method DrainFailure()
      requires fail != []
      modifies this
      ensures View(false) == TakeFail(old(View(false)))
    {
      var t := fail[0];
      fail := fail[1..];
      drained := drained + [Verdict(t, false)];
      if t !in successes && t !in failures {
        failures := failures[t := true];
      }
    }

    method RecordAnswer(success: bool)
      requires success == Live(successes, next)
      modifies this
      ensures View(true) == DoReply(old(View(true)))
    {
      if success {
        answered := answered + [Answer(next, 200)];
        successes := successes[next := false];
      } else {
        answered := answered + [Answer(next, 500)];
        failures := failures[next := false];
      }
      next := -1;
    }

    /** The loop labelled Cooking. A write that times out is tried again; a broken connection ends it. */
    method Cook(writes: seq<Write>) returns (gone: bool)
      requires NonNegative(comm)
      modifies this
      ensures Cooked(View(gone), gone) == CookAll(old(View(true)), writes)
    {
      var left := writes;
      while true
        invariant NonNegative(comm)
        invariant CookAll(View(true), left) == CookAll(old(View(true)), writes)
        decreases |left|, |comm| + (if next == -1 then 0 else 1), |comm|
      {
        if next == -1 && comm != [] {
          next, comm := comm[0], comm[1..];
        }
        if next == -1 {
          assert CookAll(View(true), left) == Cooked(View(false), false);
          return false;
        }
        var success := next in successes && successes[next];
        if !success && !(next in failures && failures[next]) {
          return false;
        }
        var write := if left == [] then Written else left[0];
        left := if left == [] then [] else left[1..];
        match write {
          case Written =>
            RecordAnswer(success);
          case TimedOut =>
          case Broken => return true;
        }
      }
    }
  }
}
