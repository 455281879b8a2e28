/** Sorting a retrieved batch into outputs and verdicts (store/forwarder.go). */
module Forwarder {
  import opened Bytes
  import opened StoreState
  import Retrieve

  /** A message with its uid and configuration; the fields may be missing. */
  datatype Message = Message(uid: Uid, confId: Uid, fields: Option<string>)

  /** What the message filter of a configuration answers. */
  datatype Verdict = Dropped | Rejected | Pass | Unknown | Broken

  /** What the filter environment computes for one message. */
  datatype Scripts = Scripts(filter: Message -> Verdict, topic: Message -> string, key: Message -> string, number: Message -> int)

  datatype OutputMsg = OutputMsg(message: Message, topic: string, partitionKey: string, partitionNumber: int)

  /** What becomes of one message of a batch. */
  datatype Fate = Skipped | Output | Acked | Nacked | PermErrored | Stuck

  /** The fate of a message: `known` are the configurations that can be found. */
  function FateOf(known: set<Uid>, scripts: Scripts, m: Option<Message>): Fate {
    if m.None? || m.value.fields.None? then Skipped
    else if m.value.confId !in known then PermErrored
    else
      match scripts.filter(m.value)
      case Broken => Stuck
      case Dropped => Acked
      case Rejected => Nacked
      case Pass => Output
      case Unknown => PermErrored
  }

  /** The messages of a batch that have some fate, in batch order. */
  function With(known: set<Uid>, scripts: Scripts, msgs: seq<Option<Message>>, fate: Fate): seq<Message> {
    if msgs == [] then []
    else
      var k := |msgs| - 1;
      var rest := With(known, scripts, msgs[..k], fate);
      if msgs[k].Some? && FateOf(known, scripts, msgs[k]) == fate then rest + [msgs[k].value] else rest
  }

  /** Their uids. */
  function UidsWith(known: set<Uid>, scripts: Scripts, msgs: seq<Option<Message>>, fate: Fate): seq<Uid> {
    if msgs == [] then []
    else
      var k := |msgs| - 1;
      var rest := UidsWith(known, scripts, msgs[..k], fate);
      if msgs[k].Some? && FateOf(known, scripts, msgs[k]) == fate then rest + [msgs[k].value.uid] else rest
  }

  function ToOutput(routed: bool, scripts: Scripts, m: Message): OutputMsg {
    if !routed then OutputMsg(m, "", "", 0)
    else OutputMsg(m, if scripts.topic(m) == "" then "default-topic" else scripts.topic(m), scripts.key(m), scripts.number(m))
  }

  /** The filled output slots. */
  function Outputs(known: set<Uid>, scripts: Scripts, routed: bool, msgs: seq<Option<Message>>): seq<OutputMsg> {
    if msgs == [] then []
    else
      var k := |msgs| - 1;
      var rest := Outputs(known, scripts, routed, msgs[..k]);
      if FateOf(known, scripts, msgs[k]) == Output then rest + [ToOutput(routed, scripts, msgs[k].value)] else rest
  }

  // ------------------------------------------------------------ where each position ends up

  /** What one position of a batch produces: an output slot, an entry of a verdict list, or nothing. */
  datatype Place = Slot(j: nat) | AckEntry(j: nat) | NackEntry(j: nat) | PermEntry(j: nat) | Nowhere

  function Places(known: set<Uid>, scripts: Scripts, msgs: seq<Option<Message>>): seq<Place> {
    if msgs == [] then []
    else
      var k := |msgs| - 1;
      Places(known, scripts, msgs[..k]) + [PlaceOf(known, scripts, msgs[..k], FateOf(known, scripts, msgs[k]))]
  }

  /** The end of the list that a fate goes to. */
  function PlaceOf(known: set<Uid>, scripts: Scripts, before: seq<Option<Message>>, fate: Fate): Place {
    match fate
    case Output => Slot(|UidsWith(known, scripts, before, Output)|)
    case Acked => AckEntry(|UidsWith(known, scripts, before, Acked)|)
    case Nacked => NackEntry(|UidsWith(known, scripts, before, Nacked)|)
    case PermErrored => PermEntry(|UidsWith(known, scripts, before, PermErrored)|)
    case Stuck => Nowhere
    case Skipped => Nowhere
  }

  /** No two positions share a place. */
  ghost predicate Apart(at: seq<Place>) {
    forall m, n :: 0 <= m < n < |at| && at[m] == at[n] ==> at[m].Nowhere?
  }

  /** The places are exactly those of four lists of these lengths. */
  ghost predicate Fill(at: seq<Place>, outs: nat, acks: nat, nacks: nat, perms: nat) {
    && (forall j: nat :: Slot(j) in at <==> j < outs)
    && (forall j: nat :: AckEntry(j) in at <==> j < acks)
    && (forall j: nat :: NackEntry(j) in at <==> j < nacks)
    && (forall j: nat :: PermEntry(j) in at <==> j < perms)
  }

  /** One position: its place holds its message or uid, and it has none only when it is skipped or stuck. */
  ghost predicate Accounted(known: set<Uid>, scripts: Scripts, m: Option<Message>, place: Place,
                            out: seq<OutputMsg>, acks: seq<Uid>, nacks: seq<Uid>, perms: seq<Uid>)
  {
    var fate := FateOf(known, scripts, m);
    match place
    case Slot(j) => fate == Output && j < |out| && m == Some(out[j].message)
    case AckEntry(j) => fate == Acked && j < |acks| && m.Some? && m.value.uid == acks[j]
    case NackEntry(j) => fate == Nacked && j < |nacks| && m.Some? && m.value.uid == nacks[j]
    case PermEntry(j) => fate == PermErrored && j < |perms| && m.Some? && m.value.uid == perms[j]
    case Nowhere => fate == Skipped || fate == Stuck
  }

  /**
   The books of one batch balance: every position has one place, no two have the
   same one, every slot and every entry belongs to a position, and holds what
   that position had.
   */
  ghost predicate Balanced(known: set<Uid>, scripts: Scripts, msgs: seq<Option<Message>>, at: seq<Place>,
                           out: seq<OutputMsg>, acks: seq<Uid>, nacks: seq<Uid>, perms: seq<Uid>)
  {
    && |at| == |msgs| && Apart(at) && Fill(at, |out|, |acks|, |nacks|, |perms|)
    && forall n :: 0 <= n < |msgs| ==> Accounted(known, scripts, msgs[n], at[n], out, acks, nacks, perms)
  }

  lemma {:induction false} PlacesFill(known: set<Uid>, scripts: Scripts, msgs: seq<Option<Message>>)
    ensures |Places(known, scripts, msgs)| == |msgs| && Apart(Places(known, scripts, msgs))
    ensures
      Fill(Places(known, scripts, msgs), |UidsWith(known, scripts, msgs, Output)|, |UidsWith(known, scripts, msgs, Acked)|,
           |UidsWith(known, scripts, msgs, Nacked)|, |UidsWith(known, scripts, msgs, PermErrored)|)
  {
    if msgs == [] {
    } else {
      var k := |msgs| - 1;
      PlacesFill(known, scripts, msgs[..k]);
      FillSnoc(Places(known, scripts, msgs[..k]), PlaceOf(known, scripts, msgs[..k], FateOf(known, scripts, msgs[k])),
               |UidsWith(known, scripts, msgs[..k], Output)|, |UidsWith(known, scripts, msgs[..k], Acked)|,
               |UidsWith(known, scripts, msgs[..k], Nacked)|, |UidsWith(known, scripts, msgs[..k], PermErrored)|);
    }
  }

  /** A place at the end of its list is a new one. */
  lemma FillSnoc(at: seq<Place>, p: Place, outs: nat, acks: nat, nacks: nat, perms: nat)
    requires Apart(at) && Fill(at, outs, acks, nacks, perms)
    requires p in {Slot(outs), AckEntry(acks), NackEntry(nacks), PermEntry(perms), Nowhere}
    ensures Apart(at + [p])
    ensures
      Fill(at + [p], outs + (if p.Slot? then 1 else 0), acks + (if p.AckEntry? then 1 else 0),
           nacks + (if p.NackEntry? then 1 else 0), perms + (if p.PermEntry? then 1 else 0))
  {
    assert p in at ==> p.Nowhere?;
    forall q: Place ensures q in at + [p] <==> q in at || q == p { }
  }

  lemma {:induction false} OutputsOf(known: set<Uid>, scripts: Scripts, routed: bool, msgs: seq<Option<Message>>)
    ensures |Outputs(known, scripts, routed, msgs)| == |UidsWith(known, scripts, msgs, Output)|
  {
    if msgs == [] {
    } else {
      OutputsOf(known, scripts, routed, msgs[..|msgs| - 1]);
    }
  }

  /** Lists that grow keep what they hold. */
  lemma AccountedLater(known: set<Uid>, scripts: Scripts, m: Option<Message>, place: Place,
                       out: seq<OutputMsg>, acks: seq<Uid>, nacks: seq<Uid>, perms: seq<Uid>,
                       out': seq<OutputMsg>, acks': seq<Uid>, nacks': seq<Uid>, perms': seq<Uid>)
    requires Accounted(known, scripts, m, place, out, acks, nacks, perms)
    requires out <= out' && acks <= acks' && nacks <= nacks' && perms <= perms'
    ensures Accounted(known, scripts, m, place, out', acks', nacks', perms')
  {
  }

  lemma {:induction false} PlaceHolds(known: set<Uid>, scripts: Scripts, routed: bool, msgs: seq<Option<Message>>, n: nat)
    requires n < |msgs|
    ensures |Places(known, scripts, msgs)| == |msgs|
    ensures
      Accounted(known, scripts, msgs[n], Places(known, scripts, msgs)[n], Outputs(known, scripts, routed, msgs),
                UidsWith(known, scripts, msgs, Acked), UidsWith(known, scripts, msgs, Nacked), UidsWith(known, scripts, msgs, PermErrored))
  {
    var k := |msgs| - 1;
    PlacesLength(known, scripts, msgs[..k]);
    if n < k {
      PlaceHolds(known, scripts, routed, msgs[..k], n);
      AccountedLater(known, scripts, msgs[n], Places(known, scripts, msgs[..k])[n],
                     Outputs(known, scripts, routed, msgs[..k]), UidsWith(known, scripts, msgs[..k], Acked),
                     UidsWith(known, scripts, msgs[..k], Nacked), UidsWith(known, scripts, msgs[..k], PermErrored),
                     Outputs(known, scripts, routed, msgs), UidsWith(known, scripts, msgs, Acked),
                     UidsWith(known, scripts, msgs, Nacked), UidsWith(known, scripts, msgs, PermErrored));
    } else {
      LastHolds(known, scripts, routed, msgs);
    }
  }

  lemma {:induction false} PlacesLength(known: set<Uid>, scripts: Scripts, msgs: seq<Option<Message>>)
    ensures |Places(known, scripts, msgs)| == |msgs|
  {
    if msgs == [] {
    } else {
      PlacesLength(known, scripts, msgs[..|msgs| - 1]);
    }
  }

  lemma LastHolds(known: set<Uid>, scripts: Scripts, routed: bool, msgs: seq<Option<Message>>)
    requires msgs != []
    ensures
      var k := |msgs| - 1;
      Accounted(known, scripts, msgs[k], PlaceOf(known, scripts, msgs[..k], FateOf(known, scripts, msgs[k])),
                Outputs(known, scripts, routed, msgs), UidsWith(known, scripts, msgs, Acked),
                UidsWith(known, scripts, msgs, Nacked), UidsWith(known, scripts, msgs, PermErrored))
  {
    OutputsOf(known, scripts, routed, msgs[..|msgs| - 1]);
  }

  lemma BooksBalance(known: set<Uid>, scripts: Scripts, routed: bool, msgs: seq<Option<Message>>)
    ensures
      Balanced(known, scripts, msgs, Places(known, scripts, msgs), Outputs(known, scripts, routed, msgs),
               UidsWith(known, scripts, msgs, Acked), UidsWith(known, scripts, msgs, Nacked), UidsWith(known, scripts, msgs, PermErrored))
  {
    PlacesFill(known, scripts, msgs);
    OutputsOf(known, scripts, routed, msgs);
    forall n | 0 <= n < |msgs|
      ensures Accounted(known, scripts, msgs[n], Places(known, scripts, msgs)[n], Outputs(known, scripts, routed, msgs),
                        UidsWith(known, scripts, msgs, Acked), UidsWith(known, scripts, msgs, Nacked), UidsWith(known, scripts, msgs, PermErrored))
    {
      PlaceHolds(known, scripts, routed, msgs, n);
    }
  }

  lemma Appended(a: seq<Uid>, b: seq<Uid>)
    ensures (a + b)[|a|..] == b
  {
  }

  /** One more message of a batch, in the four lists. */
  lemma ListsNext(known: set<Uid>, scripts: Scripts, routed: bool, msgs: seq<Option<Message>>, n: nat)
    requires n < |msgs|
    ensures
      var fate := FateOf(known, scripts, msgs[n]);
      && Outputs(known, scripts, routed, msgs[..n + 1]) == Outputs(known, scripts, routed, msgs[..n])
          + (if fate == Output then [ToOutput(routed, scripts, msgs[n].value)] else [])
      && UidsWith(known, scripts, msgs[..n + 1], Acked) == UidsWith(known, scripts, msgs[..n], Acked)
          + (if fate == Acked then [msgs[n].value.uid] else [])
      && UidsWith(known, scripts, msgs[..n + 1], Nacked) == UidsWith(known, scripts, msgs[..n], Nacked)
          + (if fate == Nacked then [msgs[n].value.uid] else [])
      && UidsWith(known, scripts, msgs[..n + 1], PermErrored) == UidsWith(known, scripts, msgs[..n], PermErrored)
          + (if fate == PermErrored then [msgs[n].value.uid] else [])
  {
    assert msgs[..n + 1][..n] == msgs[..n] && msgs[..n + 1][n] == msgs[n];
  }

  class Forwarder {
    const outputMsgs: array<OutputMsg>
    /** Configurations for which there is an environment already. */
    var envs: set<Uid>
    var acks: seq<Uid>
    var nacks: seq<Uid>
    var permErrors: seq<Uid>

    constructor (batchSize: nat, blank: OutputMsg)
      ensures fresh(outputMsgs) && outputMsgs.Length == batchSize
      ensures envs == {} && acks == [] && nacks == [] && permErrors == []
    {
      outputMsgs := new OutputMsg[batchSize](_ => blank);
      envs, acks, nacks, permErrors := {}, [], [], [];
    }

    /** Looks up or creates the environment of a message, and asks its filter. */
    method Classify(cur: Option<Message>, stored: set<Uid>, scripts: Scripts) returns (fate: Fate)
      modifies this`envs
      ensures fate == FateOf(old(envs) + stored, scripts, cur)
      ensures old(envs) <= envs <= old(envs) + stored
    {
      if cur.None? || cur.value.fields.None? {
        return Skipped;
      }
      var m := cur.value;
      if m.confId !in envs {
        if m.confId !in stored {
          return PermErrored;
        }
        envs := envs + {m.confId};
      }
      match scripts.filter(m)
      case Broken => return Stuck;
      case Dropped => return Acked;
      case Rejected => return Nacked;
      case Unknown => return PermErrored;
      case Pass => return Output;
    }

    /** The loop of fwdMsgs. */
    method Sort(msgs: seq<Option<Message>>, stored: set<Uid>, scripts: Scripts, routed: bool) returns (out: seq<OutputMsg>)
      requires |msgs| <= outputMsgs.Length
      modifies this, outputMsgs
      ensures out == Outputs(old(envs) + stored, scripts, routed, msgs)
      ensures acks == old(acks) + UidsWith(old(envs) + stored, scripts, msgs, Acked)
      ensures nacks == old(nacks) + UidsWith(old(envs) + stored, scripts, msgs, Nacked)
      ensures permErrors == old(permErrors) + UidsWith(old(envs) + stored, scripts, msgs, PermErrored)
      ensures old(envs) <= envs <= old(envs) + stored
    {
      var i := 0;
      var n := 0;
      ghost var known := envs + stored;
      while n < |msgs|
        invariant 0 <= n <= |msgs| && i <= n && old(envs) <= envs <= known
        invariant outputMsgs[..i] == Outputs(known, scripts, routed, msgs[..n])
        invariant acks == old(acks) + UidsWith(known, scripts, msgs[..n], Acked)
        invariant nacks == old(nacks) + UidsWith(known, scripts, msgs[..n], Nacked)
        invariant permErrors == old(permErrors) + UidsWith(known, scripts, msgs[..n], PermErrored)
      {
        ListsNext(known, scripts, routed, msgs, n);
        assert envs + stored == known;
        var fate := Classify(msgs[n], stored, scripts);
        match fate {
          case Skipped =>
          case Stuck =>
          case Acked => acks := acks + [msgs[n].value.uid];
          case Nacked => nacks := nacks + [msgs[n].value.uid];
          case PermErrored => permErrors := permErrors + [msgs[n].value.uid];
          case Output =>
            ghost var before := outputMsgs[..i];
            outputMsgs[i] := ToOutput(routed, scripts, msgs[n].value);
            i := i + 1;
            assert outputMsgs[..i] == before + [ToOutput(routed, scripts, msgs[n].value)];
        }
        n := n + 1;
      }
      assert msgs[..n] == msgs;
      out := outputMsgs[..i];
    }

    /**
     fwdMsgs: `stored` are the configurations in the store, `routed` is whether
     the destination needs topics and partitions. What is sent on is the filled
     part of the output slots.
     */
    method FwdMsgs(msgs: seq<Option<Message>>, stored: set<Uid>, scripts: Scripts, routed: bool)
      returns (out: seq<OutputMsg>, ghost at: seq<Place>)
      requires |msgs| <= outputMsgs.Length
      modifies this, outputMsgs
      ensures out == Outputs(old(envs) + stored, scripts, routed, msgs)
      ensures acks == old(acks) + UidsWith(old(envs) + stored, scripts, msgs, Acked)
      ensures nacks == old(nacks) + UidsWith(old(envs) + stored, scripts, msgs, Nacked)
      ensures permErrors == old(permErrors) + UidsWith(old(envs) + stored, scripts, msgs, PermErrored)
      ensures old(envs) <= envs <= old(envs) + stored
      ensures |old(acks)| <= |acks| && |old(nacks)| <= |nacks| && |old(permErrors)| <= |permErrors|
      ensures
        Balanced(old(envs) + stored, scripts, msgs, at, out,
                 acks[|old(acks)|..], nacks[|old(nacks)|..], permErrors[|old(permErrors)|..])
    {
      ghost var known := envs + stored;
      out := Sort(msgs, stored, scripts, routed);
      at := Places(known, scripts, msgs);
      Appended(old(acks), UidsWith(known, scripts, msgs, Acked));
      Appended(old(nacks), UidsWith(known, scripts, msgs, Nacked));
      Appended(old(permErrors), UidsWith(known, scripts, msgs, PermErrored));
      BooksBalance(known, scripts, routed, msgs);
    }
  }

  /** Slots and verdicts are those of the messages with the matching fate, in order. */
  lemma {:induction false} ListsAgree(known: set<Uid>, scripts: Scripts, routed: bool, msgs: seq<Option<Message>>, fate: Fate)
    ensures |UidsWith(known, scripts, msgs, fate)| == |With(known, scripts, msgs, fate)|
    ensures forall j :: 0 <= j < |With(known, scripts, msgs, fate)| ==>
      UidsWith(known, scripts, msgs, fate)[j] == With(known, scripts, msgs, fate)[j].uid
    ensures |Outputs(known, scripts, routed, msgs)| == |With(known, scripts, msgs, Output)|
    ensures forall j :: 0 <= j < |With(known, scripts, msgs, Output)| ==>
      Outputs(known, scripts, routed, msgs)[j].message == With(known, scripts, msgs, Output)[j]
  {
    if msgs == [] {
    } else {
      ListsAgree(known, scripts, routed, msgs[..|msgs| - 1], fate);
    }
  }

  /** A message is in the list of a fate exactly when that is its fate. */
  lemma {:induction false} FateIsExact(known: set<Uid>, scripts: Scripts, msgs: seq<Option<Message>>, fate: Fate, m: Message)
    ensures m in With(known, scripts, msgs, fate)
       <==> Some(m) in msgs && FateOf(known, scripts, Some(m)) == fate
  {
    if msgs == [] {
    } else {
      FateIsExact(known, scripts, msgs[..|msgs| - 1], fate, m);
      assert msgs == msgs[..|msgs| - 1] + [msgs[|msgs| - 1]];
    }
  }

  /** Slots keep batch order: they are the passing messages at increasing positions. */
  lemma {:induction false} SlotsInOrder(known: set<Uid>, scripts: Scripts, msgs: seq<Option<Message>>, fate: Fate)
    returns (at: seq<nat>)
    ensures |at| == |With(known, scripts, msgs, fate)| <= |msgs|
    ensures forall j :: 0 <= j < |at| ==> at[j] < |msgs| && msgs[at[j]] == Some(With(known, scripts, msgs, fate)[j])
    ensures forall i, j :: 0 <= i < j < |at| ==> at[i] < at[j]
  {
    at := [];
    if msgs == [] {
    } else {
      var k := |msgs| - 1;
      at := SlotsInOrder(known, scripts, msgs[..k], fate);
      if msgs[k].Some? && FateOf(known, scripts, msgs[k]) == fate { at := at + [k]; }
    }
  }

  /** A retrieved batch fits the slots: retrieve and the forwarder are given the same batch size. */
  lemma {:induction false} BatchFits<M>(decode: string -> Option<M>, messages: map<Uid, string>, keys: seq<Uid>, batchSize: nat)
    ensures |Retrieve.Messages(decode, messages, keys[..Retrieve.Min(batchSize, |keys|)])| <= batchSize
  {
    var batch := keys[..Retrieve.Min(batchSize, |keys|)];
    Retrieve.Aligned(decode, messages, batch);
    Retrieve.KeepReject(decode, messages, batch);
  }
}
