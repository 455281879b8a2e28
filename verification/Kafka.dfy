/**
 Marking consumed Kafka offsets (the acknowledgement goroutine of
 services/network/kafka.go). Parsers finish in any order, so offsets are
 acknowledged in any order, possibly more than once; marking an offset tells
 Kafka that everything up to it is done.
 */
module Kafka {
  import opened Bytes

  datatype TopicPartition = TopicPartition(topic: string, partition: int)

  datatype Mark = Mark(tp: TopicPartition, offset: int)

  // ------------------------------------------------------------ one partition

  /** What the goroutine knows of one partition, and the offsets it has marked. */
  datatype Part = Part(processed: set<int>, next: Option<int>, marked: seq<int>)

  const NEW: Part := Part({}, None, [])

  /** The inner loop: marks consecutive processed offsets. */
  function Advance(p: Part): Part
    decreases p.processed
  {
    if p.next.Some? && p.next.value in p.processed then
      var n := p.next.value;
      Advance(Part(p.processed - {n}, Some(n + 1), p.marked + [n]))
    else p
  }

  function Absorb(p: Part, offset: int): Part {
    Advance(Part(p.processed + {offset}, if p.next.None? then Some(offset) else p.next, p.marked))
  }

  function AbsorbAll(acks: seq<int>): Part {
    if acks == [] then NEW else Absorb(AbsorbAll(acks[..|acks| - 1]), acks[|acks| - 1])
  }

  /** The offsets from a up to, not including, b. */
  function Range(a: int, b: int): (r: seq<int>)
    requires a <= b
    ensures |r| == b - a && forall i :: 0 <= i < |r| ==> r[i] == a + i
  {
    seq(b - a, i requires 0 <= i < b - a => a + i)
  }

  /** The state of a partition in terms of its acknowledgements alone. */
  ghost predicate Explained(acks: seq<int>, p: Part) {
    if acks == [] then p == NEW
    else
      && p.next.Some? && acks[0] < p.next.value
      // marked: a run without gap or repeat, starting at the first acknowledgement
      && p.marked == Range(acks[0], p.next.value)
      // all of it acknowledged, and ending at the first offset that is not
      && (forall o :: acks[0] <= o < p.next.value ==> o in acks)
      && p.next.value !in acks
      && (forall o :: o in p.processed ==> o in acks)
      && (forall o :: o in acks && o >= p.next.value ==> o in p.processed)
  }

  /** The same, before the inner loop has finished. */
  ghost predicate Partial(acks: seq<int>, p: Part)
    requires acks != []
  {
    && p.next.Some? && acks[0] <= p.next.value
    && p.marked == Range(acks[0], p.next.value)
    && (forall o :: acks[0] <= o < p.next.value ==> o in acks)
    && (forall o :: o in p.processed ==> o in acks)
    && (forall o :: o in acks && o >= p.next.value ==> o in p.processed)
  }

  lemma {:induction false} AdvanceExplains(acks: seq<int>, p: Part)
    requires acks != [] && Partial(acks, p) && acks[0] <= p.next.value
    requires p.next.value == acks[0] ==> acks[0] in p.processed
    ensures Explained(acks, Advance(p))
    decreases p.processed
  {
    var n := p.next.value;
    if n !in p.processed {
    } else {
      var q := Part(p.processed - {n}, Some(n + 1), p.marked + [n]);
      assert Range(acks[0], n + 1) == Range(acks[0], n) + [n];
      AdvanceExplains(acks, q);
    }
  }

  /** For any order and repetition of acknowledgements. */
  lemma {:induction false} MarkingExplained(acks: seq<int>)
    ensures Explained(acks, AbsorbAll(acks))
  {
    if acks == [] {
    } else {
      var k := |acks| - 1;
      var before := acks[..k];
      MarkingExplained(before);
      var p := AbsorbAll(before);
      var q := Part(p.processed + {acks[k]}, if p.next.None? then Some(acks[k]) else p.next, p.marked);
      assert acks == before + [acks[k]];
      assert forall o :: o in acks <==> o in before || o == acks[k];
      if k == 0 {
        assert Range(acks[0], acks[0]) == [];
      }
      AdvanceExplains(acks, q);
    }
  }

  /** The state after the acknowledgements determines nothing less: two explained states mark the same. */
  lemma ExplainedUnique(acks: seq<int>, p: Part, q: Part)
    requires acks != [] && Explained(acks, p) && Explained(acks, q)
    ensures p.next == q.next && p.marked == q.marked
  {
    var a, b := p.next.value, q.next.value;
    assert b < a ==> b in acks;
    assert a < b ==> a in acks;
  }

  /** Marking an offset is safe when everything fetched up to it has been processed. */
  ghost predicate Safe(fetched: set<int>, acks: seq<int>) {
    forall o, f :: o in AbsorbAll(acks).marked && f in fetched && f <= o ==> f in acks
  }

  /**
   Marking is safe at every moment exactly when the first offset to be
   acknowledged is the lowest fetched. Nothing in the goroutine ensures this:
   it takes the first acknowledgement of a partition for its start.
   */
  lemma SafeWhen(fetched: set<int>, acks: seq<int>)
    requires forall o :: o in acks ==> o in fetched
    ensures (forall n :: 0 <= n <= |acks| ==> Safe(fetched, acks[..n]))
       <==> (acks == [] || forall f :: f in fetched ==> acks[0] <= f)
  {
    if acks == [] {
      assert acks[..0] == [];
    } else if forall f :: f in fetched ==> acks[0] <= f {
      forall n | 0 <= n <= |acks| ensures Safe(fetched, acks[..n]) {
        SafeFromLowest(fetched, acks[..n]);
      }
    } else {
      var f :| f in fetched && f < acks[0];
      FirstIsMarked(acks[0]);
      assert acks[..1] == [acks[0]];
      assert !Safe(fetched, acks[..1]) by {
        assert acks[0] in AbsorbAll([acks[0]]).marked && f !in [acks[0]];
      }
    }
  }

  lemma SafeFromLowest(fetched: set<int>, acks: seq<int>)
    requires acks != [] ==> forall f :: f in fetched ==> acks[0] <= f
    ensures Safe(fetched, acks)
  {
    MarkingExplained(acks);
    if acks != [] {
      var p := AbsorbAll(acks);
      forall o, f | o in p.marked && f in fetched && f <= o ensures f in acks {
        assert acks[0] <= f < p.next.value;
      }
    }
  }

  lemma FirstIsMarked(o: int)
    ensures o in AbsorbAll([o]).marked
  {
    MarkingExplained([o]);
    var p := AbsorbAll([o]);
    assert Range(o, p.next.value)[0] == o;
  }

  /** Marks only grow, in ascending order. */
  lemma MarksGrow(acks: seq<int>, o: int)
    ensures AbsorbAll(acks).marked <= AbsorbAll(acks + [o]).marked
  {
    assert (acks + [o])[..|acks|] == acks;
    var p := AbsorbAll(acks);
    AdvanceGrows(Part(p.processed + {o}, if p.next.None? then Some(o) else p.next, p.marked));
  }

  lemma {:induction false} AdvanceGrows(p: Part)
    ensures p.marked <= Advance(p).marked
    decreases p.processed
  {
    if p.next.None? || p.next.value !in p.processed {
    } else {
      var n := p.next.value;
      AdvanceGrows(Part(p.processed - {n}, Some(n + 1), p.marked + [n]));
    }
  }

  // ------------------------------------------------------------ the goroutine

  function MarkedIn(marks: seq<Mark>, tp: TopicPartition): seq<int> {
    if marks == [] then []
    else
      var k := |marks| - 1;
      var rest := MarkedIn(marks[..k], tp);
      if marks[k].tp == tp then rest + [marks[k].offset] else rest
  }

  lemma MarkedInSnoc(marks: seq<Mark>, m: Mark, tp: TopicPartition)
    ensures MarkedIn(marks + [m], tp) == if m.tp == tp then MarkedIn(marks, tp) + [m.offset] else MarkedIn(marks, tp)
  {
    assert (marks + [m])[..|marks|] == marks;
  }

  class Acknowledger {
    var processedMsgs: map<TopicPartition, set<int>>
    var nextToACK: map<TopicPartition, int>
    /** The calls of MarkPartitionOffset. */
    var marks: seq<Mark>

    constructor ()
      ensures processedMsgs == map[] && nextToACK == map[] && marks == []
    {
      processedMsgs, nextToACK, marks := map[], map[], [];
    }

    function View(tp: TopicPartition): Part
      reads this
    {
      Part(if tp in processedMsgs then processedMsgs[tp] else {},
           if tp in nextToACK then Some(nextToACK[tp]) else None,
           MarkedIn(marks, tp))
    }

    /** The body of the inner loop. */
    method MarkOne(tp: TopicPartition, next: int)
      requires tp in processedMsgs && next in processedMsgs[tp]
      modifies this
      ensures tp in processedMsgs && tp in nextToACK
      ensures View(tp) == Part(old(View(tp)).processed - {next}, Some(next + 1), old(View(tp)).marked + [next])
      ensures forall other :: other != tp ==> View(other) == old(View(other))
    {
      ghost var before := marks;
      processedMsgs := processedMsgs[tp := processedMsgs[tp] - {next}];
      marks := marks + [Mark(tp, next)];
      nextToACK := nextToACK[tp := next + 1];
      forall x ensures MarkedIn(marks, x) == if x == tp then MarkedIn(before, x) + [next] else MarkedIn(before, x) {
        MarkedInSnoc(before, Mark(tp, next), x);
      }
    }

    /** One acknowledgement; one without a topic is ignored. */
    method Acknowledge(tp: TopicPartition, offset: int)
      modifies this
      ensures tp.topic == "" ==> unchanged(this)
      ensures tp.topic != "" ==> View(tp) == Absorb(old(View(tp)), offset)
      ensures forall other :: other != tp ==> View(other) == old(View(other))
    {
      if tp.topic == "" {
        return;
      }
      if tp !in processedMsgs {
        processedMsgs := processedMsgs[tp := {}];
      }
      processedMsgs := processedMsgs[tp := processedMsgs[tp] + {offset}];
      var next := if tp in nextToACK then nextToACK[tp] else offset;
      while next in processedMsgs[tp]
        invariant tp in processedMsgs
        invariant Absorb(old(View(tp)), offset) == Advance(View(tp).(next := Some(next)))
        invariant if tp in nextToACK then nextToACK[tp] == next else next in processedMsgs[tp]
        invariant forall other :: other != tp ==> View(other) == old(View(other))
        decreases processedMsgs[tp]
      {
        MarkOne(tp, next);
        next := next + 1;
      }
    }
  }
}
