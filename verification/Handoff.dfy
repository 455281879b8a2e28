/**
 The one-slot bucket between the retriever and the forward loop of one
 destination (retrieveAndForward in store/store.go), interleaved at each load
 and store of the slot, each channel send and each return of a slice to the
 pool.
 */
module Handoff {
  import opened Bytes

  /** A retrieved batch: a number of its own, and the pooled slice that holds it. */
  datatype Batch = Batch(id: nat, slice: nat)

  /** The retriever: before a check, after a check that found the slot empty, with a batch to store, returned. */
  datatype Retriever = Idle | Checked | Holding(batch: Batch) | Returned

  /** The forward loop: before a load, after it, after the send, after the pool, returned. */
  datatype Forwarder = Looking | Loaded(batch: Batch) | Sent(batch: Batch) | Pooled(batch: Batch) | Done

  datatype State = State(
    bucket: Option<Batch>,
    pool: set<nat>,
    slices: nat,
    retriever: Retriever,
    forwarder: Forwarder,
    previous: Option<Batch>,
    closed: bool,
    retrieved: seq<Batch>,
    delivered: seq<Batch>,
    nacked: seq<Batch>)

  datatype Step =
    | Check
    | Retrieve(pooled: bool, slice: nat)
    | RetrieveNothing
    | Store
    | Return
    | Load
    | Send
    | Pool
    | Clear
    | Quit
    | NackRest

  const INIT: State := State(None, {}, 0, Idle, Looking, None, false, [], [], [])

  ghost predicate Next(s: State, step: Step, t: State) {
    match step
    case Check => s.retriever.Idle? && s.bucket.None? && t == s.(retriever := Checked)
    case Retrieve(pooled, slice) =>
      var b := Batch(|s.retrieved|, slice);
      && s.retriever.Checked?
      && (if pooled then slice in s.pool else slice == s.slices)
      && t == s.(pool := s.pool - {slice},
                 slices := if pooled then s.slices else s.slices + 1,
                 retriever := Holding(b),
                 retrieved := s.retrieved + [b])
    case RetrieveNothing => s.retriever.Checked? && t == s.(retriever := Idle)
    case Store => s.retriever.Holding? && t == s.(bucket := Some(s.retriever.batch), retriever := Idle)
    // the retriever leaves its loop at the top, or when a retrieve fails
    case Return => (s.retriever.Idle? || s.retriever.Checked?) && t == s.(retriever := Returned)
    case Load => s.forwarder.Looking? && s.bucket.Some? && t == s.(forwarder := Loaded(s.bucket.value))
    case Send =>
      && s.forwarder.Loaded?
      && t == s.(forwarder := Sent(s.forwarder.batch), delivered := s.delivered + [s.forwarder.batch])
    case Pool =>
      && s.forwarder.Sent?
      && t == s.(forwarder := Pooled(s.forwarder.batch),
                 pool := if s.previous.Some? then s.pool + {s.previous.value.slice} else s.pool,
                 previous := Some(s.forwarder.batch))
    case Clear => s.forwarder.Pooled? && t == s.(bucket := None, forwarder := Looking)
    // the context is cancelled: possible at both selects of the forward loop
    case Quit => (s.forwarder.Looking? || s.forwarder.Loaded?) && t == s.(forwarder := Done)
    case NackRest =>
      && s.retriever.Returned? && s.forwarder.Done? && !s.closed
      && t == s.(closed := true,
                 bucket := None,
                 nacked := if s.bucket.Some? then s.nacked + [s.bucket.value] else s.nacked)
  }

  ghost predicate Run(states: seq<State>, steps: seq<Step>) {
    && |states| == |steps| + 1 && states[0] == INIT
    && forall i :: 0 <= i < |steps| ==> Next(states[i], steps[i], states[i + 1])
  }

  // ------------------------------------------------------------ invariant

  /** Batches that are retrieved and neither delivered nor given back. */
  ghost function Pending(s: State): seq<Batch> {
    (if s.bucket.Some? && !s.forwarder.Sent? && !s.forwarder.Pooled? then [s.bucket.value] else [])
    + (if s.retriever.Holding? then [s.retriever.batch] else [])
  }

  /** Slices that hold messages somebody may still look at. */
  ghost predicate InUse(s: State, slice: nat) {
    || (s.bucket.Some? && s.bucket.value.slice == slice)
    || (s.retriever.Holding? && s.retriever.batch.slice == slice)
    || (s.previous.Some? && s.previous.value.slice == slice)
    || (s.delivered != [] && s.delivered[|s.delivered| - 1].slice == slice)
  }

  ghost predicate Inv(s: State) {
    // order: nothing is lost, doubled or overtaken
    && s.retrieved == s.delivered + s.nacked + Pending(s)
    && (forall i :: 0 <= i < |s.retrieved| ==> s.retrieved[i].id == i)
    && (!s.closed ==> s.nacked == [])
    && (s.closed ==> s.bucket.None? && s.retriever.Returned? && s.forwarder.Done?)
    // who may write the slot
    && (s.retriever.Checked? || s.retriever.Holding? ==> s.bucket.None?)
    && (s.forwarder.Loaded? || s.forwarder.Sent? || s.forwarder.Pooled? ==> s.bucket == Some(s.forwarder.batch))
    // which batch was delivered last
    && (s.forwarder.Sent? ==> s.delivered != [] && s.delivered[|s.delivered| - 1] == s.forwarder.batch)
    && (s.forwarder.Pooled? ==> s.previous == Some(s.forwarder.batch))
    && (!s.forwarder.Sent? ==>
          (if s.delivered == [] then s.previous.None? else s.previous == Some(s.delivered[|s.delivered| - 1])))
    // slices
    && (forall x :: x in s.pool ==> x < s.slices && !InUse(s, x))
    && (forall x: nat :: InUse(s, x) ==> x < s.slices)
    && Apart(s)
  }

  /** Batches in different hands are on different slices. */
  ghost predicate Apart(s: State) {
    && (s.bucket.Some? && s.previous.Some? && !s.forwarder.Pooled? ==> s.bucket.value.slice != s.previous.value.slice)
    && (s.retriever.Holding? && s.previous.Some? ==> s.retriever.batch.slice != s.previous.value.slice)
  }

  lemma StepInv(s: State, step: Step, t: State)
    requires Inv(s) && Next(s, step, t)
    ensures Inv(t)
  {
    match step {
      case Retrieve(pooled, slice) =>
        assert !InUse(s, slice);
        assert forall x: nat :: InUse(t, x) ==> x == slice || InUse(s, x);
      case Store => assert forall x: nat :: InUse(t, x) ==> InUse(s, x);
      case Send => assert forall x: nat :: InUse(t, x) ==> InUse(s, x);
      case Pool =>
        assert s.previous.Some? ==> InUse(s, s.previous.value.slice);
        assert forall x: nat :: InUse(t, x) ==> InUse(s, x);
      case Clear => assert forall x: nat :: InUse(t, x) ==> InUse(s, x);
      case NackRest => assert forall x: nat :: InUse(t, x) ==> InUse(s, x);
      case _ => assert forall x: nat :: InUse(t, x) ==> InUse(s, x);
    }
  }

  lemma {:induction false} RunInv(states: seq<State>, steps: seq<Step>, i: nat)
    requires Run(states, steps) && i < |states|
    ensures Inv(states[i])
  {
    if i == 0 {
    } else {
      RunInv(states, steps, i - 1);
      StepInv(states[i - 1], steps[i - 1], states[i]);
    }
  }

  // ------------------------------------------------------------ guarantees

  /** At every moment, the deliveries so far are the first batches retrieved, in that order, each once. */
  lemma DeliveredInOrder(states: seq<State>, steps: seq<Step>, i: nat)
    requires Run(states, steps) && i < |states|
    ensures states[i].delivered <= states[i].retrieved
    ensures forall j, k :: 0 <= j < k < |states[i].delivered| ==> states[i].delivered[j] != states[i].delivered[k]
  {
    RunInv(states, steps, i);
    var s := states[i];
    forall j | 0 <= j < |s.delivered| ensures s.delivered[j].id == j {
      assert s.delivered[j] == s.retrieved[j];
    }
  }

  /** No batch is overwritten: a store finds the slot empty and everything stored before it delivered. */
  lemma StoreFindsEmptySlot(states: seq<State>, steps: seq<Step>, i: nat)
    requires Run(states, steps) && i < |steps| && steps[i].Store?
    ensures states[i].bucket.None? && states[i].retriever.Holding?
    ensures states[i].retrieved == states[i].delivered + [states[i].retriever.batch]
  {
    assert Next(states[i], steps[i], states[i + 1]);
    RunInv(states, steps, i);
  }

  /** After shutdown every batch was either delivered or given back, never both, and at most one was given back. */
  lemma ShutdownSettlesAll(states: seq<State>, steps: seq<Step>, i: nat)
    requires Run(states, steps) && i < |states| && states[i].closed
    ensures states[i].retrieved == states[i].delivered + states[i].nacked && |states[i].nacked| <= 1
    ensures forall b :: b in states[i].delivered ==> b !in states[i].nacked
  {
    RunInv(states, steps, i);
    var s := states[i];
    assert s.retrieved == s.delivered + s.nacked;
    forall b | b in s.delivered ensures b !in s.nacked {
      var j :| 0 <= j < |s.delivered| && s.delivered[j] == b;
      assert s.retrieved[j] == b;
      forall k | 0 <= k < |s.nacked| ensures s.nacked[k] != b {
        assert s.retrieved[|s.delivered| + k] == s.nacked[k];
      }
    }
    NackedOnce(states, steps, i);
  }

  lemma {:induction false} NackedOnce(states: seq<State>, steps: seq<Step>, i: nat)
    requires Run(states, steps) && i < |states|
    ensures |states[i].nacked| <= (if states[i].closed then 1 else 0)
  {
    if i == 0 {
    } else {
      NackedOnce(states, steps, i - 1);
      assert Next(states[i - 1], steps[i - 1], states[i]);
    }
  }

  /** A slice in the pool is not in the slot, not with the retriever, and not the one delivered last. */
  lemma PooledSlicesUnused(states: seq<State>, steps: seq<Step>, i: nat, x: nat)
    requires Run(states, steps) && i < |states| && x in states[i].pool
    ensures !InUse(states[i], x)
  {
    RunInv(states, steps, i);
  }
}
