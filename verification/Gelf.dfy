/** Reassembly of chunked GELF datagrams (services/network/graylog.go). */
module Gelf {
  import opened Bytes

  /** A datagram: a whole message, or one of `total` chunks of the message with this id. */
  datatype Datagram =
    | Whole(data: Data)
    | Chunk(id: Data, seqnr: nat, total: nat, data: Data)

  /** The chunks that have come of one message, and when the first of them came. */
  datatype Pending = Pending(start: int, chunks: map<int, Data>)

  type Table = map<Data, Pending>

  /** What a datagram makes the service decode: nothing, some bytes, or a message with a missing chunk. */
  datatype Output = Nothing | Decode(data: Data) | MissingChunk

  const MAX_CHUNKS: nat := 128
  const FIVE_SECONDS: int := 5_000_000_000

  // ------------------------------------------------------------ one datagram

  /** fromChunks: the chunks in sequence order. */
  function Joined(chunks: map<int, Data>, total: nat): Option<Data> {
    if total == 0 then Some([])
    else
      var rest := Joined(chunks, total - 1);
      if rest.None? || total - 1 !in chunks then None else Some(rest.value + chunks[total - 1])
  }

  method FromChunks(chunks: map<int, Data>, total: nat) returns (r: Option<Data>)
    ensures r == Joined(chunks, total)
  {
    var full: Data := [];
    var i := 0;
    while i < total
      invariant 0 <= i <= total && Joined(chunks, i) == Some(full)
    {
      if i !in chunks {
        JoinedFails(chunks, i, total);
        return None;
      }
      full := full + chunks[i];
      i := i + 1;
    }
    return Some(full);
  }

  lemma {:induction false} JoinedFails(chunks: map<int, Data>, i: nat, total: nat)
    requires i < total && i !in chunks
    ensures Joined(chunks, total).None?
    decreases total
  {
    if i == total - 1 {
    } else {
      JoinedFails(chunks, i, total - 1);
    }
  }

  /** What is pending of a message, if it is begun now should there be nothing. */
  function Begun(table: Table, id: Data, now: int): Pending {
    if id in table then table[id] else Pending(now, map[])
  }

  /** Adds an acceptable chunk; a message with as many chunks as its total is taken out of the table. */
  function Place(table: Table, id: Data, seqnr: nat, total: nat, data: Data, now: int): (Table, Output) {
    var p := Begun(table, id, now);
    var more := p.chunks[seqnr := data];
    if |more| < total then (table[id := p.(chunks := more)], Nothing)
    else (table - {id}, match Joined(more, total) case Some(m) => Decode(m) case None => MissingChunk)
  }

  /** The loop body of handleConnection for one datagram; a chunk over 5 seconds after the first one ends its message. */
  function Handle(table: Table, d: Datagram, now: int): (Table, Output) {
    match d
    case Whole(data) => (table, Decode(data))
    case Chunk(id, seqnr, total, data) =>
      if data == [] then (table, Nothing)
      else if total > MAX_CHUNKS || seqnr >= total then (table - {id}, Nothing)
      else if now - Begun(table, id, now).start > FIVE_SECONDS then (table - {id}, Nothing)
      else Place(table, id, seqnr, total, data, now)
  }

  class Receiver {
    var chunks: map<Data, map<int, Data>>
    /** Start times outlive their messages. */
    var chunkStartTime: map<Data, int>

    ghost predicate Valid()
      reads this
    {
      chunks.Keys <= chunkStartTime.Keys
    }

    ghost function View(): Table
      requires Valid()
      reads this
    {
      map id | id in chunks :: Pending(chunkStartTime[id], chunks[id])
    }

    constructor ()
      ensures Valid() && View() == map[]
    {
      chunks, chunkStartTime := map[], map[];
    }

    method AddChunk(id: Data, seqnr: nat, total: nat, data: Data, ghost now: int) returns (out: Output)
      requires Valid() && id in chunks
      modifies this
      ensures Valid() && (View(), out) == Place(old(View()), id, seqnr, total, data, now)
    {
      var more := chunks[id][seqnr := data];
      chunks := chunks[id := more];
      if |more| < total {
        assert View() == old(View())[id := old(View())[id].(chunks := more)];
        return Nothing;
      }
      var full := FromChunks(more, total);
      chunks := chunks - {id};
      assert View() == old(View()) - {id};
      return match full case Some(m) => Decode(m) case None => MissingChunk;
    }

    method Receive(d: Datagram, now: int) returns (out: Output)
      requires Valid()
      modifies this
      ensures Valid() && (View(), out) == Handle(old(View()), d, now)
    {
      match d
      case Whole(data) => return Decode(data);
      case Chunk(id, seqnr, total, data) =>
        if data == [] {
          return Nothing;
        }
        if total > MAX_CHUNKS || seqnr >= total {
          chunks := chunks - {id};
          assert View() == old(View()) - {id};
          return Nothing;
        }
        if id !in chunks {
          chunks, chunkStartTime := chunks[id := map[]], chunkStartTime[id := now];
          assert View() == old(View())[id := Pending(now, map[])];
          PlaceNew(old(View()), id, seqnr, total, data, now);
        }
        if now - chunkStartTime[id] > FIVE_SECONDS {
          chunks := chunks - {id};
          assert View() == old(View()) - {id};
          return Nothing;
        }
        out := AddChunk(id, seqnr, total, data, now);
    }
  }

  /** Starting a message with an empty chunk table makes no difference. */
  lemma PlaceNew(table: Table, id: Data, seqnr: nat, total: nat, data: Data, now: int)
    requires id !in table
    ensures Place(table[id := Pending(now, map[])], id, seqnr, total, data, now) == Place(table, id, seqnr, total, data, now)
  {
    var t := table[id := Pending(now, map[])];
    var more: map<int, Data> := map[][seqnr := data];
    assert t[id := Pending(now, more)] == table[id := Pending(now, more)];
    assert t - {id} == table - {id};
  }

  // ------------------------------------------------------------ whole streams

  /** A datagram and the time at which it comes. */
  datatype Arrival = Arrival(d: Datagram, now: int)

  /** What a receiver holds after a stream of datagrams. */
  ghost function TableAfter(ds: seq<Arrival>): Table {
    if ds == [] then map[] else Handle(TableAfter(ds[..|ds| - 1]), ds[|ds| - 1].d, ds[|ds| - 1].now).0
  }

  ghost function OutputAt(ds: seq<Arrival>, i: nat): Output
    requires i < |ds|
  {
    Handle(TableAfter(ds[..i]), ds[i].d, ds[i].now).1
  }

  /** The parts of a message as it was sent. */
  predicate Sendable(parts: seq<Data>) {
    0 < |parts| <= MAX_CHUNKS && forall k :: 0 <= k < |parts| ==> parts[k] != []
  }

  /** The arrival of a chunk of this message; chunks without data do not count. */
  predicate IsChunk(x: Arrival, id: Data) {
    x.d.Chunk? && x.d.id == id && x.d.data != []
  }

  predicate ChunkOf(parts: seq<Data>, c: Datagram) {
    c.Chunk? && c.total == |parts| && c.seqnr < c.total && c.data == parts[c.seqnr]
  }

  /** What has come under an id are chunks of these parts, in any order and number; the rest of the stream is arbitrary. */
  ghost predicate From(parts: seq<Data>, ds: seq<Arrival>, id: Data) {
    forall i :: 0 <= i < |ds| && IsChunk(ds[i], id) ==> ChunkOf(parts, ds[i].d)
  }

  /** How far a message has come: when it was begun, and which sequence numbers have been seen since. */
  datatype Progress = Progress(start: int, seen: set<int>)

  const IDLE: Progress := Progress(0, {})

  /** One more chunk of a message of n: too late, it discards the message; the last one missing, it completes it. */
  function Advance(p: Progress, n: nat, seqnr: nat, now: int): Progress {
    var start := if p.seen == {} then now else p.start;
    if now - start > FIVE_SECONDS || p.seen + {seqnr} == Numbers(n) then IDLE else Progress(start, p.seen + {seqnr})
  }

  /** Whether it completes its message. */
  predicate Completes(p: Progress, n: nat, seqnr: nat, now: int) {
    !(p.seen != {} && now - p.start > FIVE_SECONDS) && p.seen + {seqnr} == Numbers(n)
  }

  /** What has come of an id since its message was last complete or discarded. */
  ghost function Seen(n: nat, ds: seq<Arrival>, id: Data): Progress {
    if ds == [] then IDLE
    else
      var k := |ds| - 1;
      var before := Seen(n, ds[..k], id);
      if IsChunk(ds[k], id) then Advance(before, n, ds[k].d.seqnr, ds[k].now) else before
  }

  /** The sequence numbers below n. */
  function Numbers(n: nat): (r: set<int>)
    ensures forall i :: i in r <==> 0 <= i < n
    ensures |r| == n
  {
    if n == 0 then {} else Numbers(n - 1) + {n - 1}
  }

  function Flatten(parts: seq<Data>): Data {
    if parts == [] then [] else Flatten(parts[..|parts| - 1]) + parts[|parts| - 1]
  }

  /** The table holds exactly the chunks seen. */
  ghost predicate Holds(parts: seq<Data>, ds: seq<Arrival>, id: Data) {
    Agrees(TableAfter(ds), id, Seen(|parts|, ds, id), parts)
  }

  ghost predicate Agrees(table: Table, id: Data, p: Progress, parts: seq<Data>) {
    && (id in table <==> p.seen != {})
    && (id in table ==> table[id].start == p.start && table[id].chunks.Keys == p.seen && Of(table[id].chunks, parts))
  }

  /** Chunks of these parts. */
  ghost predicate Of(chunks: map<int, Data>, parts: seq<Data>) {
    forall k :: k in chunks ==> 0 <= k < |parts| && chunks[k] == parts[k]
  }

  lemma {:induction false} SubsetCard<T>(a: set<T>, b: set<T>)
    requires a <= b
    ensures |a| <= |b|
    ensures |a| == |b| ==> a == b
    decreases b
  {
    if a == {} {
    } else {
      var x :| x in a;
      SubsetCard(a - {x}, b - {x});
      assert a == (a - {x}) + {x} && b == (b - {x}) + {x};
    }
  }

  /** Pigeonhole: as many distinct numbers below n as n are all of them. */
  lemma Pigeonhole(a: set<int>, n: nat)
    requires forall x :: x in a ==> 0 <= x < n
    ensures |a| <= n && (|a| == n <==> a == Numbers(n))
  {
    SubsetCard(a, Numbers(n));
  }

  lemma {:induction false} JoinedIsFlat(chunks: map<int, Data>, parts: seq<Data>, n: nat)
    requires n <= |parts| && forall k :: 0 <= k < n ==> k in chunks && chunks[k] == parts[k]
    ensures Joined(chunks, n) == Some(Flatten(parts[..n]))
  {
    if n > 0 {
      JoinedIsFlat(chunks, parts, n - 1);
      assert parts[..n][..n - 1] == parts[..n - 1];
    } else {
      assert parts[..0] == [];
    }
  }

  lemma CountComplete(chunks: map<int, Data>, n: nat)
    requires forall k :: k in chunks ==> 0 <= k < n
    ensures |chunks| <= n && (|chunks| == n <==> chunks.Keys == Numbers(n))
  {
    assert |chunks.Keys| == |chunks|;
    Pigeonhole(chunks.Keys, n);
  }

  lemma JoinComplete(chunks: map<int, Data>, parts: seq<Data>)
    requires chunks.Keys == Numbers(|parts|)
    requires forall k :: k in chunks ==> 0 <= k < |parts| && chunks[k] == parts[k]
    ensures Joined(chunks, |parts|) == Some(Flatten(parts))
  {
    JoinedIsFlat(chunks, parts, |parts|);
    assert parts[..|parts|] == parts;
  }

  /** One more chunk completes a message exactly when it brings the last missing number. */
  lemma OneMoreChunk(chunks: map<int, Data>, seqnr: nat, parts: seq<Data>)
    requires seqnr < |parts| && Of(chunks, parts)
    ensures
      var more := chunks[seqnr := parts[seqnr]];
      && Of(more, parts) && more.Keys == chunks.Keys + {seqnr}
      && (|more| < |parts| <==> chunks.Keys + {seqnr} != Numbers(|parts|))
      && (|more| >= |parts| ==> Joined(more, |parts|) == Some(Flatten(parts)))
  {
    var more := chunks[seqnr := parts[seqnr]];
    assert more.Keys == chunks.Keys + {seqnr};
    CountComplete(more, |parts|);
    if more.Keys == Numbers(|parts|) { JoinComplete(more, parts); }
  }

  /** A chunk joins those of its message. */
  lemma ChunkPlaced(table: Table, p: Progress, c: Datagram, parts: seq<Data>, now: int)
    requires c.Chunk? && c.data != [] && c.total == |parts| <= MAX_CHUNKS && c.seqnr < c.total && c.data == parts[c.seqnr]
    requires Agrees(table, c.id, p, parts)
    ensures
      var (after, out) := Handle(table, c, now);
      && Agrees(after, c.id, Advance(p, c.total, c.seqnr, now), parts)
      && out == if Completes(p, c.total, c.seqnr, now) then Decode(Flatten(parts)) else Nothing
  {
    OneMoreChunk(Begun(table, c.id, now).chunks, c.seqnr, parts);
  }

  lemma ChunkArrives(parts: seq<Data>, ds: seq<Arrival>, c: Datagram, now: int)
    requires Sendable(parts) && ChunkOf(parts, c) && Holds(parts, ds, c.id)
    ensures
      var (table, out) := Handle(TableAfter(ds), c, now);
      var p := Seen(|parts|, ds, c.id);
      && Agrees(table, c.id, Advance(p, c.total, c.seqnr, now), parts)
      && out == if Completes(p, c.total, c.seqnr, now) then Decode(Flatten(parts)) else Nothing
  {
    ChunkPlaced(TableAfter(ds), Seen(|parts|, ds, c.id), c, parts, now);
  }

  /** Whole messages, chunks of other messages and chunks without data leave a message alone, whatever they are. */
  lemma OthersStay(table: Table, x: Arrival, id: Data)
    requires !IsChunk(x, id)
    ensures id in Handle(table, x.d, x.now).0 <==> id in table
    ensures id in table ==> Handle(table, x.d, x.now).0[id] == table[id]
  {
  }

  /** At every moment: what is kept of a message is what has come since it was last complete or discarded. */
  lemma {:induction false} HoldsAlways(parts: seq<Data>, ds: seq<Arrival>, id: Data)
    requires Sendable(parts) && From(parts, ds, id)
    ensures Holds(parts, ds, id)
  {
    if ds == [] {
    } else {
      var k := |ds| - 1;
      HoldsAlways(parts, ds[..k], id);
      if IsChunk(ds[k], id) {
        ChunkArrives(parts, ds[..k], ds[k].d, ds[k].now);
      } else {
        OthersStay(TableAfter(ds[..k]), ds[k], id);
      }
    }
  }

  /**
   Whatever else is in the stream, and whatever the interleaving, the repetition
   and the times, a chunk makes its message come out exactly when it is the last
   one missing and not too late, and then the message is its chunks in sequence
   order; otherwise nothing comes out.
   */
  lemma RebuiltExactly(parts: seq<Data>, ds: seq<Arrival>, id: Data, i: nat)
    requires Sendable(parts) && From(parts, ds, id) && i < |ds|
    ensures IsChunk(ds[i], id) ==>
      OutputAt(ds, i)
      == if Completes(Seen(|parts|, ds[..i], id), |parts|, ds[i].d.seqnr, ds[i].now) then Decode(Flatten(parts)) else Nothing
    ensures ds[i].d.Whole? ==> OutputAt(ds, i) == Decode(ds[i].d.data)
  {
    if IsChunk(ds[i], id) {
      HoldsAlways(parts, ds[..i], id);
      ChunkArrives(parts, ds[..i], ds[i].d, ds[i].now);
    }
  }

  /** The sequence numbers of an id in a stream. */
  ghost function Arrived(ds: seq<Arrival>, id: Data): set<int> {
    if ds == [] then {}
    else
      var k := |ds| - 1;
      if IsChunk(ds[k], id) then Arrived(ds[..k], id) + {ds[k].d.seqnr} else Arrived(ds[..k], id)
  }

  /** When the first chunk of an id came. */
  ghost function Start(ds: seq<Arrival>, id: Data): Option<int> {
    if ds == [] then None
    else
      var k := |ds| - 1;
      var before := Start(ds[..k], id);
      if before.None? && IsChunk(ds[k], id) then Some(ds[k].now) else before
  }

  /** No chunk of an id comes over 5 seconds after the first one. */
  ghost predicate Timely(ds: seq<Arrival>, id: Data) {
    ds == [] ||
    (var k := |ds| - 1;
     && Timely(ds[..k], id)
     && (IsChunk(ds[k], id) && Start(ds[..k], id).Some? ==> ds[k].now - Start(ds[..k], id).value <= FIVE_SECONDS))
  }

  /** As long as some chunk has not come at all, what has been seen is all that has come, since the first one. */
  lemma {:induction false} SeenIsArrived(parts: seq<Data>, ds: seq<Arrival>, id: Data)
    requires Arrived(ds, id) != Numbers(|parts|) && From(parts, ds, id) && Timely(ds, id)
    ensures Seen(|parts|, ds, id).seen == Arrived(ds, id)
    ensures Start(ds, id) == if Arrived(ds, id) == {} then None else Some(Seen(|parts|, ds, id).start)
  {
    if ds == [] {
    } else {
      var k := |ds| - 1;
      ArrivedBelow(parts, ds, id);
      assert Arrived(ds[..k], id) <= Arrived(ds, id);
      SeenIsArrived(parts, ds[..k], id);
    }
  }

  lemma {:induction false} ArrivedBelow(parts: seq<Data>, ds: seq<Arrival>, id: Data)
    requires From(parts, ds, id)
    ensures Arrived(ds, id) <= Numbers(|parts|)
  {
    if ds == [] {
    } else {
      var k := |ds| - 1;
      ArrivedBelow(parts, ds[..k], id);
      assert IsChunk(ds[k], id) ==> ChunkOf(parts, ds[k].d);
    }
  }

  /** The first time all chunks of a message have come, none of them late, in whatever order and company, it comes out. */
  lemma FirstCompletion(parts: seq<Data>, ds: seq<Arrival>, id: Data, i: nat)
    requires Sendable(parts) && From(parts, ds, id) && i < |ds| && IsChunk(ds[i], id)
    requires Arrived(ds[..i], id) != Numbers(|parts|) && Timely(ds[..i + 1], id)
    ensures OutputAt(ds, i) == Decode(Flatten(parts)) <==> Arrived(ds[..i + 1], id) == Numbers(|parts|)
  {
    assert ChunkOf(parts, ds[i].d);
    RebuiltExactly(parts, ds, id, i);
    var before, upto := ds[..i], ds[..i + 1];
    assert upto[..i] == before && upto[i] == ds[i];
    SeenIsArrived(parts, before, id);
  }
}
