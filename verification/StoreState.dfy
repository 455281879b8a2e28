/**
 The message store as a state machine (store/store.go). The disk part is what
 badger holds; the rest is memory that a crash erases. Each transaction is one
 step, and so is each update of a reference count, so that the sub-steps of
 Ingest, ACK and purge interleave freely with everything else. A transaction
 retried after ErrConflict changes nothing and is therefore no step.
 */
module StoreState {
  import opened Bytes
  import Conv

  type Uid = string

  datatype Dest = Kafka | UDP | TCP | RELP | File | Stderr | Graylog | HTTP | NATS
                | HTTPServer | WebsocketServer | Elasticsearch | Redis

  const DESTINATIONS: set<Dest> := {
    Kafka, UDP, TCP, RELP, File, Stderr, Graylog, HTTP, NATS, HTTPServer, WebsocketServer, Elasticsearch, Redis
  }

  /** An entry of some queue: this uid, for this destination. */
  datatype Ref = Ref(dest: Dest, uid: Uid)

  const MINUTE: int := 60_000_000_000

  datatype Disk = Disk(
    messages: map<Uid, string>,
    ready: set<Ref>,
    sent: set<Ref>,
    failed: map<Ref, Data>,
    perm: map<Ref, Data>)
  {
    /** All queue entries. */
    function Held(): set<Ref> { ready + sent + failed.Keys + perm.Keys }

    /** The entries that prune and initGauge look at. */
    function Settled(): set<Ref> { ready + failed.Keys + perm.Keys }
  }

  /** What happened so far; the store does not keep it. */
  datatype History = History(
    contents: map<Uid, string>,
    committed: set<Ref>,
    acked: set<Ref>,
    dropped: set<Ref>)

  /** Startup runs through the four recovery stages before the store is up. */
  datatype Phase = ResetSent(todo: set<Dest>) | ResetFailed(todo: set<Dest>) | Pruning | Counting | Up

  /**
   inflight: uids of unfinished Ingest calls, with the number of destinations done;
   decs: ACKs that are committed and whose count is not yet decremented;
   doomed: uids selected by a running purge;
   leaked: one for each entry that went without its count following (the store
   does not keep this).
   */
  datatype Store = Store(
    disk: Disk,
    hist: History,
    phase: Phase,
    count: map<Uid, int>,
    inflight: map<Uid, nat>,
    decs: multiset<Uid>,
    doomed: set<Uid>,
    leaked: multiset<Uid>)

  datatype Step =
    | Content(batch: map<Uid, string>)
    | MakeReady(dest: Dest, uids: set<Uid>)
    | CountNew(uid: Uid)
    | Retrieve(dest: Dest, uids: set<Uid>)
    | Ack(acks: seq<Ref>)
    | CountDec(uid: Uid)
    | Nack(refs: set<Ref>, now: int)
    | PermError(refs: set<Ref>, now: int)
    | RetryFailed(dest: Dest, now: int)
    | PurgeSelect(uid: Uid)
    | PurgeDelete(committed: bool)
    | PurgeForget(uid: Uid)
    | Crash
    | RecoverSent(dest: Dest)
    | RecoverFailed(dest: Dest, now: int)
    | Prune
    | InitCount

  // ------------------------------------------------------------ pure pieces

  /** Content that a retrieve hands out: present, not empty, and decodable. */
  predicate Good(dec: string -> bool, content: string) {
    content != "" && dec(content)
  }

  /** The destinations that have an entry for this uid in a set of entries. */
  function DestsOf(refs: set<Ref>, uid: Uid): set<Dest> {
    set r | r in refs && r.uid == uid :: r.dest
  }

  function Uids(refs: set<Ref>): set<Uid> {
    set r | r in refs :: r.uid
  }

  function Elems<T>(s: seq<T>): set<T> {
    set x | x in s
  }

  function RefsTo(dest: Dest, uids: set<Uid>): set<Ref> {
    set u | u in uids :: Ref(dest, u)
  }

  /** utils.RefCount: New, Dec, and the test made by GC. */
  function New(count: map<Uid, int>, uid: Uid, init: int): map<Uid, int> {
    if init <= 0 then count else count[uid := init]
  }

  function Dec(count: map<Uid, int>, uid: Uid): map<Uid, int> {
    if uid in count then count[uid := count[uid] - 1] else count
  }

  function Garbage(count: map<Uid, int>): set<Uid> {
    set u | u in count && count[u] <= 0
  }

  /** Failed entries that are due again, and those whose timestamp does not decode. */
  function Invalid(d: Disk, dest: Dest): set<Ref> {
    set r | r in d.failed && r.dest == dest && Conv.TimeOf(d.failed[r]).1 <= 0
  }

  function Expired(d: Disk, dest: Dest, now: int): set<Ref> {
    set r | r in d.failed && r.dest == dest
            && Conv.TimeOf(d.failed[r]).1 > 0 && now - Conv.TimeOf(d.failed[r]).0 >= MINUTE
  }

  /** The uids of a retrieved batch that cannot be handed out. */
  function Unusable(dec: string -> bool, d: Disk, uids: set<Uid>): set<Uid> {
    set u | u in uids && !(u in d.messages && Good(dec, d.messages[u]))
  }

  // ------------------------------------------------------------ transactions

  function RetrieveTx(dec: string -> bool, d: Disk, dest: Dest, uids: set<Uid>): Disk {
    var bad := Unusable(dec, d, uids);
    d.(messages := d.messages - bad,
       ready := d.ready - RefsTo(dest, uids),
       sent := d.sent + RefsTo(dest, uids - bad))
  }

  function NackTx(d: Disk, refs: set<Ref>, now: int): Disk {
    d.(sent := d.sent - refs, failed := d.failed + map r | r in refs :: Conv.TimeBytes(now))
  }

  function PermTx(d: Disk, refs: set<Ref>, now: int): Disk {
    d.(sent := d.sent - refs, perm := d.perm + map r | r in refs :: Conv.TimeBytes(now))
  }

  function RetryTx(d: Disk, dest: Dest, now: int): Disk {
    var expired := Expired(d, dest, now);
    d.(ready := d.ready + expired, failed := d.failed - (expired + Invalid(d, dest)))
  }

  function SentTx(d: Disk, dest: Dest): Disk {
    var stuck := set r | r in d.sent && r.dest == dest;
    d.(sent := d.sent - stuck, ready := d.ready + stuck)
  }

  /** prune never looks at Sent. */
  function PruneTx(d: Disk): Disk {
    var kept := Uids(d.Settled());
    d.(messages := map u | u in d.messages && u in kept :: d.messages[u])
  }

  /** One for each entry of three queues. */
  function Tally(a: set<Ref>, b: set<Ref>, c: set<Ref>): map<Uid, int> {
    map u | u in Uids(a + b + c) :: |DestsOf(a, u)| + |DestsOf(b, u)| + |DestsOf(c, u)|
  }

  /** initGauge adds one per entry of Ready, Failed and PermErrors. */
  function InitialCount(d: Disk): map<Uid, int> {
    Tally(d.ready, d.failed.Keys, d.perm.Keys)
  }

  // ------------------------------------------------------------ steps

  predicate Distinct<T(==)>(s: seq<T>) {
    forall i, j :: 0 <= i < j < |s| ==> s[i] != s[j]
  }

  /**
   When a step can happen. The conditions on Content (fresh uids) and on the
   three verdicts (each concerns a delivery that has had no verdict yet) are
   what the store relies on its callers for.
   */
  predicate Enabled(s: Store, step: Step) {
    match step
    case Content(batch) => s.phase.Up? && batch.Keys !! s.hist.contents.Keys
    case MakeReady(dest, uids) =>
      s.phase.Up? && uids <= s.inflight.Keys && RefsTo(dest, uids) !! s.hist.committed
    case CountNew(uid) => s.phase.Up? && uid in s.inflight
    case Retrieve(dest, uids) => s.phase.Up? && RefsTo(dest, uids) <= s.disk.ready
    case Ack(acks) => s.phase.Up? && Distinct(acks) && forall r :: r in acks ==> r in s.disk.sent
    case CountDec(uid) => s.phase.Up? && uid in s.decs
    case Nack(refs, now) => s.phase.Up? && refs <= s.disk.sent && IsInt64(now)
    case PermError(refs, now) => s.phase.Up? && refs <= s.disk.sent && IsInt64(now)
    case RetryFailed(dest, now) => s.phase.Up?
    case PurgeSelect(uid) => s.phase.Up? && uid in Garbage(s.count)
    case PurgeDelete(committed) => s.phase.Up?
    case PurgeForget(uid) => s.phase.Up? && uid in s.doomed
    case Crash => true
    case RecoverSent(dest) => s.phase.ResetSent? && dest in s.phase.todo
    case RecoverFailed(dest, now) => s.phase.ResetFailed? && dest in s.phase.todo
    case Prune => s.phase.Pruning?
    case InitCount => s.phase.Counting?
  }

  /** One ACK: the entry leaves Sent; the count follows in a later CountDec. */
  function AckOne(s: Store, r: Ref): Store {
    s.(disk := s.disk.(sent := s.disk.sent - {r}),
       hist := s.hist.(acked := s.hist.acked + {r}),
       decs := s.decs + multiset{r.uid})
  }

  function AckAll(s: Store, acks: seq<Ref>): Store {
    if acks == [] then s else AckOne(AckAll(s, acks[..|acks| - 1]), acks[|acks| - 1])
  }

  function DoContent(s: Store, batch: map<Uid, string>): Store {
    s.(disk := s.disk.(messages := s.disk.messages + batch),
       hist := s.hist.(contents := s.hist.contents + batch),
       inflight := s.inflight + map u | u in batch :: 0)
  }

  function DoReady(s: Store, dest: Dest, uids: set<Uid>): Store {
    s.(disk := s.disk.(ready := s.disk.ready + RefsTo(dest, uids)),
       hist := s.hist.(committed := s.hist.committed + RefsTo(dest, uids)),
       inflight := map u | u in s.inflight :: if u in uids then s.inflight[u] + 1 else s.inflight[u])
  }

  function DoCount(s: Store, uid: Uid): Store
    requires uid in s.inflight
  {
    s.(count := New(s.count, uid, s.inflight[uid]), inflight := s.inflight - {uid})
  }

  /** Unusable entries leave Ready, and the count does not follow. */
  function DoRetrieve(dec: string -> bool, s: Store, dest: Dest, uids: set<Uid>): Store {
    var bad := Unusable(dec, s.disk, uids);
    s.(disk := RetrieveTx(dec, s.disk, dest, uids),
       hist := s.hist.(dropped := s.hist.dropped + RefsTo(dest, bad)),
       leaked := s.leaked + multiset(bad))
  }

  /** A decrement that finds no count changes nothing. */
  function DoDec(s: Store, uid: Uid): Store {
    s.(count := Dec(s.count, uid),
       decs := s.decs - multiset{uid},
       leaked := if uid in s.count then s.leaked else s.leaked + multiset{uid})
  }

  function DoRetry(s: Store, dest: Dest, now: int): Store {
    s.(disk := RetryTx(s.disk, dest, now),
       hist := s.hist.(dropped := s.hist.dropped + Invalid(s.disk, dest)),
       leaked := s.leaked + multiset(Uids(Invalid(s.disk, dest))))
  }

  function DoPurge(s: Store, committed: bool): Store {
    if committed then s.(disk := s.disk.(messages := s.disk.messages - s.doomed)) else s
  }

  function DoForget(s: Store, uid: Uid): Store {
    s.(count := s.count - {uid}, doomed := s.doomed - {uid})
  }

  function AfterSent(todo: set<Dest>): Phase {
    if todo == {} then ResetFailed(DESTINATIONS) else ResetSent(todo)
  }

  function AfterFailed(todo: set<Dest>): Phase {
    if todo == {} then Pruning else ResetFailed(todo)
  }

  function Apply(dec: string -> bool, s: Store, step: Step): Store
    requires Enabled(s, step)
  {
    match step
    case Content(batch) => DoContent(s, batch)
    case MakeReady(dest, uids) => DoReady(s, dest, uids)
    case CountNew(uid) => DoCount(s, uid)
    case Retrieve(dest, uids) => DoRetrieve(dec, s, dest, uids)
    case Ack(acks) => AckAll(s, acks)
    case CountDec(uid) => DoDec(s, uid)
    case Nack(refs, now) => s.(disk := NackTx(s.disk, refs, now))
    case PermError(refs, now) => s.(disk := PermTx(s.disk, refs, now))
    case RetryFailed(dest, now) => DoRetry(s, dest, now)
    case PurgeSelect(uid) => s.(doomed := s.doomed + {uid})
    case PurgeDelete(committed) => DoPurge(s, committed)
    case PurgeForget(uid) => DoForget(s, uid)
    case Crash => Boot(s.disk, s.hist)
    case RecoverSent(dest) => s.(disk := SentTx(s.disk, dest), phase := AfterSent(s.phase.todo - {dest}))
    case RecoverFailed(dest, now) => DoRetry(s, dest, now).(phase := AfterFailed(s.phase.todo - {dest}))
    case Prune => s.(disk := PruneTx(s.disk), phase := Counting)
    case InitCount => s.(count := InitialCount(s.disk), phase := Up)
  }

  /** The state in which a process starts on whatever the disk holds. */
  function Boot(d: Disk, h: History): Store {
    Store(d, h, ResetSent(DESTINATIONS), map[], map[], multiset{}, {}, multiset{})
  }

  const FIRST: Store := Boot(Disk(map[], {}, {}, map[], map[]), History(map[], {}, {}, {}))

  // ------------------------------------------------------------ runs

  ghost predicate Legal(dec: string -> bool, s: Store, steps: seq<Step>)
    decreases steps, 0
  {
    steps == [] ||
    (var k := |steps| - 1; Legal(dec, s, steps[..k]) && Enabled(Exec(dec, s, steps[..k]), steps[k]))
  }

  ghost function Exec(dec: string -> bool, s: Store, steps: seq<Step>): Store
    requires Legal(dec, s, steps)
    decreases steps, 1
  {
    if steps == [] then s
    else var k := |steps| - 1; Apply(dec, Exec(dec, s, steps[..k]), steps[k])
  }
}
