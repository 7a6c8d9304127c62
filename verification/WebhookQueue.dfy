/**
 The persisted webhook queue and its one delivery worker (internal/webhook/worker.go,
 internal/db/queries/webhook_queue.sql) as a state machine.

 A row's id is its insertion index, which is also its place in `ORDER BY created_at`.
 A deleted row stays in the table as a row that is not `live`.  Times are in seconds.
 Besides the steps of the worker there are those of the rest of the system: rows are
 inserted, rows disappear when their webhook or email is deleted, time passes, and the
 process may be killed and restarted between any two steps.
 */
module WebhookQueue {
  import opened Common

  // ---------------------------------------------------------------------------
  // Rows and configuration
  // ---------------------------------------------------------------------------

  datatype Status = Pending | Delivered | Failed

  datatype Row = Row(
    webhook: nat, email: nat,
    attempts: Option<int>, nextAttempt: Option<int>,
    createdAt: int, status: Status, live: bool)

  /** `item.Attempts`, with NULL read as zero. */
  function AttemptsOf(row: Row): int {
    if row.attempts.Some? then row.attempts.value else 0
  }

  predicate IsPending(row: Row) {
    row.live && row.status == Pending
  }

  predicate IsDue(row: Row, now: int) {
    IsPending(row) && (row.nextAttempt.None? || row.nextAttempt.value <= now)
  }

  const INT32_MAX := 0x7fff_ffff

  /** Conversion to a signed 32-bit integer. */
  function WrapInt32(x: int): int {
    (x + 0x8000_0000) % 0x1_0000_0000 - 0x8000_0000
  }

  lemma WrapInt32Meaning(x: int)
    ensures -0x8000_0000 <= WrapInt32(x) <= 0x7fff_ffff && (WrapInt32(x) - x) % 0x1_0000_0000 == 0
  {
  }

  const DEFAULT_BATCH_SIZE := 10
  const DEFAULT_MAX_RETRIES := 5

  datatype Config = Config(maxRetries: int, batchSize: nat) {
    predicate Valid() {
      -0x8000_0000 <= maxRetries <= INT32_MAX && maxRetries != 0 && batchSize > 0
    }

    /** The most tries a row can get. */
    function Cap(): (n: int)
      ensures n >= 1
    {
      Max(maxRetries, 1)
    }
  }

  /** NewWorker: zero means default. */
  function NewConfig(maxRetries: int, batchSize: nat): Config {
    Config(if maxRetries == 0 then DEFAULT_MAX_RETRIES else maxRetries,
           if batchSize == 0 then DEFAULT_BATCH_SIZE else batchSize)
  }

  // ---------------------------------------------------------------------------
  // The retry schedule
  // ---------------------------------------------------------------------------

  const MINUTE := 60
  const HOUR := 3600
  const BACKOFF_SCHEDULE: seq<int> := [1 * MINUTE, 5 * MINUTE, 15 * MINUTE, 1 * HOUR, 4 * HOUR]

  function BackoffIndex(currentAttempts: int): int {
    if currentAttempts >= |BACKOFF_SCHEDULE| then |BACKOFF_SCHEDULE| - 1 else currentAttempts
  }

  function Backoff(currentAttempts: int): (seconds: int)
    requires currentAttempts >= 0
    ensures seconds >= 0
  {
    BACKOFF_SCHEDULE[BackoffIndex(currentAttempts)]
  }

  /** One minute, five, fifteen, one hour, and four hours from then on. */
  lemma ScheduleInSeconds(currentAttempts: nat)
    ensures Backoff(currentAttempts)
            == if currentAttempts == 0 then 60
               else if currentAttempts == 1 then 300
               else if currentAttempts == 2 then 900
               else if currentAttempts == 3 then 3600
               else 14400
  {
  }

  /** The waits before a row's try number `attempts + 1`, added up. */
  function TotalBackoff(attempts: nat): int {
    if attempts == 0 then 0 else TotalBackoff(attempts - 1) + Backoff(attempts - 1)
  }

  predicate RetriesExceeded(cfg: Config, currentAttempts: int) {
    WrapInt32(currentAttempts + 1) >= cfg.maxRetries
  }

  // ---------------------------------------------------------------------------
  // States and steps
  // ---------------------------------------------------------------------------

  /** A row as it was read by the batch query. */
  datatype Item = Item(id: nat, row: Row)

  datatype Write = WriteDelivered | WriteRetry | WriteFailed

  datatype Phase =
    | Idle
    | Lookup(item: Item)                  // about to load the webhook
    | Send(item: Item)                    // about to POST
    | Settle(item: Item, write: Write)    // about to write the outcome
    | Resettle(item: Item, retried: bool) // the retry write reported an error; `retried` if it took effect anyway

  /** What happened to a row so far; none of it is stored by the program. */
  datatype Tally = Tally(
    posts: nat,           // requests sent
    accepted: nat,        // of these, answered 2xx
    noPosts: nat,         // tries that ended before a request was sent
    lost: nat,            // status writes that never took effect
    cancelled: nat,       // requests sent but cancelled by shutdown
    doubled: nat,         // rows marked failed after a retry write that took effect but reported an error
    retriedAt: seq<int>)  // when each counted retry was written

  const NO_TALLY := Tally(0, 0, 0, 0, 0, 0, [])

  datatype State = State(rows: seq<Row>, tally: seq<Tally>, now: int, batch: seq<Item>, phase: Phase)

  const EMPTY := State([], [], 0, [], Idle)

  datatype LookupResult = Found | NotFound | LookupCancelled | LookupError
  datatype SendResult = Accepted | Refused | NotSent | SendCancelled(posted: bool)
  datatype WriteResult = Applied | LostWrite | AppliedWithError

  datatype Event =
    | Enqueue(webhook: nat, email: nat)
    | Delete(id: nat)
    | Tick(seconds: nat)
    | Crash
    | Fetch
    | Take
    | Abandon
    | Looked(lookup: LookupResult)
    | Sent(send: SendResult)
    | Wrote(write: WriteResult)

  /** GetPendingWebhookQueueItems: the first `limit` due rows in insertion order. */
  function Select(rows: seq<Row>, now: int, limit: nat, from: nat): (items: seq<Item>)
    requires from <= |rows|
    ensures |items| <= limit
    ensures forall k :: 0 <= k < |items| ==>
              from <= items[k].id < |rows| && items[k].row == rows[items[k].id] && IsDue(items[k].row, now)
    ensures forall k, l :: 0 <= k < l < |items| ==> items[k].id < items[l].id
    ensures limit > 0 && (exists id :: from <= id < |rows| && IsDue(rows[id], now)) ==> items != []
    decreases |rows| - from
  {
    if limit == 0 || from == |rows| then []
    else if IsDue(rows[from], now) then [Item(from, rows[from])] + Select(rows, now, limit - 1, from + 1)
    else Select(rows, now, limit, from + 1)
  }

  /** A due row is only left out when the batch is full of rows inserted before it. */
  lemma {:induction false} SelectIsOldestFirst(rows: seq<Row>, now: int, limit: nat, from: nat, id: nat)
    requires from <= id < |rows| && IsDue(rows[id], now)
    ensures var items := Select(rows, now, limit, from);
            Item(id, rows[id]) in items || (|items| == limit && forall k :: 0 <= k < |items| ==> items[k].id < id)
    decreases |rows| - from
  {
    if limit > 0 && from < id {
      SelectIsOldestFirst(rows, now, if IsDue(rows[from], now) then limit - 1 else limit, from + 1, id);
    }
  }

  /** The row a status write leaves; the retry write uses the attempts of the snapshot. */
  function Written(row: Row, item: Item, write: Write, now: int): Row
    requires write == WriteRetry ==> AttemptsOf(item.row) >= 0
  {
    match write
    case WriteDelivered => row.(status := Delivered)
    case WriteFailed => row.(status := Failed)
    case WriteRetry =>
      var a := AttemptsOf(item.row);
      row.(status := Pending, attempts := Some(WrapInt32(a + 1)), nextAttempt := Some(now + Backoff(a)))
  }

  /** UPDATE … WHERE id = $1: nothing happens when the row is gone. */
  function Update(rows: seq<Row>, item: Item, write: Write, now: int): seq<Row>
    requires write == WriteRetry ==> AttemptsOf(item.row) >= 0
  {
    if item.id < |rows| && rows[item.id].live
    then rows[item.id := Written(rows[item.id], item, write, now)]
    else rows
  }

  /** What scheduleRetry writes first. */
  function RetryOrFail(cfg: Config, item: Item): Write {
    if RetriesExceeded(cfg, AttemptsOf(item.row)) then WriteFailed else WriteRetry
  }

  predicate Enabled(cfg: Config, s: State, e: Event) {
    match e
    case Enqueue(_, _) => true
    case Tick(_) => true
    case Crash => true
    case Delete(id) => id < |s.rows|
    case Fetch => s.phase.Idle? && s.batch == []
    case Take => s.phase.Idle? && s.batch != []
    case Abandon => s.phase.Idle?
    case Looked(_) => s.phase.Lookup? && s.phase.item.id < |s.tally|
    case Sent(_) => s.phase.Send? && s.phase.item.id < |s.tally|
    case Wrote(_) =>
      && (s.phase.Settle? || s.phase.Resettle?)
      && s.phase.item.id < |s.tally|
      && AttemptsOf(s.phase.item.row) >= 0   // else the schedule would be indexed out of bounds
  }

  function Step(cfg: Config, s: State, e: Event): State
    requires Enabled(cfg, s, e)
  {
    match e
    case Enqueue(webhook, email) =>
      s.(rows := s.rows + [Row(webhook, email, Some(0), Some(s.now), s.now, Pending, true)],
         tally := s.tally + [NO_TALLY])
    case Tick(seconds) => s.(now := s.now + seconds)
    case Delete(id) => s.(rows := s.rows[id := s.rows[id].(live := false)])
    case Crash => s.(batch := [], phase := Idle, tally := TallyCrash(s))
    case Fetch => s.(batch := Select(s.rows, s.now, cfg.batchSize, 0))
    case Take => s.(batch := s.batch[1..], phase := Lookup(s.batch[0]))
    case Abandon => s.(batch := [])
    case Looked(lookup) => StepLooked(cfg, s, lookup)
    case Sent(send) => StepSent(cfg, s, send)
    case Wrote(write) => if s.phase.Settle? then StepSettled(s, write) else StepResettled(s, write)
  }

  function TallyCrash(s: State): seq<Tally> {
    var unsettled := s.phase.Settle? || (s.phase.Resettle? && !s.phase.retried);
    if unsettled && s.phase.item.id < |s.tally|
    then s.tally[s.phase.item.id := s.tally[s.phase.item.id].(lost := s.tally[s.phase.item.id].lost + 1)]
    else s.tally
  }

  function StepLooked(cfg: Config, s: State, lookup: LookupResult): State
    requires s.phase.Lookup? && s.phase.item.id < |s.tally|
  {
    var item := s.phase.item;
    var t := s.tally[item.id];
    match lookup
    case Found => s.(phase := Send(item))
    case LookupCancelled => s.(phase := Idle)
    case NotFound => s.(phase := Settle(item, WriteFailed), tally := s.tally[item.id := t.(noPosts := t.noPosts + 1)])
    case LookupError => s.(phase := Settle(item, RetryOrFail(cfg, item)),
                           tally := s.tally[item.id := t.(noPosts := t.noPosts + 1)])
  }

  function StepSent(cfg: Config, s: State, send: SendResult): State
    requires s.phase.Send? && s.phase.item.id < |s.tally|
  {
    var item := s.phase.item;
    var t := s.tally[item.id];
    match send
    case Accepted =>
      s.(phase := Settle(item, WriteDelivered),
         tally := s.tally[item.id := t.(posts := t.posts + 1, accepted := t.accepted + 1)])
    case Refused =>
      s.(phase := Settle(item, RetryOrFail(cfg, item)), tally := s.tally[item.id := t.(posts := t.posts + 1)])
    case NotSent =>
      s.(phase := Settle(item, RetryOrFail(cfg, item)), tally := s.tally[item.id := t.(noPosts := t.noPosts + 1)])
    case SendCancelled(posted) =>
      s.(phase := Idle,
         tally := if posted then s.tally[item.id := t.(posts := t.posts + 1, cancelled := t.cancelled + 1)]
                  else s.tally)
  }

  function StepSettled(s: State, result: WriteResult): State
    requires s.phase.Settle? && s.phase.item.id < |s.tally| && AttemptsOf(s.phase.item.row) >= 0
  {
    var item, write := s.phase.item, s.phase.write;
    var t := s.tally[item.id];
    var retry := write == WriteRetry;
    s.(rows := if result == LostWrite then s.rows else Update(s.rows, item, write, s.now),
       phase := if retry && result != Applied then Resettle(item, result == AppliedWithError) else Idle,
       tally := s.tally[item.id :=
         if result == LostWrite then (if retry then t else t.(lost := t.lost + 1))
         else if retry then t.(retriedAt := t.retriedAt + [s.now])
         else t])
  }

  function StepResettled(s: State, result: WriteResult): State
    requires s.phase.Resettle? && s.phase.item.id < |s.tally|
  {
    var item, retried := s.phase.item, s.phase.retried;
    var t := s.tally[item.id];
    s.(rows := if result == LostWrite then s.rows else Update(s.rows, item, WriteFailed, s.now),
       phase := Idle,
       tally := s.tally[item.id :=
         if result == LostWrite then (if retried then t else t.(lost := t.lost + 1))
         else if retried then t.(doubled := t.doubled + 1)
         else t])
  }

  // ---------------------------------------------------------------------------
  // Runs
  // ---------------------------------------------------------------------------

  predicate CanRun(cfg: Config, s: State, es: seq<Event>)
    decreases |es|, 0
  {
    es == [] || (var n := |es| - 1; CanRun(cfg, s, es[..n]) && Enabled(cfg, Run(cfg, s, es[..n]), es[n]))
  }

  function Run(cfg: Config, s: State, es: seq<Event>): State
    requires CanRun(cfg, s, es)
    decreases |es|, 1
  {
    if es == [] then s else var n := |es| - 1; Step(cfg, Run(cfg, s, es[..n]), es[n])
  }

  lemma RunSnoc(cfg: Config, s: State, es: seq<Event>, e: Event)
    requires CanRun(cfg, s, es) && Enabled(cfg, Run(cfg, s, es), e)
    ensures CanRun(cfg, s, es + [e])
    ensures Run(cfg, s, es + [e]) == Step(cfg, Run(cfg, s, es), e)
  {
    assert (es + [e])[..|es|] == es;
  }

  // ---------------------------------------------------------------------------
  // The invariant
  // ---------------------------------------------------------------------------

  function Bit(b: bool): int {
    if b then 1 else 0
  }

  /** A try of row `id` whose outcome is not written yet. */
  predicate Unsettled(phase: Phase, id: nat) {
    (phase.Settle? || (phase.Resettle? && !phase.retried)) && phase.item.id == id
  }

  /** Every try of the row is accounted for, exactly. */
  ghost predicate Balanced(row: Row, t: Tally, unsettled: bool) {
    t.posts + t.noPosts + t.doubled
    == AttemptsOf(row) + Bit(row.status != Pending) + t.lost + t.cancelled + Bit(unsettled)
  }

  /** The retries lie at least the scheduled waits apart, and the next one is due after the last wait. */
  ghost predicate Spaced(row: Row, t: Tally) {
    && |t.retriedAt| == AttemptsOf(row)
    && row.nextAttempt == Some(if t.retriedAt == [] then row.createdAt
                               else t.retriedAt[|t.retriedAt| - 1] + Backoff(|t.retriedAt| - 1))
    && (t.retriedAt != [] ==> t.retriedAt[0] >= row.createdAt)
    && forall k :: 0 < k < |t.retriedAt| ==> t.retriedAt[k] >= t.retriedAt[k - 1] + Backoff(k - 1)
  }

  ghost predicate RowOk(cfg: Config, row: Row, t: Tally, unsettled: bool) {
    && row.attempts.Some?
    && 0 <= AttemptsOf(row) < cfg.Cap()
    && Balanced(row, t, unsettled)
    && Spaced(row, t)
    && (row.status == Delivered ==> t.accepted > 0)
  }

  /** A snapshot still equals its row, unless that was deleted, and may be tried now. */
  ghost predicate Fresh(cfg: Config, s: State, item: Item) {
    && item.id < |s.rows|
    && (s.rows[item.id].live ==> s.rows[item.id] == item.row)
    && SnapshotOk(cfg, s, item)
  }

  ghost predicate SnapshotOk(cfg: Config, s: State, item: Item) {
    && IsDue(item.row, s.now)
    && item.row.attempts.Some? && 0 <= AttemptsOf(item.row) < cfg.Cap()
  }

  ghost predicate PhaseOk(cfg: Config, s: State)
    requires |s.rows| == |s.tally|
  {
    match s.phase
    case Idle => true
    case Lookup(item) => Fresh(cfg, s, item)
    case Send(item) => Fresh(cfg, s, item)
    case Settle(item, write) =>
      && Fresh(cfg, s, item)
      && (write == WriteDelivered ==> s.tally[item.id].accepted > 0)
      && (write == WriteRetry ==> !RetriesExceeded(cfg, AttemptsOf(item.row)))
    case Resettle(item, retried) =>
      if retried
      then
        && item.id < |s.rows| && SnapshotOk(cfg, s, item)
        && (s.rows[item.id].live ==> s.rows[item.id].status == Pending)
      else Fresh(cfg, s, item)
  }

  ghost predicate BatchOk(cfg: Config, s: State) {
    && (forall k :: 0 <= k < |s.batch| ==> Fresh(cfg, s, s.batch[k]))
    && (forall k, l :: 0 <= k < l < |s.batch| ==> s.batch[k].id < s.batch[l].id)
    && (!s.phase.Idle? ==> forall k :: 0 <= k < |s.batch| ==> s.phase.item.id < s.batch[k].id)
  }

  ghost predicate RowsOk(cfg: Config, s: State)
    requires |s.rows| == |s.tally|
  {
    forall id :: 0 <= id < |s.rows| && s.rows[id].live ==> RowOk(cfg, s.rows[id], s.tally[id], Unsettled(s.phase, id))
  }

  ghost predicate Inv(cfg: Config, s: State) {
    && cfg.Valid()
    && |s.rows| == |s.tally|
    && RowsOk(cfg, s)
    && BatchOk(cfg, s)
    && PhaseOk(cfg, s)
  }

  lemma InvEnqueue(cfg: Config, s: State, webhook: nat, email: nat)
    requires Inv(cfg, s)
    ensures Inv(cfg, Step(cfg, s, Enqueue(webhook, email)))
  {
    var s' := Step(cfg, s, Enqueue(webhook, email));
    assert RowOk(cfg, s'.rows[|s.rows|], NO_TALLY, false);
  }

  lemma InvDelete(cfg: Config, s: State, id: nat)
    requires Inv(cfg, s) && id < |s.rows|
    ensures Inv(cfg, Step(cfg, s, Delete(id)))
  {
  }

  lemma InvTick(cfg: Config, s: State, seconds: nat)
    requires Inv(cfg, s)
    ensures Inv(cfg, Step(cfg, s, Tick(seconds)))
  {
  }

  lemma InvCrash(cfg: Config, s: State)
    requires Inv(cfg, s)
    ensures Inv(cfg, Step(cfg, s, Crash))
  {
  }

  lemma InvBatch(cfg: Config, s: State, e: Event)
    requires Inv(cfg, s) && Enabled(cfg, s, e)
    requires e.Fetch? || e.Take? || e.Abandon?
    ensures Inv(cfg, Step(cfg, s, e))
  {
  }

  /**
   A step of the worker touches the row and the tally of the item in hand and nothing
   else; the invariant then only has to be checked there.
   */
  lemma InvLocal(cfg: Config, s: State, s': State, row: Row, t: Tally)
    requires Inv(cfg, s) && !s.phase.Idle? && s.phase.item.id < |s.rows|
    requires var id := s.phase.item.id;
             && s' == s.(rows := s.rows[id := row], tally := s.tally[id := t], phase := s'.phase)
             && (row.live ==> RowOk(cfg, row, t, Unsettled(s'.phase, id)))
    requires s'.phase.Idle? || s'.phase.item == s.phase.item
    requires PhaseOk(cfg, s')
    ensures Inv(cfg, s')
  {
    forall id | 0 <= id < |s'.rows| && s'.rows[id].live
      ensures RowOk(cfg, s'.rows[id], s'.tally[id], Unsettled(s'.phase, id))
    {
      if id != s.phase.item.id {
        assert RowOk(cfg, s.rows[id], s.tally[id], Unsettled(s.phase, id));
      }
    }
  }

  lemma InvLooked(cfg: Config, s: State, lookup: LookupResult)
    requires Inv(cfg, s) && Enabled(cfg, s, Looked(lookup))
    ensures Inv(cfg, Step(cfg, s, Looked(lookup)))
  {
    var s', id := Step(cfg, s, Looked(lookup)), s.phase.item.id;
    assert s.rows[id := s.rows[id]] == s.rows && s.tally[id := s.tally[id]] == s.tally;
    InvLocal(cfg, s, s', s.rows[id], s'.tally[id]);
  }

  lemma InvSent(cfg: Config, s: State, send: SendResult)
    requires Inv(cfg, s) && Enabled(cfg, s, Sent(send))
    ensures Inv(cfg, Step(cfg, s, Sent(send)))
  {
    var s', id := Step(cfg, s, Sent(send)), s.phase.item.id;
    assert s.rows[id := s.rows[id]] == s.rows && s.tally[id := s.tally[id]] == s.tally;
    InvLocal(cfg, s, s', s.rows[id], s'.tally[id]);
  }

  /** Within the cap the 32-bit count does not wrap. */
  lemma NoWrap(cfg: Config, a: int)
    requires cfg.Valid() && 0 <= a < cfg.Cap()
    ensures !RetriesExceeded(cfg, a) ==> WrapInt32(a + 1) == a + 1 < cfg.Cap()
  {
  }

  /** The retry write keeps the row's balance and spacing. */
  lemma RetryWriteOk(cfg: Config, item: Item, t: Tally, now: int)
    requires cfg.Valid() && IsDue(item.row, now)
    requires RowOk(cfg, item.row, t, true)
    requires !RetriesExceeded(cfg, AttemptsOf(item.row))
    ensures RowOk(cfg, Written(item.row, item, WriteRetry, now), t.(retriedAt := t.retriedAt + [now]), false)
  {
    NoWrap(cfg, AttemptsOf(item.row));
  }

  lemma InvSettled(cfg: Config, s: State, result: WriteResult)
    requires Inv(cfg, s) && Enabled(cfg, s, Wrote(result)) && s.phase.Settle?
    ensures Inv(cfg, Step(cfg, s, Wrote(result)))
  {
    var s', item, write := Step(cfg, s, Wrote(result)), s.phase.item, s.phase.write;
    var id := item.id;
    assert s.rows[id := s.rows[id]] == s.rows;
    if s.rows[id].live && result != LostWrite && write == WriteRetry {
      RetryWriteOk(cfg, item, s.tally[id], s.now);
    }
    InvLocal(cfg, s, s', s'.rows[id], s'.tally[id]);
  }

  lemma InvResettled(cfg: Config, s: State, result: WriteResult)
    requires Inv(cfg, s) && Enabled(cfg, s, Wrote(result)) && s.phase.Resettle?
    ensures Inv(cfg, Step(cfg, s, Wrote(result)))
  {
    var s', id := Step(cfg, s, Wrote(result)), s.phase.item.id;
    assert s.rows[id := s.rows[id]] == s.rows;
    InvLocal(cfg, s, s', s'.rows[id], s'.tally[id]);
  }

  lemma InvStep(cfg: Config, s: State, e: Event)
    requires Inv(cfg, s) && Enabled(cfg, s, e)
    ensures Inv(cfg, Step(cfg, s, e))
  {
    match e
    case Looked(lookup) => InvLooked(cfg, s, lookup);
    case Sent(send) => InvSent(cfg, s, send);
    case Wrote(result) => if s.phase.Settle? { InvSettled(cfg, s, result); } else { InvResettled(cfg, s, result); }
    case Enqueue(webhook, email) => InvEnqueue(cfg, s, webhook, email);
    case Delete(id) => InvDelete(cfg, s, id);
    case Tick(seconds) => InvTick(cfg, s, seconds);
    case Crash => InvCrash(cfg, s);
    case _ => InvBatch(cfg, s, e);
  }

  lemma {:induction false} InvRun(cfg: Config, s: State, es: seq<Event>)
    requires Inv(cfg, s) && CanRun(cfg, s, es)
    ensures Inv(cfg, Run(cfg, s, es))
  {
    if es != [] {
      var n := |es| - 1;
      InvRun(cfg, s, es[..n]);
      InvStep(cfg, Run(cfg, s, es[..n]), es[n]);
    }
  }
}
