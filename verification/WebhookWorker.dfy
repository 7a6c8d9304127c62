/**
 The worker's methods (internal/webhook/worker.go).  Each of them is proved to perform a
 run of the machine of WebhookQueue, so every guarantee about runs holds of the code.
 */
module WebhookWorker {
  import opened Common
  import opened WebhookQueue

  /** How the outside world answers one delivery. */
  datatype Answers = Answers(lookup: LookupResult, send: SendResult, first: WriteResult, second: WriteResult)

  /** The machine's steps for the delivery of `item` under these answers. */
  function DeliverySteps(cfg: Config, item: Item, a: Answers): seq<Event> {
    [Looked(a.lookup)] + if a.lookup.Found? then SendSteps(cfg, item, a) else LookupSteps(cfg, item, a)
  }

  function LookupSteps(cfg: Config, item: Item, a: Answers): seq<Event>
    requires !a.lookup.Found?
  {
    match a.lookup
    case LookupCancelled => []
    case NotFound => [Wrote(a.first)]
    case LookupError => RetrySteps(cfg, item, a)
  }

  function SendSteps(cfg: Config, item: Item, a: Answers): seq<Event> {
    [Sent(a.send)]
    + match a.send
      case Accepted => [Wrote(a.first)]
      case SendCancelled(_) => []
      case _ => RetrySteps(cfg, item, a)
  }

  /** scheduleRetry's writes: a retry write that reports an error is followed by a failure write. */
  function RetrySteps(cfg: Config, item: Item, a: Answers): seq<Event> {
    if RetryOrFail(cfg, item) == WriteRetry && a.first != Applied
    then [Wrote(a.first), Wrote(a.second)]
    else [Wrote(a.first)]
  }

  /** What becomes of a live row that is tried with these answers. */
  ghost predicate Outcome(cfg: Config, item: Item, a: Answers, now: int, after: Row) {
    var row, n := item.row, AttemptsOf(item.row);
    var refused := a.lookup.LookupError? || (a.lookup.Found? && (a.send.Refused? || a.send.NotSent?));
    && n >= 0
    && (a.lookup.Found? && a.send.Accepted? ==>
          after == if a.first == LostWrite then row else row.(status := Delivered))
    && (a.lookup.NotFound? || (refused && n + 1 >= cfg.maxRetries) ==>
          after == if a.first == LostWrite then row else row.(status := Failed))
    && (a.lookup.LookupCancelled? || (a.lookup.Found? && a.send.SendCancelled?) ==> after == row)
    && (refused && n + 1 < cfg.maxRetries ==>
          var counted := row.(attempts := Some(n + 1), nextAttempt := Some(now + Backoff(n)));
          after == match a.first
                   case Applied => counted
                   case LostWrite => if a.second == LostWrite then row else row.(status := Failed)
                   case AppliedWithError => if a.second == LostWrite then counted else counted.(status := Failed))
  }

  /** The cases that matter most, spelled out. */
  lemma OutcomeMeaning(cfg: Config, item: Item, a: Answers, now: int, after: Row)
    requires Outcome(cfg, item, a, now, after)
    ensures a.lookup.Found? && a.send.Accepted? && a.first == Applied ==> after == item.row.(status := Delivered)
    ensures a.lookup.NotFound? && a.first == Applied ==> after == item.row.(status := Failed)
    ensures a.lookup.Found? && a.send.Refused? && a.first == Applied ==>
              after == if AttemptsOf(item.row) + 1 >= cfg.maxRetries then item.row.(status := Failed)
                       else item.row.(attempts := Some(AttemptsOf(item.row) + 1),
                                      nextAttempt := Some(now + Backoff(AttemptsOf(item.row))))
  {
  }

  /** The webhook_queue table. */
  class QueueTable {
    var rows: seq<Row>

    constructor ()
      ensures rows == []
    {
      rows := [];
    }

    /** CreateWebhookQueueItem, with the column defaults. */
    method Insert(webhook: nat, email: nat, now: int)
      modifies this
      ensures rows == old(rows) + [Row(webhook, email, Some(0), Some(now), now, Pending, true)]
    {
      rows := rows + [Row(webhook, email, Some(0), Some(now), now, Pending, true)];
    }

    method Remove(id: nat)
      requires id < |rows|
      modifies this
      ensures rows == old(rows)[id := old(rows)[id].(live := false)]
    {
      rows := rows[id := rows[id].(live := false)];
    }

    method GetPending(now: int, limit: nat) returns (items: seq<Item>)
      ensures items == Select(rows, now, limit, 0)
    {
      items := Select(rows, now, limit, 0);
    }

    predicate Has(id: nat)
      reads this
    {
      id < |rows| && rows[id].live
    }

    /** One UPDATE statement; the result says whether an error is reported and whether it took effect. */
    method Write(item: Item, write: Write, now: int, result: WriteResult) returns (ok: bool)
      requires write == WriteRetry ==> AttemptsOf(item.row) >= 0
      modifies this
      ensures rows == if result == LostWrite then old(rows) else Update(old(rows), item, write, now)
      ensures ok <==> result == Applied
      ensures result == LostWrite || !old(Has(item.id)) ==> rows == old(rows)
      ensures result != LostWrite && old(Has(item.id)) ==>
                var row := old(rows)[item.id];
                rows == old(rows)[item.id :=
                          match write
                          case WriteDelivered => row.(status := Delivered)
                          case WriteFailed => row.(status := Failed)
                          case WriteRetry =>
                            row.(status := Pending, attempts := Some(WrapInt32(AttemptsOf(item.row) + 1)),
                                 nextAttempt := Some(now + Backoff(AttemptsOf(item.row))))]
    {
      if result != LostWrite && item.id < |rows| && rows[item.id].live {
        var row := rows[item.id];
        match write {
          case WriteDelivered => row := row.(status := Delivered);
          case WriteFailed => row := row.(status := Failed);
          case WriteRetry =>
            var attempts := AttemptsOf(item.row);
            row := row.(status := Pending, attempts := Some(WrapInt32(attempts + 1)),
                        nextAttempt := Some(now + Backoff(attempts)));
        }
        rows := rows[item.id := row];
      }
      ok := result == Applied;
    }
  }

  class Worker {
    const cfg: Config
    const queue: QueueTable
    var closed: bool

    ghost var state: State       // the machine's state; its rows are the table's
    ghost var trace: seq<Event>  // how it was reached

    ghost predicate Valid()
      reads this, queue
    {
      && cfg.Valid()
      && CanRun(cfg, EMPTY, trace)
      && state == Run(cfg, EMPTY, trace)
      && state.rows == queue.rows
    }

    constructor (maxRetries: int, batchSize: nat, queue: QueueTable)
      requires -0x8000_0000 <= maxRetries <= INT32_MAX
      requires queue.rows == []
      ensures Valid() && this.queue == queue && state == EMPTY && !closed
      ensures cfg.maxRetries == (if maxRetries == 0 then 5 else maxRetries)
      ensures cfg.batchSize == (if batchSize == 0 then 10 else batchSize)
    {
      this.cfg := NewConfig(maxRetries, batchSize);
      this.queue := queue;
      this.closed := false;
      this.state := EMPTY;
      this.trace := [];
    }

    /** Records one step of the machine that does not write to the table. */
    ghost method Note(e: Event)
      requires Valid() && Enabled(cfg, state, e)
      requires Step(cfg, state, e).rows == state.rows
      modifies this`state, this`trace
      ensures Valid()
      ensures trace == old(trace) + [e] && state == Step(cfg, old(state), e)
    {
      RunSnoc(cfg, EMPTY, trace, e);
      state := Step(cfg, state, e);
      trace := trace + [e];
    }

    /** Every row but this one is as before. */
    twostate predicate OnlyRow(id: nat)
      reads queue
    {
      && |queue.rows| == |old(queue.rows)|
      && forall k :: 0 <= k < |queue.rows| && k != id ==> queue.rows[k] == old(queue.rows)[k]
    }

    /** One status write for the item in hand. */
    method Put(item: Item, write: Write, result: WriteResult, now: int) returns (ok: bool)
      requires Valid() && Enabled(cfg, state, Wrote(result)) && now == state.now
      requires item == state.phase.item
      requires write == if state.phase.Settle? then state.phase.write else WriteFailed
      modifies this`state, this`trace, queue
      ensures Valid() && ok == (result == Applied)
      ensures trace == old(trace) + [Wrote(result)]
      ensures state == Step(cfg, old(state), Wrote(result))
      ensures OnlyRow(item.id)
      ensures result == LostWrite || !old(queue.Has(item.id)) ==> queue.rows == old(queue.rows)
      ensures result != LostWrite && old(queue.Has(item.id)) ==>
                var row := old(queue.rows)[item.id];
                queue.rows[item.id] == match write
                                       case WriteDelivered => row.(status := Delivered)
                                       case WriteFailed => row.(status := Failed)
                                       case WriteRetry =>
                                         row.(status := Pending, attempts := Some(WrapInt32(AttemptsOf(item.row) + 1)),
                                              nextAttempt := Some(now + Backoff(AttemptsOf(item.row))))
    {
      ok := queue.Write(item, write, now, result);
      RunSnoc(cfg, EMPTY, trace, Wrote(result));
      state := Step(cfg, state, Wrote(result));
      trace := trace + [Wrote(result)];
    }

    method MarkFailed(item: Item, result: WriteResult, now: int) returns (ok: bool)
      requires Valid() && Enabled(cfg, state, Wrote(result)) && now == state.now
      requires item == state.phase.item && (state.phase.Settle? ==> state.phase.write == WriteFailed)
      modifies this`state, this`trace, queue
      ensures Valid() && ok == (result == Applied)
      ensures trace == old(trace) + [Wrote(result)]
      ensures state == Step(cfg, old(state), Wrote(result))
      ensures OnlyRow(item.id)
      ensures result == LostWrite || !old(queue.Has(item.id)) ==> queue.rows == old(queue.rows)
      ensures result != LostWrite && old(queue.Has(item.id)) ==>
                queue.rows[item.id] == old(queue.rows)[item.id].(status := Failed)
    {
      ok := Put(item, WriteFailed, result, now);
    }

    method MarkDelivered(item: Item, result: WriteResult, now: int) returns (ok: bool)
      requires Valid() && Enabled(cfg, state, Wrote(result)) && now == state.now
      requires item == state.phase.item && state.phase == Settle(item, WriteDelivered)
      modifies this`state, this`trace, queue
      ensures Valid() && ok == (result == Applied)
      ensures trace == old(trace) + [Wrote(result)]
      ensures state == Step(cfg, old(state), Wrote(result))
      ensures OnlyRow(item.id)
      ensures result == LostWrite || !old(queue.Has(item.id)) ==> queue.rows == old(queue.rows)
      ensures result != LostWrite && old(queue.Has(item.id)) ==>
                queue.rows[item.id] == old(queue.rows)[item.id].(status := Delivered)
    {
      ok := Put(item, WriteDelivered, result, now);
    }

    /** A retry is counted and put off, or the row is failed: at its last try, or when that write reports an error. */
    method ScheduleRetry(item: Item, currentAttempts: int, a: Answers, now: int)
      requires Valid() && Enabled(cfg, state, Wrote(a.first)) && now == state.now
      requires currentAttempts == AttemptsOf(item.row) < cfg.Cap()
      requires state.phase == Settle(item, RetryOrFail(cfg, item))
      modifies this`state, this`trace, queue
      ensures Valid() && state.phase.Idle?
      ensures trace == old(trace) + RetrySteps(cfg, item, a)
      ensures state.batch == old(state.batch) && state.now == now
      ensures OnlyRow(item.id)
      ensures !old(queue.Has(item.id)) ==> queue.rows == old(queue.rows)
      ensures old(queue.Has(item.id)) && currentAttempts + 1 >= cfg.maxRetries ==>
                var row := old(queue.rows)[item.id];
                queue.rows[item.id] == if a.first == LostWrite then row else row.(status := Failed)
      ensures old(queue.Has(item.id)) && currentAttempts + 1 < cfg.maxRetries ==>
                var row := old(queue.rows)[item.id];
                var counted := row.(status := Pending, attempts := Some(currentAttempts + 1),
                                    nextAttempt := Some(now + Backoff(currentAttempts)));
                queue.rows[item.id] == match a.first
                                       case Applied => counted
                                       case LostWrite => if a.second == LostWrite then row else row.(status := Failed)
                                       case AppliedWithError =>
                                         if a.second == LostWrite then counted else counted.(status := Failed)
    {
      NoWrap(cfg, currentAttempts);
      var newAttempts := WrapInt32(currentAttempts + 1);
      if newAttempts >= cfg.maxRetries {
        var _ := MarkFailed(item, a.first, now);
        return;
      }
      var ok := Put(item, WriteRetry, a.first, now);
      if !ok {
        var _ := MarkFailed(item, a.second, now);
        assert old(trace) + [Wrote(a.first)] + [Wrote(a.second)] == old(trace) + RetrySteps(cfg, item, a);
      }
    }

    /**
     deliverWebhook: the item in hand is tried once and the worker is free for the next one.
     What becomes of its row is stated case by case; no other row changes.
     */
    method DeliverWebhook(item: Item, a: Answers, now: int)
      requires Valid() && state.phase == Lookup(item) && now == state.now
      modifies this`state, this`trace, queue
      ensures Valid() && state.phase.Idle?
      ensures trace == old(trace) + DeliverySteps(cfg, item, a)
      ensures state.batch == old(state.batch) && state.now == now
      ensures OnlyRow(item.id)
      ensures !old(queue.Has(item.id)) ==> queue.rows == old(queue.rows)
      ensures old(queue.Has(item.id)) ==> old(queue.rows)[item.id] == item.row && item.row.status == Pending
      // accepted: delivered
      ensures old(queue.Has(item.id)) && a.lookup.Found? && a.send.Accepted? ==>
                queue.rows[item.id] == if a.first == LostWrite then item.row else item.row.(status := Delivered)
      // no such webhook: failed
      ensures old(queue.Has(item.id)) && a.lookup.NotFound? ==>
                queue.rows[item.id] == if a.first == LostWrite then item.row else item.row.(status := Failed)
      // cancelled: as before
      ensures old(queue.Has(item.id)) && (a.lookup.LookupCancelled? || (a.lookup.Found? && a.send.SendCancelled?)) ==>
                queue.rows[item.id] == item.row
      // no webhook loaded, or not answered 2xx, at the last try: failed
      ensures var refused := a.lookup.LookupError? || (a.lookup.Found? && (a.send.Refused? || a.send.NotSent?));
              old(queue.Has(item.id)) && refused && AttemptsOf(item.row) + 1 >= cfg.maxRetries ==>
                queue.rows[item.id] == if a.first == LostWrite then item.row else item.row.(status := Failed)
      // the same before it: counted and put off, or failed when that write reports an error
      ensures AttemptsOf(item.row) >= 0
      ensures var refused := a.lookup.LookupError? || (a.lookup.Found? && (a.send.Refused? || a.send.NotSent?));
              old(queue.Has(item.id)) && refused && AttemptsOf(item.row) + 1 < cfg.maxRetries ==>
                var failed := item.row.(status := Failed);
                var counted := item.row.(attempts := Some(AttemptsOf(item.row) + 1),
                                         nextAttempt := Some(now + Backoff(AttemptsOf(item.row))));
                queue.rows[item.id] == match a.first
                                       case Applied => counted
                                       case LostWrite => if a.second == LostWrite then item.row else failed
                                       case AppliedWithError =>
                                         if a.second == LostWrite then counted else counted.(status := Failed)
    {
      var attempts := LookUp(item, a);
      if a.lookup.Found? {
        SendAndSettle(item, attempts, a, now);
        Assoc(old(trace), [Looked(Found)], SendSteps(cfg, item, a));
      } else {
        SettleLookup(item, attempts, a, now);
        Assoc(old(trace), [Looked(a.lookup)], LookupSteps(cfg, item, a));
      }
    }

    /** deliverWebhook up to the answer of its lookup. */
    method LookUp(item: Item, a: Answers) returns (attempts: int)
      requires Valid() && state.phase == Lookup(item)
      modifies this`state, this`trace
      ensures Valid() && trace == old(trace) + [Looked(a.lookup)]
      ensures state.batch == old(state.batch) && state.now == old(state.now)
      ensures state.phase == match a.lookup
                             case Found => Send(item)
                             case LookupCancelled => Idle
                             case NotFound => Settle(item, WriteFailed)
                             case LookupError => Settle(item, RetryOrFail(cfg, item))
      ensures item.id < |state.tally| && item.id < |queue.rows| && 0 <= attempts == AttemptsOf(item.row) < cfg.Cap()
      ensures queue.Has(item.id) ==> queue.rows[item.id] == item.row && item.row.status == Pending
    {
      ItemInHand(cfg, trace, item);
      attempts := 0;
      if item.row.attempts.Some? {
        attempts := item.row.attempts.value;
      }
      Note(Looked(a.lookup));
    }

    /** deliverWebhook after a failed lookup. */
    method SettleLookup(item: Item, attempts: int, a: Answers, now: int)
      requires Valid() && now == state.now && !a.lookup.Found?
      requires state.phase == match a.lookup
                              case LookupCancelled => Idle
                              case NotFound => Settle(item, WriteFailed)
                              case LookupError => Settle(item, RetryOrFail(cfg, item))
      requires item.id < |state.tally| && 0 <= AttemptsOf(item.row) == attempts < cfg.Cap()
      modifies this`state, this`trace, queue
      ensures Valid() && state.phase.Idle?
      ensures trace == old(trace) + LookupSteps(cfg, item, a)
      ensures state.batch == old(state.batch) && state.now == now
      ensures OnlyRow(item.id)
      ensures a.lookup.LookupCancelled? || !old(queue.Has(item.id)) ==> queue.rows == old(queue.rows)
      ensures var last := a.lookup.LookupError? && attempts + 1 >= cfg.maxRetries;
              old(queue.Has(item.id)) && (a.lookup.NotFound? || last) ==>
                var row := old(queue.rows)[item.id];
                queue.rows[item.id] == if a.first == LostWrite then row else row.(status := Failed)
      ensures old(queue.Has(item.id)) && a.lookup.LookupError? && attempts + 1 < cfg.maxRetries ==>
                var row := old(queue.rows)[item.id];
                var counted := row.(status := Pending, attempts := Some(attempts + 1),
                                    nextAttempt := Some(now + Backoff(attempts)));
                queue.rows[item.id] == match a.first
                                       case Applied => counted
                                       case LostWrite => if a.second == LostWrite then row else row.(status := Failed)
                                       case AppliedWithError =>
                                         if a.second == LostWrite then counted else counted.(status := Failed)
    {
      if a.lookup.LookupCancelled? {
        assert old(trace) + [] == old(trace);
        return;
      }
      if a.lookup.NotFound? {
        var _ := MarkFailed(item, a.first, now);
        return;
      }
      ScheduleRetry(item, attempts, a, now);
    }

    /** deliverWebhook from its POST on. */
    method SendAndSettle(item: Item, attempts: int, a: Answers, now: int)
      requires Valid() && state.phase == Send(item) && now == state.now && a.lookup.Found?
      requires item.id < |state.tally| && 0 <= AttemptsOf(item.row) == attempts < cfg.Cap()
      modifies this`state, this`trace, queue
      ensures Valid() && state.phase.Idle?
      ensures trace == old(trace) + SendSteps(cfg, item, a)
      ensures state.batch == old(state.batch) && state.now == now
      ensures OnlyRow(item.id)
      ensures !old(queue.Has(item.id)) ==> queue.rows == old(queue.rows)
      ensures old(queue.Has(item.id)) && a.send.Accepted? ==>
                var row := old(queue.rows)[item.id];
                queue.rows[item.id] == if a.first == LostWrite then row else row.(status := Delivered)
      ensures a.send.SendCancelled? ==> queue.rows == old(queue.rows)
      ensures old(queue.Has(item.id)) && (a.send.Refused? || a.send.NotSent?) && attempts + 1 >= cfg.maxRetries ==>
                var row := old(queue.rows)[item.id];
                queue.rows[item.id] == if a.first == LostWrite then row else row.(status := Failed)
      ensures old(queue.Has(item.id)) && (a.send.Refused? || a.send.NotSent?) && attempts + 1 < cfg.maxRetries ==>
                var row := old(queue.rows)[item.id];
                var counted := row.(status := Pending, attempts := Some(attempts + 1),
                                    nextAttempt := Some(now + Backoff(attempts)));
                queue.rows[item.id] == match a.first
                                       case Applied => counted
                                       case LostWrite => if a.second == LostWrite then row else row.(status := Failed)
                                       case AppliedWithError =>
                                         if a.second == LostWrite then counted else counted.(status := Failed)
    {
      ghost var before := trace;
      Note(Sent(a.send));
      if !a.send.Accepted? {
        if a.send.SendCancelled? {
          assert trace == before + SendSteps(cfg, item, a);
          return;
        }
        ScheduleRetry(item, attempts, a, now);
        Assoc(before, [Sent(a.send)], RetrySteps(cfg, item, a));
        return;
      }
      var _ := MarkDelivered(item, a.first, now);
      Assoc(before, [Sent(a.send)], [Wrote(a.first)]);
    }

    /**
     processBatch: fetch, then try the items in order until the batch is done or shutdown
     is seen before item `stop`.  `answers` gives the world's answers, item by item.
     */
    method ProcessBatch(answers: seq<Answers>, stop: nat, now: int)
      requires Valid() && state.phase.Idle? && state.batch == [] && now == state.now
      requires |answers| >= cfg.batchSize
      modifies this`state, this`trace, queue
      ensures Valid() && state.phase.Idle? && state.batch == [] && state.now == now
      ensures var items := Select(old(queue.rows), now, cfg.batchSize, 0);
              trace == old(trace) + [Fetch] + BatchSteps(cfg, items, answers, Min(stop, |items|))
                       + (if stop < |items| then [Abandon] else [])
      // each fetched row up to `stop` is tried with its own answers, and no other row changes
      ensures var items := Select(old(queue.rows), now, cfg.batchSize, 0);
              && |queue.rows| == |old(queue.rows)|
              && (forall i :: 0 <= i < |items| && i < stop ==>
                    Outcome(cfg, items[i], answers[i], now, queue.rows[items[i].id]))
              && forall id ::
                   0 <= id < |queue.rows| && (forall i :: 0 <= i < |items| && i < stop ==> items[i].id != id) ==>
                     queue.rows[id] == old(queue.rows)[id]
    {
      var items := queue.GetPending(now, cfg.batchSize);
      Note(Fetch);
      ghost var fetched := trace;
      for i := 0 to |items|
        invariant Valid() && state.phase.Idle? && state.now == now
        invariant i <= stop && state.batch == items[i..]
        invariant trace == fetched + BatchSteps(cfg, items, answers, i)
        invariant |queue.rows| == |old(queue.rows)|
        invariant forall k :: 0 <= k < i ==> Outcome(cfg, items[k], answers[k], now, queue.rows[items[k].id])
        invariant forall id :: 0 <= id < |queue.rows| && (forall k :: 0 <= k < i ==> items[k].id != id) ==>
                    queue.rows[id] == old(queue.rows)[id]
      {
        if i == stop {
          Note(Abandon);
          return;
        }
        assert state.batch[0] == items[i] && state.batch[1..] == items[i + 1..];
        ProcessNext(items[i], answers[i], now);
        Assoc(fetched, BatchSteps(cfg, items, answers, i), [Take] + DeliverySteps(cfg, items[i], answers[i]));
      }
    }

    /** The body of the batch loop. */
    method ProcessNext(item: Item, a: Answers, now: int)
      requires Valid() && state.phase.Idle? && state.batch != [] && state.batch[0] == item && now == state.now
      modifies this`state, this`trace, queue
      ensures Valid() && state.phase.Idle?
      ensures trace == old(trace) + ([Take] + DeliverySteps(cfg, item, a))
      ensures state.batch == old(state.batch)[1..] && state.now == now
      ensures OnlyRow(item.id)
      ensures old(queue.Has(item.id)) ==> Outcome(cfg, item, a, now, queue.rows[item.id])
    {
      Note(Take);
      DeliverWebhook(item, a, now);
      Assoc(old(trace), [Take], DeliverySteps(cfg, item, a));
    }

    /** Meanwhile, elsewhere: the producer inserts a row, a row is deleted with its webhook or email, or time passes. */
    method Elsewhere(e: Event, time: int)
      requires Valid() && time == state.now && Enabled(cfg, state, e) && (e.Enqueue? || e.Delete? || e.Tick?)
      modifies this`state, this`trace, queue
      ensures Valid()
      ensures trace == old(trace) + [e] && state == Step(cfg, old(state), e)
    {
      RunSnoc(cfg, EMPTY, trace, e);
      state := Step(cfg, state, e);
      trace := trace + [e];
      match e {
        case Enqueue(webhook, email) => queue.Insert(webhook, email, time);
        case Delete(id) => queue.Remove(id);
        case _ =>
      }
    }
  }

  /** The item that the worker holds is a row's, with a count that the schedule can be indexed with. */
  lemma ItemInHand(cfg: Config, trace: seq<Event>, item: Item)
    requires cfg.Valid() && CanRun(cfg, EMPTY, trace) && Run(cfg, EMPTY, trace).phase == Lookup(item)
    ensures var s := Run(cfg, EMPTY, trace);
            && item.id < |s.tally| == |s.rows| && 0 <= AttemptsOf(item.row) < cfg.Cap()
            && (s.rows[item.id].live ==> s.rows[item.id] == item.row && item.row.status == Pending)
  {
    InvRun(cfg, EMPTY, trace);
  }

  lemma Assoc(a: seq<Event>, b: seq<Event>, c: seq<Event>)
    ensures a + b + c == a + (b + c)
  {
  }

  /** The steps for the first `n` items of a batch. */
  function BatchSteps(cfg: Config, items: seq<Item>, answers: seq<Answers>, n: nat): seq<Event>
    requires n <= |items| <= |answers|
  {
    if n == 0 then []
    else BatchSteps(cfg, items, answers, n - 1) + ([Take] + DeliverySteps(cfg, items[n - 1], answers[n - 1]))
  }
}
