/** What the webhook queue guarantees over whole runs; see WebhookQueue for the machine. */
module WebhookGuarantees {
  import opened Common
  import opened WebhookQueue

  // ---------------------------------------------------------------------------
  // The delivery ledger
  // ---------------------------------------------------------------------------

  /**
   In every reachable state, for every row: the requests sent plus the tries that ended
   before one was sent (less those written twice) are exactly the counted attempts, the
   final outcome, the lost writes, the cancelled sends and the try in progress.
   */
  lemma Ledger(cfg: Config, es: seq<Event>, id: nat)
    requires cfg.Valid() && CanRun(cfg, EMPTY, es)
    requires var s := Run(cfg, EMPTY, es); id < |s.rows| && s.rows[id].live
    ensures var s := Run(cfg, EMPTY, es);
            && id < |s.tally|
            && Balanced(s.rows[id], s.tally[id], Unsettled(s.phase, id))
            && 0 <= AttemptsOf(s.rows[id]) <= cfg.Cap() - 1
  {
    InvRun(cfg, EMPTY, es);
  }

  // What the tally counts, in terms of the steps of the run.

  predicate IsRequest(s: State, e: Event, id: nat) {
    && s.phase.Send? && s.phase.item.id == id
    && (e == Sent(Accepted) || e == Sent(Refused) || e == Sent(SendCancelled(true)))
  }

  predicate IsAcceptance(s: State, e: Event, id: nat) {
    s.phase.Send? && s.phase.item.id == id && e == Sent(Accepted)
  }

  predicate IsCancelledSend(s: State, e: Event, id: nat) {
    s.phase.Send? && s.phase.item.id == id && e == Sent(SendCancelled(true))
  }

  /** The last write for a try is lost, or never made because the process dies. */
  predicate IsLostWrite(s: State, e: Event, id: nat) {
    || (s.phase.Settle? && s.phase.item.id == id
        && (e == Crash || (e == Wrote(LostWrite) && s.phase.write != WriteRetry)))
    || (s.phase.Resettle? && s.phase.item.id == id && !s.phase.retried && (e == Crash || e == Wrote(LostWrite)))
  }

  function Count(cfg: Config, s: State, es: seq<Event>, counts: (State, Event) -> bool): nat
    requires CanRun(cfg, s, es)
  {
    if es == [] then 0
    else
      var n := |es| - 1;
      Count(cfg, s, es[..n], counts) + if counts(Run(cfg, s, es[..n]), es[n]) then 1 else 0
  }

  function TallyOf(s: State, id: nat): Tally {
    if id < |s.tally| then s.tally[id] else NO_TALLY
  }

  lemma TallyStep(cfg: Config, s: State, e: Event, id: nat)
    requires Enabled(cfg, s, e)
    ensures var t, t' := TallyOf(s, id), TallyOf(Step(cfg, s, e), id);
            && t'.posts == t.posts + Bit(IsRequest(s, e, id))
            && t'.accepted == t.accepted + Bit(IsAcceptance(s, e, id))
            && t'.cancelled == t.cancelled + Bit(IsCancelledSend(s, e, id))
  {
  }

  lemma LostStep(cfg: Config, s: State, e: Event, id: nat)
    requires Inv(cfg, s) && Enabled(cfg, s, e)
    ensures TallyOf(Step(cfg, s, e), id).lost == TallyOf(s, id).lost + Bit(IsLostWrite(s, e, id))
  {
  }

  /** The tally of a row counts exactly its requests, acceptances, cancelled sends and lost writes. */
  lemma {:induction false} TallyCounts(cfg: Config, es: seq<Event>, id: nat)
    requires cfg.Valid() && CanRun(cfg, EMPTY, es)
    ensures var t := TallyOf(Run(cfg, EMPTY, es), id);
            && t.posts == Count(cfg, EMPTY, es, (s, e) => IsRequest(s, e, id))
            && t.accepted == Count(cfg, EMPTY, es, (s, e) => IsAcceptance(s, e, id))
            && t.cancelled == Count(cfg, EMPTY, es, (s, e) => IsCancelledSend(s, e, id))
            && t.lost == Count(cfg, EMPTY, es, (s, e) => IsLostWrite(s, e, id))
  {
    if es != [] {
      var n := |es| - 1;
      TallyCounts(cfg, es[..n], id);
      InvRun(cfg, EMPTY, es[..n]);
      TallyStep(cfg, Run(cfg, EMPTY, es[..n]), es[n], id);
      LostStep(cfg, Run(cfg, EMPTY, es[..n]), es[n], id);
    }
  }

  /** Without lost writes and cancelled sends a row is POSTed at most MaxRetries times (once if that is negative). */
  lemma PostsAreBounded(cfg: Config, es: seq<Event>, id: nat)
    requires cfg.Valid() && CanRun(cfg, EMPTY, es)
    requires var s := Run(cfg, EMPTY, es); id < |s.rows| && s.rows[id].live && id < |s.tally|
    ensures var s := Run(cfg, EMPTY, es);
            s.tally[id].posts <= cfg.Cap() + s.tally[id].lost + s.tally[id].cancelled
  {
    Ledger(cfg, es, id);
    InvRun(cfg, EMPTY, es);
    var s := Run(cfg, EMPTY, es);
    if Unsettled(s.phase, id) {
      assert IsDue(s.phase.item.row, s.now);
    }
  }

  // ---------------------------------------------------------------------------
  // Final states are final
  // ---------------------------------------------------------------------------

  lemma TerminalStep(cfg: Config, s: State, e: Event, id: nat)
    requires Inv(cfg, s) && Enabled(cfg, s, e)
    requires id < |s.rows| && s.rows[id].status != Pending
    ensures var s' := Step(cfg, s, e);
            && id < |s'.rows|
            && (s'.rows[id] == s.rows[id] || s'.rows[id] == s.rows[id].(live := false))
  {
  }

  lemma {:induction false} RunConcat(cfg: Config, s: State, es: seq<Event>, more: seq<Event>)
    requires CanRun(cfg, s, es + more)
    ensures CanRun(cfg, s, es) && CanRun(cfg, Run(cfg, s, es), more)
    ensures Run(cfg, s, es + more) == Run(cfg, Run(cfg, s, es), more)
    decreases |more|
  {
    if more == [] {
      assert es + more == es;
    } else {
      var n := |more| - 1;
      assert (es + more)[..|es + more| - 1] == es + more[..n];
      RunConcat(cfg, s, es, more[..n]);
    }
  }

  lemma {:induction false} TerminalStays(cfg: Config, s: State, more: seq<Event>, id: nat)
    requires Inv(cfg, s) && CanRun(cfg, s, more)
    requires id < |s.rows| && s.rows[id].status != Pending
    ensures var s' := Run(cfg, s, more);
            id < |s'.rows| && (s'.rows[id] == s.rows[id] || s'.rows[id] == s.rows[id].(live := false))
  {
    if more != [] {
      var n := |more| - 1;
      TerminalStays(cfg, s, more[..n], id);
      InvRun(cfg, s, more[..n]);
      TerminalStep(cfg, Run(cfg, s, more[..n]), more[n], id);
    }
  }

  lemma DeliveredWasAccepted(cfg: Config, s: State, id: nat)
    requires Inv(cfg, s) && id < |s.rows| && s.rows[id].live && s.rows[id].status == Delivered
    ensures s.tally[id].accepted > 0
  {
    assert RowOk(cfg, s.rows[id], s.tally[id], Unsettled(s.phase, id));
  }

  /**
   With one worker, a row that is delivered or failed at some point of a run is
   unchanged (or deleted) at every later point, whatever is lost or killed in between;
   and a delivered row was answered 2xx.
   */
  lemma TerminalIsFinal(cfg: Config, es: seq<Event>, more: seq<Event>, id: nat)
    requires cfg.Valid() && CanRun(cfg, EMPTY, es + more)
    requires CanRun(cfg, EMPTY, es)
    requires var s := Run(cfg, EMPTY, es); id < |s.rows| && s.rows[id].live && s.rows[id].status != Pending
    ensures var s, s' := Run(cfg, EMPTY, es), Run(cfg, EMPTY, es + more);
            && id < |s'.rows| && id < |s.tally|
            && (s'.rows[id] == s.rows[id] || s'.rows[id] == s.rows[id].(live := false))
            && (s.rows[id].status == Delivered ==> s.tally[id].accepted > 0)
  {
    InvRun(cfg, EMPTY, es);
    RunConcat(cfg, EMPTY, es, more);
    var s := Run(cfg, EMPTY, es);
    TerminalStays(cfg, s, more, id);
    if s.rows[id].status == Delivered {
      DeliveredWasAccepted(cfg, s, id);
    }
  }

  /** Each snapshot still to be tried equals its row, so no newer count is ever overwritten. */
  lemma SnapshotsAreCurrent(cfg: Config, es: seq<Event>, k: nat)
    requires cfg.Valid() && CanRun(cfg, EMPTY, es)
    requires k < |Run(cfg, EMPTY, es).batch|
    ensures var s := Run(cfg, EMPTY, es); var item := s.batch[k];
            item.id < |s.rows| && (s.rows[item.id].live ==> s.rows[item.id] == item.row && IsPending(item.row))
  {
    InvRun(cfg, EMPTY, es);
    var s := Run(cfg, EMPTY, es);
    assert Fresh(cfg, s, s.batch[k]);
  }

  // ---------------------------------------------------------------------------
  // Retry spacing
  // ---------------------------------------------------------------------------

  lemma {:induction false} RetriesAddUp(row: Row, t: Tally, n: nat)
    requires Spaced(row, t) && 0 < n <= |t.retriedAt|
    ensures t.retriedAt[n - 1] + Backoff(n - 1) >= row.createdAt + TotalBackoff(n)
  {
    if n > 1 {
      RetriesAddUp(row, t, n - 1);
    } else {
      assert TotalBackoff(0) == 0;
    }
  }

  /**
   A row being tried, or about to be, with `a` counted attempts was created at least the
   first `a` waits ago, and its last counted retry was written at least the last wait ago.
   The index into the schedule is in bounds at every such point.
   */
  lemma TriesAreSpaced(cfg: Config, es: seq<Event>)
    requires cfg.Valid() && CanRun(cfg, EMPTY, es)
    requires !Run(cfg, EMPTY, es).phase.Idle?
    ensures var s := Run(cfg, EMPTY, es); var item := s.phase.item; var a := AttemptsOf(item.row);
            && a >= 0 && 0 <= BackoffIndex(a) < |BACKOFF_SCHEDULE|
            && item.id < |s.rows| && item.id < |s.tally|
            && (s.rows[item.id].live && s.rows[item.id] == item.row ==>
                  && s.now >= item.row.createdAt + TotalBackoff(a)
                  && |s.tally[item.id].retriedAt| == a
                  && (a > 0 ==> s.now >= s.tally[item.id].retriedAt[a - 1] + Backoff(a - 1)))
  {
    InvRun(cfg, EMPTY, es);
    var s := Run(cfg, EMPTY, es);
    var item := s.phase.item;
    var a := AttemptsOf(item.row);
    if s.rows[item.id].live && s.rows[item.id] == item.row {
      assert RowOk(cfg, s.rows[item.id], s.tally[item.id], Unsettled(s.phase, item.id));
      if a > 0 {
        RetriesAddUp(item.row, s.tally[item.id], a);
      }
    }
  }

  lemma DefaultWaits()
    ensures TotalBackoff(DEFAULT_MAX_RETRIES - 1) == 81 * MINUTE
  {
    assert TotalBackoff(1) == 1 * MINUTE;
    assert TotalBackoff(2) == 6 * MINUTE;
    assert TotalBackoff(3) == 21 * MINUTE;
  }

  lemma ExhaustedAtTheCap(cfg: Config, s: State)
    requires Inv(cfg, s) && s.phase.Settle? && s.phase.item.id < |s.rows| && s.rows[s.phase.item.id].live
    requires RetriesExceeded(cfg, AttemptsOf(s.phase.item.row))
    ensures AttemptsOf(s.phase.item.row) == cfg.Cap() - 1 && s.rows[s.phase.item.id] == s.phase.item.row
  {
    assert Fresh(cfg, s, s.phase.item);
  }

  /**
   A row that is about to be given up for exhaustion has lived through the whole schedule
   below its cap; at the default of five tries that is 81 minutes.
   */
  lemma ExhaustionTakesTime(cfg: Config, es: seq<Event>)
    requires cfg.Valid() && CanRun(cfg, EMPTY, es)
    requires var s := Run(cfg, EMPTY, es);
             s.phase.Settle? && s.phase.item.id < |s.rows| && s.rows[s.phase.item.id].live
             && RetriesExceeded(cfg, AttemptsOf(s.phase.item.row))
    ensures var s := Run(cfg, EMPTY, es);
            && s.now - s.phase.item.row.createdAt >= TotalBackoff(cfg.Cap() - 1)
            && (cfg.maxRetries == DEFAULT_MAX_RETRIES ==> s.now - s.phase.item.row.createdAt >= 81 * MINUTE)
  {
    TriesAreSpaced(cfg, es);
    InvRun(cfg, EMPTY, es);
    ExhaustedAtTheCap(cfg, Run(cfg, EMPTY, es));
    DefaultWaits();
  }

  /** One of the waits behind the row's counted retries was the four-hour one. */
  ghost predicate WaitsFourHours(row: Row) {
    exists a :: 0 <= a < AttemptsOf(row) && Backoff(a) == 4 * HOUR
  }

  ghost predicate LeadsToFourHours(cfg: Config, es: seq<Event>, id: nat) {
    && CanRun(cfg, EMPTY, es)
    && var s := Run(cfg, EMPTY, es); id < |s.rows| && s.rows[id].live && WaitsFourHours(s.rows[id])
  }

  // ---------------------------------------------------------------------------
  // Drain
  // ---------------------------------------------------------------------------

  /** The tries a row may still take. */
  function Left(cfg: Config, row: Row): int {
    if IsPending(row) then cfg.Cap() - AttemptsOf(row) else 0
  }

  function Work(cfg: Config, rows: seq<Row>): int {
    if rows == [] then 0 else Work(cfg, rows[..|rows| - 1]) + Left(cfg, rows[|rows| - 1])
  }

  lemma {:induction false} WorkUpdate(cfg: Config, rows: seq<Row>, id: nat, row: Row)
    requires id < |rows|
    ensures Work(cfg, rows[id := row]) == Work(cfg, rows) - Left(cfg, rows[id]) + Left(cfg, row)
    decreases |rows|
  {
    var n := |rows| - 1;
    if id < n {
      assert rows[id := row][..n] == rows[..n][id := row];
      WorkUpdate(cfg, rows[..n], id, row);
    } else {
      assert rows[id := row][..n] == rows[..n];
    }
  }

  /** The step ends a try of a row that still exists by a write that takes effect. */
  predicate Progress(s: State, e: Event) {
    && e.Wrote? && e.write != LostWrite
    && s.phase.Settle? && s.phase.item.id < |s.rows| && s.rows[s.phase.item.id].live
  }

  lemma WorkStep(cfg: Config, s: State, e: Event)
    requires Inv(cfg, s) && Enabled(cfg, s, e)
    ensures Work(cfg, Step(cfg, s, e).rows) + Bit(Progress(s, e))
            <= Work(cfg, s.rows) + (if e.Enqueue? then cfg.Cap() else 0)
    ensures e.Tick? || e.Crash? || e.Fetch? || e.Take? || e.Abandon? || e.Looked? || e.Sent?
            ==> Work(cfg, Step(cfg, s, e).rows) == Work(cfg, s.rows)
  {
    match e
    case Enqueue(_, _) =>
      var rows := Step(cfg, s, e).rows;
      assert rows[..|s.rows|] == s.rows;
    case Delete(id) =>
      WorkUpdate(cfg, s.rows, id, s.rows[id].(live := false));
      if s.rows[id].live {
        assert RowOk(cfg, s.rows[id], s.tally[id], Unsettled(s.phase, id));
      }
    case Wrote(result) => WorkWrote(cfg, s, result);
    case _ =>
  }

  lemma WorkWrote(cfg: Config, s: State, result: WriteResult)
    requires Inv(cfg, s) && Enabled(cfg, s, Wrote(result))
    ensures Work(cfg, Step(cfg, s, Wrote(result)).rows) + Bit(Progress(s, Wrote(result))) <= Work(cfg, s.rows)
  {
    var item := s.phase.item;
    var id, rows := item.id, Step(cfg, s, Wrote(result)).rows;
    if rows != s.rows {
      NoWrap(cfg, AttemptsOf(item.row));
      WorkUpdate(cfg, s.rows, id, rows[id]);
      assert RowOk(cfg, s.rows[id], s.tally[id], Unsettled(s.phase, id));
    } else if Progress(s, Wrote(result)) {
      NoWrap(cfg, AttemptsOf(item.row));
    }
  }

  function Enqueued(es: seq<Event>): nat {
    if es == [] then 0 else Enqueued(es[..|es| - 1]) + if es[|es| - 1].Enqueue? then 1 else 0
  }

  /** Deliveries of a run that end in a write that takes effect. */
  function Deliveries(cfg: Config, s: State, es: seq<Event>): nat
    requires CanRun(cfg, s, es)
  {
    if es == [] then 0
    else
      var n := |es| - 1;
      Deliveries(cfg, s, es[..n]) + if Progress(Run(cfg, s, es[..n]), es[n]) then 1 else 0
  }

  /** The tries that insertions add. */
  function Added(cfg: Config, es: seq<Event>): nat {
    if es == [] then 0 else Added(cfg, es[..|es| - 1]) + if es[|es| - 1].Enqueue? then cfg.Cap() else 0
  }

  lemma {:induction false} AddedIsLinear(cfg: Config, es: seq<Event>)
    ensures Added(cfg, es) == cfg.Cap() * Enqueued(es)
  {
    if es != [] {
      AddedIsLinear(cfg, es[..|es| - 1]);
      if es[|es| - 1].Enqueue? {
        assert cfg.Cap() * Enqueued(es) == cfg.Cap() * Enqueued(es[..|es| - 1]) + cfg.Cap();
      }
    }
  }

  lemma {:induction false} WorkRun(cfg: Config, s: State, es: seq<Event>)
    requires Inv(cfg, s) && CanRun(cfg, s, es)
    ensures Work(cfg, Run(cfg, s, es).rows) + Deliveries(cfg, s, es) <= Work(cfg, s.rows) + Added(cfg, es)
  {
    if es != [] {
      var n := |es| - 1;
      WorkRun(cfg, s, es[..n]);
      InvRun(cfg, s, es[..n]);
      WorkStep(cfg, Run(cfg, s, es[..n]), es[n]);
    }
  }

  /**
   Every delivery uses up work and nothing but insertions adds any: from any reachable
   state, for any mix of responses, faults and deletions, the deliveries of a run are at
   most the work at its start plus the cap for each inserted row.
   */
  lemma DeliveriesUseWork(cfg: Config, s: State, es: seq<Event>)
    requires Inv(cfg, s) && CanRun(cfg, s, es)
    ensures Work(cfg, Run(cfg, s, es).rows) + Deliveries(cfg, s, es) <= Work(cfg, s.rows) + cfg.Cap() * Enqueued(es)
  {
    WorkRun(cfg, s, es);
    AddedIsLinear(cfg, es);
  }

  lemma {:induction false} WorkBounds(cfg: Config, rows: seq<Row>)
    requires forall id :: 0 <= id < |rows| && IsPending(rows[id]) ==> 0 <= AttemptsOf(rows[id]) < cfg.Cap()
    ensures 0 <= Work(cfg, rows) <= cfg.Cap() * |rows|
    ensures Work(cfg, rows) == 0 <==> forall id :: 0 <= id < |rows| ==> !IsPending(rows[id])
  {
    if rows != [] {
      var n := |rows| - 1;
      WorkBounds(cfg, rows[..n]);
      assert cfg.Cap() * |rows| == cfg.Cap() * n + cfg.Cap();
      assert forall id :: 0 <= id < n ==> rows[..n][id] == rows[id];
      if Work(cfg, rows) != 0 && !IsPending(rows[n]) {
        var id :| 0 <= id < n && IsPending(rows[..n][id]);
        assert IsPending(rows[id]);
      }
    }
  }

  /**
   A finite queue drains: from any reachable state with n rows, once n times MaxRetries
   deliveries have taken effect and nothing was inserted meanwhile, no row is pending;
   and no run without insertions holds more deliveries than that.
   */
  lemma QueueDrains(cfg: Config, s: State, es: seq<Event>)
    requires Inv(cfg, s) && CanRun(cfg, s, es) && Enqueued(es) == 0
    ensures Deliveries(cfg, s, es) <= cfg.Cap() * |s.rows|
    ensures Deliveries(cfg, s, es) >= Work(cfg, s.rows) ==>
              forall id :: 0 <= id < |Run(cfg, s, es).rows| ==> !IsPending(Run(cfg, s, es).rows[id])
  {
    InvRun(cfg, s, es);
    var s' := Run(cfg, s, es);
    PendingCounts(cfg, s);
    PendingCounts(cfg, s');
    WorkBounds(cfg, s.rows);
    WorkBounds(cfg, s'.rows);
    DeliveriesUseWork(cfg, s, es);
  }

  lemma PendingCounts(cfg: Config, s: State)
    requires Inv(cfg, s)
    ensures forall id :: 0 <= id < |s.rows| && IsPending(s.rows[id]) ==> 0 <= AttemptsOf(s.rows[id]) < cfg.Cap()
  {
    forall id | 0 <= id < |s.rows| && IsPending(s.rows[id])
      ensures 0 <= AttemptsOf(s.rows[id]) < cfg.Cap()
    {
      assert RowOk(cfg, s.rows[id], s.tally[id], Unsettled(s.phase, id));
    }
  }

  lemma TickThenFetch(cfg: Config, s: State, wait: nat)
    requires s.phase.Idle? && s.batch == []
    ensures CanRun(cfg, s, [Tick(wait), Fetch])
    ensures Run(cfg, s, [Tick(wait), Fetch])
            == s.(now := s.now + wait, batch := Select(s.rows, s.now + wait, cfg.batchSize, 0))
  {
    var tick, none := [Tick(wait)], [];
    RunSnoc(cfg, s, none, Tick(wait));
    assert none + [Tick(wait)] == tick;
    RunSnoc(cfg, s, tick, Fetch);
    assert tick + [Fetch] == [Tick(wait), Fetch];
  }

  lemma SomeIsSelected(rows: seq<Row>, now: int, limit: nat, id: nat)
    requires id < |rows| && IsDue(rows[id], now) && limit > 0
    ensures Select(rows, now, limit, 0) != []
  {
  }

  /**
   The worker never stalls: between batches, some wait makes the next one contain a row, as long
   as one is pending.
   */
  lemma NoStall(cfg: Config, s: State, id: nat) returns (wait: nat)
    requires Inv(cfg, s) && s.phase.Idle? && s.batch == []
    requires id < |s.rows| && IsPending(s.rows[id])
    ensures CanRun(cfg, s, [Tick(wait), Fetch])
    ensures Run(cfg, s, [Tick(wait), Fetch]).batch != []
  {
    var row := s.rows[id];
    wait := if row.nextAttempt.Some? && row.nextAttempt.value > s.now then row.nextAttempt.value - s.now else 0;
    TickThenFetch(cfg, s, wait);
    SomeIsSelected(s.rows, s.now + wait, cfg.batchSize, id);
  }

  // ---------------------------------------------------------------------------
  // Drain for any answers
  // ---------------------------------------------------------------------------

  /** How the world answers one delivery, when nothing is cancelled. */
  datatype Answer = Answer(lookup: LookupResult, send: SendResult) {
    predicate IsDefinite() {
      !lookup.LookupCancelled? && !send.SendCancelled?
    }
  }

  /** The delivery of the next item, all its writes applied. */
  function Delivery(a: Answer): seq<Event> {
    [Take, Looked(a.lookup)] + (if a.lookup.Found? then [Sent(a.send)] else []) + [Wrote(Applied)]
  }

  /** `es` only waits, fetches and delivers; the deliveries are answered by `answers`, from number `n` on. */
  ghost predicate Follows(es: seq<Event>, answers: nat -> Answer, n: nat)
    decreases |es|
  {
    || es == []
    || (|es| >= 2 && es[0].Tick? && es[1].Fetch? && Follows(es[2..], answers, n))
    || (var d := Delivery(answers(n)); d <= es && Follows(es[|d|..], answers, n + 1))
  }

  ghost predicate Drained(s: State) {
    forall id :: 0 <= id < |s.rows| ==> !IsPending(s.rows[id])
  }

  lemma {:induction false} RunJoin(cfg: Config, s: State, es: seq<Event>, more: seq<Event>)
    requires CanRun(cfg, s, es) && CanRun(cfg, Run(cfg, s, es), more)
    ensures CanRun(cfg, s, es + more)
    ensures Run(cfg, s, es + more) == Run(cfg, Run(cfg, s, es), more)
    decreases |more|
  {
    if more == [] {
      assert es + more == es;
    } else {
      var n := |more| - 1;
      assert (es + more)[..|es + more| - 1] == es + more[..n];
      RunJoin(cfg, s, es, more[..n]);
    }
  }

  lemma RunOne(cfg: Config, s: State, e: Event)
    requires Enabled(cfg, s, e)
    ensures CanRun(cfg, s, [e]) && Run(cfg, s, [e]) == Step(cfg, s, e)
  {
    var none := [];
    RunSnoc(cfg, s, none, e);
    assert none + [e] == [e];
  }

  /** The try of the item in hand, from its lookup to its write. */
  lemma TryOnce(cfg: Config, s: State, item: Item, a: Answer) returns (es: seq<Event>, s': State)
    requires Inv(cfg, s) && s.phase == Lookup(item) && a.IsDefinite()
    ensures es == [Looked(a.lookup)] + if a.lookup.Found? then [Sent(a.send)] else []
    ensures CanRun(cfg, s, es) && s' == Run(cfg, s, es) && Inv(cfg, s')
    ensures s'.phase.Settle? && s'.phase.item == item && s'.rows == s.rows && s'.batch == s.batch
  {
    var e := Looked(a.lookup);
    RunOne(cfg, s, e);
    InvStep(cfg, s, e);
    es, s' := [e], Step(cfg, s, e);
    if a.lookup.Found? {
      var f := Sent(a.send);
      RunSnoc(cfg, s, es, f);
      InvStep(cfg, s', f);
      es, s' := es + [f], Step(cfg, s', f);
    } else {
      assert es == es + [];
    }
  }

  /** Its write, which ends it. */
  lemma SettleOnce(cfg: Config, s: State) returns (s': State)
    requires Inv(cfg, s) && s.phase.Settle?
    ensures Enabled(cfg, s, Wrote(Applied)) && s' == Step(cfg, s, Wrote(Applied))
    ensures Inv(cfg, s') && s'.phase.Idle? && s'.batch == s.batch
    ensures Work(cfg, s'.rows) + Bit(Progress(s, Wrote(Applied))) <= Work(cfg, s.rows)
  {
    s' := Step(cfg, s, Wrote(Applied));
    InvStep(cfg, s, Wrote(Applied));
    WorkStep(cfg, s, Wrote(Applied));
  }

  /** One delivery shortens the batch and uses up work, unless its row was deleted. */
  lemma DeliverOnce(cfg: Config, s: State, a: Answer) returns (s': State)
    requires Inv(cfg, s) && s.phase.Idle? && s.batch != [] && a.IsDefinite()
    ensures CanRun(cfg, s, Delivery(a)) && s' == Run(cfg, s, Delivery(a))
    ensures Inv(cfg, s') && s'.phase.Idle? && s'.batch == s.batch[1..]
    ensures var id := s.batch[0].id;
            id < |s.rows| && Work(cfg, s'.rows) + Bit(s.rows[id].live) <= Work(cfg, s.rows)
  {
    assert Fresh(cfg, s, s.batch[0]);
    var item, take := s.batch[0], [Take];
    RunOne(cfg, s, Take);
    InvStep(cfg, s, Take);
    var s1 := Step(cfg, s, Take);
    var try, s2 := TryOnce(cfg, s1, item, a);
    RunJoin(cfg, s, take, try);
    s' := SettleOnce(cfg, s2);
    RunSnoc(cfg, s, take + try, Wrote(Applied));
    assert take + try + [Wrote(Applied)] == Delivery(a);
  }

  /** A wait and a fetch that finds some live row, when one is pending. */
  lemma FetchSome(cfg: Config, s: State, id: nat) returns (es: seq<Event>, s': State)
    requires Inv(cfg, s) && s.phase.Idle? && s.batch == []
    requires id < |s.rows| && IsPending(s.rows[id])
    ensures |es| == 2 && es[0].Tick? && es[1].Fetch?
    ensures CanRun(cfg, s, es) && s' == Run(cfg, s, es)
    ensures Inv(cfg, s') && s'.phase.Idle? && s'.rows == s.rows
    ensures s'.batch != [] && s'.batch[0].id < |s.rows| && s.rows[s'.batch[0].id].live
  {
    var wait := NoStall(cfg, s, id);
    es := [Tick(wait), Fetch];
    s' := Run(cfg, s, es);
    InvRun(cfg, s, es);
    TickThenFetch(cfg, s, wait);
  }

  lemma FollowsDelivery(answers: nat -> Answer, n: nat, more: seq<Event>)
    requires Follows(more, answers, n + 1)
    ensures Follows(Delivery(answers(n)) + more, answers, n)
  {
    var d := Delivery(answers(n));
    assert (d + more)[|d|..] == more && d <= d + more;
  }

  lemma FollowsFetch(es: seq<Event>, answers: nat -> Answer, n: nat, more: seq<Event>)
    requires |es| == 2 && es[0].Tick? && es[1].Fetch? && Follows(more, answers, n)
    ensures Follows(es + more, answers, n)
  {
    assert (es + more)[2..] == more;
  }

  lemma WorkIsNat(cfg: Config, s: State)
    requires Inv(cfg, s)
    ensures Work(cfg, s.rows) >= 0
  {
    PendingCounts(cfg, s);
    WorkBounds(cfg, s.rows);
  }

  lemma {:induction false} DrainBatch(cfg: Config, s: State, answers: nat -> Answer, n: nat) returns (es: seq<Event>)
    requires Inv(cfg, s) && s.phase.Idle? && s.batch != []
    requires forall k :: answers(k).IsDefinite()
    ensures CanRun(cfg, s, es) && Follows(es, answers, n) && Drained(Run(cfg, s, es))
    decreases Work(cfg, s.rows), |s.batch|, 0
  {
    WorkIsNat(cfg, s);
    var s1 := DeliverOnce(cfg, s, answers(n));
    WorkIsNat(cfg, s1);
    var more := DrainRest(cfg, s1, answers, n + 1);
    FollowsDelivery(answers, n, more);
    RunJoin(cfg, s, Delivery(answers(n)), more);
    es := Delivery(answers(n)) + more;
  }

  lemma {:induction false} DrainRest(cfg: Config, s: State, answers: nat -> Answer, n: nat)
    returns (es: seq<Event>)
    requires Inv(cfg, s) && s.phase.Idle?
    requires forall k :: answers(k).IsDefinite()
    ensures CanRun(cfg, s, es) && Follows(es, answers, n) && Drained(Run(cfg, s, es))
    decreases Work(cfg, s.rows), |s.batch|, 1
  {
    WorkIsNat(cfg, s);
    if s.batch != [] {
      es := DrainBatch(cfg, s, answers, n);
    } else if Drained(s) {
      es := [];
    } else {
      var id: nat :| id < |s.rows| && IsPending(s.rows[id]);
      var fetch, s1 := FetchSome(cfg, s, id);
      var s2 := DeliverOnce(cfg, s1, answers(n));
      WorkIsNat(cfg, s2);
      var more := DrainRest(cfg, s2, answers, n + 1);
      FollowsDelivery(answers, n, more);
      RunJoin(cfg, s1, Delivery(answers(n)), more);
      FollowsFetch(fetch, answers, n, Delivery(answers(n)) + more);
      RunJoin(cfg, s, fetch, Delivery(answers(n)) + more);
      es := fetch + (Delivery(answers(n)) + more);
    }
  }

  lemma {:induction false} FollowsInsertsNothing(es: seq<Event>, answers: nat -> Answer, n: nat)
    requires Follows(es, answers, n)
    ensures forall i :: 0 <= i < |es| ==> !es[i].Enqueue?
    decreases |es|
  {
    var d := Delivery(answers(n));
    if es == [] {
    } else if |es| >= 2 && es[0].Tick? && es[1].Fetch? && Follows(es[2..], answers, n) {
      FollowsInsertsNothing(es[2..], answers, n);
      assert es == es[..2] + es[2..];
    } else {
      FollowsInsertsNothing(es[|d|..], answers, n + 1);
      assert es == d + es[|d|..];
    }
  }

  lemma {:induction false} NoneEnqueued(es: seq<Event>)
    requires forall i :: 0 <= i < |es| ==> !es[i].Enqueue?
    ensures Enqueued(es) == 0
  {
    if es != [] {
      NoneEnqueued(es[..|es| - 1]);
    }
  }

  /**
   The queue drains, whatever the receivers answer: from every reachable state of n rows
   between deliveries, and for every function from the number of a delivery to its answer,
   the worker's own steps lead, by deliveries so answered of which at most n times
   MaxRetries touch a row, to a state in which every row is delivered, failed or deleted.
   */
  lemma QueueDrainsForAnyAnswers(cfg: Config, s: State, answers: nat -> Answer) returns (es: seq<Event>)
    requires Inv(cfg, s) && s.phase.Idle?
    requires forall k :: answers(k).IsDefinite()
    ensures CanRun(cfg, s, es) && Follows(es, answers, 0)
    ensures Drained(Run(cfg, s, es)) && |Run(cfg, s, es).rows| == |s.rows|
    ensures Deliveries(cfg, s, es) <= cfg.Cap() * |s.rows|
  {
    es := DrainRest(cfg, s, answers, 0);
    FollowsInsertsNothing(es, answers, 0);
    NoneEnqueued(es);
    QueueDrains(cfg, s, es);
    RowsStay(cfg, s, es);
  }

  lemma {:induction false} RowsStay(cfg: Config, s: State, es: seq<Event>)
    requires CanRun(cfg, s, es) && forall i :: 0 <= i < |es| ==> !es[i].Enqueue?
    ensures |Run(cfg, s, es).rows| == |s.rows|
  {
    if es != [] {
      RowsStay(cfg, s, es[..|es| - 1]);
    }
  }

  // ---------------------------------------------------------------------------
  // The bounds are reached
  // ---------------------------------------------------------------------------

  /** The state of a queue with one row after `a` counted refusals. */
  ghost predicate AfterRefusals(s: State, a: int) {
    && s.phase.Idle? && s.batch == [] && |s.rows| == 1 == |s.tally|
    && IsPending(s.rows[0]) && s.rows[0].attempts == Some(a)
    && s.rows[0].nextAttempt.Some?
    && s.tally[0].posts == a
  }

  /** Row 0 is due after a wait, fetched and taken. */
  lemma TakeRow(cfg: Config, es: seq<Event>, s: State) returns (es': seq<Event>, s': State)
    requires cfg.Valid() && CanRun(cfg, EMPTY, es) && Run(cfg, EMPTY, es) == s
    requires exists a :: a >= 0 && AfterRefusals(s, a)
    ensures CanRun(cfg, EMPTY, es') && Run(cfg, EMPTY, es') == s'
    ensures s'.rows == s.rows && s'.tally == s.tally && s'.batch == [] && s'.phase == Lookup(Item(0, s.rows[0]))
  {
    var wait: nat := if s.rows[0].nextAttempt.value > s.now then s.rows[0].nextAttempt.value - s.now else 0;
    s' := Step(cfg, s, Tick(wait));
    es' := es + [Tick(wait)];
    RunSnoc(cfg, EMPTY, es, Tick(wait));
    OneRowIsSelected(s'.rows, s'.now, cfg.batchSize);
    RunSnoc(cfg, EMPTY, es', Fetch);
    es', s' := es' + [Fetch], Step(cfg, s', Fetch);
    RunSnoc(cfg, EMPTY, es', Take);
    es', s' := es' + [Take], Step(cfg, s', Take);
  }

  lemma OneRowIsSelected(rows: seq<Row>, now: int, limit: nat)
    requires |rows| == 1 && IsDue(rows[0], now) && limit > 0
    ensures Select(rows, now, limit, 0) == [Item(0, rows[0])]
  {
    assert Select(rows, now, limit - 1, 1) == [];
  }

  /** Runs one refused try up to, and without, its status write. */
  lemma RefuseOnce(cfg: Config, es: seq<Event>, s: State) returns (es': seq<Event>, s': State)
    requires cfg.Valid() && CanRun(cfg, EMPTY, es) && Run(cfg, EMPTY, es) == s
    requires exists a :: a >= 0 && AfterRefusals(s, a)
    ensures CanRun(cfg, EMPTY, es') && Run(cfg, EMPTY, es') == s'
    ensures s'.rows == s.rows && |s'.tally| == 1 && s'.batch == []
    ensures s'.tally[0] == s.tally[0].(posts := s.tally[0].posts + 1)
    ensures s'.phase == Settle(Item(0, s.rows[0]), RetryOrFail(cfg, Item(0, s.rows[0])))
  {
    es', s' := TakeRow(cfg, es, s);
    RunSnoc(cfg, EMPTY, es', Looked(Found));
    es', s' := es' + [Looked(Found)], Step(cfg, s', Looked(Found));
    RunSnoc(cfg, EMPTY, es', Sent(Refused));
    es', s' := es' + [Sent(Refused)], Step(cfg, s', Sent(Refused));
  }

  lemma OneRow(cfg: Config) returns (es: seq<Event>)
    ensures CanRun(cfg, EMPTY, es) && AfterRefusals(Run(cfg, EMPTY, es), 0)
  {
    RunSnoc(cfg, EMPTY, [], Enqueue(0, 0));
    es := [] + [Enqueue(0, 0)];
  }

  /** One more refusal, with its status write. */
  lemma RefuseAndCount(cfg: Config, before: seq<Event>, s: State, a: nat) returns (es: seq<Event>)
    requires cfg.Valid() && CanRun(cfg, EMPTY, before) && Run(cfg, EMPTY, before) == s
    requires 0 < a < cfg.Cap() && AfterRefusals(s, a - 1)
    ensures CanRun(cfg, EMPTY, es) && AfterRefusals(Run(cfg, EMPTY, es), a)
  {
    var es1, s1 := RefuseOnce(cfg, before, s);
    RefusalIsCounted(cfg, s, s1, a);
    RunSnoc(cfg, EMPTY, es1, Wrote(Applied));
    es := es1 + [Wrote(Applied)];
  }

  /** Every count below the cap is reached by a run, so `Ledger`'s bound on attempts is the best one. */
  lemma {:induction false} AttemptsAreReached(cfg: Config, a: nat) returns (es: seq<Event>)
    requires cfg.Valid() && a < cfg.Cap()
    ensures CanRun(cfg, EMPTY, es) && AfterRefusals(Run(cfg, EMPTY, es), a)
    decreases a
  {
    if a == 0 {
      es := OneRow(cfg);
    } else {
      var before := AttemptsAreReached(cfg, a - 1);
      es := RefuseAndCount(cfg, before, Run(cfg, EMPTY, before), a);
    }
  }

  lemma RefusalIsCounted(cfg: Config, s: State, s1: State, a: nat)
    requires cfg.Valid() && 0 < a < cfg.Cap() && AfterRefusals(s, a - 1)
    requires s1.rows == s.rows && |s1.tally| == 1 && s1.batch == [] && s1.tally[0].posts == a
    requires s1.phase == Settle(Item(0, s.rows[0]), RetryOrFail(cfg, Item(0, s.rows[0])))
    ensures Enabled(cfg, s1, Wrote(Applied))
    ensures AfterRefusals(Step(cfg, s1, Wrote(Applied)), a)
  {
    assert WrapInt32(a) == a;
  }

  lemma LastRefusalFails(cfg: Config, s: State, s1: State)
    requires cfg.Valid() && AfterRefusals(s, cfg.Cap() - 1)
    requires s1.rows == s.rows && |s1.tally| == 1 && s1.batch == [] && s1.tally[0].posts == cfg.Cap()
    requires s1.phase == Settle(Item(0, s.rows[0]), RetryOrFail(cfg, Item(0, s.rows[0])))
    ensures Enabled(cfg, s1, Wrote(Applied))
    ensures var s' := Step(cfg, s1, Wrote(Applied));
            |s'.rows| == 1 == |s'.tally| && s'.rows[0].status == Failed && s'.tally[0].posts == cfg.Cap()
  {
  }

  /** Exactly MaxRetries requests are sent for a row that is always refused, and then it is failed. */
  lemma PostsBoundIsReached(cfg: Config) returns (es: seq<Event>)
    requires cfg.Valid()
    ensures CanRun(cfg, EMPTY, es)
    ensures var s := Run(cfg, EMPTY, es);
            |s.rows| == 1 == |s.tally| && s.rows[0].status == Failed && s.tally[0].posts == cfg.Cap()
  {
    var before := AttemptsAreReached(cfg, cfg.Cap() - 1);
    var s := Run(cfg, EMPTY, before);
    var es1, s1 := RefuseOnce(cfg, before, s);
    LastRefusalFails(cfg, s, s1);
    RunSnoc(cfg, EMPTY, es1, Wrote(Applied));
    es := es1 + [Wrote(Applied)];
  }

  lemma FourHoursNeedsSixTries(cfg: Config, es: seq<Event>, id: nat)
    requires cfg.Valid() && LeadsToFourHours(cfg, es, id)
    ensures cfg.maxRetries >= 6
  {
    Ledger(cfg, es, id);
  }

  /**
   The four-hour wait, commented as the last retry, is used by some run exactly when six or more
   tries are configured.
   */
  lemma FourHoursExactly(cfg: Config)
    requires cfg.Valid()
    ensures (exists es, id :: LeadsToFourHours(cfg, es, id)) <==> cfg.maxRetries >= 6
  {
    if es, id :| LeadsToFourHours(cfg, es, id) {
      FourHoursNeedsSixTries(cfg, es, id);
    }
    if cfg.maxRetries >= 6 {
      var es := AttemptsAreReached(cfg, 5);
      assert Backoff(4) == 4 * HOUR;
      assert LeadsToFourHours(cfg, es, 0);
    }
  }
}
