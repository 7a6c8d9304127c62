/** What mailbox synchronisation guarantees over whole runs; see MailboxSync for the machine. */
module SyncGuarantees {
  import opened Common
  import opened MailboxSync

  // ---------------------------------------------------------------------------
  // No stranded mail
  // ---------------------------------------------------------------------------

  /** A message at or below its mailbox's cursor that is not stored: no handled event will ask for it again. */
  predicate Stranded(s: State, m: Mail) {
    && m in s.server && m !in s.emails && m.account !in s.gone
    && IsAccountId(m.account)
    && m.uid <= CursorOf(s.cursors, m.account, m.folder)
  }

  /**
   Over every interleaving, the only stranded messages are those whose ingestion failed in
   a batch that later had a success with a larger UID.
   */
  lemma OnlySkippedIsStranded(es: seq<Event>)
    requires CanRun(INIT, es)
    ensures forall m :: Stranded(Run(INIT, es), m) ==> m in Run(INIT, es).skipped
  {
    SafeInit();
    SafeRun(INIT, es);
    var s := Run(INIT, es);
    forall m | Stranded(s, m)
      ensures m in s.skipped
    {
      assert CursorOk(s, m.account, m.folder);
      assert Settled(s, m);
    }
  }

  /** The step puts the cursor over no failed UID. */
  ghost predicate PassesNothing(s: State, e: Event) {
    e.Advance? ==> var h := s.handlers.Of(e.loop); h.Ingesting? ==> PassedOver(h.work) == {}
  }

  /** At the end of every batch, no failed UID lies below the last success. */
  ghost predicate FailuresComeLast(s: State, es: seq<Event>)
    requires CanRun(s, es)
  {
    forall n :: 0 <= n < |es| ==> CanRun(s, es[..n]) && PassesNothing(Run(s, es[..n]), es[n])
  }

  lemma FailuresComeLastPrefix(s: State, es: seq<Event>)
    requires CanRun(s, es) && es != [] && FailuresComeLast(s, es)
    ensures FailuresComeLast(s, es[..|es| - 1])
    ensures PassesNothing(Run(s, es[..|es| - 1]), es[|es| - 1])
  {
    var before := es[..|es| - 1];
    forall k | 0 <= k < |before|
      ensures CanRun(s, before[..k]) && PassesNothing(Run(s, before[..k]), before[k])
    {
      assert before[..k] == es[..k];
    }
  }

  lemma NothingSkippedStep(s: State, e: Event)
    requires Enabled(s, e) && PassesNothing(s, e)
    ensures Step(s, e).skipped == s.skipped
  {
  }

  lemma {:induction false} NothingSkipped(s: State, es: seq<Event>)
    requires CanRun(s, es) && FailuresComeLast(s, es)
    ensures Run(s, es).skipped == s.skipped
  {
    if es != [] {
      var n := |es| - 1;
      FailuresComeLastPrefix(s, es);
      NothingSkipped(s, es[..n]);
      NothingSkippedStep(Run(s, es[..n]), es[n]);
    }
  }

  /** No stranded mail, over every interleaving in which failures come last in their batches. */
  lemma NoStrandedMail(es: seq<Event>)
    requires CanRun(INIT, es) && FailuresComeLast(INIT, es)
    ensures forall m :: !Stranded(Run(INIT, es), m)
  {
    NothingSkipped(INIT, es);
    OnlySkippedIsStranded(es);
  }

  /**
   The cursor update of one handler strands a message exactly when that is in the handler's
   mailbox, on the server and not stored, lies above the present cursor and up to the
   handler's last success, and either failed in this batch or lay below the cursor that the
   handler read (which RemoveAccount or a skip made obsolete meanwhile).
   */
  lemma AdvanceStrandsExactly(s: State, l: Loop, m: Mail)
    requires Safe(s) && Enabled(s, Advance(l)) && !Stranded(s, m)
    ensures var w := s.handlers.Of(l).work;
            Stranded(Step(s, Advance(l)), m)
            <==> (&& m in s.server && !Stored(s, m)
                  && m.account == w.account && m.folder == w.folder
                  && CursorOf(s.cursors, w.account, w.folder) < m.uid <= w.last
                  && (m.uid in w.failed || m.uid <= w.base))
  {
    var w, s' := s.handlers.Of(l).work, Step(s, Advance(l));
    assert HandlerOk(s, s.handlers.Of(l));
    if IsAccountId(m.account) {
      CursorKeyInjective(m.account, m.folder, w.account, w.folder);
    }
    assert CursorOf(s'.cursors, w.account, w.folder) == Max(CursorOf(s.cursors, w.account, w.folder), w.last);
    if m in s.server && m.account == w.account && m.folder == w.folder && 0 < m.uid <= w.last {
      BatchStores(s, w, m);
    }
  }

  /** No other step, of either loop or of the rest of the system, strands anything. */
  lemma OnlyAdvanceStrands(s: State, e: Event, m: Mail)
    requires Safe(s) && Enabled(s, e) && !e.Advance? && !Stranded(s, m)
    ensures !Stranded(Step(s, e), m)
  {
    if IsAccountId(m.account) {
      assert CursorOk(s, m.account, m.folder);
      if e.Arrive? && m == e.mail && CursorOf(s.cursors, m.account, m.folder) > 0 {
        assert SameMailbox(m, Mail(m.account, m.folder, CursorOf(s.cursors, m.account, m.folder)));
      }
      if e.RemoveAccount? {
        PrefixIsExact(e.account, m.account, m.folder);
      }
    }
  }

  /** At the end of a batch, what the server holds up to the last success is stored, failed or below the cursor read. */
  lemma BatchStores(s: State, w: Work, m: Mail)
    requires WorkOk(s, w) && w.next == |w.batch|
    requires m in s.server && m.account == w.account && m.folder == w.folder && 0 < m.uid <= w.last
    ensures Stored(s, m) || m.uid in w.failed || m.uid <= w.base
  {
    assert w.last in w.held;
    assert m.uid in w.held;
    if m.uid > w.base {
      var i :| 0 <= i < |w.batch| && w.batch[i] == m.uid;
      assert w.MailAt(i) == m;
    }
  }

  lemma Extend(es: seq<Event>, s: State, e: Event) returns (es': seq<Event>, s': State)
    requires CanRun(INIT, es) && Run(INIT, es) == s && Enabled(s, e)
    ensures CanRun(INIT, es') && Run(INIT, es') == s' && s' == Step(s, e)
  {
    RunSnoc(INIT, es, e);
    es', s' := es + [e], Step(s, e);
  }

  const FIVE := Mail("a", "INBOX", 5)
  const SIX := Mail("a", "INBOX", 6)
  const BOTH := Work("a", "INBOX", 0, {5, 6}, [5, 6], 0, 0, {})

  function Holding(h: Handler, emails: set<Mail>, fired: seq<Mail>): State {
    INIT.(server := {FIVE, SIX}, issued := {FIVE, SIX}, handlers := Handlers(h, Free), emails := emails, fired := fired)
  }

  lemma BothArrive() returns (es: seq<Event>)
    ensures CanRun(INIT, es) && Run(INIT, es) == Holding(Free, {}, [])
  {
    var s;
    es, s := Extend([], INIT, Arrive(FIVE));
    es, s := Extend(es, s, Arrive(SIX));
    assert s.server == {FIVE, SIX} && s.issued == {FIVE, SIX};
  }

  lemma StartSearch(before: seq<Event>) returns (es: seq<Event>)
    requires CanRun(INIT, before) && Run(INIT, before) == Holding(Free, {}, [])
    ensures CanRun(INIT, es) && Run(INIT, es) == Holding(Searching("a", "INBOX", 0), {}, [])
  {
    var s;
    es, s := Extend(before, Holding(Free, {}, []), Accept(PoolLoop, "a", "INBOX"));
    es, s := Extend(es, s, ReadCursor(PoolLoop));
  }

  lemma SearchBoth() returns (es: seq<Event>)
    ensures CanRun(INIT, es) && Run(INIT, es) == Holding(Ingesting(BOTH), {}, [])
  {
    es := BothArrive();
    es := StartSearch(es);
    var s := Holding(Searching("a", "INBOX", 0), {}, []);
    BothAreFound(s.server);
    es, s := Extend(es, s, Searched(PoolLoop, [5, 6]));
  }

  lemma BothAreFound(server: set<Mail>)
    requires server == {FIVE, SIX}
    ensures MailboxOf(server, "a", "INBOX") == {5, 6}
    ensures IsSearchResult([5, 6], MailboxOf(server, "a", "INBOX"), 0)
  {
    assert FIVE.uid == 5 && SIX.uid == 6;
  }

  const FAILED_FIVE := BOTH.(next := 1, failed := {5})

  lemma FailFive(before: seq<Event>) returns (es: seq<Event>)
    requires CanRun(INIT, before) && Run(INIT, before) == Holding(Ingesting(BOTH), {}, [])
    ensures CanRun(INIT, es) && Run(INIT, es) == Holding(Ingesting(FAILED_FIVE), {}, [])
  {
    var s;
    es, s := Extend(before, Holding(Ingesting(BOTH), {}, []), Fails(PoolLoop));
    assert s.handlers.pool.work.failed == {5};
  }

  lemma InsertSix(before: seq<Event>) returns (es: seq<Event>)
    requires CanRun(INIT, before) && Run(INIT, before) == Holding(Ingesting(FAILED_FIVE), {}, [])
    ensures CanRun(INIT, es) && Run(INIT, es) == Holding(Inserted(FAILED_FIVE), {SIX}, [])
  {
    var s;
    es, s := Extend(before, Holding(Ingesting(FAILED_FIVE), {}, []), Inserts(PoolLoop));
    assert s.emails == {SIX};
  }

  lemma AnnounceSix(before: seq<Event>) returns (es: seq<Event>)
    requires CanRun(INIT, before) && Run(INIT, before) == Holding(Inserted(FAILED_FIVE), {SIX}, [])
    ensures CanRun(INIT, es)
    ensures Run(INIT, es) == Holding(Ingesting(FAILED_FIVE.Succeed()), {SIX}, [SIX])
  {
    var s;
    es, s := Extend(before, Holding(Inserted(FAILED_FIVE), {SIX}, []), Returns(PoolLoop, []));
    es, s := Extend(es, s, Notified(PoolLoop));
  }

  /**
   The premise is needed: a mailbox holds 5 and 6, 5 fails and 6 succeeds, and the cursor
   goes to 6, although a failure was not meant to be passed.
   */
  lemma LaterSuccessStrandsAFailure() returns (es: seq<Event>)
    ensures CanRun(INIT, es)
    ensures Stranded(Run(INIT, es), FIVE)
  {
    es := SearchBoth();
    es := FailFive(es);
    es := InsertSix(es);
    es := AnnounceSix(es);
    var s := Holding(Ingesting(FAILED_FIVE.Succeed()), {SIX}, [SIX]);
    es, s := Extend(es, s, Advance(PoolLoop));
    assert s.cursors == map[CursorKey("a", "INBOX") := 6];
  }

  // ---------------------------------------------------------------------------
  // The cursor never falls
  // ---------------------------------------------------------------------------

  predicate KeepsCursor(e: Event, account: string) {
    !e.Restart? && (e.RemoveAccount? ==> e.account != account)
  }

  lemma CursorStep(s: State, e: Event, account: string, folder: string)
    requires Safe(s) && Enabled(s, e) && IsAccountId(account) && KeepsCursor(e, account)
    ensures CursorOf(s.cursors, account, folder) <= CursorOf(Step(s, e).cursors, account, folder)
    ensures e.RemoveAccount? ==> CursorOf(s.cursors, account, folder) == CursorOf(Step(s, e).cursors, account, folder)
  {
    if e.RemoveAccount? {
      PrefixIsExact(e.account, account, folder);
    }
    if e.Advance? {
      var w := s.handlers.Of(e.loop).work;
      assert HandlerOk(s, s.handlers.Of(e.loop));
      CursorKeyInjective(account, folder, w.account, w.folder);
    }
  }

  /** Whatever both loops do, a mailbox's cursor falls only by a restart or by removing its own account. */
  lemma {:induction false} CursorNeverFalls(s: State, es: seq<Event>, account: string, folder: string)
    requires Safe(s) && CanRun(s, es) && IsAccountId(account)
    requires forall n :: 0 <= n < |es| ==> KeepsCursor(es[n], account)
    ensures CursorOf(s.cursors, account, folder) <= CursorOf(Run(s, es).cursors, account, folder)
  {
    if es != [] {
      var n := |es| - 1;
      CursorNeverFalls(s, es[..n], account, folder);
      SafeRun(s, es[..n]);
      CursorStep(Run(s, es[..n]), es[n], account, folder);
    }
  }

  /** Removing an account clears exactly its own cursors. */
  lemma RemovalIsExact(s: State, removed: string, account: string, folder: string)
    requires IsAccountId(removed) && IsAccountId(account)
    ensures CursorOf(Step(s, RemoveAccount(removed)).cursors, account, folder)
            == if account == removed then 0 else CursorOf(s.cursors, account, folder)
  {
    PrefixIsExact(removed, account, folder);
  }

  // ---------------------------------------------------------------------------
  // Dropped notifications lose no mail
  // ---------------------------------------------------------------------------

  /**
   However many notifications were dropped before, a handler at the end of its batch has
   every message stored that its mailbox held at the search and that lies above the cursor
   it read, or that is in its batch, except for its own failures.  So a handler that read
   no cursor, as after a restart, and had no failure has stored the whole mailbox, also
   what was passed over in earlier batches.
   */
  lemma HandledEventCatchesUp(es: seq<Event>, l: Loop, u: nat)
    requires CanRun(INIT, es)
    requires var h := Run(INIT, es).handlers.Of(l);
             h.Ingesting? && h.work.next == |h.work.batch| && u in h.work.held
    ensures var s := Run(INIT, es); var w := s.handlers.Of(l).work; var m := Mail(w.account, w.folder, u);
            && (u !in w.failed && (u > w.base || u in w.batch) ==> Stored(s, m))
            && (u <= w.base ==> Settled(s, m))
            && (w.base == 0 ==> u in w.failed || Stored(s, m))
  {
    SafeInit();
    SafeRun(INIT, es);
    BatchIsStored(Run(INIT, es), l, u);
  }

  lemma BatchIsStored(s: State, l: Loop, u: nat)
    requires Safe(s)
    requires var h := s.handlers.Of(l); h.Ingesting? && h.work.next == |h.work.batch| && u in h.work.held
    ensures var w := s.handlers.Of(l).work; var m := Mail(w.account, w.folder, u);
            && u > 0
            && (u !in w.failed && (u > w.base || u in w.batch) ==> Stored(s, m))
            && (u <= w.base ==> Settled(s, m))
  {
    var w := s.handlers.Of(l).work;
    assert HandlerOk(s, s.handlers.Of(l));
    assert Mail(w.account, w.folder, u) in s.issued;
    if u in w.batch {
      var i :| 0 <= i < |w.batch| && w.batch[i] == u;
      assert w.MailAt(i) == Mail(w.account, w.folder, u);
    }
  }

  /** The event handled by loop `l` fails for a UID or ends before the end of its batch is seen. */
  predicate Spoils(e: Event, l: Loop) {
    e == Restart || e == Fails(l) || e == MetaFails(l) || e == GiveUp(l) || e == Advance(l)
  }

  /** The loop works on the batch of `w`, without a failure so far. */
  predicate WorksOn(h: Handler, w: Work) {
    && (h.Ingesting? || h.Inserted? || h.Notifying?)
    && h.work.account == w.account && h.work.folder == w.folder
    && h.work.base == w.base && h.work.held == w.held && h.work.batch == w.batch
    && h.work.failed == {}
  }

  lemma WorksOnStep(s: State, e: Event, l: Loop, w: Work)
    requires Enabled(s, e) && !Spoils(e, l) && WorksOn(s.handlers.Of(l), w)
    ensures WorksOn(Step(s, e).handlers.Of(l), w)
  {
  }

  lemma {:induction false} WorksOnRun(s: State, es: seq<Event>, l: Loop, w: Work)
    requires CanRun(s, es) && WorksOn(s.handlers.Of(l), w)
    requires forall n :: 0 <= n < |es| ==> !Spoils(es[n], l)
    ensures WorksOn(Run(s, es).handlers.Of(l), w)
  {
    if es != [] {
      var n := |es| - 1;
      WorksOnRun(s, es[..n], l, w);
      WorksOnStep(Run(s, es[..n]), es[n], l, w);
    }
  }

  /**
   Dropped notifications lose no mail: from any reachable state, after a search by either
   loop and whatever the rest of the system does until the end of its batch, provided no
   UID of it fails and nothing stops the loop, every message that the server held in the
   mailbox at the search is stored, unless it lay at or below the cursor and was passed
   over before.
   */
  lemma EventCatchesUp(before: seq<Event>, l: Loop, uids: seq<nat>, more: seq<Event>, u: nat)
    requires CanRun(INIT, before) && Enabled(Run(INIT, before), Searched(l, uids)) && uids != []
    requires CanRun(Step(Run(INIT, before), Searched(l, uids)), more)
    requires forall n :: 0 <= n < |more| ==> !Spoils(more[n], l)
    requires var h := Run(Step(Run(INIT, before), Searched(l, uids)), more).handlers.Of(l);
             h.Ingesting? && h.work.next == |h.work.batch|
    requires var s := Run(INIT, before); var h := s.handlers.Of(l);
             u in MailboxOf(s.server, h.account, h.folder)
    ensures var s := Run(INIT, before); var h := s.handlers.Of(l);
            var s' := Run(Step(s, Searched(l, uids)), more); var m := Mail(h.account, h.folder, u);
            && (u > h.base || u in uids ==> Stored(s', m))
            && Settled(s', m)
  {
    SafeInit();
    SafeRun(INIT, before);
    var s := Run(INIT, before);
    var s1 := Step(s, Searched(l, uids));
    SafeStep(s, Searched(l, uids));
    SafeRun(s1, more);
    WorksOnRun(s1, more, l, s1.handlers.Of(l).work);
    BatchIsStored(Run(s1, more), l, u);
  }

  /** The search result misses nothing above the cursor, and `held` is what the mailbox held. */
  lemma SearchIsComplete(s: State, l: Loop, uids: seq<nat>)
    requires Safe(s) && Enabled(s, Searched(l, uids))
    ensures var h := s.handlers.Of(l);
            forall u :: u in MailboxOf(s.server, h.account, h.folder) ==>
              u in uids || (u <= h.base && Settled(s, Mail(h.account, h.folder, u)))
  {
    var h := s.handlers.Of(l);
    assert HandlerOk(s, h);
    forall u | u in MailboxOf(s.server, h.account, h.folder)
      ensures Mail(h.account, h.folder, u) in s.server
    {
    }
  }

  // ---------------------------------------------------------------------------
  // At most one notification, at most one queue row
  // ---------------------------------------------------------------------------

  ghost predicate Distinct<T>(xs: seq<T>) {
    forall i, j :: 0 <= i < j < |xs| ==> xs[i] != xs[j]
  }

  /** The handler has stored its current email and its event handler call is still to come. */
  predicate IsPoised(h: Handler) {
    h.Inserted? && h.work.next < |h.work.batch|
  }

  predicate InsertOk(s: State, h: Handler) {
    IsPoised(h) ==> Stored(s, h.work.Current()) && h.work.Current() !in s.fired
  }

  ghost predicate NotifyOk(s: State, h: Handler) {
    h.Notifying? ==>
      && h.mail in s.fired
      && Distinct(h.webhooks)
      && forall w :: w in h.webhooks ==> (w, h.mail) !in s.queue
  }

  ghost predicate Once(s: State) {
    && Distinct(s.fired)
    && (forall m :: m in s.fired ==> Stored(s, m))
    && InsertOk(s, s.handlers.pool) && InsertOk(s, s.handlers.poller)
    && (IsPoised(s.handlers.pool) && IsPoised(s.handlers.poller)
        ==> s.handlers.pool.work.Current() != s.handlers.poller.work.Current())
    && Distinct(s.queue)
    && (forall i :: 0 <= i < |s.queue| ==> s.queue[i].1 in s.fired)
    && NotifyOk(s, s.handlers.pool) && NotifyOk(s, s.handlers.poller)
    && (s.handlers.pool.Notifying? && s.handlers.poller.Notifying? ==> s.handlers.pool.mail != s.handlers.poller.mail)
  }

  /** Steps of no handler, and Restart, which stops them all. */
  predicate IsOutside(e: Event) {
    e.Arrive? || e.Expunge? || e.ApiStore? || e.RemoveAccount? || e.DeleteAccount? || e.Restart?
  }

  lemma OnceOutside(s: State, e: Event)
    requires Once(s) && Enabled(s, e) && IsOutside(e)
    ensures Once(Step(s, e))
  {
  }

  /** A handler moves to a state that announces nothing, and no table changes. */
  ghost predicate GoesQuiet(s: State, s': State, l: Loop) {
    && (exists h :: s'.handlers == s.handlers.With(l, h) && !h.Inserted? && !h.Notifying?)
    && s'.emails == s.emails && s'.gone == s.gone && s'.fired == s.fired && s'.queue == s.queue
  }

  lemma OnceGoesQuiet(s: State, s': State, l: Loop)
    requires Once(s) && GoesQuiet(s, s', l)
    ensures Once(s')
  {
  }

  lemma OnceQuiet(s: State, e: Event)
    requires Once(s) && Enabled(s, e) && !IsOutside(e)
    requires !e.Inserts? && !e.Returns? && !e.Queues? && !e.QueueFails?
    ensures Once(Step(s, e))
  {
    var s' := Step(s, e);
    assert s'.handlers == s.handlers.With(e.loop, s'.handlers.Of(e.loop));
    OnceGoesQuiet(s, s', e.loop);
  }

  lemma OnceInserts(s: State, l: Loop)
    requires Once(s) && Enabled(s, Inserts(l))
    ensures Once(Step(s, Inserts(l)))
  {
  }

  lemma OnceReturns(s: State, l: Loop, webhooks: seq<nat>)
    requires Once(s) && Enabled(s, Returns(l, webhooks))
    ensures Once(Step(s, Returns(l, webhooks)))
  {
    assert InsertOk(s, s.handlers.Of(l));
  }

  lemma OnceQueues(s: State, l: Loop)
    requires Once(s) && Enabled(s, Queues(l))
    ensures Once(Step(s, Queues(l)))
  {
    var h := s.handlers.Of(l);
    NextWebhook(h.webhooks);
    assert (h.webhooks[0], h.mail) !in s.queue;
  }

  lemma OnceQueueFails(s: State, l: Loop)
    requires Once(s) && Enabled(s, QueueFails(l))
    ensures Once(Step(s, QueueFails(l)))
  {
    NextWebhook(s.handlers.Of(l).webhooks);
  }

  lemma NextWebhook(webhooks: seq<nat>)
    requires Distinct(webhooks) && webhooks != []
    ensures Distinct(webhooks[1..])
    ensures forall w :: w in webhooks[1..] ==> w in webhooks && w != webhooks[0]
  {
  }

  lemma OnceStep(s: State, e: Event)
    requires Once(s) && Enabled(s, e)
    ensures Once(Step(s, e))
  {
    if e.Inserts? {
      OnceInserts(s, e.loop);
    } else if e.Returns? {
      OnceReturns(s, e.loop, e.webhooks);
    } else if e.Queues? {
      OnceQueues(s, e.loop);
    } else if e.QueueFails? {
      OnceQueueFails(s, e.loop);
    } else if IsOutside(e) {
      OnceOutside(s, e);
    } else {
      OnceQuiet(s, e);
    }
  }

  lemma {:induction false} OnceRun(s: State, es: seq<Event>)
    requires Once(s) && CanRun(s, es)
    ensures Once(Run(s, es))
  {
    if es != [] {
      var n := |es| - 1;
      OnceRun(s, es[..n]);
      OnceStep(Run(s, es[..n]), es[n]);
    }
  }

  /**
   Over any run, with both loops, on-demand ingests and restarts that forget all cursors,
   the event handler is called at most once per (account, folder, uid), and the queue holds
   at most one row per webhook and email, although that table has no unique constraint.
   */
  lemma AtMostOnce(es: seq<Event>)
    requires CanRun(INIT, es)
    ensures Distinct(Run(INIT, es).fired)
    ensures Distinct(Run(INIT, es).queue)
    ensures forall i :: 0 <= i < |Run(INIT, es).queue| ==> Run(INIT, es).queue[i].1 in Run(INIT, es).fired
  {
    OnceRun(INIT, es);
  }

  /** A loop has called the event handler for the email, or is about to. */
  predicate Announces(s: State, m: Mail) {
    m in s.fired || exists l: Loop :: IsPoised(s.handlers.Of(l)) && s.handlers.Of(l).work.Current() == m
  }

  lemma SilentStep(s: State, e: Event, m: Mail)
    requires Once(s) && Enabled(s, e) && Stored(s, m) && !Announces(s, m)
    ensures Stored(Step(s, e), m) && !Announces(Step(s, e), m)
  {
    assert forall l: Loop :: IsPoised(s.handlers.Of(l)) ==> s.handlers.Of(l).work.Current() != m;
    var s' := Step(s, e);
    forall l: Loop | IsPoised(s'.handlers.Of(l))
      ensures s'.handlers.Of(l).work.Current() != m
    {
      assert s'.handlers.Of(l) == s.handlers.Of(l) || e == Inserts(l);
    }
  }

  lemma {:induction false} StoredStaysSilent(s: State, es: seq<Event>, m: Mail)
    requires Once(s) && CanRun(s, es) && Stored(s, m) && !Announces(s, m)
    ensures !Announces(Run(s, es), m) && Stored(Run(s, es), m)
  {
    if es != [] {
      var n := |es| - 1;
      StoredStaysSilent(s, es[..n], m);
      OnceRun(s, es[..n]);
      SilentStep(Run(s, es[..n]), es[n], m);
    }
  }

  /**
   An email that the API stores first is never announced: neither before nor at any later
   step of any run does the event handler see it, so no webhook is queued for it.
   */
  lemma ApiStoredIsNeverAnnounced(before: seq<Event>, m: Mail, after: seq<Event>)
    requires CanRun(INIT, before) && Enabled(Run(INIT, before), ApiStore(m))
    requires CanRun(Step(Run(INIT, before), ApiStore(m)), after)
    ensures var s := Run(Step(Run(INIT, before), ApiStore(m)), after);
            m !in s.fired && forall i :: 0 <= i < |s.queue| ==> s.queue[i].1 != m
  {
    OnceRun(INIT, before);
    var s := Run(INIT, before);
    assert m !in s.fired;
    assert forall l: Loop :: InsertOk(s, s.handlers.Of(l));
    var s' := Step(s, ApiStore(m));
    OnceStep(s, ApiStore(m));
    StoredStaysSilent(s', after, m);
    OnceRun(s', after);
  }

  /** From `s`, some continuation announces the email. */
  ghost predicate CanBeAnnounced(s: State, m: Mail) {
    exists more :: CanRun(s, more) && m in Run(s, more).fired
  }

  /**
   Exactly which stored emails are announced: in every reachable state, an email that is
   stored (or whose account is deleted) is announced in some continuation if and only if it
   has been announced, or a loop has stored it and its IngestEmail call has not returned yet.
   */
  lemma AnnouncedExactly(es: seq<Event>, m: Mail)
    requires CanRun(INIT, es) && Stored(Run(INIT, es), m)
    ensures CanBeAnnounced(Run(INIT, es), m) <==> Announces(Run(INIT, es), m)
  {
    OnceRun(INIT, es);
    var s := Run(INIT, es);
    if Announces(s, m) {
      AnnounceNow(s, m);
    } else {
      forall more | CanRun(s, more)
        ensures m !in Run(s, more).fired
      {
        StoredStaysSilent(s, more, m);
      }
    }
  }

  lemma AnnounceNow(s: State, m: Mail)
    requires Announces(s, m)
    ensures CanBeAnnounced(s, m)
  {
    var none := [];
    if m in s.fired {
      assert CanRun(s, none) && Run(s, none) == s;
    } else {
      var l: Loop :| IsPoised(s.handlers.Of(l)) && s.handlers.Of(l).work.Current() == m;
      var e := Returns(l, []);
      RunOne(s, e);
      assert m in Run(s, [e]).fired;
    }
  }

  /** In the emails table, but no loop has announced it or is about to. */
  predicate IsSilent(s: State, m: Mail) {
    m in s.emails && !Announces(s, m)
  }

  /**
   Exactly which steps store an email, or leave it stored, without its announcement: the
   API stores it; a loop has stored it and then fails for its attachment rows; or the
   process dies between its insert and the return of IngestEmail.
   */
  lemma SilencedExactly(s: State, e: Event, m: Mail)
    requires Safe(s) && Once(s) && Enabled(s, e) && !IsSilent(s, m)
    ensures IsSilent(Step(s, e), m)
            <==> (|| e == ApiStore(m)
                  || (m in s.emails && m !in s.fired
                      && (e == Restart || exists l :: e == MetaFails(l) && s.handlers.Of(l).work.Current() == m)))
  {
    if e.ApiStore? {
      ApiSilences(s, e, m);
    } else if e.MetaFails? {
      MetaFailureSilences(s, e.loop, m);
    } else if e == Restart {
    } else {
      OthersSilenceNothing(s, e, m);
    }
  }

  lemma ApiSilences(s: State, e: Event, m: Mail)
    requires Once(s) && e.ApiStore? && Enabled(s, e) && !IsSilent(s, m)
    ensures IsSilent(Step(s, e), m) <==> e.mail == m
  {
    assert forall l: Loop :: InsertOk(s, s.handlers.Of(l));
  }

  lemma MetaFailureSilences(s: State, l: Loop, m: Mail)
    requires Once(s) && Enabled(s, MetaFails(l)) && !IsSilent(s, m)
    ensures IsSilent(Step(s, MetaFails(l)), m)
            <==> m in s.emails && m !in s.fired && s.handlers.Of(l).work.Current() == m
  {
    var s' := Step(s, MetaFails(l));
    assert forall k: Loop :: k != l ==> s'.handlers.Of(k) == s.handlers.Of(k);
    assert IsPoised(s.handlers.Of(l)) && !IsPoised(s'.handlers.Of(l));
  }

  lemma OthersSilenceNothing(s: State, e: Event, m: Mail)
    requires Safe(s) && Once(s) && Enabled(s, e) && !IsSilent(s, m)
    requires !e.ApiStore? && !e.MetaFails? && e != Restart
    ensures !IsSilent(Step(s, e), m)
  {
    var s' := Step(s, e);
    if m in s'.emails && m !in s.emails {
      assert e.Inserts? && s'.handlers.Of(e.loop).work.Current() == m;
    } else if m in s'.emails && m !in s.fired {
      var l: Loop :| IsPoised(s.handlers.Of(l)) && s.handlers.Of(l).work.Current() == m;
      assert s'.handlers.Of(l) == s.handlers.Of(l) || e.Returns?;
    }
  }

  const STORED_FIVE := Holding(Inserted(BOTH), {FIVE}, [])

  lemma InsertFive() returns (es: seq<Event>)
    ensures CanRun(INIT, es) && Run(INIT, es) == STORED_FIVE
  {
    es := SearchBoth();
    var s := Holding(Ingesting(BOTH), {}, []);
    es, s := Extend(es, s, Inserts(PoolLoop));
    assert s.emails == {FIVE};
  }

  /** UID 5 is stored, its attachment rows fail, and no continuation ever announces it. */
  lemma MetadataFailureIsNeverAnnounced() returns (es: seq<Event>)
    ensures CanRun(INIT, es) && es != [] && es[|es| - 1] == MetaFails(PoolLoop)
    ensures FIVE in Run(INIT, es).emails && !CanBeAnnounced(Run(INIT, es), FIVE)
  {
    var before := InsertFive();
    RunSnoc(INIT, before, MetaFails(PoolLoop));
    es := before + [MetaFails(PoolLoop)];
    NeitherIsPoised(Run(INIT, es), FIVE);
    AnnouncedExactly(es, FIVE);
  }

  /** UID 5 is stored, the process dies before IngestEmail returns, and no continuation ever announces it. */
  lemma RestartIsNeverMadeUpFor() returns (es: seq<Event>)
    ensures CanRun(INIT, es) && es != [] && es[|es| - 1] == Restart
    ensures FIVE in Run(INIT, es).emails && !CanBeAnnounced(Run(INIT, es), FIVE)
  {
    var before := InsertFive();
    RunSnoc(INIT, before, Restart);
    es := before + [Restart];
    NeitherIsPoised(Run(INIT, es), FIVE);
    AnnouncedExactly(es, FIVE);
  }

  lemma NeitherIsPoised(s: State, m: Mail)
    requires m !in s.fired && !s.handlers.pool.Inserted? && !s.handlers.poller.Inserted?
    ensures !Announces(s, m)
  {
    assert forall l: Loop :: !s.handlers.Of(l).Inserted?;
  }

  // ---------------------------------------------------------------------------
  // Shutdown
  // ---------------------------------------------------------------------------

  /** The way out of a handled event that has seen the shutdown. */
  function WayOut(h: Handler, l: Loop): seq<Event> {
    match h
    case Free => []
    case Reading(_, _) => [GiveUp(l)]
    case Searching(_, _, _) => [GiveUp(l)]
    case Ingesting(_) => [GiveUp(l)]
    case Inserted(_) => [MetaFails(l), GiveUp(l)]
    case Notifying(_, _, _) => [Notified(l), GiveUp(l)]
  }

  lemma RunOne(s: State, e: Event)
    requires Enabled(s, e)
    ensures CanRun(s, [e]) && Run(s, [e]) == Step(s, e)
  {
    var none := [];
    RunSnoc(s, none, e);
    assert none + [e] == [e];
  }

  lemma RunTwo(s: State, e: Event, f: Event)
    requires Enabled(s, e) && Enabled(Step(s, e), f)
    ensures CanRun(s, [e, f]) && Run(s, [e, f]) == Step(Step(s, e), f)
  {
    RunOne(s, e);
    RunSnoc(s, [e], f);
    assert [e] + [f] == [e, f];
  }

  /** From every reachable state each loop can come to its end by at most two of its own steps. */
  lemma LoopCanStop(s: State, l: Loop)
    requires Safe(s)
    ensures var out := WayOut(s.handlers.Of(l), l);
            CanRun(s, out) && Run(s, out).handlers == s.handlers.With(l, Free) && Safe(Run(s, out))
  {
    var h := s.handlers.Of(l);
    var out := WayOut(h, l);
    if h.Inserted? || h.Notifying? {
      assert HandlerOk(s, h);
      RunTwo(s, out[0], out[1]);
    } else if !h.Free? {
      RunOne(s, GiveUp(l));
    }
    SafeRun(s, out);
  }

  /** So the coordinator's Close can always return: both loops can come to their ends. */
  lemma LoopsCanStop(es: seq<Event>) returns (s: State)
    requires CanRun(INIT, es)
    ensures var s0 := Run(INIT, es); var out := WayOut(s0.handlers.pool, PoolLoop);
            && CanRun(s0, out)
            && var s1 := Run(s0, out); var out1 := WayOut(s0.handlers.poller, PollerLoop);
               CanRun(s1, out1) && s == Run(s1, out1) && s.handlers == Handlers(Free, Free)
  {
    SafeInit();
    SafeRun(INIT, es);
    var s0 := Run(INIT, es);
    LoopCanStop(s0, PoolLoop);
    var s1 := Run(s0, WayOut(s0.handlers.pool, PoolLoop));
    LoopCanStop(s1, PollerLoop);
    s := Run(s1, WayOut(s0.handlers.poller, PollerLoop));
  }
}
