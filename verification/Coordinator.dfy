/**
 The coordinator's methods (internal/sync/coordinator.go) and the producer they notify
 (internal/webhook/producer.go).  HandleEvent is proved to perform a run of the machine of
 MailboxSync in which one loop takes all the steps.
 */
module Coordinator {
  import opened Common
  import opened MailboxSync

  datatype EventType = NewMessage | ExpungeEvent

  datatype IdleEvent = IdleEvent(kind: EventType, account: string, folder: string)

  /** How the world answers one IngestEmail call and the event handler call after it. */
  datatype IngestAnswer =
    | Refuses                                                    // some call before the insert fails
    | Complies(metadata: bool, notice: Notice)                   // whether all attachment rows are stored
  {
    predicate Valid() {
      Complies? ==> notice.Valid()
    }
  }

  /** … for the event handler: the webhooks, whether the payload is built, and which queue inserts succeed. */
  datatype Notice =
    | LookupFails
    | Found(webhooks: seq<nat>, payloadOk: bool, inserted: seq<bool>)
  {
    predicate Valid() {
      Found? ==> |inserted| == |webhooks| && forall i, j :: 0 <= i < j < |webhooks| ==> webhooks[i] != webhooks[j]
    }

    function Webhooks(): seq<nat> {
      if Found? then webhooks else []
    }

    function Rows(m: Mail): seq<(nat, Mail)>
      requires Valid()
    {
      if Found? && payloadOk then QueueRows(m, webhooks, inserted) else []
    }
  }

  datatype QueueError = WebhookLookupFailed | PayloadFailed | NothingQueued

  /** … and a whole event; shutdown is seen before UID number `stop`. */
  datatype Answers = Answers(accountFound: bool, search: Option<seq<nat>>, ingest: seq<IngestAnswer>, stop: nat)

  datatype IngestResult = Ingested | AlreadyExists | IngestError

  datatype CloseError = AlreadyClosed | OtherCloseError

  datatype RemoveError = CoordinatorClosed | AccountNotFound | OtherError

  // ---------------------------------------------------------------------------
  // What a handled event computes
  // ---------------------------------------------------------------------------

  datatype Tables = Tables(emails: set<Mail>, queue: seq<(nat, Mail)>, fired: seq<Mail>)

  /** The queue rows of one email: one for each webhook whose insert succeeds, in order. */
  function QueueRows(m: Mail, webhooks: seq<nat>, inserted: seq<bool>): seq<(nat, Mail)>
    requires |inserted| == |webhooks|
  {
    if webhooks == [] then []
    else (if inserted[0] then [(webhooks[0], m)] else []) + QueueRows(m, webhooks[1..], inserted[1..])
  }

  lemma QueueRowsFrom(queue: seq<(nat, Mail)>, m: Mail, webhooks: seq<nat>, inserted: seq<bool>, i: nat)
    requires i < |webhooks| == |inserted|
    ensures var rest := QueueRows(m, webhooks[i + 1..], inserted[i + 1..]);
            && |QueueRows(m, webhooks[i..], inserted[i..])| == (if inserted[i] then 1 + |rest| else |rest|)
            && queue + QueueRows(m, webhooks[i..], inserted[i..])
               == (if inserted[i] then queue + [(webhooks[i], m)] else queue) + rest
  {
    assert webhooks[i..][1..] == webhooks[i + 1..] && inserted[i..][1..] == inserted[i + 1..];
  }

  /** No row is queued exactly when every insert fails. */
  lemma {:induction false} NoRows(m: Mail, webhooks: seq<nat>, inserted: seq<bool>)
    requires |inserted| == |webhooks|
    ensures QueueRows(m, webhooks, inserted) == [] <==> forall i :: 0 <= i < |inserted| ==> !inserted[i]
    decreases |webhooks|
  {
    if webhooks != [] {
      NoRows(m, webhooks[1..], inserted[1..]);
      assert inserted == [inserted[0]] + inserted[1..];
    }
  }

  function HandleOne(w: Work, t: Tables, gone: set<string>, a: IngestAnswer): (Work, Tables)
    requires w.next < |w.batch| && a.Valid()
  {
    var m := w.Current();
    if a.Refuses? then (w.Fail(), t)
    else if m in t.emails then (w.Succeed(), t)
    else if m.account in gone then (w.Fail(), t)
    else if !a.metadata then (w.Fail(), t.(emails := t.emails + {m}))
    else (w.Succeed(), Tables(t.emails + {m}, t.queue + a.notice.Rows(m), t.fired + [m]))
  }

  /** The first `n` UIDs of a batch, one after the other. */
  function HandleMany(w: Work, t: Tables, gone: set<string>, answers: seq<IngestAnswer>, n: nat): (r: (Work, Tables))
    requires w.next == 0 && n <= |w.batch| <= |answers|
    requires forall i :: 0 <= i < |answers| ==> answers[i].Valid()
    ensures r.0.next == n && r.0.batch == w.batch && r.0.account == w.account && r.0.folder == w.folder
            && r.0.base == w.base
  {
    if n == 0 then (w, t)
    else
      var before := HandleMany(w, t, gone, answers, n - 1);
      HandleOne(before.0, before.1, gone, answers[n - 1])
  }

  /** The work of an event right after its search. */
  function FirstWork(base: nat, server: set<Mail>, event: IdleEvent, uids: seq<nat>): Work {
    Work(event.account, event.folder, base, MailboxOf(server, event.account, event.folder), uids, 0, 0, {})
  }

  /** What is left of an event after its last UID, or at shutdown. */
  function Handled(lastUIDs: map<string, nat>, t: Tables, server: set<Mail>, gone: set<string>,
                   event: IdleEvent, answers: Answers): (Work, Tables)
    requires answers.search.Some? && |answers.ingest| >= |answers.search.value|
    requires forall i :: 0 <= i < |answers.ingest| ==> answers.ingest[i].Valid()
  {
    var uids := answers.search.value;
    HandleMany(FirstWork(CursorOf(lastUIDs, event.account, event.folder), server, event, uids), t, gone,
               answers.ingest, Min(answers.stop, |uids|))
  }

  /**
   An event whose mails are all stored already, on a mailbox that did not change, touches no
   table, whatever the calls answer; without failing calls it also ends at the last UID.
   */
  lemma {:induction false} ReplayChangesNothing(w: Work, t: Tables, gone: set<string>, answers: seq<IngestAnswer>,
                                                n: nat)
    requires w.next == 0 && n <= |w.batch| <= |answers|
    requires forall i :: 0 <= i < |answers| ==> answers[i].Valid()
    requires forall i :: 0 <= i < |w.batch| ==> w.MailAt(i) in t.emails
    ensures var (w', t') := HandleMany(w, t, gone, answers, n);
            && t' == t
            && ((forall i :: 0 <= i < n ==> answers[i].Complies?) ==>
                  w'.failed == w.failed && (n > 0 ==> w'.last == w.batch[n - 1]))
  {
    if n > 0 {
      ReplayChangesNothing(w, t, gone, answers, n - 1);
      assert HandleMany(w, t, gone, answers, n - 1).0.Current() == w.MailAt(n - 1);
    }
  }

  // ---------------------------------------------------------------------------
  // What that means, UID by UID
  // ---------------------------------------------------------------------------

  predicate IsRising(ks: seq<nat>) {
    forall p, q :: 0 <= p < q < |ks| ==> ks[p] < ks[q]
  }

  /** First by batch position, then by webhook position. */
  predicate IsRisingPairs(slots: seq<(nat, nat)>) {
    forall p, q :: 0 <= p < q < |slots| ==>
      slots[p].0 < slots[q].0 || (slots[p].0 == slots[q].0 && slots[p].1 < slots[q].1)
  }

  /** The rows are those of the webhooks numbered `ks`. */
  predicate AreRowsOf(m: Mail, webhooks: seq<nat>, ks: seq<nat>, rows: seq<(nat, Mail)>) {
    && |rows| == |ks|
    && forall q :: 0 <= q < |ks| ==> ks[q] < |webhooks| && rows[q] == (webhooks[ks[q]], m)
  }

  lemma RowPrepended(m: Mail, webhooks: seq<nat>, ks: seq<nat>, rows: seq<(nat, Mail)>, n: nat)
    requires AreRowsOf(m, webhooks, ks, rows) && IsRising(ks) && n < |webhooks| && forall k: nat :: k in ks ==> n < k
    ensures AreRowsOf(m, webhooks, [n] + ks, [(webhooks[n], m)] + rows) && IsRising([n] + ks)
  {
    forall q | 0 <= q < |ks|
      ensures n < ks[q]
    {
      assert ks[q] in ks;
    }
  }

  lemma QueueRowsHead(m: Mail, webhooks: seq<nat>, inserted: seq<bool>, n: nat)
    requires |inserted| == |webhooks| && n < |webhooks|
    ensures QueueRows(m, webhooks[n..], inserted[n..])
            == (if inserted[n] then [(webhooks[n], m)] else []) + QueueRows(m, webhooks[n + 1..], inserted[n + 1..])
  {
    assert webhooks[n..][1..] == webhooks[n + 1..] && inserted[n..][1..] == inserted[n + 1..];
  }

  /** The rows of one email are those of the webhooks whose insert succeeds, in order. */
  lemma {:induction false} RowSlots(m: Mail, webhooks: seq<nat>, inserted: seq<bool>, n: nat) returns (ks: seq<nat>)
    requires |inserted| == |webhooks| && n <= |webhooks|
    ensures IsRising(ks) && forall k: nat :: k in ks <==> n <= k < |webhooks| && inserted[k]
    ensures AreRowsOf(m, webhooks, ks, QueueRows(m, webhooks[n..], inserted[n..]))
    decreases |webhooks| - n
  {
    ks := [];
    if n < |webhooks| {
      ks := RowSlots(m, webhooks, inserted, n + 1);
      QueueRowsHead(m, webhooks, inserted, n);
      if inserted[n] {
        RowPrepended(m, webhooks, ks, QueueRows(m, webhooks[n + 1..], inserted[n + 1..]), n);
        ks := [n] + ks;
      }
    }
  }

  /** The `i`-th mail of a batch is stored by this event, and its event handler is called. */
  predicate IsAnnounced(w: Work, stored: set<Mail>, gone: set<string>, answers: seq<IngestAnswer>, i: nat)
    requires |w.batch| <= |answers|
  {
    && i < |w.batch| && w.MailAt(i) !in stored && w.account !in gone
    && answers[i].Complies? && answers[i].metadata
  }

  /** … and a row for its `k`-th webhook is inserted. */
  predicate IsQueued(w: Work, stored: set<Mail>, gone: set<string>, answers: seq<IngestAnswer>, i: nat, k: nat)
    requires |w.batch| <= |answers| && forall j :: 0 <= j < |answers| ==> answers[j].Valid()
  {
    && IsAnnounced(w, stored, gone, answers, i)
    && var notice := answers[i].notice;
       notice.Found? && notice.payloadOk && k < |notice.webhooks| && k < |notice.inserted| && notice.inserted[k]
  }

  predicate IsHandled(w: Work, answers: seq<IngestAnswer>, n: nat) {
    && w.next == 0 && n <= |w.batch| <= |answers|
    && (forall i :: 0 <= i < |answers| ==> answers[i].Valid())
    && (forall i, j :: 0 <= i < j < |w.batch| ==> w.batch[i] != w.batch[j])
  }

  lemma {:induction false} EmailsAfter(w: Work, t: Tables, gone: set<string>, answers: seq<IngestAnswer>, n: nat)
    requires IsHandled(w, answers, n)
    ensures forall m :: m in HandleMany(w, t, gone, answers, n).1.emails
                        <==> m in t.emails
                             || (w.account !in gone
                                 && exists i :: 0 <= i < n && answers[i].Complies? && w.MailAt(i) == m)
  {
    if n > 0 {
      EmailsAfter(w, t, gone, answers, n - 1);
      assert HandleMany(w, t, gone, answers, n - 1).0.Current() == w.MailAt(n - 1);
    }
  }

  /** Before its turn a mail is stored exactly when it was before the event. */
  lemma StoredAtItsTurn(w: Work, t: Tables, gone: set<string>, answers: seq<IngestAnswer>, n: nat)
    requires IsHandled(w, answers, n) && n < |w.batch|
    ensures HandleMany(w, t, gone, answers, n).0.Current() == w.MailAt(n)
    ensures w.MailAt(n) in HandleMany(w, t, gone, answers, n).1.emails <==> w.MailAt(n) in t.emails
  {
    EmailsAfter(w, t, gone, answers, n);
  }

  /** The announcements behind the old ones are those of the mails at these positions. */
  predicate AreAnnouncementsOf(w: Work, before: seq<Mail>, announced: seq<nat>, fired: seq<Mail>) {
    && |fired| == |before| + |announced| && fired[..|before|] == before
    && forall p :: 0 <= p < |announced| ==>
         announced[p] < |w.batch| && fired[|before| + p] == w.MailAt(announced[p])
  }

  /** `announced` are the positions below `n` of the mails that are announced. */
  ghost predicate AreAnnounced(w: Work, stored: set<Mail>, gone: set<string>, answers: seq<IngestAnswer>, n: nat,
                         announced: seq<nat>)
    requires |w.batch| <= |answers| && n <= |w.batch|
  {
    && IsRising(announced)
    && (forall i :: 0 <= i < |announced| ==> announced[i] < n)
    && forall i: nat :: i < n ==> (i in announced <==> IsAnnounced(w, stored, gone, answers, i))
  }

  /** What the mail at position `n` adds to the announcements. */
  lemma AnnouncedHere(w: Work, t: Tables, gone: set<string>, answers: seq<IngestAnswer>, n: nat)
    returns (more: seq<nat>, mails: seq<Mail>)
    requires IsHandled(w, answers, n) && n < |w.batch|
    ensures more == if IsAnnounced(w, t.emails, gone, answers, n) then [n] else []
    ensures mails == if IsAnnounced(w, t.emails, gone, answers, n) then [w.MailAt(n)] else []
    ensures HandleMany(w, t, gone, answers, n + 1).1.fired == HandleMany(w, t, gone, answers, n).1.fired + mails
  {
    assert answers[n].Valid();
    StoredAtItsTurn(w, t, gone, answers, n);
    more, mails := [], [];
    if IsAnnounced(w, t.emails, gone, answers, n) {
      more, mails := [n], [w.MailAt(n)];
    }
  }

  lemma AnnouncementsAppended(w: Work, before: seq<Mail>, announced: seq<nat>, fired: seq<Mail>, n: nat,
                              more: seq<nat>, mails: seq<Mail>)
    requires n < |w.batch| && AreAnnouncementsOf(w, before, announced, fired)
    requires (more == [n] && mails == [w.MailAt(n)]) || (more == [] && mails == [])
    ensures AreAnnouncementsOf(w, before, announced + more, fired + mails)
  {
  }

  lemma OneMoreAnnounced(w: Work, stored: set<Mail>, gone: set<string>, answers: seq<IngestAnswer>, n: nat,
                         announced: seq<nat>, more: seq<nat>)
    requires |w.batch| <= |answers| && n < |w.batch| && AreAnnounced(w, stored, gone, answers, n, announced)
    requires more == if IsAnnounced(w, stored, gone, answers, n) then [n] else []
    ensures AreAnnounced(w, stored, gone, answers, n + 1, announced + more)
  {
    assert n !in announced;
  }

  lemma {:induction false} AnnouncedSlots(w: Work, t: Tables, gone: set<string>, answers: seq<IngestAnswer>, n: nat)
    returns (announced: seq<nat>)
    requires IsHandled(w, answers, n)
    ensures AreAnnounced(w, t.emails, gone, answers, n, announced)
    ensures AreAnnouncementsOf(w, t.fired, announced, HandleMany(w, t, gone, answers, n).1.fired)
  {
    if n == 0 {
      announced := [];
    } else {
      var before := AnnouncedSlots(w, t, gone, answers, n - 1);
      var more, mails := AnnouncedHere(w, t, gone, answers, n - 1);
      AnnouncementsAppended(w, t.fired, before, HandleMany(w, t, gone, answers, n - 1).1.fired, n - 1, more, mails);
      OneMoreAnnounced(w, t.emails, gone, answers, n - 1, before, more);
      announced := before + more;
    }
  }

  /** The pairs of one batch position. */
  function PairsOf(i: nat, ks: seq<nat>): seq<(nat, nat)> {
    seq(|ks|, q requires 0 <= q < |ks| => (i, ks[q]))
  }

  /** `slots` are the (position, webhook) pairs below position `n` whose rows are inserted. */
  ghost predicate AreQueued(w: Work, stored: set<Mail>, gone: set<string>, answers: seq<IngestAnswer>, n: nat,
                      slots: seq<(nat, nat)>)
    requires |w.batch| <= |answers| && forall j :: 0 <= j < |answers| ==> answers[j].Valid()
  {
    && IsRisingPairs(slots)
    && (forall p :: 0 <= p < |slots| ==> slots[p].0 < n)
    && forall i: nat, k: nat :: i < n ==> ((i, k) in slots <==> IsQueued(w, stored, gone, answers, i, k))
  }

  lemma PairsAppended(w: Work, stored: set<Mail>, gone: set<string>, answers: seq<IngestAnswer>, n: nat,
                      slots: seq<(nat, nat)>, ks: seq<nat>)
    requires |w.batch| <= |answers| && forall j :: 0 <= j < |answers| ==> answers[j].Valid()
    requires AreQueued(w, stored, gone, answers, n, slots) && IsRising(ks)
    requires forall k: nat :: k in ks <==> IsQueued(w, stored, gone, answers, n, k)
    ensures AreQueued(w, stored, gone, answers, n + 1, slots + PairsOf(n, ks))
  {
    forall k: nat
      ensures (n, k) in PairsOf(n, ks) <==> k in ks
    {
      if k in ks {
        var q :| 0 <= q < |ks| && ks[q] == k;
        assert PairsOf(n, ks)[q] == (n, k);
      }
    }
  }

  /** What the mail at position `n` adds to the queue. */
  lemma QueuedHere(w: Work, t: Tables, gone: set<string>, answers: seq<IngestAnswer>, n: nat)
    returns (ks: seq<nat>, rows: seq<(nat, Mail)>)
    requires IsHandled(w, answers, n) && n < |w.batch|
    ensures IsRising(ks) && forall k: nat :: k in ks <==> IsQueued(w, t.emails, gone, answers, n, k)
    ensures HandleMany(w, t, gone, answers, n + 1).1.queue == HandleMany(w, t, gone, answers, n).1.queue + rows
    ensures |rows| == |ks|
    ensures ks != [] ==>
              answers[n].Complies? && answers[n].notice.Found?
              && AreRowsOf(w.MailAt(n), answers[n].notice.webhooks, ks, rows)
  {
    var a := answers[n];
    StoredAtItsTurn(w, t, gone, answers, n);
    ks, rows := [], [];
    if IsAnnounced(w, t.emails, gone, answers, n) && a.notice.Found? && a.notice.payloadOk {
      assert a.Valid();
      rows := QueueRows(w.MailAt(n), a.notice.webhooks, a.notice.inserted);
      ks := RowSlots(w.MailAt(n), a.notice.webhooks, a.notice.inserted, 0);
      assert a.notice.webhooks[0..] == a.notice.webhooks && a.notice.inserted[0..] == a.notice.inserted;
    }
  }

  lemma {:induction false} QueuedSlots(w: Work, t: Tables, gone: set<string>, answers: seq<IngestAnswer>, n: nat)
    returns (slots: seq<(nat, nat)>)
    requires IsHandled(w, answers, n)
    ensures AreQueued(w, t.emails, gone, answers, n, slots)
    ensures AreSlotsOf(w, t.queue, answers, slots, HandleMany(w, t, gone, answers, n).1.queue)
  {
    if n == 0 {
      slots := [];
    } else {
      var before := QueuedSlots(w, t, gone, answers, n - 1);
      var ks, rows := QueuedHere(w, t, gone, answers, n - 1);
      SlotsAppended(w, t.queue, answers, before, HandleMany(w, t, gone, answers, n - 1).1.queue, n - 1, ks, rows);
      PairsAppended(w, t.emails, gone, answers, n - 1, before, ks);
      slots := before + PairsOf(n - 1, ks);
    }
  }

  /** The rows behind the old ones are those of the slots. */
  predicate AreSlotsOf(w: Work, before: seq<(nat, Mail)>, answers: seq<IngestAnswer>, slots: seq<(nat, nat)>,
                       queue: seq<(nat, Mail)>)
    requires |w.batch| <= |answers|
  {
    && |queue| == |before| + |slots| && queue[..|before|] == before
    && forall p :: 0 <= p < |slots| ==>
         && slots[p].0 < |w.batch| && answers[slots[p].0].Complies? && answers[slots[p].0].notice.Found?
         && slots[p].1 < |answers[slots[p].0].notice.webhooks|
         && queue[|before| + p] == (answers[slots[p].0].notice.webhooks[slots[p].1], w.MailAt(slots[p].0))
  }

  lemma SlotsAppended(w: Work, before: seq<(nat, Mail)>, answers: seq<IngestAnswer>, slots: seq<(nat, nat)>,
                      queue: seq<(nat, Mail)>, i: nat, ks: seq<nat>, rows: seq<(nat, Mail)>)
    requires i < |w.batch| <= |answers| && AreSlotsOf(w, before, answers, slots, queue)
    requires |rows| == |ks|
    requires ks != [] ==> answers[i].Complies? && answers[i].notice.Found?
                          && AreRowsOf(w.MailAt(i), answers[i].notice.webhooks, ks, rows)
    ensures AreSlotsOf(w, before, answers, slots + PairsOf(i, ks), queue + rows)
  {
  }

  /** The `i`-th UID of a batch counts as a success. */
  predicate IsSuccess(w: Work, stored: set<Mail>, gone: set<string>, answers: seq<IngestAnswer>, i: nat)
    requires |w.batch| <= |answers|
  {
    && i < |w.batch| && answers[i].Complies?
    && (w.MailAt(i) in stored || (w.account !in gone && answers[i].metadata))
  }

  lemma LastStep(w: Work, t: Tables, gone: set<string>, answers: seq<IngestAnswer>, n: nat)
    requires IsHandled(w, answers, n) && n < |w.batch|
    ensures HandleMany(w, t, gone, answers, n + 1).0.last
            == if IsSuccess(w, t.emails, gone, answers, n) then w.batch[n]
               else HandleMany(w, t, gone, answers, n).0.last
  {
    assert answers[n].Valid();
    StoredAtItsTurn(w, t, gone, answers, n);
  }

  /** The position of the last success among the first `n`, or -1. */
  lemma {:induction false} LastAfter(w: Work, t: Tables, gone: set<string>, answers: seq<IngestAnswer>, n: nat)
    returns (i: int)
    requires IsHandled(w, answers, n)
    ensures -1 <= i < n && forall j: nat :: i < j < n ==> !IsSuccess(w, t.emails, gone, answers, j)
    ensures i >= 0 ==> IsSuccess(w, t.emails, gone, answers, i)
    ensures HandleMany(w, t, gone, answers, n).0.last == if i >= 0 then w.batch[i] else w.last
  {
    i := -1;
    if n > 0 {
      i := LastAfter(w, t, gone, answers, n - 1);
      LastStep(w, t, gone, answers, n - 1);
      if IsSuccess(w, t.emails, gone, answers, n - 1) {
        i := n - 1;
      }
    }
  }

  /** A new-message event whose search succeeds and repeats no UID. */
  predicate Runs(event: IdleEvent, answers: Answers) {
    && event.kind.NewMessage? && answers.accountFound && answers.search.Some?
    && forall i, j :: 0 <= i < j < |answers.search.value| ==> answers.search.value[i] != answers.search.value[j]
  }

  /** The emails: those before, and all mails of the batch up to `stop` whose ingestion gets to its insert. */
  ghost predicate AreEmailsAfter(event: IdleEvent, answers: Answers, gone: set<string>, before: set<Mail>,
                                 after: set<Mail>)
    requires answers.search.Some? && |answers.ingest| >= |answers.search.value|
  {
    forall m :: m in after <==>
      || m in before
      || (event.account !in gone
          && exists i :: 0 <= i < |answers.search.value| && i < answers.stop && answers.ingest[i].Complies?
                         && m == Mail(event.account, event.folder, answers.search.value[i]))
  }

  /**
   The event handler's calls: one for each position in `announced`, in order.  These are the
   positions up to `stop` of the mails that were not stored before, are stored by this event
   and have all their attachment rows stored.
   */
  ghost predicate AreCallsAfter(event: IdleEvent, answers: Answers, gone: set<string>, stored: set<Mail>,
                                announced: seq<nat>, before: seq<Mail>, after: seq<Mail>)
    requires answers.search.Some? && |answers.ingest| >= |answers.search.value|
  {
    && IsRising(announced)
    && |after| == |before| + |announced| && after[..|before|] == before
    && (forall p :: 0 <= p < |announced| ==>
          && announced[p] < |answers.search.value|
          && after[|before| + p] == Mail(event.account, event.folder, answers.search.value[announced[p]]))
    && forall i: nat :: i in announced <==>
         && i < |answers.search.value| && i < answers.stop
         && Mail(event.account, event.folder, answers.search.value[i]) !in stored
         && event.account !in gone && answers.ingest[i].Complies? && answers.ingest[i].metadata
  }

  /**
   The queue: one new row for each (position, webhook) pair in `slots`, in order.  These are
   the announced positions whose webhooks are found and whose payload is built, each with the
   webhooks whose insert succeeds.
   */
  ghost predicate AreRowsAfter(event: IdleEvent, answers: Answers, announced: seq<nat>, slots: seq<(nat, nat)>,
                               before: seq<(nat, Mail)>, after: seq<(nat, Mail)>)
    requires answers.search.Some? && |answers.ingest| >= |answers.search.value|
  {
    && IsRisingPairs(slots)
    && |after| == |before| + |slots| && after[..|before|] == before
    && (forall p :: 0 <= p < |slots| ==>
          && slots[p].0 < |answers.search.value|
          && answers.ingest[slots[p].0].Complies? && answers.ingest[slots[p].0].notice.Found?
          && slots[p].1 < |answers.ingest[slots[p].0].notice.webhooks|
          && after[|before| + p]
             == (answers.ingest[slots[p].0].notice.webhooks[slots[p].1],
                 Mail(event.account, event.folder, answers.search.value[slots[p].0])))
    && forall i: nat, k: nat :: (i, k) in slots <==>
         && i in announced && i < |answers.ingest|
         && answers.ingest[i].Complies? && answers.ingest[i].notice.Found? && answers.ingest[i].notice.payloadOk
         && k < |answers.ingest[i].notice.inserted| && answers.ingest[i].notice.inserted[k]
  }

  /**
   The cursor: raised to the UID at `lastSuccess` when the whole batch is handled and that is
   higher.  A position counts as a success when its mail was stored before, or is stored by
   this event with all its attachment rows; `lastSuccess` is the last such position or -1.
   */
  ghost predicate IsCursorAfter(event: IdleEvent, answers: Answers, gone: set<string>, stored: set<Mail>,
                                lastSuccess: int, before: map<string, nat>, after: map<string, nat>)
    requires answers.search.Some? && |answers.ingest| >= |answers.search.value|
  {
    && -1 <= lastSuccess < |answers.search.value| && lastSuccess < answers.stop
    && (forall i :: 0 <= i < |answers.search.value| && i < answers.stop ==>
          var m := Mail(event.account, event.folder, answers.search.value[i]);
          var success := answers.ingest[i].Complies?
                         && (m in stored || (event.account !in gone && answers.ingest[i].metadata));
          (i == lastSuccess ==> success) && (success ==> i <= lastSuccess))
    && var key := event.account + ":" + event.folder;
       var cursor := if key in before then before[key] else 0;
       after == if answers.stop >= |answers.search.value| && lastSuccess >= 0
                   && answers.search.value[lastSuccess] > cursor
                then before[key := answers.search.value[lastSuccess]] else before
  }

  /** An event's specification has just this meaning. */
  lemma TablesAfter(lastUIDs: map<string, nat>, t: Tables, server: set<Mail>, gone: set<string>, event: IdleEvent,
                    answers: Answers, t': Tables)
    returns (announced: seq<nat>, slots: seq<(nat, nat)>)
    requires Runs(event, answers) && |answers.ingest| >= |answers.search.value|
    requires forall i :: 0 <= i < |answers.ingest| ==> answers.ingest[i].Valid()
    requires t' == Handled(lastUIDs, t, server, gone, event, answers).1
    ensures AreEmailsAfter(event, answers, gone, t.emails, t'.emails)
    ensures AreCallsAfter(event, answers, gone, t.emails, announced, t.fired, t'.fired)
    ensures AreRowsAfter(event, answers, announced, slots, t.queue, t'.queue)
  {
    var n := Min(answers.stop, |answers.search.value|);
    var w := FirstWork(CursorOf(lastUIDs, event.account, event.folder), server, event, answers.search.value);
    EmailsAfter(w, t, gone, answers.ingest, n);
    announced := AnnouncedSlots(w, t, gone, answers.ingest, n);
    slots := QueuedSlots(w, t, gone, answers.ingest, n);
    forall i: nat | i in announced && answers.ingest[i].notice.Found?
      ensures |answers.ingest[i].notice.inserted| == |answers.ingest[i].notice.webhooks|
    {
      assert answers.ingest[i].Valid();
    }
  }

  lemma CursorAfter(lastUIDs: map<string, nat>, t: Tables, server: set<Mail>, gone: set<string>, event: IdleEvent,
                    answers: Answers, lastUIDs': map<string, nat>)
    returns (lastSuccess: int)
    requires Runs(event, answers) && |answers.ingest| >= |answers.search.value|
    requires forall i :: 0 <= i < |answers.ingest| ==> answers.ingest[i].Valid()
    requires var w := Handled(lastUIDs, t, server, gone, event, answers).0;
             lastUIDs' == if answers.stop >= |answers.search.value| && w.last > w.base
                          then lastUIDs[CursorKey(event.account, event.folder) := w.last] else lastUIDs
    ensures IsCursorAfter(event, answers, gone, t.emails, lastSuccess, lastUIDs, lastUIDs')
  {
    var n := Min(answers.stop, |answers.search.value|);
    var w0 := FirstWork(CursorOf(lastUIDs, event.account, event.folder), server, event, answers.search.value);
    lastSuccess := LastAfter(w0, t, gone, answers.ingest, n);
    forall i | 0 <= i < |answers.search.value| && i < answers.stop
      ensures var m := Mail(event.account, event.folder, answers.search.value[i]);
              IsSuccess(w0, t.emails, gone, answers.ingest, i)
              <==> answers.ingest[i].Complies?
                   && (m in t.emails || (event.account !in gone && answers.ingest[i].metadata))
    {
      assert w0.MailAt(i) == Mail(event.account, event.folder, answers.search.value[i]);
    }
  }

  // ---------------------------------------------------------------------------
  // The coordinator
  // ---------------------------------------------------------------------------

  /** `trace` is a run of the machine that ends in `s`. */
  ghost predicate Reached(trace: seq<Event>, s: State) {
    CanRun(INIT, trace) && Run(INIT, trace) == s
  }

  lemma ReachedSnoc(trace: seq<Event>, s: State, e: Event)
    requires Reached(trace, s) && Enabled(s, e)
    ensures Reached(trace + [e], Step(s, e))
  {
    RunSnoc(INIT, trace, e);
  }

  class Coordinator {
    var lastUIDs: map<string, nat>
    var closed: bool
    var cancelled: bool  // the context is cancelled

    // the database
    var emails: set<Mail>
    var deleted: set<string>
    var queue: seq<(nat, Mail)>

    ghost var state: State
    ghost var trace: seq<Event>

    ghost predicate Valid()
      reads this
    {
      && Reached(trace, state)
      && state.cursors == lastUIDs
      && state.emails == emails && state.gone == deleted && state.queue == queue
    }

    ghost function Contents(): Tables
      reads this
    {
      Tables(emails, queue, state.fired)
    }

    constructor ()
      ensures Valid() && state == INIT && !closed
    {
      lastUIDs, closed, cancelled, emails, deleted, queue := map[], false, false, {}, {}, [];
      state, trace := INIT, [];
    }

    /** Records a step of the machine; the fields must follow. */
    ghost method Note(e: Event)
      requires Reached(trace, state) && Enabled(state, e)
      modifies this`state, this`trace
      ensures Reached(trace, state)
      ensures trace == old(trace) + [e] && state == Step(old(state), e)
    {
      ReachedSnoc(trace, state, e);
      state := Step(state, e);
      trace := trace + [e];
    }

    /** RemoveAccount; the pool's and the poller's own results are given. */
    method RemoveAccount(account: string, poolErr: Option<RemoveError>, pollerErr: Option<RemoveError>)
      returns (err: Option<RemoveError>)
      requires Valid() && IsAccountId(account)
      modifies this
      ensures Valid() && emails == old(emails) && queue == old(queue) && closed == old(closed)
      ensures closed ==> err == Some(CoordinatorClosed) && lastUIDs == old(lastUIDs)
      ensures !closed ==> lastUIDs == WithoutAccount(old(lastUIDs), account)
      ensures !closed ==> (err.None? <==> poolErr.None? || pollerErr.None?)
      ensures !closed && err.Some? ==> err == poolErr
    {
      if closed {
        return Some(CoordinatorClosed);
      }
      var todo := lastUIDs.Keys;
      while todo != {}
        invariant todo <= old(lastUIDs).Keys
        invariant lastUIDs == map key | key in old(lastUIDs) && (key in todo || !HasAccountPrefix(key, account))
                              :: old(lastUIDs)[key]
        invariant Reached(trace, state) && state == old(state)
        invariant emails == old(emails) && queue == old(queue) && deleted == old(deleted) && closed == old(closed)
        decreases todo
      {
        var key :| key in todo;
        todo := todo - {key};
        if |key| > |account| && key[..|account| + 1] == account + ":" {
          lastUIDs := lastUIDs - {key};
        }
      }
      Note(Event.RemoveAccount(account));
      if poolErr.Some? && pollerErr.Some? {
        if poolErr == Some(AccountNotFound) && pollerErr == Some(AccountNotFound) {
          return Some(AccountNotFound);
        }
        return poolErr;
      }
      return None;
    }

    /** QueueForEmail, as the event handler calls it: one insert per webhook, failures skipped. */
    method QueueForEmail(loop: Loop, m: Mail, notice: Notice) returns (err: Option<QueueError>)
      requires Valid() && notice.Valid()
      requires state.handlers.Of(loop).Notifying? && state.handlers.Of(loop).mail == m
      requires state.handlers.Of(loop).webhooks == notice.Webhooks()
      modifies this`queue, this`state, this`trace
      ensures Valid() && state.handlers.Of(loop) == Ingesting(old(state.handlers.Of(loop)).work)
      ensures queue == old(queue) + notice.Rows(m)
      ensures state.fired == old(state.fired) && state.server == old(state.server)
      ensures err == Some(WebhookLookupFailed) <==> notice.LookupFails?
      ensures err == Some(PayloadFailed) <==> notice.Found? && notice.webhooks != [] && !notice.payloadOk
      ensures err == Some(NothingQueued) <==>
                && notice.Found? && notice.webhooks != [] && notice.payloadOk
                && forall i :: 0 <= i < |notice.inserted| ==> !notice.inserted[i]
    {
      err := None;
      if notice.LookupFails? {
        err := Some(WebhookLookupFailed);
      } else if |notice.webhooks| > 0 {
        if !notice.payloadOk {
          err := Some(PayloadFailed);
        } else {
          var queuedCount := QueueForAll(loop, m, notice.webhooks, notice.inserted);
          NoRows(m, notice.webhooks, notice.inserted);
          if queuedCount == 0 {
            err := Some(NothingQueued);
          }
        }
      }
      Note(Notified(loop));
    }

    /** QueueForEmail's loop over the webhooks. */
    method QueueForAll(loop: Loop, m: Mail, webhooks: seq<nat>, inserted: seq<bool>) returns (queued: nat)
      requires Valid() && |inserted| == |webhooks|
      requires state.handlers.Of(loop).Notifying? && state.handlers.Of(loop).mail == m
      requires state.handlers.Of(loop).webhooks == webhooks
      modifies this`queue, this`state, this`trace
      ensures Valid() && state.handlers.Of(loop) == Notifying(old(state.handlers.Of(loop)).work, m, [])
      ensures queue == old(queue) + QueueRows(m, webhooks, inserted)
      ensures queued == |QueueRows(m, webhooks, inserted)|
      ensures state.fired == old(state.fired) && state.server == old(state.server)
    {
      queued := 0;
      ghost var w := state.handlers.Of(loop).work;
      for i := 0 to |webhooks|
        invariant Valid() && state.handlers.Of(loop) == Notifying(w, m, webhooks[i..])
        invariant queue + QueueRows(m, webhooks[i..], inserted[i..]) == old(queue) + QueueRows(m, webhooks, inserted)
        invariant queued + |QueueRows(m, webhooks[i..], inserted[i..])| == |QueueRows(m, webhooks, inserted)|
        invariant state.fired == old(state.fired) && state.server == old(state.server)
      {
        assert webhooks[i..][1..] == webhooks[i + 1..];
        QueueRowsFrom(queue, m, webhooks, inserted, i);
        if inserted[i] {
          queue := queue + [(webhooks[i], m)];
          queued := queued + 1;
          Note(Queues(loop));
        } else {
          Note(QueueFails(loop));
        }
      }
    }

    /** One IngestEmail call, up to its return (the saga inside is the module Ingest). */
    method IngestEmail(loop: Loop, m: Mail, a: IngestAnswer) returns (r: IngestResult)
      requires Valid() && IsBusy(state.handlers.Of(loop)) && state.handlers.Of(loop).work.Current() == m
      requires a.Valid()
      modifies this`emails, this`state, this`trace
      ensures Valid() && state.server == old(state.server)
      ensures var w := old(state.handlers.Of(loop)).work;
              match r
              case AlreadyExists =>
                && a.Complies? && m in emails && emails == old(emails) && state.fired == old(state.fired)
                && state.handlers.Of(loop) == Ingesting(w.Succeed())
              case IngestError =>
                && emails == (if a.Complies? && m.account !in deleted then old(emails) + {m} else old(emails))
                && (a.Complies? ==> m !in old(emails) && (m.account in deleted || !a.metadata))
                && state.fired == old(state.fired) && state.handlers.Of(loop) == Ingesting(w.Fail())
              case Ingested =>
                && a.Complies? && a.metadata && m !in old(emails) && m.account !in deleted
                && emails == old(emails) + {m} && state.fired == old(state.fired) + [m]
                && state.handlers.Of(loop) == Notifying(w.Succeed(), m, a.notice.Webhooks())
    {
      if a.Refuses? {
        Note(Fails(loop));
        return IngestError;
      }
      if m in emails {
        Note(Exists(loop));
        return AlreadyExists;
      }
      if m.account in deleted {
        Note(Fails(loop));
        return IngestError;
      }
      r := InsertEmail(loop, m, a);
    }

    /** IngestEmail from its insert on. */
    method InsertEmail(loop: Loop, m: Mail, a: IngestAnswer) returns (r: IngestResult)
      requires Valid() && IsBusy(state.handlers.Of(loop)) && state.handlers.Of(loop).work.Current() == m
      requires a.Valid() && a.Complies? && m !in emails && m.account !in deleted
      modifies this`emails, this`state, this`trace
      ensures Valid() && state.server == old(state.server) && emails == old(emails) + {m}
      ensures r == if a.metadata then Ingested else IngestError
      ensures state.fired == if a.metadata then old(state.fired) + [m] else old(state.fired)
      ensures var w := old(state.handlers.Of(loop)).work;
              state.handlers.Of(loop)
              == if a.metadata then Notifying(w.Succeed(), m, a.notice.Webhooks()) else Ingesting(w.Fail())
    {
      emails := emails + {m};
      Note(Inserts(loop));
      if !a.metadata {
        Note(MetaFails(loop));
        return IngestError;
      }
      Note(Returns(loop, a.notice.Webhooks()));
      return Ingested;
    }

    /** The body of handleEvent's loop: whether the UID counts as successfully processed. */
    method HandleUID(loop: Loop, m: Mail, a: IngestAnswer) returns (success: bool)
      requires Valid() && IsBusy(state.handlers.Of(loop)) && state.handlers.Of(loop).work.Current() == m
      requires a.Valid()
      modifies this`emails, this`queue, this`state, this`trace
      ensures Valid() && state.handlers.Of(loop).Ingesting? && state.server == old(state.server)
      ensures (state.handlers.Of(loop).work, Contents())
              == HandleOne(old(state.handlers.Of(loop).work), old(Contents()), deleted, a)
      ensures state.handlers.Of(loop).work.last == if success then m.uid else old(state.handlers.Of(loop).work.last)
    {
      var r := IngestEmail(loop, m, a);
      success := !r.IngestError?;
      if r.Ingested? {
        var _ := QueueForEmail(loop, m, a.notice);
      }
    }

    /** Reads the cursor at the start of a handled event. */
    method ReadLastUID(loop: Loop, event: IdleEvent) returns (lastUID: nat)
      requires Valid() && state.handlers.Of(loop).Free? && IsAccountId(event.account)
      modifies this`state, this`trace
      ensures Valid() && lastUID == CursorOf(lastUIDs, event.account, event.folder)
      ensures var h := Searching(event.account, event.folder, lastUID);
              state == old(state).(handlers := old(state.handlers).With(loop, h))
    {
      Note(Accept(loop, event.account, event.folder));
      var uidKey := event.account + ":" + event.folder;
      lastUID := if uidKey in lastUIDs then lastUIDs[uidKey] else 0;
      Note(ReadCursor(loop));
    }

    /** Raises the cursor at the end of a handled event. */
    method RaiseLastUID(loop: Loop, event: IdleEvent, lastSuccessUID: nat)
      requires Valid() && Enabled(state, Advance(loop))
      requires var w := state.handlers.Of(loop).work;
               w.last == lastSuccessUID && w.account == event.account && w.folder == event.folder
      modifies this`lastUIDs, this`state, this`trace
      ensures Valid() && state.handlers.Of(loop).Free? && state.fired == old(state.fired)
      ensures lastUIDs == if lastSuccessUID > CursorOf(old(lastUIDs), event.account, event.folder)
                          then old(lastUIDs)[CursorKey(event.account, event.folder) := lastSuccessUID]
                          else old(lastUIDs)
    {
      var uidKey := event.account + ":" + event.folder;
      if lastSuccessUID > 0 {
        if lastSuccessUID > (if uidKey in lastUIDs then lastUIDs[uidKey] else 0) {
          lastUIDs := lastUIDs[uidKey := lastSuccessUID];
        }
      }
      Note(Advance(loop));
    }

    /** handleEvent's loop over the new UIDs; `done` says whether it was not cut short by shutdown. */
    method ProcessUIDs(loop: Loop, event: IdleEvent, newUIDs: seq<nat>, answers: Answers)
      returns (lastSuccessUID: nat, done: bool)
      requires Valid() && state.handlers.Of(loop).Ingesting?
      requires var w := state.handlers.Of(loop).work;
               && w.next == 0 && w.last == 0 && w.batch == newUIDs
               && w.account == event.account && w.folder == event.folder
      requires |answers.ingest| >= |newUIDs| && forall i :: 0 <= i < |answers.ingest| ==> answers.ingest[i].Valid()
      modifies this`emails, this`queue, this`state, this`trace
      ensures Valid() && done == (answers.stop >= |newUIDs|)
      ensures done ==> state.handlers.Of(loop).Ingesting?
      ensures !done ==> state.handlers.Of(loop).Free?
      ensures var (w, t) := HandleMany(old(state.handlers.Of(loop).work), old(Contents()), deleted, answers.ingest,
                                       Min(answers.stop, |newUIDs|));
              && Contents() == t && lastSuccessUID == w.last
              && (done ==> state.handlers.Of(loop).work == w)
    {
      ghost var start, tables := state.handlers.Of(loop).work, Contents();
      lastSuccessUID, done := 0, true;
      for i := 0 to |newUIDs|
        invariant done && i <= answers.stop
        invariant Valid() && state.handlers.Of(loop).Ingesting?
        invariant (state.handlers.Of(loop).work, Contents()) == HandleMany(start, tables, deleted, answers.ingest, i)
        invariant lastSuccessUID == state.handlers.Of(loop).work.last
      {
        if i == answers.stop {
          Note(GiveUp(loop));
          done := false;
          return;
        }
        var success := HandleUID(loop, Mail(event.account, event.folder, newUIDs[i]), answers.ingest[i]);
        if success {
          lastSuccessUID := newUIDs[i];
        }
      }
    }

    /** handleEvent from the end of its search on: the loop over the UIDs and the cursor update. */
    method ProcessAndRaise(loop: Loop, event: IdleEvent, newUIDs: seq<nat>, answers: Answers)
      requires Valid() && newUIDs != [] && answers.search == Some(newUIDs) && |answers.ingest| >= |newUIDs|
      requires state.handlers.Of(loop)
               == Ingesting(FirstWork(CursorOf(lastUIDs, event.account, event.folder), state.server, event, newUIDs))
      requires forall i :: 0 <= i < |answers.ingest| ==> answers.ingest[i].Valid()
      modifies this`lastUIDs, this`emails, this`queue, this`state, this`trace
      ensures Valid() && state.handlers.Of(loop).Free?
      ensures var (w, t) := Handled(old(lastUIDs), old(Contents()), old(state.server), deleted, event, answers);
              && Contents() == t
              && lastUIDs == if answers.stop >= |newUIDs| && w.last > w.base
                             then old(lastUIDs)[CursorKey(event.account, event.folder) := w.last] else old(lastUIDs)
    {
      var lastSuccessUID, done := ProcessUIDs(loop, event, newUIDs, answers);
      if done {
        RaiseLastUID(loop, event, lastSuccessUID);
      }
    }

    /** handleEvent's body. */
    method RunEvent(loop: Loop, event: IdleEvent, answers: Answers)
      requires Valid() && state.handlers.Of(loop).Free? && IsAccountId(event.account)
      requires answers.search.Some? ==>
                 && IsSearchResult(answers.search.value, MailboxOf(state.server, event.account, event.folder),
                                   CursorOf(lastUIDs, event.account, event.folder))
                 && |answers.ingest| >= |answers.search.value|
      requires forall i :: 0 <= i < |answers.ingest| ==> answers.ingest[i].Valid()
      modifies this`lastUIDs, this`emails, this`queue, this`state, this`trace
      ensures Valid() && state.handlers.Of(loop).Free?
      ensures event.kind.ExpungeEvent? || !answers.accountFound || answers.search.None? || answers.search.value == []
              ==> lastUIDs == old(lastUIDs) && Contents() == old(Contents())
      ensures event.kind.NewMessage? && answers.accountFound && answers.search.Some? ==>
                var (w, t) := Handled(old(lastUIDs), old(Contents()), old(state.server), deleted, event, answers);
                && Contents() == t
                && lastUIDs == if answers.stop >= |answers.search.value| && w.last > w.base
                               then old(lastUIDs)[CursorKey(event.account, event.folder) := w.last] else old(lastUIDs)
    {
      if event.kind != NewMessage || !answers.accountFound {
        return;
      }
      var _ := ReadLastUID(loop, event);
      if answers.search.None? {
        Note(GiveUp(loop));
        return;
      }
      var newUIDs := answers.search.value;
      Note(Searched(loop, newUIDs));
      if |newUIDs| == 0 {
        return;
      }
      ProcessAndRaise(loop, event, newUIDs, answers);
    }

    /**
     handleEvent, run by one of the two loops.  The last clause says what becomes of the
     tables and the cursor in terms of the answers, for a search result without repetitions.
     */
    method HandleEvent(loop: Loop, event: IdleEvent, answers: Answers)
      returns (ghost announced: seq<nat>, ghost slots: seq<(nat, nat)>, ghost lastSuccess: int)
      requires Valid() && state.handlers.Of(loop).Free? && IsAccountId(event.account)
      requires answers.search.Some? ==>
                 && IsSearchResult(answers.search.value, MailboxOf(state.server, event.account, event.folder),
                                   CursorOf(lastUIDs, event.account, event.folder))
                 && |answers.ingest| >= |answers.search.value|
      requires forall i :: 0 <= i < |answers.ingest| ==> answers.ingest[i].Valid()
      modifies this`lastUIDs, this`emails, this`queue, this`state, this`trace
      ensures Valid() && state.handlers.Of(loop).Free?
      ensures event.kind.ExpungeEvent? || !answers.accountFound || answers.search.None? || answers.search.value == []
              ==> lastUIDs == old(lastUIDs) && Contents() == old(Contents())
      ensures event.kind.NewMessage? && answers.accountFound && answers.search.Some? ==>
                var (w, t) := Handled(old(lastUIDs), old(Contents()), old(state.server), deleted, event, answers);
                && Contents() == t
                && lastUIDs == if answers.stop >= |answers.search.value| && w.last > w.base
                               then old(lastUIDs)[CursorKey(event.account, event.folder) := w.last] else old(lastUIDs)
      ensures Runs(event, answers) ==>
                && AreEmailsAfter(event, answers, deleted, old(emails), emails)
                && AreCallsAfter(event, answers, deleted, old(emails), announced, old(state.fired), state.fired)
                && AreRowsAfter(event, answers, announced, slots, old(queue), queue)
                && IsCursorAfter(event, answers, deleted, old(emails), lastSuccess, old(lastUIDs), lastUIDs)
    {
      announced, slots, lastSuccess := [], [], -1;
      RunEvent(loop, event, answers);
      if Runs(event, answers) {
        ghost var before := old(Contents());
        announced, slots := TablesAfter(old(lastUIDs), before, old(state.server), deleted, event, answers, Contents());
        lastSuccess := CursorAfter(old(lastUIDs), before, old(state.server), deleted, event, answers, lastUIDs);
      }
    }

    /** Meanwhile, elsewhere: mail arrives or is expunged, the API stores an email, an account is deleted. */
    method Elsewhere(e: Event)
      requires Valid() && Enabled(state, e)
      requires e.Arrive? || e.Expunge? || e.ApiStore? || e.DeleteAccount?
      modifies this`emails, this`deleted, this`state, this`trace
      ensures Valid() && state == Step(old(state), e) && trace == old(trace) + [e]
    {
      match e {
        case ApiStore(m) => emails := emails + {m};
        case DeleteAccount(account) =>
          deleted := deleted + {account};
          emails := set m | m in emails && m.account != account;
        case _ =>
      }
      Note(e);
    }

    /**
     Close up to its wait, given what the pool's and the poller's Close return: cancels the
     context and joins their errors.  That both loops can then end is SyncGuarantees.LoopsCanStop.
     */
    method Close(poolErr: Option<CloseError>, pollerErr: Option<CloseError>) returns (errs: seq<CloseError>)
      requires Valid()
      modifies this`closed, this`cancelled
      ensures Valid() && closed && cancelled == (old(cancelled) || !old(closed))
      ensures old(closed) ==> errs == [CloseError.AlreadyClosed]
      ensures !old(closed) ==> forall e :: e in errs <==> poolErr == Some(e) || pollerErr == Some(e)
      ensures !old(closed) && poolErr.Some? ==> errs != [] && errs[0] == poolErr.value
    {
      if closed {
        return [CloseError.AlreadyClosed];
      }
      closed := true;
      cancelled := true;
      errs := [];
      if poolErr.Some? {
        errs := errs + [poolErr.value];
      }
      if pollerErr.Some? {
        errs := errs + [pollerErr.value];
      }
    }
  }
}
