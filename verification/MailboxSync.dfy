/**
 Mailbox synchronisation (internal/sync/coordinator.go, handleEvent) as a state machine.

 Two event loops run handleEvent concurrently; between any two of their steps mail may
 arrive or be expunged, the API may store an email on demand, an account may be removed
 from the sync system or deleted, and the process may be restarted.  Notifications are
 only hints: a dropped one is a handled event that never starts.

 IMAP is assumed to give every mailbox strictly ascending UIDs and a constant UIDVALIDITY
 (section 2.3.1.1 of RFC 3501).
 */
module MailboxSync {

  /** One message; also the UNIQUE key (account_id, folder, uid) of the emails table. */
  datatype Mail = Mail(account: string, folder: string, uid: nat)

  predicate SameMailbox(m: Mail, n: Mail) {
    m.account == n.account && m.folder == n.folder
  }

  // ---------------------------------------------------------------------------
  // Cursor keys
  // ---------------------------------------------------------------------------

  /** Account ids are UUID strings, which hold no ':'. */
  predicate IsAccountId(account: string) {
    forall i :: 0 <= i < |account| ==> account[i] != ':'
  }

  function CursorKey(account: string, folder: string): string {
    account + ":" + folder
  }

  /** RemoveAccount's test on a key. */
  predicate HasAccountPrefix(key: string, account: string) {
    |key| > |account| && key[..|account| + 1] == account + ":"
  }

  /** Keys of different mailboxes differ, even when folder names hold ':'. */
  lemma CursorKeyInjective(a: string, f: string, b: string, g: string)
    requires IsAccountId(a) && IsAccountId(b)
    ensures CursorKey(a, f) == CursorKey(b, g) ==> a == b && f == g
  {
    var k, l := CursorKey(a, f), CursorKey(b, g);
    if k == l {
      assert k[|a|] == ':' && forall i :: 0 <= i < |a| ==> k[i] != ':';
      assert l[|b|] == ':' && forall i :: 0 <= i < |b| ==> l[i] != ':';
      assert |a| == |b|;
      assert k[..|a|] == a && l[..|b|] == b;
      assert k[|a| + 1..] == f && l[|b| + 1..] == g;
    }
  }

  /** The prefix test singles out exactly the keys of the account. */
  lemma PrefixIsExact(account: string, b: string, g: string)
    requires IsAccountId(account) && IsAccountId(b)
    ensures HasAccountPrefix(CursorKey(b, g), account) <==> b == account
  {
    var key := CursorKey(b, g);
    if b == account {
      assert key[..|account| + 1] == account + ":";
    }
    if HasAccountPrefix(key, account) {
      var folder := key[|account| + 1..];
      assert key == CursorKey(account, folder);
      CursorKeyInjective(account, folder, b, g);
    }
  }

  // ---------------------------------------------------------------------------
  // States
  // ---------------------------------------------------------------------------

  datatype Loop = PoolLoop | PollerLoop

  /** A handled event: its batch, how far it is, the last success and the failures. */
  datatype Work = Work(
    account: string, folder: string,
    base: nat,          // the cursor as it was read
    held: set<nat>,     // what the mailbox held when it was searched
    batch: seq<nat>, next: nat,
    last: nat,          // lastSuccessUID
    failed: set<nat>)
  {
    function MailAt(i: nat): Mail
      requires i < |batch|
    {
      Mail(account, folder, batch[i])
    }

    function Current(): Mail
      requires next < |batch|
    {
      MailAt(next)
    }

    function Succeed(): Work
      requires next < |batch|
    {
      this.(last := batch[next], next := next + 1)
    }

    function Fail(): Work
      requires next < |batch|
    {
      this.(failed := failed + {batch[next]}, next := next + 1)
    }
  }

  datatype Handler =
    | Free
    | Reading(account: string, folder: string)             // about to read the cursor
    | Searching(account: string, folder: string, base: nat) // about to search the mailbox
    | Ingesting(work: Work)                                // before the next UID, or at the end
    | Inserted(work: Work)                                 // the current email is stored, IngestEmail has not returned
    | Notifying(work: Work, mail: Mail, webhooks: seq<nat>) // the event handler is queueing `mail` for `webhooks`

  /** What each of the two event loops is doing. */
  datatype Handlers = Handlers(pool: Handler, poller: Handler) {
    function Of(l: Loop): Handler {
      if l == PoolLoop then pool else poller
    }

    function With(l: Loop, h: Handler): Handlers {
      if l == PoolLoop then this.(pool := h) else this.(poller := h)
    }
  }

  datatype State = State(
    server: set<Mail>,           // on the IMAP servers now
    issued: set<Mail>,         // ever on the IMAP servers
    emails: set<Mail>,           // the emails table
    gone: set<string>,           // accounts deleted from the database
    cursors: map<string, nat>,   // lastUIDs
    handlers: Handlers,
    fired: seq<Mail>,            // calls of the event handler
    queue: seq<(nat, Mail)>,     // rows of webhook_queue
    skipped: set<Mail>)          // failed UIDs that some handler put its cursor over

  const INIT := State({}, {}, {}, {}, map[], Handlers(Free, Free), [], [], {})

  /** A missing cursor reads as zero. */
  function CursorOf(cursors: map<string, nat>, account: string, folder: string): nat {
    var key := CursorKey(account, folder);
    if key in cursors then cursors[key] else 0
  }

  function MailboxOf(mails: set<Mail>, account: string, folder: string): set<nat> {
    set m | m in mails && m.account == account && m.folder == folder :: m.uid
  }

  predicate IsLargest(u: nat, uids: set<nat>) {
    u in uids && forall v :: v in uids ==> v <= u
  }

  /**
   FetchUIDsAfter: everything when `after` is 0, else the UID range after+1:*, which holds
   the mailbox's largest UID even when that is not above `after` (section 6.4.8 of
   RFC 3501), also when after+1 wraps around to 0.  The order is left open.
   */
  ghost predicate IsSearchResult(uids: seq<nat>, mailbox: set<nat>, after: nat) {
    forall u :: u in uids <==> u in mailbox && (after == 0 || u > after || IsLargest(u, mailbox))
  }

  // ---------------------------------------------------------------------------
  // Steps
  // ---------------------------------------------------------------------------

  datatype Event =
    | Arrive(mail: Mail)
    | Expunge(mail: Mail)
    | ApiStore(mail: Mail)
    | RemoveAccount(account: string)
    | DeleteAccount(account: string)
    | Restart
    | Accept(loop: Loop, account: string, folder: string)
    | ReadCursor(loop: Loop)
    | Searched(loop: Loop, uids: seq<nat>)
    | Exists(loop: Loop)          // IngestEmail returns ErrEmailAlreadyExists
    | Fails(loop: Loop)           // IngestEmail returns another error before its insert
    | Inserts(loop: Loop)         // IngestEmail inserts the email
    | MetaFails(loop: Loop)       // … and then returns an error for its attachments
    | Returns(loop: Loop, webhooks: seq<nat>) // … and returns; the event handler is called
    | Queues(loop: Loop)          // the event handler inserts a queue row
    | QueueFails(loop: Loop)      // … or fails to, and goes on with the next webhook
    | Notified(loop: Loop)        // the event handler returns or panics
    | Advance(loop: Loop)         // the cursor update at the end of handleEvent
    | GiveUp(loop: Loop)          // account or search error, or shutdown seen between UIDs

  ghost predicate Enabled(s: State, e: Event)
  {
    match e
    case Arrive(m) => m.uid > 0 && forall n :: n in s.issued && SameMailbox(m, n) ==> n.uid < m.uid
    case Expunge(m) => m in s.server
    case ApiStore(m) => m !in s.emails && m.account !in s.gone
    case RemoveAccount(account) => IsAccountId(account)
    case DeleteAccount(_) => true
    case Restart => true
    case Accept(l, account, _) => s.handlers.Of(l).Free? && IsAccountId(account)
    case ReadCursor(l) => s.handlers.Of(l).Reading?
    case Searched(l, uids) =>
      var h := s.handlers.Of(l);
      h.Searching? && IsSearchResult(uids, MailboxOf(s.server, h.account, h.folder), h.base)
    case Exists(l) => IsBusy(s.handlers.Of(l)) && s.handlers.Of(l).work.Current() in s.emails
    case Fails(l) => IsBusy(s.handlers.Of(l))
    case Inserts(l) =>
      && IsBusy(s.handlers.Of(l))
      && var m := s.handlers.Of(l).work.Current(); m !in s.emails && m.account !in s.gone
    case MetaFails(l) => s.handlers.Of(l).Inserted? && s.handlers.Of(l).work.next < |s.handlers.Of(l).work.batch|
    case Returns(l, webhooks) =>
      && s.handlers.Of(l).Inserted? && s.handlers.Of(l).work.next < |s.handlers.Of(l).work.batch|
      && forall i, j :: 0 <= i < j < |webhooks| ==> webhooks[i] != webhooks[j]
    case Queues(l) => s.handlers.Of(l).Notifying? && s.handlers.Of(l).webhooks != []
    case QueueFails(l) => s.handlers.Of(l).Notifying? && s.handlers.Of(l).webhooks != []
    case Notified(l) => s.handlers.Of(l).Notifying?
    case Advance(l) => s.handlers.Of(l).Ingesting? && s.handlers.Of(l).work.next == |s.handlers.Of(l).work.batch|
    case GiveUp(l) => s.handlers.Of(l).Reading? || s.handlers.Of(l).Searching? || s.handlers.Of(l).Ingesting?
  }

  predicate IsBusy(h: Handler) {
    h.Ingesting? && h.work.next < |h.work.batch|
  }

  function Set(s: State, l: Loop, h: Handler): State {
    s.(handlers := s.handlers.With(l, h))
  }

  /** The UIDs of a finished batch that failed and lie under its last success. */
  function PassedOver(w: Work): set<Mail> {
    set u | u in w.failed && u <= w.last :: Mail(w.account, w.folder, u)
  }

  function StepAdvance(s: State, l: Loop, w: Work): State {
    var key := CursorKey(w.account, w.folder);
    var raise := w.last > 0 && w.last > CursorOf(s.cursors, w.account, w.folder);
    s.(cursors := if raise then s.cursors[key := w.last] else s.cursors,
       skipped := if w.last > 0 then s.skipped + PassedOver(w) else s.skipped,
       handlers := s.handlers.With(l, Free))
  }

  function WithoutAccount(cursors: map<string, nat>, account: string): map<string, nat> {
    map key | key in cursors && !HasAccountPrefix(key, account) :: cursors[key]
  }

  ghost function Step(s: State, e: Event): State
    requires Enabled(s, e)
  {
    match e
    case Arrive(m) => s.(server := s.server + {m}, issued := s.issued + {m})
    case Expunge(m) => s.(server := s.server - {m})
    case ApiStore(m) => s.(emails := s.emails + {m})
    case RemoveAccount(account) => s.(cursors := WithoutAccount(s.cursors, account))
    case DeleteAccount(account) =>
      s.(gone := s.gone + {account}, emails := set m | m in s.emails && m.account != account)
    case Restart => s.(cursors := map[], handlers := INIT.handlers)
    case Accept(l, account, folder) => Set(s, l, Reading(account, folder))
    case ReadCursor(l) =>
      var h := s.handlers.Of(l);
      Set(s, l, Searching(h.account, h.folder, CursorOf(s.cursors, h.account, h.folder)))
    case Searched(l, uids) =>
      var h := s.handlers.Of(l);
      var held := MailboxOf(s.server, h.account, h.folder);
      Set(s, l, if uids == [] then Free else Ingesting(Work(h.account, h.folder, h.base, held, uids, 0, 0, {})))
    case Exists(l) => Set(s, l, Ingesting(s.handlers.Of(l).work.Succeed()))
    case Fails(l) => Set(s, l, Ingesting(s.handlers.Of(l).work.Fail()))
    case Inserts(l) =>
      Set(s, l, Inserted(s.handlers.Of(l).work)).(emails := s.emails + {s.handlers.Of(l).work.Current()})
    case MetaFails(l) => Set(s, l, Ingesting(s.handlers.Of(l).work.Fail()))
    case Returns(l, webhooks) =>
      var w := s.handlers.Of(l).work;
      Set(s, l, Notifying(w.Succeed(), w.Current(), webhooks)).(fired := s.fired + [w.Current()])
    case Queues(l) =>
      var h := s.handlers.Of(l);
      Set(s, l, h.(webhooks := h.webhooks[1..])).(queue := s.queue + [(h.webhooks[0], h.mail)])
    case QueueFails(l) =>
      var h := s.handlers.Of(l);
      Set(s, l, h.(webhooks := h.webhooks[1..]))
    case Notified(l) => Set(s, l, Ingesting(s.handlers.Of(l).work))
    case Advance(l) => StepAdvance(s, l, s.handlers.Of(l).work)
    case GiveUp(l) => Set(s, l, Free)
  }

  ghost predicate CanRun(s: State, es: seq<Event>)
    decreases |es|, 0
  {
    es == [] || (var n := |es| - 1; CanRun(s, es[..n]) && Enabled(Run(s, es[..n]), es[n]))
  }

  ghost function Run(s: State, es: seq<Event>): State
    requires CanRun(s, es)
    decreases |es|, 1
  {
    if es == [] then s else var n := |es| - 1; Step(Run(s, es[..n]), es[n])
  }

  lemma RunSnoc(s: State, es: seq<Event>, e: Event)
    requires CanRun(s, es) && Enabled(Run(s, es), e)
    ensures CanRun(s, es + [e])
    ensures Run(s, es + [e]) == Step(Run(s, es), e)
  {
    assert (es + [e])[..|es|] == es;
  }

  // ---------------------------------------------------------------------------
  // The cursor invariant
  // ---------------------------------------------------------------------------

  /** In the emails table; nothing is asked of deleted accounts. */
  predicate Stored(s: State, m: Mail) {
    m in s.emails || m.account in s.gone
  }

  /** Stored, or knowingly passed over. */
  predicate Settled(s: State, m: Mail) {
    Stored(s, m) || m in s.skipped
  }

  predicate SettledUpTo(s: State, account: string, folder: string, bound: nat) {
    forall m :: m in s.server && m.account == account && m.folder == folder && m.uid <= bound ==> Settled(s, m)
  }

  /** `uid` is zero or was once given to a message of the mailbox. */
  predicate Known(s: State, account: string, folder: string, uid: nat) {
    uid == 0 || Mail(account, folder, uid) in s.issued
  }

  predicate CursorOk(s: State, account: string, folder: string) {
    var c := CursorOf(s.cursors, account, folder);
    Known(s, account, folder, c) && SettledUpTo(s, account, folder, c)
  }

  predicate WorkOk(s: State, w: Work) {
    && IsAccountId(w.account)
    && w.next <= |w.batch|
    && (forall u :: u in w.batch ==> u in w.held)
    && (forall u :: u in w.held ==> Mail(w.account, w.folder, u) in s.issued)
    // what came later lies above the whole batch
    && (forall m, u :: m in s.server && m.account == w.account && m.folder == w.folder && u in w.held ==>
          m.uid in w.held || u < m.uid)
    && (forall u :: u in w.held ==> if u <= w.base then Settled(s, Mail(w.account, w.folder, u)) else u in w.batch)
    && (forall i :: 0 <= i < w.next ==> w.batch[i] in w.failed || Stored(s, w.MailAt(i)))
    && (w.last == 0 || w.last in w.batch[..w.next])
  }

  predicate HandlerOk(s: State, h: Handler) {
    match h
    case Free => true
    case Reading(account, _) => IsAccountId(account)
    case Searching(account, folder, base) =>
      IsAccountId(account) && Known(s, account, folder, base) && SettledUpTo(s, account, folder, base)
    case Ingesting(w) => WorkOk(s, w)
    case Inserted(w) => WorkOk(s, w) && w.next < |w.batch| && Stored(s, w.Current())
    case Notifying(w, m, _) => WorkOk(s, w)
  }

  ghost predicate Safe(s: State) {
    && s.server <= s.issued
    && (forall m :: m in s.issued ==> m.uid > 0)
    && (forall account, folder :: IsAccountId(account) ==> CursorOk(s, account, folder))
    && (forall l: Loop :: HandlerOk(s, s.handlers.Of(l)))
  }

  /** How the shared tables may change under a handler's feet. */
  ghost predicate Frame(s: State, s': State) {
    && s.issued <= s'.issued
    && (forall m :: Settled(s, m) ==> Settled(s', m))
    && (forall m :: Stored(s, m) ==> Stored(s', m))
    && (forall m, n :: m in s'.server && m !in s.server && n in s.issued && SameMailbox(m, n) ==> n.uid < m.uid)
    && (forall m :: m in s'.server && m !in s.server ==> m.uid > 0)
  }

  lemma SettledFrame(s: State, s': State, account: string, folder: string, bound: nat)
    requires Frame(s, s') && Known(s, account, folder, bound) && SettledUpTo(s, account, folder, bound)
    ensures SettledUpTo(s', account, folder, bound)
  {
    forall m | m in s'.server && m.account == account && m.folder == folder && m.uid <= bound
      ensures Settled(s', m)
    {
      if m !in s.server && bound > 0 {
        assert SameMailbox(m, Mail(account, folder, bound));
      }
    }
  }

  lemma HandlerFrame(s: State, s': State, h: Handler)
    requires Frame(s, s') && HandlerOk(s, h)
    ensures HandlerOk(s', h)
  {
    if h.Searching? {
      SettledFrame(s, s', h.account, h.folder, h.base);
    } else if h.Ingesting? || h.Inserted? || h.Notifying? {
      WorkFrame(s, s', h.work);
    }
  }

  lemma WorkFrame(s: State, s': State, w: Work)
    requires Frame(s, s') && WorkOk(s, w)
    ensures WorkOk(s', w)
  {
    forall m, u | m in s'.server && m.account == w.account && m.folder == w.folder && m.uid !in w.held && u in w.held
      ensures u < m.uid
    {
      if m !in s.server {
        assert SameMailbox(m, Mail(w.account, w.folder, u));
      }
    }
  }

  /** Steps outside the handlers. */
  lemma SafeOutside(s: State, s': State)
    requires Safe(s) && Frame(s, s') && s'.handlers == s.handlers && s'.cursors == s.cursors
    requires s'.server <= s'.issued && forall m :: m in s'.issued ==> m.uid > 0
    ensures Safe(s')
  {
    forall account, folder | IsAccountId(account)
      ensures CursorOk(s', account, folder)
    {
      assert CursorOk(s, account, folder);
      SettledFrame(s, s', account, folder, CursorOf(s.cursors, account, folder));
    }
    forall l: Loop
      ensures HandlerOk(s', s'.handlers.Of(l))
    {
      HandlerFrame(s, s', s.handlers.Of(l));
    }
  }

  /** Steps of one handler that change no cursor. */
  lemma SafeHandler(s: State, s': State, l: Loop, h: Handler)
    requires Safe(s) && Frame(s, s') && s'.handlers == s.handlers.With(l, h) && s'.cursors == s.cursors
    requires s'.server <= s'.issued && forall m :: m in s'.issued ==> m.uid > 0
    requires HandlerOk(s', h)
    ensures Safe(s')
  {
    SafeOutside(s, s'.(handlers := s.handlers));
    forall k: Loop
      ensures HandlerOk(s', s'.handlers.Of(k))
    {
      HandlerFrame(s, s', s.handlers.Of(k));
    }
    forall account, folder | IsAccountId(account)
      ensures CursorOk(s', account, folder)
    {
      assert CursorOk(s'.(handlers := s.handlers), account, folder);
    }
  }

  lemma SafeTables(s: State, e: Event)
    requires Safe(s) && Enabled(s, e)
    requires e.Arrive? || e.Expunge? || e.ApiStore? || e.DeleteAccount?
    ensures Safe(Step(s, e))
  {
    SafeOutside(s, Step(s, e));
  }

  lemma SafeRemove(s: State, account: string)
    requires Safe(s) && IsAccountId(account)
    ensures Safe(Step(s, RemoveAccount(account)))
  {
    var s' := Step(s, RemoveAccount(account));
    forall a, folder | IsAccountId(a)
      ensures CursorOk(s', a, folder)
    {
      assert CursorOk(s, a, folder);
    }
    forall l: Loop
      ensures HandlerOk(s', s'.handlers.Of(l))
    {
      HandlerFrame(s, s', s.handlers.Of(l));
    }
  }

  lemma SafeRestart(s: State)
    requires Safe(s)
    ensures Safe(Step(s, Restart))
  {
    var s' := Step(s, Restart);
    forall account, folder | IsAccountId(account)
      ensures CursorOk(s', account, folder)
    {
    }
  }

  lemma SafeStart(s: State, e: Event)
    requires Safe(s) && Enabled(s, e)
    requires e.Accept? || e.ReadCursor? || e.GiveUp?
    ensures Safe(Step(s, e))
  {
    var s' := Step(s, e);
    if e.ReadCursor? {
      var h := s.handlers.Of(e.loop);
      assert CursorOk(s, h.account, h.folder);
    }
    SafeHandler(s, s', e.loop, s'.handlers.Of(e.loop));
  }

  lemma SafeSearched(s: State, l: Loop, uids: seq<nat>)
    requires Safe(s) && Enabled(s, Searched(l, uids))
    ensures Safe(Step(s, Searched(l, uids)))
  {
    var s', h := Step(s, Searched(l, uids)), s.handlers.Of(l);
    if uids != [] {
      var w := s'.handlers.Of(l).work;
      forall u | u in w.held
        ensures Mail(w.account, w.folder, u) in s.server
      {
      }
      assert WorkOk(s', w);
    }
    SafeHandler(s, s', l, s'.handlers.Of(l));
  }

  lemma WorkMovesOn(s: State, w: Work)
    requires WorkOk(s, w) && w.next < |w.batch|
    ensures WorkOk(s, w.Fail())
    ensures Stored(s, w.Current()) ==> WorkOk(s, w.Succeed())
  {
    assert w.batch[..w.next + 1] == w.batch[..w.next] + [w.batch[w.next]];
  }

  lemma SafeIngest(s: State, e: Event)
    requires Safe(s) && Enabled(s, e)
    requires e.Exists? || e.Fails? || e.Inserts? || e.MetaFails? || e.Returns?
    ensures Safe(Step(s, e))
  {
    var s', w := Step(s, e), s.handlers.Of(e.loop).work;
    assert HandlerOk(s, s.handlers.Of(e.loop));
    WorkFrame(s, s', w);
    WorkMovesOn(s', w);
    SafeHandler(s, s', e.loop, s'.handlers.Of(e.loop));
  }

  lemma SafeNotify(s: State, e: Event)
    requires Safe(s) && Enabled(s, e)
    requires e.Queues? || e.QueueFails? || e.Notified?
    ensures Safe(Step(s, e))
  {
    var s' := Step(s, e);
    assert HandlerOk(s, s.handlers.Of(e.loop));
    WorkFrame(s, s', s.handlers.Of(e.loop).work);
    SafeHandler(s, s', e.loop, s'.handlers.Of(e.loop));
  }

  /** At the end of a batch, everything on the server up to the last success is settled or passed over. */
  lemma BatchSettles(s: State, w: Work, m: Mail)
    requires WorkOk(s, w) && w.next == |w.batch|
    requires m in s.server && m.account == w.account && m.folder == w.folder && 0 < m.uid <= w.last
    ensures Settled(s, m) || m in PassedOver(w)
  {
    assert w.last in w.held;
    assert m.uid in w.held;
    assert m == Mail(w.account, w.folder, m.uid);
    if m.uid > w.base {
      var i :| 0 <= i < |w.batch| && w.batch[i] == m.uid;
      assert w.MailAt(i) == m;
      if m.uid in w.failed {
        assert m in PassedOver(w);
      }
    }
  }

  lemma SafeAdvance(s: State, l: Loop)
    requires Safe(s) && Enabled(s, Advance(l)) && s.server <= s.issued
    ensures Safe(Step(s, Advance(l)))
  {
    var s', w := Step(s, Advance(l)), s.handlers.Of(l).work;
    assert HandlerOk(s, s.handlers.Of(l));
    forall k: Loop
      ensures HandlerOk(s', s'.handlers.Of(k))
    {
      HandlerFrame(s, s', s.handlers.Of(k));
    }
    forall account, folder | IsAccountId(account)
      ensures CursorOk(s', account, folder)
    {
      CursorKeyInjective(account, folder, w.account, w.folder);
      assert CursorOk(s, account, folder);
      SettledFrame(s, s', account, folder, CursorOf(s.cursors, account, folder));
      if account == w.account && folder == w.folder && w.last > 0 {
        assert w.last in w.held;
        forall m | m in s'.server && m.account == account && m.folder == folder && m.uid <= w.last
          ensures Settled(s', m)
        {
          BatchSettles(s, w, m);
        }
      }
    }
  }

  lemma SafeStep(s: State, e: Event)
    requires Safe(s) && Enabled(s, e)
    ensures Safe(Step(s, e))
  {
    if e.RemoveAccount? {
      SafeRemove(s, e.account);
    } else if e.Restart? {
      SafeRestart(s);
    } else if e.Searched? {
      SafeSearched(s, e.loop, e.uids);
    } else if e.Advance? {
      SafeAdvance(s, e.loop);
    } else if e.Arrive? || e.Expunge? || e.ApiStore? || e.DeleteAccount? {
      SafeTables(s, e);
    } else if e.Accept? || e.ReadCursor? || e.GiveUp? {
      SafeStart(s, e);
    } else if e.Queues? || e.QueueFails? || e.Notified? {
      SafeNotify(s, e);
    } else {
      SafeIngest(s, e);
    }
  }

  lemma {:induction false} SafeRun(s: State, es: seq<Event>)
    requires Safe(s) && CanRun(s, es)
    ensures Safe(Run(s, es))
  {
    if es != [] {
      var n := |es| - 1;
      SafeRun(s, es[..n]);
      SafeStep(Run(s, es[..n]), es[n]);
    }
  }

  lemma SafeInit()
    ensures Safe(INIT)
  {
    forall account, folder | IsAccountId(account)
      ensures CursorOk(INIT, account, folder)
    {
    }
  }
}
