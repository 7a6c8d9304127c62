/**
 Any number of IngestEmail calls at once (internal/ingest/ingest.go): the two event loops
 and the API call it concurrently.  A step is one request to the object store or the
 database, so calls interleave between any two of them and may die at any point.
 */
module IngestRaces {
  import MailboxSync
  import opened Ingest

  type Mail = MailboxSync.Mail

  datatype Phase =
    | Uploading            // about to upload the next attachment, or to insert the email
    | Cleaning(from: nat)  // about to delete upload number `from`
    | Writing(from: nat)   // the email is stored; about to insert attachment row number `from`
    | Finished

  /** A call past its existence check. */
  datatype Call = Call(mail: Mail, names: seq<string>, uploaded: nat, phase: Phase) {
    function Key(i: nat): string
      requires i < |names|
    {
      AttachmentKey(mail.account, mail.uid, names[i])
    }
  }

  datatype Row = Row(mail: Mail, key: string)

  datatype State = State(objects: set<string>, emails: set<Mail>, rows: seq<Row>, calls: seq<Call>)

  const EMPTY := State({}, {}, [], [])

  datatype Event =
    | Begin(mail: Mail, names: seq<string>)
    | Upload(id: nat)
    | UploadFails(id: nat, stored: bool)
    | Insert(id: nat)
    | InsertFails(id: nat)             // the UNIQUE constraint, or any other error
    | Delete(id: nat, ok: bool)
    | WriteRow(id: nat)
    | Stop(id: nat)                    // returns, or dies

  predicate Enabled(s: State, e: Event) {
    match e
    case Begin(m, _) => m !in s.emails && '/' !in m.account
    case Upload(id) => CanUpload(s, id)
    case UploadFails(id, _) => CanUpload(s, id)
    case Insert(id) => CanInsert(s, id) && s.calls[id].mail !in s.emails
    case InsertFails(id) => CanInsert(s, id)
    case Delete(id, _) => id < |s.calls| && s.calls[id].phase.Cleaning? && s.calls[id].phase.from < s.calls[id].uploaded
    case WriteRow(id) => id < |s.calls| && s.calls[id].phase.Writing? && s.calls[id].phase.from < |s.calls[id].names|
    case Stop(id) => id < |s.calls|
  }

  predicate CanUpload(s: State, id: nat) {
    id < |s.calls| && s.calls[id].phase.Uploading? && s.calls[id].uploaded < |s.calls[id].names|
  }

  predicate CanInsert(s: State, id: nat) {
    id < |s.calls| && s.calls[id].phase.Uploading? && s.calls[id].uploaded == |s.calls[id].names|
  }

  predicate WellFormed(s: State) {
    forall id :: 0 <= id < |s.calls| ==> s.calls[id].uploaded <= |s.calls[id].names|
  }

  function Step(s: State, e: Event): (s': State)
    requires WellFormed(s) && Enabled(s, e)
    ensures WellFormed(s')
  {
    match e
    case Begin(m, names) => s.(calls := s.calls + [Call(m, names, 0, Uploading)])
    case Upload(id) =>
      var c := s.calls[id];
      s.(objects := s.objects + {c.Key(c.uploaded)}, calls := s.calls[id := c.(uploaded := c.uploaded + 1)])
    case UploadFails(id, stored) =>
      var c := s.calls[id];
      s.(objects := if stored then s.objects + {c.Key(c.uploaded)} else s.objects,
         calls := s.calls[id := c.(phase := Cleaning(0))])
    case Insert(id) =>
      s.(emails := s.emails + {s.calls[id].mail}, calls := s.calls[id := s.calls[id].(phase := Writing(0))])
    case InsertFails(id) => s.(calls := s.calls[id := s.calls[id].(phase := Cleaning(0))])
    case Delete(id, ok) =>
      var c := s.calls[id];
      s.(objects := if ok then s.objects - {c.Key(c.phase.from)} else s.objects,
         calls := s.calls[id := c.(phase := Cleaning(c.phase.from + 1))])
    case WriteRow(id) =>
      var c := s.calls[id];
      s.(rows := s.rows + [Row(c.mail, c.Key(c.phase.from))],
         calls := s.calls[id := c.(phase := Writing(c.phase.from + 1))])
    case Stop(id) => s.(calls := s.calls[id := s.calls[id].(phase := Finished)])
  }

  predicate CanRun(s: State, es: seq<Event>)
    requires WellFormed(s)
    decreases |es|, 0
  {
    es == [] || (var n := |es| - 1; CanRun(s, es[..n]) && Enabled(Run(s, es[..n]), es[n]))
  }

  function Run(s: State, es: seq<Event>): (s': State)
    requires WellFormed(s) && CanRun(s, es)
    ensures WellFormed(s')
    decreases |es|, 1
  {
    if es == [] then s else var n := |es| - 1; Step(Run(s, es[..n]), es[n])
  }

  lemma Extend(s0: State, es: seq<Event>, s: State, e: Event) returns (es': seq<Event>, s': State)
    requires WellFormed(s0) && CanRun(s0, es) && Run(s0, es) == s && Enabled(s, e)
    ensures es' == es + [e] && CanRun(s0, es') && Run(s0, es') == s' && s' == Step(s, e)
  {
    assert (es + [e])[..|es|] == es;
    es', s' := es + [e], Step(s, e);
  }

  /** Every attachment row points at an object that exists. */
  predicate Integral(s: State) {
    forall k :: 0 <= k < |s.rows| ==> s.rows[k].key in s.objects
  }

  // ---------------------------------------------------------------------------
  // Integrity over runs
  // ---------------------------------------------------------------------------

  /** The call may still upload, delete or write a row for its attachment number `i`. */
  predicate Touches(c: Call, i: int) {
    && 0 <= i < |c.names|
    && match c.phase
       case Uploading => true
       case Cleaning(from) => from <= i < c.uploaded
       case Writing(from) => from <= i
       case Finished => false
  }

  ghost predicate TouchesKey(c: Call, key: string) {
    exists i :: Touches(c, i) && c.Key(i) == key
  }

  /** … delete it. */
  ghost predicate MayDelete(c: Call, key: string) {
    (c.phase.Uploading? || c.phase.Cleaning?) && TouchesKey(c, key)
  }

  /** The key of one of the attachments `names` of the message. */
  ghost predicate IsKeyOf(m: Mail, names: seq<string>, key: string) {
    exists i :: 0 <= i < |names| && AttachmentKey(m.account, m.uid, names[i]) == key
  }

  /** The new call would meet a stored row's key, or one that another call still has to do with. */
  ghost predicate Meets(s: State, m: Mail, names: seq<string>) {
    exists key :: IsKeyOf(m, names, key) && InUse(s, key)
  }

  ghost predicate InUse(s: State, key: string) {
    || (exists k :: 0 <= k < |s.rows| && s.rows[k].key == key)
    || (exists id :: 0 <= id < |s.calls| && TouchesKey(s.calls[id], key))
  }

  /** What the call has uploaded and still needs is in the store. */
  predicate HasKeys(s: State, c: Call) {
    && (c.phase.Uploading? ==> forall i :: 0 <= i < c.uploaded && i < |c.names| ==> c.Key(i) in s.objects)
    && (c.phase.Writing? ==> forall i :: c.phase.from <= i < |c.names| ==> c.Key(i) in s.objects)
  }

  /** No two calls have to do with the same key, and none may delete the key of a stored row. */
  ghost predicate Apart(s: State) {
    && (forall i, j, key :: 0 <= i < j < |s.calls| && TouchesKey(s.calls[i], key) ==> !TouchesKey(s.calls[j], key))
    && (forall k, id :: 0 <= k < |s.rows| && 0 <= id < |s.calls| ==> !MayDelete(s.calls[id], s.rows[k].key))
  }

  ghost predicate Calm(s: State) {
    && WellFormed(s) && Integral(s) && Apart(s)
    && forall id :: 0 <= id < |s.calls| ==> HasKeys(s, s.calls[id])
  }

  /** The call `c'` comes after `c` and has to do with no more. */
  ghost predicate Narrows(c: Call, c': Call) {
    && c'.mail == c.mail && c'.names == c.names
    && (forall i :: Touches(c', i) ==> Touches(c, i))
    && (c'.phase.Uploading? || c'.phase.Cleaning? ==> c.phase.Uploading? || c.phase.Cleaning?)
  }

  lemma NarrowsKeys(c: Call, c': Call)
    requires Narrows(c, c')
    ensures forall key :: TouchesKey(c', key) ==> TouchesKey(c, key)
    ensures forall key :: MayDelete(c', key) ==> MayDelete(c, key)
  {
    forall key | TouchesKey(c', key)
      ensures TouchesKey(c, key)
    {
      var i :| Touches(c', i) && c'.Key(i) == key;
      assert Touches(c, i) && c.Key(i) == key;
    }
  }

  /** A step of call `id` that only narrows what the call has to do with, and harms nobody else's keys. */
  lemma CalmNarrows(s: State, s': State, id: nat, c: Call)
    requires Calm(s) && id < |s.calls| && WellFormed(s')
    requires s'.calls == s.calls[id := c] && s'.rows == s.rows && Narrows(s.calls[id], c)
    requires forall key :: key in s.objects && key !in s'.objects ==> MayDelete(s.calls[id], key)
    requires HasKeys(s', c)
    ensures Calm(s')
  {
    NarrowsKeys(s.calls[id], c);
    forall k | 0 <= k < |s.rows|
      ensures s.rows[k].key in s'.objects
    {
      assert !MayDelete(s.calls[id], s.rows[k].key);
    }
    forall j | 0 <= j < |s.calls| && j != id
      ensures HasKeys(s', s.calls[j])
    {
      OthersKeepKeys(s, s', id, j);
    }
    ApartNarrows(s, s', id, c);
  }

  lemma ApartNarrows(s: State, s': State, id: nat, c: Call)
    requires Apart(s) && id < |s.calls|
    requires s'.calls == s.calls[id := c] && s'.rows == s.rows && Narrows(s.calls[id], c)
    ensures Apart(s')
  {
    NarrowsKeys(s.calls[id], c);
    forall i, j, key | 0 <= i < j < |s'.calls| && TouchesKey(s'.calls[i], key)
      ensures !TouchesKey(s'.calls[j], key)
    {
      assert TouchesKey(s.calls[i], key);
    }
    forall k, j | 0 <= k < |s.rows| && 0 <= j < |s.calls|
      ensures !MayDelete(s'.calls[j], s.rows[k].key)
    {
      assert !MayDelete(s.calls[j], s.rows[k].key);
    }
  }

  lemma OthersKeepKeys(s: State, s': State, id: nat, j: nat)
    requires Calm(s) && id < |s.calls| && j < |s.calls| && j != id
    requires forall key :: key in s.objects && key !in s'.objects ==> MayDelete(s.calls[id], key)
    ensures HasKeys(s', s.calls[j])
  {
    var d := s.calls[j];
    assert HasKeys(s, d);
    forall i | Touches(d, i)
      ensures !TouchesKey(s.calls[id], d.Key(i))
    {
      assert TouchesKey(d, d.Key(i));
    }
    forall i | 0 <= i < |d.names| && Touches(d, i) && d.Key(i) in s.objects
      ensures d.Key(i) in s'.objects
    {
    }
  }

  lemma CalmUpload(s: State, id: nat)
    requires Calm(s) && Enabled(s, Upload(id))
    ensures Calm(Step(s, Upload(id)))
  {
    var c, s' := s.calls[id], Step(s, Upload(id));
    var c' := s'.calls[id];
    assert HasKeys(s, c);
    forall i | 0 <= i < c'.uploaded
      ensures c'.Key(i) in s'.objects
    {
      assert c'.Key(i) == c.Key(i);
    }
    CalmNarrows(s, s', id, c');
  }

  lemma CalmInsert(s: State, id: nat)
    requires Calm(s) && Enabled(s, Insert(id))
    ensures Calm(Step(s, Insert(id)))
  {
    var c, s' := s.calls[id], Step(s, Insert(id));
    var c' := s'.calls[id];
    assert HasKeys(s, c);
    forall i | 0 <= i < |c'.names|
      ensures c'.Key(i) in s'.objects
    {
      assert c'.Key(i) == c.Key(i);
    }
    CalmNarrows(s, s', id, c');
  }

  lemma CalmFails(s: State, e: Event)
    requires Calm(s) && Enabled(s, e) && (e.UploadFails? || e.InsertFails? || e.Stop?)
    ensures Calm(Step(s, e))
  {
    CalmNarrows(s, Step(s, e), e.id, Step(s, e).calls[e.id]);
  }

  lemma CalmDelete(s: State, id: nat, ok: bool)
    requires Calm(s) && Enabled(s, Delete(id, ok))
    ensures Calm(Step(s, Delete(id, ok)))
  {
    var c := s.calls[id];
    assert Touches(c, c.phase.from) && TouchesKey(c, c.Key(c.phase.from));
    CalmNarrows(s, Step(s, Delete(id, ok)), id, Step(s, Delete(id, ok)).calls[id]);
  }

  lemma CalmWriteRow(s: State, id: nat)
    requires Calm(s) && Enabled(s, WriteRow(id))
    ensures Calm(Step(s, WriteRow(id)))
  {
    var c, s' := s.calls[id], Step(s, WriteRow(id));
    var c', key := s'.calls[id], c.Key(c.phase.from);
    var s1 := s'.(rows := s.rows);
    assert HasKeys(s, c);
    forall i | c'.phase.from <= i < |c'.names|
      ensures c'.Key(i) in s.objects
    {
      assert c'.Key(i) == c.Key(i);
    }
    CalmNarrows(s, s1, id, c');
    WrittenRowIsSafe(s, id);
    forall k, j | 0 <= k < |s'.rows| && 0 <= j < |s'.calls|
      ensures !MayDelete(s'.calls[j], s'.rows[k].key)
    {
      if k < |s.rows| {
        assert !MayDelete(s1.calls[j], s1.rows[k].key);
      }
    }
  }

  /** Nobody may delete the key of the row that a call is about to write. */
  lemma WrittenRowIsSafe(s: State, id: nat)
    requires Calm(s) && Enabled(s, WriteRow(id))
    ensures var s', key := Step(s, WriteRow(id)), s.calls[id].Key(s.calls[id].phase.from);
            key in s'.objects && forall j :: 0 <= j < |s'.calls| ==> !MayDelete(s'.calls[j], key)
  {
    var c := s.calls[id];
    var key := c.Key(c.phase.from);
    assert HasKeys(s, c);
    assert Touches(c, c.phase.from) && TouchesKey(c, key);
  }

  /** Every step but the begin of a new call keeps the calls apart. */
  lemma CalmStep(s: State, e: Event)
    requires Calm(s) && Enabled(s, e) && !e.Begin?
    ensures Calm(Step(s, e))
  {
    if e.Delete? {
      CalmDelete(s, e.id, e.ok);
    } else if e.WriteRow? {
      CalmWriteRow(s, e.id);
    } else if e.Upload? {
      CalmUpload(s, e.id);
    } else if e.Insert? {
      CalmInsert(s, e.id);
    } else {
      CalmFails(s, e);
    }
  }

  /** The begin of a call keeps them apart when the call meets nothing. */
  lemma CalmBegin(s: State, m: Mail, names: seq<string>)
    requires Calm(s) && Enabled(s, Begin(m, names)) && !Meets(s, m, names)
    ensures Calm(Step(s, Begin(m, names)))
  {
    var s', c := Step(s, Begin(m, names)), Call(m, names, 0, Uploading);
    forall key | TouchesKey(c, key)
      ensures !InUse(s, key)
    {
      var i :| Touches(c, i) && c.Key(i) == key;
      assert IsKeyOf(m, names, key);
    }
    forall i, j, key | 0 <= i < j < |s'.calls| && TouchesKey(s'.calls[i], key)
      ensures !TouchesKey(s'.calls[j], key)
    {
      if j == |s.calls| {
        assert InUse(s, key);
      }
    }
    forall k | 0 <= k < |s.rows|
      ensures !MayDelete(c, s.rows[k].key)
    {
      assert InUse(s, s.rows[k].key);
    }
  }

  /** The event does not begin a call that meets a key in use. */
  ghost predicate Avoids(s: State, e: Event) {
    e.Begin? ==> !Meets(s, e.mail, e.names)
  }

  ghost predicate RunAvoids(s: State, es: seq<Event>)
    requires WellFormed(s) && CanRun(s, es)
  {
    es == [] || (var n := |es| - 1; RunAvoids(s, es[..n]) && Avoids(Run(s, es[..n]), es[n]))
  }

  lemma {:induction false} CalmRun(s: State, es: seq<Event>)
    requires Calm(s) && CanRun(s, es) && RunAvoids(s, es)
    ensures Calm(Run(s, es))
  {
    if es != [] {
      var n := |es| - 1;
      CalmRun(s, es[..n]);
      if es[n].Begin? {
        CalmBegin(Run(s, es[..n]), es[n].mail, es[n].names);
      } else {
        CalmStep(Run(s, es[..n]), es[n]);
      }
    }
  }

  /**
   Over every interleaving of any number of calls, whatever fails or dies, every attachment
   row points at an existing object, provided no call begins while one of its keys belongs
   to a stored row or to an unfinished call.
   */
  lemma RowsNeverDangle(es: seq<Event>)
    requires CanRun(EMPTY, es) && RunAvoids(EMPTY, es)
    ensures Integral(Run(EMPTY, es))
  {
    CalmRun(EMPTY, es);
  }

  // ---------------------------------------------------------------------------
  // The premise in terms of messages
  // ---------------------------------------------------------------------------

  /** The two messages write to the same keys: the folder does not tell them apart. */
  predicate SharesKeys(m: Mail, n: Mail) {
    m.account == n.account && m.uid == n.uid
  }

  /**
   A call does not begin while another one for the same account and UID runs, nor when an
   email of that account and UID is stored under another folder.
   */
  predicate Exclusive(s: State, e: Event) {
    e.Begin? ==>
      && (forall id :: 0 <= id < |s.calls| && !s.calls[id].phase.Finished? ==> !SharesKeys(s.calls[id].mail, e.mail))
      && (forall m :: m in s.emails ==> !SharesKeys(m, e.mail))
  }

  predicate RunExclusive(s: State, es: seq<Event>)
    requires WellFormed(s) && CanRun(s, es)
  {
    es == [] || (var n := |es| - 1; RunExclusive(s, es[..n]) && Exclusive(Run(s, es[..n]), es[n]))
  }

  /** Every row belongs to a stored email and has one of its keys. */
  ghost predicate RowOk(s: State, r: Row) {
    && r.mail in s.emails && '/' !in r.mail.account
    && exists name :: r.key == AttachmentKey(r.mail.account, r.mail.uid, name)
  }

  predicate CallOk(s: State, c: Call) {
    '/' !in c.mail.account && (c.phase.Writing? ==> c.mail in s.emails)
  }

  ghost predicate Known(s: State) {
    && WellFormed(s)
    && (forall k :: 0 <= k < |s.rows| ==> RowOk(s, s.rows[k]))
    && (forall id :: 0 <= id < |s.calls| ==> CallOk(s, s.calls[id]))
  }

  lemma KnownStep(s: State, e: Event)
    requires Known(s) && Enabled(s, e)
    ensures Known(Step(s, e))
  {
    var s' := Step(s, e);
    forall k | 0 <= k < |s'.rows|
      ensures RowOk(s', s'.rows[k])
    {
      if k < |s.rows| {
        assert RowOk(s, s.rows[k]);
      } else {
        var c := s.calls[e.id];
        assert CallOk(s, c);
        assert s'.rows[k].key == AttachmentKey(c.mail.account, c.mail.uid, c.names[c.phase.from]);
      }
    }
    forall id | 0 <= id < |s'.calls|
      ensures CallOk(s', s'.calls[id])
    {
      if id < |s.calls| {
        assert CallOk(s, s.calls[id]);
      }
    }
  }

  lemma {:induction false} KnownRun(es: seq<Event>)
    requires CanRun(EMPTY, es)
    ensures Known(Run(EMPTY, es))
  {
    if es != [] {
      var n := |es| - 1;
      KnownRun(es[..n]);
      KnownStep(Run(EMPTY, es[..n]), es[n]);
    }
  }

  /** Messages that share no account and UID meet no key. */
  lemma ExclusiveAvoids(s: State, e: Event)
    requires Known(s) && Enabled(s, e) && Exclusive(s, e)
    ensures Avoids(s, e)
  {
    if e.Begin? && Meets(s, e.mail, e.names) {
      var key :| IsKeyOf(e.mail, e.names, key) && InUse(s, key);
      var i :| 0 <= i < |e.names| && AttachmentKey(e.mail.account, e.mail.uid, e.names[i]) == key;
      if k :| 0 <= k < |s.rows| && s.rows[k].key == key {
        assert RowOk(s, s.rows[k]);
        var m := s.rows[k].mail;
        var name :| key == AttachmentKey(m.account, m.uid, name);
        AttachmentKeyInjective(m.account, m.uid, name, e.mail.account, e.mail.uid, e.names[i]);
        assert false;
      } else {
        var id :| 0 <= id < |s.calls| && TouchesKey(s.calls[id], key);
        var c := s.calls[id];
        assert CallOk(s, c);
        var j :| Touches(c, j) && c.Key(j) == key;
        AttachmentKeyInjective(c.mail.account, c.mail.uid, c.names[j], e.mail.account, e.mail.uid, e.names[i]);
        assert false;
      }
    }
  }

  /** Runs that keep calls for the same account and UID apart meet the premise. */
  lemma {:induction false} ExclusiveRunsAvoid(es: seq<Event>)
    requires CanRun(EMPTY, es) && RunExclusive(EMPTY, es)
    ensures RunAvoids(EMPTY, es)
  {
    if es != [] {
      var n := |es| - 1;
      ExclusiveRunsAvoid(es[..n]);
      KnownRun(es[..n]);
      ExclusiveAvoids(Run(EMPTY, es[..n]), es[n]);
    }
  }

  // ---------------------------------------------------------------------------
  // The premise is exact
  // ---------------------------------------------------------------------------

  predicate NoBegin(es: seq<Event>) {
    forall n :: 0 <= n < |es| ==> !es[n].Begin?
  }

  /** `es` leads from `s0` to `s` without a new call. */
  ghost predicate Leads(s0: State, es: seq<Event>, s: State) {
    WellFormed(s0) && CanRun(s0, es) && Run(s0, es) == s && NoBegin(es)
  }

  lemma Continue(s0: State, es: seq<Event>, s: State, e: Event) returns (es': seq<Event>, s': State)
    requires Leads(s0, es, s) && Enabled(s, e) && !e.Begin?
    ensures Leads(s0, es', s') && s' == Step(s, e)
  {
    es', s' := Extend(s0, es, s, e);
  }

  lemma {:induction false} CalmWithoutBegin(s: State, es: seq<Event>)
    requires Calm(s) && CanRun(s, es) && NoBegin(es)
    ensures Calm(Run(s, es))
  {
    if es != [] {
      var n := |es| - 1;
      CalmWithoutBegin(s, es[..n]);
      CalmStep(Run(s, es[..n]), es[n]);
    }
  }

  /** From `s` to `s'`, only call `id` did something. */
  predicate OnlyMoved(s: State, s': State, id: nat) {
    && |s'.calls| == |s.calls| && id < |s.calls|
    && s'.calls[id].mail == s.calls[id].mail && s'.calls[id].names == s.calls[id].names
    && forall j :: 0 <= j < |s.calls| && j != id ==> s'.calls[j] == s.calls[j]
  }

  lemma {:induction false} DriveUpload(s0: State, es: seq<Event>, s: State, id: nat, n: nat)
    returns (es': seq<Event>, s': State)
    requires Leads(s0, es, s) && id < |s.calls| && s.calls[id].phase.Uploading?
    requires s.calls[id].uploaded <= n <= |s.calls[id].names|
    ensures Leads(s0, es', s') && OnlyMoved(s, s', id) && s'.calls[id] == s.calls[id].(uploaded := n)
    ensures s'.rows == s.rows && s'.emails == s.emails
    decreases n
  {
    es', s' := es, s;
    if s.calls[id].uploaded < n {
      es', s' := DriveUpload(s0, es, s, id, n - 1);
      es', s' := Continue(s0, es', s', Upload(id));
    }
  }

  lemma {:induction false} DriveClean(s0: State, es: seq<Event>, s: State, id: nat, n: nat)
    returns (es': seq<Event>, s': State)
    requires Leads(s0, es, s) && id < |s.calls| && s.calls[id].phase.Cleaning?
    requires s.calls[id].phase.from <= n <= s.calls[id].uploaded <= |s.calls[id].names|
    ensures Leads(s0, es', s') && OnlyMoved(s, s', id) && s'.calls[id] == s.calls[id].(phase := Cleaning(n))
    ensures s'.rows == s.rows
    ensures n > s.calls[id].phase.from ==> s.calls[id].Key(n - 1) !in s'.objects
    decreases n
  {
    es', s' := es, s;
    if s.calls[id].phase.from < n {
      es', s' := DriveClean(s0, es, s, id, n - 1);
      es', s' := Continue(s0, es', s', Delete(id, true));
    }
  }

  lemma {:induction false} DriveWrite(s0: State, es: seq<Event>, s: State, id: nat, n: nat)
    returns (es': seq<Event>, s': State)
    requires Leads(s0, es, s) && id < |s.calls| && s.calls[id].phase.Writing?
    requires s.calls[id].phase.from <= n <= |s.calls[id].names|
    ensures Leads(s0, es', s') && OnlyMoved(s, s', id) && s'.calls[id] == s.calls[id].(phase := Writing(n))
    ensures n > s.calls[id].phase.from ==> s'.rows != [] && s'.rows[|s'.rows| - 1].key == s.calls[id].Key(n - 1)
    decreases n
  {
    es', s' := es, s;
    if s.calls[id].phase.from < n {
      es', s' := DriveWrite(s0, es, s, id, n - 1);
      es', s' := Continue(s0, es', s', WriteRow(id));
    }
  }

  /** A call before its insert fails, with attachment number `i` uploaded. */
  lemma DriveFail(s0: State, es: seq<Event>, s: State, id: nat, i: nat) returns (es': seq<Event>, s': State)
    requires Leads(s0, es, s) && id < |s.calls| && s.calls[id].phase.Uploading? && i < |s.calls[id].names|
    ensures Leads(s0, es', s') && OnlyMoved(s, s', id) && s'.rows == s.rows
    ensures s'.calls[id].phase == Cleaning(0) && i < s'.calls[id].uploaded <= |s'.calls[id].names|
  {
    var c := s.calls[id];
    assert WellFormed(s);
    var n := if c.uploaded > i then c.uploaded else i + 1;
    es', s' := DriveUpload(s0, es, s, id, n);
    es', s' := Continue(s0, es', s', if n < |c.names| then UploadFails(id, false) else InsertFails(id));
  }

  /** A call that may delete the key of its attachment number `i` does so. */
  lemma DriveDelete(s0: State, es: seq<Event>, s: State, id: nat, i: nat) returns (es': seq<Event>, s': State)
    requires Leads(s0, es, s) && id < |s.calls| && Touches(s.calls[id], i)
    requires s.calls[id].phase.Uploading? || s.calls[id].phase.Cleaning?
    ensures Leads(s0, es', s') && s'.rows == s.rows && s.calls[id].Key(i) !in s'.objects
  {
    assert WellFormed(s);
    es', s' := es, s;
    if s.calls[id].phase.Uploading? {
      es', s' := DriveFail(s0, es, s, id, i);
    }
    es', s' := DriveClean(s0, es', s', id, i + 1);
  }

  /** A call whose email is not stored yet stores it, and the row of its attachment number `i`. */
  lemma DriveStore(s0: State, es: seq<Event>, s: State, id: nat, i: nat) returns (es': seq<Event>, s': State)
    requires Leads(s0, es, s) && id < |s.calls| && s.calls[id].phase.Uploading?
    requires i < |s.calls[id].names| && s.calls[id].mail !in s.emails
    ensures Leads(s0, es', s') && OnlyMoved(s, s', id)
    ensures s'.rows != [] && s'.rows[|s'.rows| - 1].key == s.calls[id].Key(i)
  {
    assert WellFormed(s);
    es', s' := DriveUpload(s0, es, s, id, |s.calls[id].names|);
    es', s' := Continue(s0, es', s', Insert(id));
    es', s' := DriveWrite(s0, es', s', id, i + 1);
  }

  /** From `s`, some continuation without a new call makes a row dangle. */
  ghost predicate CanDangle(s: State)
    requires WellFormed(s)
  {
    exists es :: CanRun(s, es) && NoBegin(es) && !Integral(Run(s, es))
  }

  lemma Dangles(s0: State, es: seq<Event>, s: State, k: nat)
    requires Leads(s0, es, s) && k < |s.rows| && s.rows[k].key !in s.objects
    ensures CanDangle(s0)
  {
  }

  /** Call `n` is before its first upload and will use the key for its attachment number `i`. */
  ghost predicate Starts(s: State, n: nat, i: nat, key: string) {
    && WellFormed(s) && n < |s.calls| && s.calls[n].phase.Uploading? && s.calls[n].uploaded == 0
    && Touches(s.calls[n], i) && s.calls[n].Key(i) == key && s.calls[n].mail !in s.emails
  }

  /** A call deletes the key of a stored row. */
  lemma DeleteDangles(s0: State, es: seq<Event>, s: State, k: nat, id: nat, i: nat)
    requires Leads(s0, es, s) && k < |s.rows| && id < |s.calls| && Touches(s.calls[id], i)
    requires s.calls[id].phase.Uploading? || s.calls[id].phase.Cleaning?
    requires s.rows[k].key == s.calls[id].Key(i)
    ensures CanDangle(s0)
  {
    var es', s' := DriveDelete(s0, es, s, id, i);
    Dangles(s0, es', s', k);
  }

  lemma MeetsRow(s: State, n: nat, i: nat, key: string, k: nat)
    requires Starts(s, n, i, key) && k < |s.rows| && s.rows[k].key == key
    ensures CanDangle(s)
  {
    DeleteDangles(s, [], s, k, n, i);
  }

  lemma MeetsWriter(s: State, n: nat, i: nat, key: string, id: nat, j: nat)
    requires Starts(s, n, i, key) && id < |s.calls| && id != n
    requires s.calls[id].phase.Writing? && Touches(s.calls[id], j) && s.calls[id].Key(j) == key
    ensures CanDangle(s)
  {
    var es, s2 := DriveWrite(s, [], s, id, j + 1);
    assert s2.calls[n] == s.calls[n];
    DeleteDangles(s, es, s2, |s2.rows| - 1, n, i);
  }

  lemma MeetsDeleter(s: State, n: nat, i: nat, key: string, id: nat, j: nat)
    requires Starts(s, n, i, key) && id < |s.calls| && id != n
    requires s.calls[id].phase.Uploading? || s.calls[id].phase.Cleaning?
    requires Touches(s.calls[id], j) && s.calls[id].Key(j) == key
    ensures CanDangle(s)
  {
    var es, s2 := DriveStore(s, [], s, n, i);
    assert s2.calls[id] == s.calls[id];
    DeleteDangles(s, es, s2, |s2.rows| - 1, id, j);
  }

  lemma MeetingDangles(s: State, m: Mail, names: seq<string>)
    requires WellFormed(s) && Enabled(s, Begin(m, names)) && Meets(s, m, names)
    ensures CanDangle(Step(s, Begin(m, names)))
  {
    var key :| IsKeyOf(m, names, key) && InUse(s, key);
    var i: nat :| i < |names| && AttachmentKey(m.account, m.uid, names[i]) == key;
    MeetingKeyDangles(s, m, names, i, key);
  }

  lemma MeetingKeyDangles(s: State, m: Mail, names: seq<string>, i: nat, key: string)
    requires WellFormed(s) && Enabled(s, Begin(m, names)) && InUse(s, key)
    requires i < |names| && AttachmentKey(m.account, m.uid, names[i]) == key
    ensures CanDangle(Step(s, Begin(m, names)))
  {
    var s1, n := Step(s, Begin(m, names)), |s.calls|;
    assert Touches(s1.calls[n], i) && s1.calls[n].Key(i) == key;
    if k: nat :| k < |s.rows| && s.rows[k].key == key {
      MeetsRow(s1, n, i, key, k);
    } else {
      var id: nat :| id < |s.calls| && TouchesKey(s.calls[id], key);
      var j: nat :| Touches(s.calls[id], j) && s.calls[id].Key(j) == key;
      if s.calls[id].phase.Writing? {
        MeetsWriter(s1, n, i, key, id, j);
      } else {
        MeetsDeleter(s1, n, i, key, id, j);
      }
    }
  }

  /**
   The premise of `RowsNeverDangle` is exact, call by call: after any run that met it, the
   begin of another call can be followed, without any further call, by a row that dangles
   exactly when one of the new call's keys is a stored row's or one that an unfinished call
   may still upload, delete or write a row for.
   */
  lemma BeginBreaksExactly(before: seq<Event>, m: Mail, names: seq<string>)
    requires CanRun(EMPTY, before) && RunAvoids(EMPTY, before)
    requires Enabled(Run(EMPTY, before), Begin(m, names))
    ensures var s := Run(EMPTY, before);
            CanDangle(Step(s, Begin(m, names))) <==> Meets(s, m, names)
  {
    CalmRun(EMPTY, before);
    var s := Run(EMPTY, before);
    var s1 := Step(s, Begin(m, names));
    if Meets(s, m, names) {
      MeetingDangles(s, m, names);
    } else {
      CalmBegin(s, m, names);
      forall es | CanRun(s1, es) && NoBegin(es)
        ensures Integral(Run(s1, es))
      {
        CalmWithoutBegin(s1, es);
      }
    }
  }

  // ---------------------------------------------------------------------------
  // Two ways to violate it
  // ---------------------------------------------------------------------------

  /** Two calls for the same message, both past the check and both done uploading. */
  lemma BothUpload(m: Mail, name: string, call: Call) returns (es: seq<Event>)
    requires '/' !in m.account && call == Call(m, [name], 1, Uploading)
    ensures CanRun(EMPTY, es) && Run(EMPTY, es) == State({call.Key(0)}, {}, [], [call, call])
  {
    var s;
    es, s := Extend(EMPTY, [], EMPTY, Begin(m, [name]));
    es, s := Extend(EMPTY, es, s, Begin(m, [name]));
    es, s := Extend(EMPTY, es, s, Upload(0));
    es, s := Extend(EMPTY, es, s, Upload(1));
    assert s.calls == [call, call] && s.objects == {call.Key(0)};
  }

  /** The first of them stores its email and its attachment row. */
  lemma FirstWins(before: seq<Event>, call: Call) returns (es: seq<Event>)
    requires |call.names| == 1 && call.uploaded == 1 && call.phase.Uploading?
    requires CanRun(EMPTY, before) && Run(EMPTY, before) == State({call.Key(0)}, {}, [], [call, call])
    ensures CanRun(EMPTY, es)
    ensures Run(EMPTY, es)
            == State({call.Key(0)}, {call.mail}, [Row(call.mail, call.Key(0))], [call.(phase := Writing(1)), call])
  {
    var s;
    es, s := Extend(EMPTY, before, State({call.Key(0)}, {}, [], [call, call]), Insert(0));
    assert s.calls == [call.(phase := Writing(0)), call] && s.emails == {call.mail};
    es, s := Extend(EMPTY, es, s, WriteRow(0));
    assert s.calls == [call.(phase := Writing(1)), call];
  }

  /** Two calls for the same message: the loser of the insert deletes the winner's object. */
  lemma LosingRacerDeletesWinnersObject(m: Mail, name: string) returns (es: seq<Event>)
    requires '/' !in m.account
    ensures CanRun(EMPTY, es)
    ensures !Integral(Run(EMPTY, es))
  {
    var call := Call(m, [name], 1, Uploading);
    es := BothUpload(m, name, call);
    es := FirstWins(es, call);
    var s := Run(EMPTY, es);
    es, s := Extend(EMPTY, es, s, InsertFails(1));
    assert s.calls[1] == call.(phase := Cleaning(0));
    es, s := Extend(EMPTY, es, s, Delete(1, true));
    assert s.rows[0].key !in s.objects;
  }

  /**
   The same UID in two folders of an account, one call after the other: the second one's
   insert fails, and its clean-up deletes the first one's object.
   */
  lemma SecondFolderDeletesFirstOnesObject(account: string, uid: nat, f: string, g: string, name: string)
    returns (es: seq<Event>)
    requires '/' !in account && f != g
    ensures CanRun(EMPTY, es) && !Integral(Run(EMPTY, es))
    ensures es == [Begin(MailboxSync.Mail(account, f, uid), [name]), Upload(0), Insert(0), WriteRow(0), Stop(0),
                   Begin(MailboxSync.Mail(account, g, uid), [name]), Upload(1), InsertFails(1), Delete(1, true)]
  {
    var m, n := MailboxSync.Mail(account, f, uid), MailboxSync.Mail(account, g, uid);
    var s;
    es, s := StoreFirst(m, name);
    var key := s.rows[0].key;
    es, s := Extend(EMPTY, es, s, Begin(n, [name]));
    assert s.calls[1].Key(0) == key;
    es, s := Extend(EMPTY, es, s, Upload(1));
    es, s := Extend(EMPTY, es, s, InsertFails(1));
    es, s := Extend(EMPTY, es, s, Delete(1, true));
    assert s.rows[0].key !in s.objects;
  }

  lemma StoreFirst(m: Mail, name: string) returns (es: seq<Event>, s: State)
    requires '/' !in m.account
    ensures CanRun(EMPTY, es) && Run(EMPTY, es) == s
    ensures es == [Begin(m, [name]), Upload(0), Insert(0), WriteRow(0), Stop(0)]
    ensures s.emails == {m} && |s.calls| == 1 && s.rows == [Row(m, AttachmentKey(m.account, m.uid, name))]
  {
    es, s := Extend(EMPTY, [], EMPTY, Begin(m, [name]));
    es, s := Extend(EMPTY, es, s, Upload(0));
    es, s := Extend(EMPTY, es, s, Insert(0));
    es, s := Extend(EMPTY, es, s, WriteRow(0));
    es, s := Extend(EMPTY, es, s, Stop(0));
  }

  // ---------------------------------------------------------------------------
  // A call on its own is the saga
  // ---------------------------------------------------------------------------

  function Names(atts: seq<Attachment>): seq<string> {
    seq(|atts|, k requires 0 <= k < |atts| => atts[k].filename)
  }

  function RowOf(r: AttachmentRow): Row {
    Row(r.mail, r.key)
  }

  function RowsOf(rows: seq<AttachmentRow>): seq<Row> {
    seq(|rows|, k requires 0 <= k < |rows| => RowOf(rows[k]))
  }

  /** The machine's view of the stores. */
  predicate Shows(s: State, w: World) {
    s.objects == w.objects.Keys && s.emails == w.emails && s.rows == RowsOf(w.rows)
  }

  /** `s0` with one more call, and other objects, emails and rows. */
  function With(s0: State, objects: set<string>, emails: set<Mail>, rows: seq<Row>, call: Call): State {
    State(objects, emails, rows, s0.calls + [call])
  }

  lemma LastCall(s0: State, objects: set<string>, emails: set<Mail>, rows: seq<Row>, call: Call)
    requires WellFormed(s0) && call.uploaded <= |call.names|
    ensures var s := With(s0, objects, emails, rows, call);
            && WellFormed(s) && |s.calls| == |s0.calls| + 1 && s.calls[|s0.calls|] == call
            && forall c :: s.calls[|s0.calls| := c] == s0.calls + [c]
  {
  }

  lemma SoloUpload(s0: State, objects: map<string, int>, m: Mail, atts: seq<Attachment>, n: nat)
    requires WellFormed(s0) && n < |atts|
    ensures var s := With(s0, objects.Keys, s0.emails, s0.rows, Call(m, Names(atts), n, Uploading));
            && WellFormed(s) && Enabled(s, Upload(|s0.calls|))
            && Step(s, Upload(|s0.calls|))
               == With(s0, objects[KeyOf(m, atts[n]) := atts[n].data].Keys, s0.emails, s0.rows,
                       Call(m, Names(atts), n + 1, Uploading))
  {
    LastCall(s0, objects.Keys, s0.emails, s0.rows, Call(m, Names(atts), n, Uploading));
  }

  lemma SoloBegin(s0: State, m: Mail, atts: seq<Attachment>) returns (es: seq<Event>, s: State)
    requires WellFormed(s0) && Enabled(s0, Begin(m, Names(atts)))
    ensures CanRun(s0, es) && Run(s0, es) == s
    ensures s == With(s0, s0.objects, s0.emails, s0.rows, Call(m, Names(atts), 0, Uploading))
  {
    es, s := Extend(s0, [], s0, Begin(m, Names(atts)));
  }

  lemma SoloNextUpload(s0: State, before: seq<Event>, s1: State, objects: map<string, int>, m: Mail,
                       atts: seq<Attachment>, n: nat)
    returns (es: seq<Event>, s: State)
    requires WellFormed(s0) && n < |atts| && CanRun(s0, before) && Run(s0, before) == s1
    requires s1 == With(s0, objects.Keys, s0.emails, s0.rows, Call(m, Names(atts), n, Uploading))
    ensures CanRun(s0, es) && Run(s0, es) == s
    ensures s == With(s0, objects[KeyOf(m, atts[n]) := atts[n].data].Keys, s0.emails, s0.rows,
                      Call(m, Names(atts), n + 1, Uploading))
  {
    SoloUpload(s0, objects, m, atts, n);
    es, s := Extend(s0, before, s1, Upload(|s0.calls|));
  }

  lemma {:induction false} SoloUploads(s0: State, w: World, m: Mail, atts: seq<Attachment>, n: nat)
    returns (es: seq<Event>, s: State)
    requires WellFormed(s0) && Shows(s0, w) && Enabled(s0, Begin(m, Names(atts))) && n <= |atts|
    ensures CanRun(s0, es) && Run(s0, es) == s
    ensures s == With(s0, Uploaded(w.objects, m, atts, n).Keys, s0.emails, s0.rows, Call(m, Names(atts), n, Uploading))
  {
    if n == 0 {
      es, s := SoloBegin(s0, m, atts);
    } else {
      es, s := SoloUploads(s0, w, m, atts, n - 1);
      es, s := SoloNextUpload(s0, es, s, Uploaded(w.objects, m, atts, n - 1), m, atts, n - 1);
    }
  }

  lemma SoloDelete(s0: State, before: seq<Event>, s1: State, objects: map<string, int>, m: Mail, atts: seq<Attachment>,
                   ok: bool, uploaded: nat, n: nat)
    returns (es: seq<Event>, s: State)
    requires WellFormed(s0) && n < uploaded <= |atts| && CanRun(s0, before) && Run(s0, before) == s1
    requires s1 == With(s0, objects.Keys, s0.emails, s0.rows, Call(m, Names(atts), uploaded, Cleaning(n)))
    ensures CanRun(s0, es) && Run(s0, es) == s
    ensures s == With(s0, (if ok then objects - {KeyOf(m, atts[n])} else objects).Keys, s0.emails, s0.rows,
                      Call(m, Names(atts), uploaded, Cleaning(n + 1)))
  {
    LastCall(s0, objects.Keys, s0.emails, s0.rows, Call(m, Names(atts), uploaded, Cleaning(n)));
    es, s := Extend(s0, before, s1, Delete(|s0.calls|, ok));
  }

  lemma {:induction false} SoloCleanup(s0: State, before: seq<Event>, s1: State, objects: map<string, int>, m: Mail,
                                       atts: seq<Attachment>, deletes: seq<bool>, uploaded: nat, n: nat)
    returns (es: seq<Event>, s: State)
    requires WellFormed(s0) && n <= uploaded <= |atts| && n <= |deletes|
    requires CanRun(s0, before) && Run(s0, before) == s1
    requires s1 == With(s0, objects.Keys, s0.emails, s0.rows, Call(m, Names(atts), uploaded, Cleaning(0)))
    ensures CanRun(s0, es) && Run(s0, es) == s
    ensures s == With(s0, Cleaned(objects, m, atts, deletes, n).Keys, s0.emails, s0.rows,
                      Call(m, Names(atts), uploaded, Cleaning(n)))
  {
    if n == 0 {
      es, s := before, s1;
    } else {
      es, s := SoloCleanup(s0, before, s1, objects, m, atts, deletes, uploaded, n - 1);
      var cleaned := Cleaned(objects, m, atts, deletes, n - 1);
      es, s := SoloDelete(s0, es, s, cleaned, m, atts, deletes[n - 1], uploaded, n - 1);
    }
  }

  lemma SoloRow(s0: State, objects: set<string>, emails: set<Mail>, rows: seq<Row>, m: Mail, atts: seq<Attachment>,
                n: nat)
    requires WellFormed(s0) && n < |atts|
    ensures var s := With(s0, objects, emails, rows, Call(m, Names(atts), |atts|, Writing(n)));
            && WellFormed(s) && Enabled(s, WriteRow(|s0.calls|))
            && Step(s, WriteRow(|s0.calls|))
               == With(s0, objects, emails, rows + [Row(m, KeyOf(m, atts[n]))],
                       Call(m, Names(atts), |atts|, Writing(n + 1)))
  {
    LastCall(s0, objects, emails, rows, Call(m, Names(atts), |atts|, Writing(n)));
  }

  lemma RowsOfConcat(rows: seq<AttachmentRow>, more: seq<AttachmentRow>)
    ensures RowsOf(rows + more) == RowsOf(rows) + RowsOf(more)
  {
  }

  lemma RowsForSnoc(before: seq<Row>, m: Mail, atts: seq<Attachment>, metadata: seq<bool>, n: nat)
    requires 0 < n <= |atts| && n <= |metadata|
    ensures var fewer, rows := RowsFor(m, atts, metadata, n - 1), RowsFor(m, atts, metadata, n);
            if |fewer| == n - 1 && metadata[n - 1]
            then |rows| == n && before + RowsOf(rows) == before + RowsOf(fewer) + [Row(m, KeyOf(m, atts[n - 1]))]
            else rows == fewer
  {
    RowsOfConcat(RowsFor(m, atts, metadata, n - 1), [AttachmentRow(m, atts[n - 1].filename, KeyOf(m, atts[n - 1]))]);
  }

  lemma {:induction false} SoloRows(s0: State, before: seq<Event>, s1: State, objects: set<string>, emails: set<Mail>,
                                    m: Mail, atts: seq<Attachment>, metadata: seq<bool>, n: nat)
    returns (es: seq<Event>, s: State)
    requires WellFormed(s0) && n <= |atts| && n <= |metadata|
    requires CanRun(s0, before) && Run(s0, before) == s1
    requires s1 == With(s0, objects, emails, s0.rows, Call(m, Names(atts), |atts|, Writing(0)))
    ensures CanRun(s0, es) && Run(s0, es) == s && |RowsFor(m, atts, metadata, n)| <= n
    ensures var rows := RowsFor(m, atts, metadata, n);
            s == With(s0, objects, emails, s0.rows + RowsOf(rows), Call(m, Names(atts), |atts|, Writing(|rows|)))
  {
    if n == 0 {
      es, s := before, s1;
      assert s0.rows + RowsOf([]) == s0.rows;
    } else {
      es, s := SoloRows(s0, before, s1, objects, emails, m, atts, metadata, n - 1);
      es, s := SoloNextRow(s0, es, s, objects, emails, m, atts, metadata, n);
    }
  }

  lemma SoloNextRow(s0: State, before: seq<Event>, s1: State, objects: set<string>, emails: set<Mail>,
                    m: Mail, atts: seq<Attachment>, metadata: seq<bool>, n: nat)
    returns (es: seq<Event>, s: State)
    requires WellFormed(s0) && 0 < n <= |atts| && n <= |metadata|
    requires CanRun(s0, before) && Run(s0, before) == s1 && |RowsFor(m, atts, metadata, n - 1)| <= n - 1
    requires var rows := RowsFor(m, atts, metadata, n - 1);
             s1 == With(s0, objects, emails, s0.rows + RowsOf(rows), Call(m, Names(atts), |atts|, Writing(|rows|)))
    ensures CanRun(s0, es) && Run(s0, es) == s && |RowsFor(m, atts, metadata, n)| <= n
    ensures var rows := RowsFor(m, atts, metadata, n);
            s == With(s0, objects, emails, s0.rows + RowsOf(rows), Call(m, Names(atts), |atts|, Writing(|rows|)))
  {
    var rows := RowsFor(m, atts, metadata, n - 1);
    RowsForSnoc(s0.rows, m, atts, metadata, n);
    if |rows| == n - 1 && metadata[n - 1] {
      SoloRow(s0, objects, emails, s0.rows + RowsOf(rows), m, atts, n - 1);
      es, s := Extend(s0, before, s1, WriteRow(|s0.calls|));
    } else {
      es, s := before, s1;
    }
  }

  /**
   Left alone by other calls, IngestEmail's steps form a run of this machine with the same
   effect on the stores; so what holds over all interleavings here holds of that code.
   */
  lemma SoloCall(s0: State, w: World, m: Mail, atts: seq<Attachment>, a: Answers) returns (es: seq<Event>)
    requires WellFormed(s0) && Shows(s0, w) && '/' !in m.account
    requires Fits(atts, a) && GetsToUpload(w, m, a) && !a.raced
    ensures CanRun(s0, es) && Shows(Run(s0, es), Saga(w, m, atts, a).0)
  {
    if UploadsDone(a.puts, |atts|) < |atts| {
      es := SoloUploadFailure(s0, w, m, atts, a);
    } else {
      var s;
      es, s := SoloUploads(s0, w, m, atts, |atts|);
      if a.insertOk {
        es := SoloInsert(s0, es, w, m, atts, a);
      } else {
        es, s := Extend(s0, es, s, InsertFails(|s0.calls|));
        es, s := SoloCleanup(s0, es, s, Uploaded(w.objects, m, atts, |atts|), m, atts, a.deletes, |atts|, |atts|);
      }
    }
  }

  lemma SoloUploadFailure(s0: State, w: World, m: Mail, atts: seq<Attachment>, a: Answers) returns (es: seq<Event>)
    requires WellFormed(s0) && Shows(s0, w) && '/' !in m.account
    requires Fits(atts, a) && GetsToUpload(w, m, a) && !a.raced && UploadsDone(a.puts, |atts|) < |atts|
    ensures CanRun(s0, es) && Shows(Run(s0, es), Saga(w, m, atts, a).0)
  {
    var n, s := UploadsDone(a.puts, |atts|), s0;
    es, s := SoloUploads(s0, w, m, atts, n);
    es, s := Extend(s0, es, s, UploadFails(|s0.calls|, a.puts[n].stored));
    var up := Uploaded(w.objects, m, atts, n);
    var put := if a.puts[n].stored then up[KeyOf(m, atts[n]) := atts[n].data] else up;
    es, s := SoloCleanup(s0, es, s, put, m, atts, a.deletes, n, n);
  }

  lemma SoloInsertStep(s0: State, objects: set<string>, m: Mail, atts: seq<Attachment>)
    requires WellFormed(s0) && m !in s0.emails
    ensures var s := With(s0, objects, s0.emails, s0.rows, Call(m, Names(atts), |atts|, Uploading));
            && WellFormed(s) && Enabled(s, Insert(|s0.calls|))
            && Step(s, Insert(|s0.calls|))
               == With(s0, objects, s0.emails + {m}, s0.rows, Call(m, Names(atts), |atts|, Writing(0)))
  {
    LastCall(s0, objects, s0.emails, s0.rows, Call(m, Names(atts), |atts|, Uploading));
  }

  lemma SoloInsert(s0: State, before: seq<Event>, w: World, m: Mail, atts: seq<Attachment>, a: Answers)
    returns (es: seq<Event>)
    requires WellFormed(s0) && Shows(s0, w) && Fits(atts, a) && m !in w.emails
    requires CanRun(s0, before)
    requires Run(s0, before)
             == With(s0, Uploaded(w.objects, m, atts, |atts|).Keys, s0.emails, s0.rows,
                     Call(m, Names(atts), |atts|, Uploading))
    ensures CanRun(s0, es)
    ensures Shows(Run(s0, es), World(Uploaded(w.objects, m, atts, |atts|), w.emails + {m},
                                     w.rows + RowsFor(m, atts, a.metadata, |atts|)))
  {
    var s;
    SoloInsertStep(s0, Uploaded(w.objects, m, atts, |atts|).Keys, m, atts);
    es, s := Extend(s0, before, Run(s0, before), Insert(|s0.calls|));
    es, s := SoloRows(s0, es, s, Uploaded(w.objects, m, atts, |atts|).Keys, s0.emails + {m}, m, atts, a.metadata,
                      |atts|);
    RowsOfConcat(w.rows, RowsFor(m, atts, a.metadata, |atts|));
  }
}
