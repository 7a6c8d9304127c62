/** What one ingestion guarantees about the object store and the database; see Ingest. */
module IngestGuarantees {
  import opened MailboxSync
  import opened Ingest

  // ---------------------------------------------------------------------------
  // Which objects a call writes and removes
  // ---------------------------------------------------------------------------

  /** The key of one of the first `n` attachments. */
  ghost predicate IsKey(m: Mail, atts: seq<Attachment>, n: int, key: string) {
    exists i :: 0 <= i < n && i < |atts| && KeyOf(m, atts[i]) == key
  }

  /** … whose delete succeeds. */
  ghost predicate IsDeleted(m: Mail, atts: seq<Attachment>, deletes: seq<bool>, n: int, key: string) {
    exists i :: 0 <= i < n && i < |atts| && i < |deletes| && deletes[i] && KeyOf(m, atts[i]) == key
  }

  lemma {:induction false} UploadedKeys(objects: map<string, int>, m: Mail, atts: seq<Attachment>, n: nat)
    requires n <= |atts|
    ensures forall key :: key in Uploaded(objects, m, atts, n) <==> key in objects || IsKey(m, atts, n, key)
    ensures forall key :: key in objects && !IsKey(m, atts, n, key) ==>
              Uploaded(objects, m, atts, n)[key] == objects[key]
  {
    if n > 0 {
      UploadedKeys(objects, m, atts, n - 1);
      KeyOneMore(m, atts, n);
    }
  }

  lemma KeyOneMore(m: Mail, atts: seq<Attachment>, n: nat)
    requires 0 < n <= |atts|
    ensures forall key :: IsKey(m, atts, n, key) <==> IsKey(m, atts, n - 1, key) || key == KeyOf(m, atts[n - 1])
  {
    forall key | IsKey(m, atts, n, key)
      ensures IsKey(m, atts, n - 1, key) || key == KeyOf(m, atts[n - 1])
    {
      var i :| 0 <= i < n && i < |atts| && KeyOf(m, atts[i]) == key;
      assert i == n - 1 || i < n - 1;
    }
  }

  lemma {:induction false} CleanedKeys(objects: map<string, int>, m: Mail, atts: seq<Attachment>, deletes: seq<bool>,
                                       n: nat)
    requires n <= |atts| && n <= |deletes|
    ensures forall key :: key in Cleaned(objects, m, atts, deletes, n)
                          <==> key in objects && !IsDeleted(m, atts, deletes, n, key)
    ensures forall key :: key in Cleaned(objects, m, atts, deletes, n)
                          ==> Cleaned(objects, m, atts, deletes, n)[key] == objects[key]
  {
    if n > 0 {
      CleanedKeys(objects, m, atts, deletes, n - 1);
      DeletedOneMore(m, atts, deletes, n);
    }
  }

  lemma DeletedOneMore(m: Mail, atts: seq<Attachment>, deletes: seq<bool>, n: nat)
    requires 0 < n <= |atts| && n <= |deletes|
    ensures forall key :: IsDeleted(m, atts, deletes, n, key)
                          <==> IsDeleted(m, atts, deletes, n - 1, key)
                               || (deletes[n - 1] && key == KeyOf(m, atts[n - 1]))
  {
    forall key | IsDeleted(m, atts, deletes, n, key)
      ensures IsDeleted(m, atts, deletes, n - 1, key) || (deletes[n - 1] && key == KeyOf(m, atts[n - 1]))
    {
      var i :| 0 <= i < n && i < |atts| && i < |deletes| && deletes[i] && KeyOf(m, atts[i]) == key;
      assert i == n - 1 || i < n - 1;
    }
  }

  // ---------------------------------------------------------------------------
  // Compensation
  // ---------------------------------------------------------------------------

  /** Some upload or the email's insert will fail. */
  predicate MustRollBack(atts: seq<Attachment>, a: Answers)
    requires Fits(atts, a)
  {
    (exists i :: 0 <= i < |atts| && a.puts[i].PutFailed?) || a.raced || !a.insertOk
  }

  /** The inputs decide how the call ends, result by result. */
  lemma EndOfCall(w: World, m: Mail, atts: seq<Attachment>, a: Answers)
    requires Fits(atts, a)
    ensures var r := Saga(w, m, atts, a).1;
            var known := a.lookup.AccountOk? && a.checkOk;
            var uploads := known && m !in w.emails && a.fetchOk && a.parseOk;
            var puts := forall i :: 0 <= i < |atts| ==> a.puts[i].PutOk?;
            && (r == AccountNotFound <==> a.lookup == NoAccount)
            && (r == FailedBefore <==>
                  || a.lookup == LookupFailed
                  || (a.lookup.AccountOk? && !a.checkOk)
                  || (known && m !in w.emails && !(a.fetchOk && a.parseOk)))
            && (r == AlreadyExists <==> (known && m in w.emails) || (uploads && puts && a.raced))
            && (r == FailedUpload <==> uploads && !puts)
            && (r == FailedInsert <==> uploads && puts && !a.raced && !a.insertOk)
            && (r == FailedMetadata <==>
                  uploads && puts && !a.raced && a.insertOk && exists i :: 0 <= i < |atts| && !a.metadata[i])
            && (r == Ingested <==>
                  uploads && puts && !a.raced && a.insertOk && forall i :: 0 <= i < |atts| ==> a.metadata[i])
  {
    var n := UploadsDone(a.puts, |atts|);
    if n < |atts| {
      assert a.puts[n].PutFailed?;
    }
    AllRows(m, atts, a.metadata, |atts|);
  }

  /** All rows are written exactly when no insert fails. */
  lemma {:induction false} AllRows(m: Mail, atts: seq<Attachment>, metadata: seq<bool>, n: nat)
    requires n <= |atts| && n <= |metadata|
    ensures |RowsFor(m, atts, metadata, n)| <= n
    ensures |RowsFor(m, atts, metadata, n)| == n <==> forall i :: 0 <= i < n ==> metadata[i]
  {
    if n > 0 {
      AllRows(m, atts, metadata, n - 1);
    }
  }

  predicate GivesUp(r: Result) {
    r == FailedUpload || r == FailedInsert || r == AlreadyExists || r == AccountNotFound || r == FailedBefore
  }

  /** The uploads that the call rolls back. */
  function RollbackSize(atts: seq<Attachment>, a: Answers): (n: nat)
    requires Fits(atts, a)
    ensures n <= |atts|
  {
    UploadsDone(a.puts, |atts|)
  }

  /** Cleaning up the first `n` keys undoes the first `n` uploads. */
  lemma CleanUndoesUpload(objects: map<string, int>, m: Mail, atts: seq<Attachment>, deletes: seq<bool>, n: nat)
    requires n <= |atts| && n <= |deletes|
    requires forall i :: 0 <= i < n ==> KeyOf(m, atts[i]) !in objects && deletes[i]
    ensures Cleaned(Uploaded(objects, m, atts, n), m, atts, deletes, n) == objects
  {
    var up := Uploaded(objects, m, atts, n);
    UploadedKeys(objects, m, atts, n);
    CleanedKeys(up, m, atts, deletes, n);
    forall key
      ensures IsKey(m, atts, n, key) <==> IsDeleted(m, atts, deletes, n, key)
      ensures IsKey(m, atts, n, key) ==> key !in objects
    {
      if IsKey(m, atts, n, key) {
        var i :| 0 <= i < n && i < |atts| && KeyOf(m, atts[i]) == key;
        assert deletes[i];
      }
    }
  }

  /** What a call that gives up leaves behind. */
  lemma GivingUp(w: World, m: Mail, atts: seq<Attachment>, a: Answers)
    requires Fits(atts, a) && (GetsToUpload(w, m, a) ==> MustRollBack(atts, a))
    requires forall i :: 0 <= i < |atts| ==> a.puts[i] != PutFailed(true)
    ensures var w', n := Saga(w, m, atts, a).0, RollbackSize(atts, a);
            && (|| w'.objects == w.objects
                || w'.objects == Cleaned(Uploaded(w.objects, m, atts, n), m, atts, a.deletes, n))
            && w'.rows == w.rows
            && (w'.emails == w.emails || (a.raced && w'.emails == w.emails + {m}))
  {
    EndOfCall(w, m, atts, a);
  }

  /**
   Every error return up to and including the email's insert leaves the object store and
   the tables as they were, if no key was in use before, deletes succeed, and a failed PUT
   stores nothing.
   */
  lemma CompensationRestores(w: World, m: Mail, atts: seq<Attachment>, a: Answers)
    requires Fits(atts, a) && (GetsToUpload(w, m, a) ==> MustRollBack(atts, a))
    requires forall i :: 0 <= i < |atts| ==> KeyOf(m, atts[i]) !in w.objects
    requires forall i :: 0 <= i < |atts| ==> a.deletes[i] && a.puts[i] != PutFailed(true)
    ensures GivesUp(Saga(w, m, atts, a).1)
    ensures Saga(w, m, atts, a).0.objects == w.objects
    ensures Saga(w, m, atts, a).0.rows == w.rows
    ensures Saga(w, m, atts, a).0.emails == w.emails || (a.raced && Saga(w, m, atts, a).0.emails == w.emails + {m})
  {
    EndOfCall(w, m, atts, a);
    GivingUp(w, m, atts, a);
    CleanUndoesUpload(w.objects, m, atts, a.deletes, RollbackSize(atts, a));
  }

  // ---------------------------------------------------------------------------
  // Referential integrity
  // ---------------------------------------------------------------------------

  /** Every attachment row points at an object that exists. */
  predicate Integral(w: World) {
    forall k :: 0 <= k < |w.rows| ==> w.rows[k].key in w.objects
  }

  /** The call rolls back, and a delete of it that works hits an object that a row already points at. */
  ghost predicate DeletesAReferencedObject(w: World, m: Mail, atts: seq<Attachment>, a: Answers)
    requires Fits(atts, a)
  {
    && GetsToUpload(w, m, a) && MustRollBack(atts, a)
    && exists k :: 0 <= k < |w.rows| && IsDeleted(m, atts, a.deletes, RollbackSize(atts, a), w.rows[k].key)
  }

  /**
   A call keeps every attachment row pointing at an existing object exactly when it does
   not both have to roll back and delete an object that was referenced before the call.
   */
  lemma IntegrityExactly(w: World, m: Mail, atts: seq<Attachment>, a: Answers)
    requires Fits(atts, a) && Integral(w)
    ensures Integral(Saga(w, m, atts, a).0) <==> !DeletesAReferencedObject(w, m, atts, a)
  {
    EndOfCall(w, m, atts, a);
    var r := Saga(w, m, atts, a).1;
    if r == FailedUpload {
      UploadRollback(w, m, atts, a);
    } else if r == FailedInsert || (r == AlreadyExists && m !in w.emails) {
      InsertRollback(w, m, atts, a);
    } else if r == Ingested || r == FailedMetadata {
      NewRowsAreIntegral(w, m, atts, a);
    }
  }

  lemma UploadRollback(w: World, m: Mail, atts: seq<Attachment>, a: Answers)
    requires Fits(atts, a) && Integral(w) && Saga(w, m, atts, a).1 == FailedUpload
    ensures Integral(Saga(w, m, atts, a).0) <==> !DeletesAReferencedObject(w, m, atts, a)
  {
    EndOfCall(w, m, atts, a);
    var n := RollbackSize(atts, a);
    UploadedKeys(w.objects, m, atts, n);
    var up := Uploaded(w.objects, m, atts, n);
    var put := if a.puts[n].stored then up[KeyOf(m, atts[n]) := atts[n].data] else up;
    CleanedKeys(put, m, atts, a.deletes, n);
  }

  lemma InsertRollback(w: World, m: Mail, atts: seq<Attachment>, a: Answers)
    requires Fits(atts, a) && Integral(w) && m !in w.emails
    requires Saga(w, m, atts, a).1 == FailedInsert || Saga(w, m, atts, a).1 == AlreadyExists
    ensures Integral(Saga(w, m, atts, a).0) <==> !DeletesAReferencedObject(w, m, atts, a)
  {
    EndOfCall(w, m, atts, a);
    UploadedKeys(w.objects, m, atts, |atts|);
    CleanedKeys(Uploaded(w.objects, m, atts, |atts|), m, atts, a.deletes, |atts|);
  }

  lemma NewRowsAreIntegral(w: World, m: Mail, atts: seq<Attachment>, a: Answers)
    requires Fits(atts, a) && Integral(w)
    requires Saga(w, m, atts, a).1 == Ingested || Saga(w, m, atts, a).1 == FailedMetadata
    ensures Integral(Saga(w, m, atts, a).0)
  {
    UploadedKeys(w.objects, m, atts, |atts|);
    RowsPointAtUploads(m, atts, a.metadata, |atts|);
  }

  lemma {:induction false} RowsPointAtUploads(m: Mail, atts: seq<Attachment>, metadata: seq<bool>, n: nat)
    requires n <= |atts| && n <= |metadata|
    ensures |RowsFor(m, atts, metadata, n)| <= n
    ensures forall k :: 0 <= k < |RowsFor(m, atts, metadata, n)| ==>
              RowsFor(m, atts, metadata, n)[k] == AttachmentRow(m, atts[k].filename, KeyOf(m, atts[k]))
              && IsKey(m, atts, |atts|, RowsFor(m, atts, metadata, n)[k].key)
  {
    if n > 0 {
      RowsPointAtUploads(m, atts, metadata, n - 1);
    }
  }

  // ---------------------------------------------------------------------------
  // Success
  // ---------------------------------------------------------------------------

  /** `j` is the last of the first `n` attachments with that key. */
  predicate IsLastWith(m: Mail, atts: seq<Attachment>, n: nat, key: string, j: int) {
    && 0 <= j < n <= |atts| && KeyOf(m, atts[j]) == key
    && forall k :: j < k < n ==> KeyOf(m, atts[k]) != key
  }

  lemma {:induction false} FindLast(m: Mail, atts: seq<Attachment>, n: nat, key: string, i: nat) returns (j: nat)
    requires i < n <= |atts| && KeyOf(m, atts[i]) == key
    ensures i <= j && IsLastWith(m, atts, n, key, j)
    decreases n
  {
    if KeyOf(m, atts[n - 1]) == key {
      j := n - 1;
    } else {
      j := FindLast(m, atts, n - 1, key, i);
      LastOneMore(m, atts, n, key, j);
    }
  }

  lemma LastOneMore(m: Mail, atts: seq<Attachment>, n: nat, key: string, j: nat)
    requires 0 < n <= |atts| && IsLastWith(m, atts, n - 1, key, j) && KeyOf(m, atts[n - 1]) != key
    ensures IsLastWith(m, atts, n, key, j)
  {
  }

  /** The object under a key is that of the last attachment with the key. */
  lemma {:induction false} LastUploadWins(objects: map<string, int>, m: Mail, atts: seq<Attachment>, n: nat,
                                          key: string, j: nat)
    requires IsLastWith(m, atts, n, key, j)
    ensures key in Uploaded(objects, m, atts, n) && Uploaded(objects, m, atts, n)[key] == atts[j].data
  {
    if j < n - 1 {
      LastUploadWins(objects, m, atts, n - 1, key, j);
      assert KeyOf(m, atts[n - 1]) != key;
    }
  }

  /** No two attachments with the same base name differ in content. */
  predicate NamesTellApart(atts: seq<Attachment>) {
    forall i, j :: 0 <= i < j < |atts| && Base(atts[i].filename) == Base(atts[j].filename) ==>
      atts[i].data == atts[j].data
  }

  /** The object under the key of the attachment is the attachment's content. */
  predicate ReadsBack(objects: map<string, int>, m: Mail, att: Attachment) {
    KeyOf(m, att) in objects && objects[KeyOf(m, att)] == att.data
  }

  lemma ReadBackExactly(objects: map<string, int>, m: Mail, atts: seq<Attachment>)
    requires '/' !in m.account
    ensures (forall k :: 0 <= k < |atts| ==> ReadsBack(Uploaded(objects, m, atts, |atts|), m, atts[k]))
            <==> NamesTellApart(atts)
  {
    var up := Uploaded(objects, m, atts, |atts|);
    forall k | 0 <= k < |atts|
      ensures NamesTellApart(atts) ==> ReadsBack(up, m, atts[k])
    {
      var j := FindLast(m, atts, |atts|, KeyOf(m, atts[k]), k);
      LastUploadWins(objects, m, atts, |atts|, KeyOf(m, atts[k]), j);
      AttachmentKeyInjective(m.account, m.uid, atts[k].filename, m.account, m.uid, atts[j].filename);
    }
    if forall k :: 0 <= k < |atts| ==> ReadsBack(up, m, atts[k]) {
      forall i, j | 0 <= i < j < |atts| && Base(atts[i].filename) == Base(atts[j].filename)
        ensures atts[i].data == atts[j].data
      {
        assert ReadsBack(up, m, atts[i]) && ReadsBack(up, m, atts[j]);
      }
    }
  }

  /** What a successful call leaves behind. */
  lemma Succeeding(w: World, m: Mail, atts: seq<Attachment>, a: Answers)
    requires Fits(atts, a) && Saga(w, m, atts, a).1 == Ingested
    ensures var rows := RowsFor(m, atts, a.metadata, |atts|);
            && |rows| == |atts|
            && Saga(w, m, atts, a).0 == World(Uploaded(w.objects, m, atts, |atts|), w.emails + {m}, w.rows + rows)
  {
  }

  lemma RowsOfSuccess(w: World, m: Mail, atts: seq<Attachment>, a: Answers)
    requires Fits(atts, a) && Saga(w, m, atts, a).1 == Ingested
    ensures var w' := Saga(w, m, atts, a).0;
            && |w'.rows| == |w.rows| + |atts| && w'.rows[..|w.rows|] == w.rows
            && forall k :: 0 <= k < |atts| ==>
                 w'.rows[|w.rows| + k] == AttachmentRow(m, atts[k].filename, KeyOf(m, atts[k]))
  {
    Succeeding(w, m, atts, a);
    RowsPointAtUploads(m, atts, a.metadata, |atts|);
  }

  /**
   A call in which nothing fails stores the email and one row per attachment, in order; and each row
   leads to its own attachment's content exactly when attachments with the same base name
   have the same content.
   */
  lemma SuccessIsComplete(w: World, m: Mail, atts: seq<Attachment>, a: Answers)
    requires Fits(atts, a) && '/' !in m.account
    requires GetsToUpload(w, m, a) && !MustRollBack(atts, a) && forall i :: 0 <= i < |atts| ==> a.metadata[i]
    ensures Saga(w, m, atts, a).1 == Ingested
    ensures var w' := Saga(w, m, atts, a).0;
            && w'.emails == w.emails + {m} && |w'.rows| == |w.rows| + |atts|
            && w'.rows[..|w.rows|] == w.rows
            && (forall k :: 0 <= k < |atts| ==>
                  w'.rows[|w.rows| + k] == AttachmentRow(m, atts[k].filename, KeyOf(m, atts[k])))
            && ((forall k :: 0 <= k < |atts| ==> ReadsBack(w'.objects, m, atts[k])) <==> NamesTellApart(atts))
  {
    EndOfCall(w, m, atts, a);
    Succeeding(w, m, atts, a);
    RowsOfSuccess(w, m, atts, a);
    ReadBackExactly(w.objects, m, atts);
  }

  /** The object under a key that a row points at is there and still the same. */
  predicate KeepsContent(w: World, w': World, key: string)
    requires key in w.objects
  {
    key in w'.objects && w'.objects[key] == w.objects[key]
  }

  /** The number of PUTs that take effect, with a failed one that stored its object. */
  function PutsDone(atts: seq<Attachment>, a: Answers): (n: nat)
    requires Fits(atts, a)
    ensures n <= |atts|
  {
    var n := RollbackSize(atts, a);
    if n < |atts| && a.puts[n].stored then n + 1 else n
  }

  /** The objects after any call, whatever its end. */
  lemma ObjectsAfter(w: World, m: Mail, atts: seq<Attachment>, a: Answers)
    requires Fits(atts, a)
    ensures var up := Uploaded(w.objects, m, atts, PutsDone(atts, a));
            Saga(w, m, atts, a).0.objects
            == if !GetsToUpload(w, m, a) then w.objects
               else if MustRollBack(atts, a) then Cleaned(up, m, atts, a.deletes, RollbackSize(atts, a))
               else up
  {
    EndOfCall(w, m, atts, a);
  }

  /** The call changes or removes the object under the key. */
  ghost predicate Harms(w: World, m: Mail, atts: seq<Attachment>, a: Answers, key: string)
    requires Fits(atts, a) && key in w.objects
  {
    && GetsToUpload(w, m, a)
    && (|| (MustRollBack(atts, a) && IsDeleted(m, atts, a.deletes, RollbackSize(atts, a), key))
        || exists j :: IsLastWith(m, atts, PutsDone(atts, a), key, j) && atts[j].data != w.objects[key])
  }

  /**
   Any call, also one that rolls back, leaves the content behind every earlier attachment
   row as it was exactly when it deletes none of their keys in a roll-back, and its last PUT
   under any of them that took effect has the same content.  The rows may be those of
   another folder's message.
   */
  lemma ContentExactly(w: World, m: Mail, atts: seq<Attachment>, a: Answers)
    requires Fits(atts, a) && Integral(w)
    ensures var w' := Saga(w, m, atts, a).0;
            (forall k :: 0 <= k < |w.rows| ==> KeepsContent(w, w', w.rows[k].key))
            <==> (forall k :: 0 <= k < |w.rows| ==> !Harms(w, m, atts, a, w.rows[k].key))
  {
    var w' := Saga(w, m, atts, a).0;
    forall k | 0 <= k < |w.rows|
      ensures KeepsContent(w, w', w.rows[k].key) <==> !Harms(w, m, atts, a, w.rows[k].key)
    {
      KeyKeepsContent(w, m, atts, a, w.rows[k].key);
    }
  }

  lemma KeyKeepsContent(w: World, m: Mail, atts: seq<Attachment>, a: Answers, key: string)
    requires Fits(atts, a) && key in w.objects
    ensures KeepsContent(w, Saga(w, m, atts, a).0, key) <==> !Harms(w, m, atts, a, key)
  {
    var p, n := PutsDone(atts, a), RollbackSize(atts, a);
    ObjectsAfter(w, m, atts, a);
    ContentOfKey(w.objects, m, atts, p, key);
    CleanedKeys(Uploaded(w.objects, m, atts, p), m, atts, a.deletes, n);
  }

  lemma ContentOfKey(objects: map<string, int>, m: Mail, atts: seq<Attachment>, n: nat, key: string)
    requires n <= |atts| && key in objects
    ensures var up := Uploaded(objects, m, atts, n);
            key in up && (up[key] != objects[key]
                          <==> exists j :: IsLastWith(m, atts, n, key, j) && atts[j].data != objects[key])
  {
    UploadedKeys(objects, m, atts, n);
    if IsKey(m, atts, n, key) {
      var i :| 0 <= i < n && i < |atts| && KeyOf(m, atts[i]) == key;
      var j := FindLast(m, atts, n, key, i);
      LastUploadWins(objects, m, atts, n, key, j);
      forall l | IsLastWith(m, atts, n, key, l)
        ensures l == j
      {
        assert !(l < j) && !(j < l);
      }
    }
  }

  /**
   Two messages with the same UID in two folders of an account, each with one attachment of
   the same base name, stored one after the other without any failure: the first one's row
   now leads to the second one's content.
   */
  lemma SameUidOverwrites(account: string, uid: nat, f: string, g: string, att: Attachment, att': Attachment,
                          a: Answers)
    requires '/' !in account && f != g
    requires Base(att.filename) == Base(att'.filename) && att.data != att'.data
    requires Fits([att], a) && GetsToUpload(EMPTY, Mail(account, f, uid), a) && !MustRollBack([att], a) && a.metadata[0]
    ensures var w1 := Saga(EMPTY, Mail(account, f, uid), [att], a).0;
            var w2 := Saga(w1, Mail(account, g, uid), [att'], a);
            && w2.1 == Ingested && |w2.0.rows| == 2 && w2.0.rows[0].mail == Mail(account, f, uid)
            && w2.0.rows[0].key in w2.0.objects && w2.0.objects[w2.0.rows[0].key] == att'.data
  {
    var m, n := Mail(account, f, uid), Mail(account, g, uid);
    assert KeyOf(m, att) == KeyOf(n, att');
    OneAttachment(EMPTY, m, att, a);
    var w1 := Saga(EMPTY, m, [att], a).0;
    assert n !in w1.emails;
    OneAttachment(w1, n, att', a);
  }

  const EMPTY := World(map[], {}, [])

  lemma OneAttachment(w: World, m: Mail, att: Attachment, a: Answers)
    requires Fits([att], a) && GetsToUpload(w, m, a) && !MustRollBack([att], a) && a.metadata[0]
    ensures Saga(w, m, [att], a)
            == (World(w.objects[KeyOf(m, att) := att.data], w.emails + {m},
                      w.rows + [AttachmentRow(m, att.filename, KeyOf(m, att))]), Ingested)
  {
    EndOfCall(w, m, [att], a);
    assert Uploaded(w.objects, m, [att], 1) == Uploaded(w.objects, m, [att], 0)[KeyOf(m, att) := att.data];
    assert RowsFor(m, [att], a.metadata, 0) == [];
    assert RowsFor(m, [att], a.metadata, 1) == [AttachmentRow(m, att.filename, KeyOf(m, att))];
  }

  /**
   With fresh keys, a roll-back restores the object store exactly when each object it put
   there, also by a failed PUT that was stored, is deleted by it again.
   */
  lemma CompensationExactly(w: World, m: Mail, atts: seq<Attachment>, a: Answers)
    requires Fits(atts, a) && GetsToUpload(w, m, a) && MustRollBack(atts, a)
    requires forall i :: 0 <= i < |atts| ==> KeyOf(m, atts[i]) !in w.objects
    ensures Saga(w, m, atts, a).0.objects == w.objects
            <==> forall i :: 0 <= i < PutsDone(atts, a) ==>
                   IsDeleted(m, atts, a.deletes, RollbackSize(atts, a), KeyOf(m, atts[i]))
  {
    var after := Saga(w, m, atts, a).0.objects;
    RolledBackKeys(w, m, atts, a);
    forall i | 0 <= i < PutsDone(atts, a)
      ensures KeyOf(m, atts[i]) in after
              <==> !IsDeleted(m, atts, a.deletes, RollbackSize(atts, a), KeyOf(m, atts[i]))
    {
      assert IsKey(m, atts, PutsDone(atts, a), KeyOf(m, atts[i]));
    }
    if forall i :: 0 <= i < PutsDone(atts, a) ==> KeyOf(m, atts[i]) !in after {
      forall key
        ensures key in after ==> key in w.objects
      {
        if IsKey(m, atts, PutsDone(atts, a), key) {
          var i :| 0 <= i < PutsDone(atts, a) && i < |atts| && KeyOf(m, atts[i]) == key;
        }
      }
      assert after == w.objects;
    }
  }

  /** What a roll-back over fresh keys leaves in the object store. */
  lemma RolledBackKeys(w: World, m: Mail, atts: seq<Attachment>, a: Answers)
    requires Fits(atts, a) && GetsToUpload(w, m, a) && MustRollBack(atts, a)
    requires forall i :: 0 <= i < |atts| ==> KeyOf(m, atts[i]) !in w.objects
    ensures var after := Saga(w, m, atts, a).0.objects;
            && (forall key :: key in after <==>
                  (key in w.objects || IsKey(m, atts, PutsDone(atts, a), key))
                  && !IsDeleted(m, atts, a.deletes, RollbackSize(atts, a), key))
            && (forall key :: key in w.objects ==> key in after && after[key] == w.objects[key])
  {
    var p, n := PutsDone(atts, a), RollbackSize(atts, a);
    ObjectsAfter(w, m, atts, a);
    UploadedKeys(w.objects, m, atts, p);
    CleanedKeys(Uploaded(w.objects, m, atts, p), m, atts, a.deletes, n);
    forall key | key in w.objects
      ensures !IsKey(m, atts, p, key) && !IsDeleted(m, atts, a.deletes, n, key)
    {
    }
  }

  /**
   After a failure among the attachment rows the email stays, and no later call for it
   adds a row or an object: the missing attachments are missing for good.
   */
  lemma MetadataFailureIsPermanent(w: World, m: Mail, atts: seq<Attachment>, a: Answers, atts': seq<Attachment>,
                                   a': Answers)
    requires Fits(atts, a) && Fits(atts', a')
    requires GetsToUpload(w, m, a) && !MustRollBack(atts, a) && exists i :: 0 <= i < |atts| && !a.metadata[i]
    ensures Saga(w, m, atts, a).1 == FailedMetadata
    ensures var w1 := Saga(w, m, atts, a).0; Saga(w1, m, atts', a').0 == w1 && GivesUp(Saga(w1, m, atts', a').1)
    ensures |Saga(w, m, atts, a).0.rows| < |w.rows| + |atts|
  {
    EndOfCall(w, m, atts, a);
    AllRows(m, atts, a.metadata, |atts|);
  }

  /** Nothing fails, and no other call interferes. */
  predicate IsFaultFree(atts: seq<Attachment>, a: Answers)
    requires Fits(atts, a)
  {
    && a.lookup.AccountOk? && a.checkOk && a.fetchOk && a.parseOk && !a.raced && a.insertOk
    && forall i :: 0 <= i < |atts| ==> a.puts[i].PutOk? && a.metadata[i]
  }

  /** The call gets its uploads done, and the email is inserted then, by it or by a call that overtakes it. */
  predicate IsInserted(w: World, m: Mail, atts: seq<Attachment>, a: Answers)
    requires Fits(atts, a)
  {
    && GetsToUpload(w, m, a)
    && (forall i :: 0 <= i < |atts| ==> a.puts[i].PutOk?)
    && (a.raced || a.insertOk)
  }

  /** The email is stored after the call exactly when it was before or is inserted meanwhile. */
  lemma StoredExactly(w: World, m: Mail, atts: seq<Attachment>, a: Answers)
    requires Fits(atts, a)
    ensures m in Saga(w, m, atts, a).0.emails
            <==> m in w.emails || IsInserted(w, m, atts, a)
  {
    EndOfCall(w, m, atts, a);
    var n := UploadsDone(a.puts, |atts|);
  }

  /**
   Exactly when a call can be retried: a later call without any fault completes the
   ingestion if and only if the email was not stored before the first call and that one
   did not get its uploads done with the email inserted then, by it or by another call.
   So after a failure among the attachment rows no retry helps, and after every other
   error of this call alone it does.
   */
  lemma RetryExactly(w: World, m: Mail, atts: seq<Attachment>, a: Answers, atts': seq<Attachment>, a': Answers)
    requires Fits(atts, a) && Fits(atts', a') && IsFaultFree(atts', a')
    ensures Saga(Saga(w, m, atts, a).0, m, atts', a').1 == Ingested
            <==> m !in w.emails && !IsInserted(w, m, atts, a)
  {
    StoredExactly(w, m, atts, a);
    EndOfCall(Saga(w, m, atts, a).0, m, atts', a');
  }
}
