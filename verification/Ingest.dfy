/**
 Ingestion of one email (internal/ingest/ingest.go): attachments are uploaded to the
 object store, then the email and the attachment rows go into the database, and uploads
 are deleted again when something fails up to the email's insert.
 */
module Ingest {
  import opened MailboxSync

  // ---------------------------------------------------------------------------
  // Object keys (internal/storage/s3.go)
  // ---------------------------------------------------------------------------

  function StripSlashes(path: string): string {
    if path != "" && path[|path| - 1] == '/' then StripSlashes(path[..|path| - 1]) else path
  }

  function AfterLastSlash(path: string): string {
    if path == "" then ""
    else if path[|path| - 1] == '/' then ""
    else AfterLastSlash(path[..|path| - 1]) + path[|path| - 1..]
  }

  /** filepath.Base. */
  function Base(path: string): string {
    if path == "" then "."
    else
      var p := StripSlashes(path);
      if p == "" then "/" else AfterLastSlash(p)
  }

  /** Trailing slashes do not count. */
  lemma {:induction false} StripAll(path: string, slashes: nat)
    ensures StripSlashes(path + Slashes(slashes)) == StripSlashes(path)
    decreases slashes
  {
    if slashes == 0 {
      assert path + Slashes(0) == path;
    } else {
      var longer := path + Slashes(slashes);
      assert longer[..|longer| - 1] == path + Slashes(slashes - 1);
      StripAll(path, slashes - 1);
    }
  }

  function Slashes(n: nat): string {
    seq(n, _ => '/')
  }

  lemma {:induction false} AfterSlash(dir: string, name: string)
    requires '/' !in name
    ensures AfterLastSlash(dir + "/" + name) == name && AfterLastSlash(name) == name
    decreases |name|
  {
    if name == "" {
      assert dir + "/" + name == dir + "/";
    } else {
      var n := |name| - 1;
      AfterSlash(dir, name[..n]);
      assert (dir + "/" + name)[..|dir + "/" + name| - 1] == dir + "/" + name[..n];
      assert name[..n] + name[n..] == name;
      assert (dir + "/" + name)[|dir + "/" + name| - 1..] == name[n..];
    }
  }

  /** filepath.Base is the last component of the path, without trailing slashes; "." and "/" when there is none. */
  lemma BaseIsLastComponent(dir: string, name: string, slashes: nat)
    requires name != "" && '/' !in name
    ensures Base(dir + "/" + name + Slashes(slashes)) == name
    ensures Base(name + Slashes(slashes)) == name
    ensures Base("") == "." && Base("/" + Slashes(slashes)) == "/"
  {
    StripAll(dir + "/" + name, slashes);
    StripAll(name, slashes);
    StripAll("", slashes + 1);
    assert "" + Slashes(slashes + 1) == "/" + Slashes(slashes);
    AfterSlash(dir, name);
  }

  function Digit(d: nat): char
    requires d < 10
  {
    "0123456789"[d]
  }

  /** %d for a non-negative number. */
  function Decimal(n: nat): (s: string)
    ensures s != "" && '/' !in s
  {
    if n < 10 then [Digit(n)] else Decimal(n / 10) + [Digit(n % 10)]
  }

  lemma DigitInjective(d: nat, e: nat)
    requires d < 10 && e < 10
    ensures Digit(d) == Digit(e) ==> d == e
  {
  }

  lemma {:induction false} DecimalInjective(m: nat, n: nat)
    ensures Decimal(m) == Decimal(n) ==> m == n
  {
    var s, t := Decimal(m), Decimal(n);
    if s == t {
      assert s[|s| - 1] == Digit(m % 10) && t[|t| - 1] == Digit(n % 10);
      DigitInjective(m % 10, n % 10);
      if m >= 10 && n >= 10 {
        assert s[..|s| - 1] == Decimal(m / 10) && t[..|t| - 1] == Decimal(n / 10);
        DecimalInjective(m / 10, n / 10);
      }
    }
  }

  /** The number that a row of decimal digits stands for. */
  function NumberOf(s: string): int {
    if s == "" then 0 else 10 * NumberOf(s[..|s| - 1]) + (s[|s| - 1] as int - '0' as int)
  }

  /** %d is decimal notation: read as a decimal number, it gives back the number, without leading zeros. */
  lemma {:induction false} DecimalIsDecimal(n: nat)
    ensures NumberOf(Decimal(n)) == n
    ensures forall i :: 0 <= i < |Decimal(n)| ==> '0' <= Decimal(n)[i] <= '9'
    ensures n > 0 ==> Decimal(n)[0] != '0'
  {
    var s := Decimal(n);
    if n < 10 {
      assert s[..0] == "";
    } else {
      DecimalIsDecimal(n / 10);
      assert s[..|s| - 1] == Decimal(n / 10);
    }
  }

  function AttachmentKey(account: string, uid: nat, filename: string): string {
    account + "/" + Decimal(uid) + "/" + Base(filename)
  }

  lemma SplitAtSlash(a: string, x: string, b: string, y: string)
    requires '/' !in a && '/' !in b
    requires a + "/" + x == b + "/" + y
    ensures a == b && x == y
  {
    var k, l := a + "/" + x, b + "/" + y;
    assert k[|a|] == '/' && forall i :: 0 <= i < |a| ==> k[i] == a[i] && k[i] != '/';
    assert l[|b|] == '/' && forall i :: 0 <= i < |b| ==> l[i] == b[i] && l[i] != '/';
    assert |a| == |b|;
    assert k[..|a|] == a && l[..|b|] == b;
    assert k[|a| + 1..] == x && l[|b| + 1..] == y;
  }

  /** Two keys are equal exactly for the same account, UID and base name; the folder is not part of it. */
  lemma AttachmentKeyInjective(a: string, u: nat, f: string, b: string, v: nat, g: string)
    requires '/' !in a && '/' !in b
    ensures AttachmentKey(a, u, f) == AttachmentKey(b, v, g) <==> a == b && u == v && Base(f) == Base(g)
  {
    if AttachmentKey(a, u, f) == AttachmentKey(b, v, g) {
      KeyParts(a, Decimal(u), Base(f), b, Decimal(v), Base(g));
      DecimalInjective(u, v);
    }
  }

  lemma KeyParts(a: string, u: string, f: string, b: string, v: string, g: string)
    requires '/' !in a && '/' !in b && '/' !in u && '/' !in v
    requires a + "/" + u + "/" + f == b + "/" + v + "/" + g
    ensures a == b && u == v && f == g
  {
    var x, y := u + "/" + f, v + "/" + g;
    assert a + "/" + x == a + "/" + u + "/" + f && b + "/" + y == b + "/" + v + "/" + g;
    SplitAtSlash(a, x, b, y);
    SplitAtSlash(u, f, v, g);
  }

  // ---------------------------------------------------------------------------
  // The stores and the answers of the outside world
  // ---------------------------------------------------------------------------

  datatype Attachment = Attachment(filename: string, data: int)

  datatype AttachmentRow = AttachmentRow(mail: Mail, filename: string, key: string)

  /** The object store, the emails table and the attachments table. */
  datatype World = World(objects: map<string, int>, emails: set<Mail>, rows: seq<AttachmentRow>)

  datatype Lookup = AccountOk | NoAccount | LookupFailed

  /** A failed PUT may have stored its object nonetheless. */
  datatype Put = PutOk | PutFailed(stored: bool)

  datatype Answers = Answers(
    lookup: Lookup, checkOk: bool, fetchOk: bool, parseOk: bool,
    puts: seq<Put>, deletes: seq<bool>,
    raced: bool,        // another call inserts the same email just before this one does
    insertOk: bool, metadata: seq<bool>)

  datatype Result =
    | Ingested | AccountNotFound | AlreadyExists
    | FailedBefore | FailedUpload | FailedInsert | FailedMetadata

  function KeyOf(m: Mail, a: Attachment): string {
    AttachmentKey(m.account, m.uid, a.filename)
  }

  // ---------------------------------------------------------------------------
  // What a call computes
  // ---------------------------------------------------------------------------

  /** The objects after the first `n` uploads. */
  function Uploaded(objects: map<string, int>, m: Mail, atts: seq<Attachment>, n: nat): map<string, int>
    requires n <= |atts|
  {
    if n == 0 then objects else Uploaded(objects, m, atts, n - 1)[KeyOf(m, atts[n - 1]) := atts[n - 1].data]
  }

  /** The number of uploads that succeed before the first failure. */
  function UploadsDone(puts: seq<Put>, count: nat): (n: nat)
    requires count <= |puts|
    ensures n <= count && (n < count ==> puts[n].PutFailed?) && forall i :: 0 <= i < n ==> puts[i].PutOk?
  {
    if count == 0 then 0
    else
      var n := UploadsDone(puts, count - 1);
      if n == count - 1 && puts[n].PutOk? then count else n
  }

  /** The objects after the clean-up has tried the first `n` keys. */
  function Cleaned(objects: map<string, int>, m: Mail, atts: seq<Attachment>, deletes: seq<bool>,
                   n: nat): map<string, int>
    requires n <= |atts| && n <= |deletes|
  {
    if n == 0 then objects
    else
      var before := Cleaned(objects, m, atts, deletes, n - 1);
      if deletes[n - 1] then before - {KeyOf(m, atts[n - 1])} else before
  }

  /** The rows of the attachments up to, and without, the first insert that fails. */
  function RowsFor(m: Mail, atts: seq<Attachment>, metadata: seq<bool>, n: nat): seq<AttachmentRow>
    requires n <= |atts| && n <= |metadata|
  {
    if n == 0 then []
    else
      var before := RowsFor(m, atts, metadata, n - 1);
      if |before| == n - 1 && metadata[n - 1]
      then before + [AttachmentRow(m, atts[n - 1].filename, KeyOf(m, atts[n - 1]))]
      else before
  }

  /** The call gets to its uploads: the account and the message are found, and the email is not stored yet. */
  predicate GetsToUpload(w: World, m: Mail, a: Answers) {
    a.lookup.AccountOk? && a.checkOk && a.fetchOk && a.parseOk && m !in w.emails
  }

  predicate Fits(atts: seq<Attachment>, a: Answers) {
    |a.puts| >= |atts| && |a.deletes| >= |atts| && |a.metadata| >= |atts|
  }

  function Saga(w: World, m: Mail, atts: seq<Attachment>, a: Answers): (World, Result)
    requires Fits(atts, a)
  {
    if a.lookup == NoAccount then (w, AccountNotFound)
    else if a.lookup == LookupFailed || !a.checkOk then (w, FailedBefore)
    else if m in w.emails then (w, AlreadyExists)
    else if !a.fetchOk || !a.parseOk then (w, FailedBefore)
    else SagaUpload(w, m, atts, a)
  }

  /** The objects after an upload that failed, and its clean-up. */
  function RolledBack(objects: map<string, int>, m: Mail, atts: seq<Attachment>, a: Answers): map<string, int>
    requires Fits(atts, a) && UploadsDone(a.puts, |atts|) < |atts|
  {
    var n := UploadsDone(a.puts, |atts|);
    var up := Uploaded(objects, m, atts, n);
    var put := if a.puts[n].stored then up[KeyOf(m, atts[n]) := atts[n].data] else up;
    Cleaned(put, m, atts, a.deletes, n)
  }

  function SagaUpload(w: World, m: Mail, atts: seq<Attachment>, a: Answers): (World, Result)
    requires Fits(atts, a)
  {
    if UploadsDone(a.puts, |atts|) < |atts| then
      (w.(objects := RolledBack(w.objects, m, atts, a)), FailedUpload)
    else
      var n, up := |atts|, Uploaded(w.objects, m, atts, |atts|);
      var raced := if a.raced then w.emails + {m} else w.emails;
      if m in raced || !a.insertOk then
        (World(Cleaned(up, m, atts, a.deletes, n), raced, w.rows), if m in raced then AlreadyExists else FailedInsert)
      else
        var rows := RowsFor(m, atts, a.metadata, |atts|);
        (World(up, raced + {m}, w.rows + rows), if |rows| == |atts| then Ingested else FailedMetadata)
  }

  // ---------------------------------------------------------------------------
  // The code
  // ---------------------------------------------------------------------------

  class Ingester {
    var objects: map<string, int>
    var emails: set<Mail>
    var rows: seq<AttachmentRow>

    function Stores(): World
      reads this
    {
      World(objects, emails, rows)
    }

    constructor ()
      ensures Stores() == World(map[], {}, [])
    {
      objects, emails, rows := map[], {}, [];
    }

    method Upload(key: string, data: int, put: Put) returns (ok: bool)
      modifies this`objects
      ensures ok == put.PutOk?
      ensures objects == if ok || put.stored then old(objects)[key := data] else old(objects)
    {
      ok := put.PutOk?;
      if ok || put.stored {
        objects := objects[key := data];
      }
    }

    /** The rollback loop: every key is tried, and a failed delete is only logged. */
    method Cleanup(m: Mail, atts: seq<Attachment>, keys: seq<string>, deletes: seq<bool>)
      requires |keys| <= |atts| && |keys| <= |deletes|
      requires forall i :: 0 <= i < |keys| ==> keys[i] == KeyOf(m, atts[i])
      modifies this`objects
      ensures objects == Cleaned(old(objects), m, atts, deletes, |keys|)
    {
      for i := 0 to |keys|
        invariant objects == Cleaned(old(objects), m, atts, deletes, i)
      {
        if deletes[i] {
          objects := objects - {keys[i]};
        }
      }
    }

    /** Step 5: uploads in order; the first failure rolls back what was uploaded before it. */
    method UploadAttachments(m: Mail, atts: seq<Attachment>, a: Answers) returns (s3Keys: seq<string>, ok: bool)
      requires Fits(atts, a)
      modifies this`objects
      ensures ok == (UploadsDone(a.puts, |atts|) == |atts|)
      ensures ok ==> |s3Keys| == |atts| && forall k :: 0 <= k < |atts| ==> s3Keys[k] == KeyOf(m, atts[k])
      ensures ok ==> objects == Uploaded(old(objects), m, atts, |atts|)
      ensures !ok ==> objects == RolledBack(old(objects), m, atts, a)
    {
      s3Keys, ok := [], true;
      for i := 0 to |atts|
        invariant ok && |s3Keys| == i && forall k :: 0 <= k < i ==> s3Keys[k] == KeyOf(m, atts[k])
        invariant objects == Uploaded(old(objects), m, atts, i)
        invariant UploadsDone(a.puts, i) == i
      {
        var key := AttachmentKey(m.account, m.uid, atts[i].filename);
        ok := Upload(key, atts[i].data, a.puts[i]);
        if !ok {
          Cleanup(m, atts, s3Keys, a.deletes);
          UploadsStop(a.puts, i, |atts|);
          return;
        }
        s3Keys := s3Keys + [key];
      }
    }

    /** Step 7: one row per attachment; those before the first failing insert stay. */
    method StoreMetadata(m: Mail, atts: seq<Attachment>, s3Keys: seq<string>, metadata: seq<bool>) returns (ok: bool)
      requires |metadata| >= |atts| == |s3Keys|
      requires forall k :: 0 <= k < |atts| ==> s3Keys[k] == KeyOf(m, atts[k])
      modifies this`rows
      ensures rows == old(rows) + RowsFor(m, atts, metadata, |atts|)
      ensures ok == (|RowsFor(m, atts, metadata, |atts|)| == |atts|)
      ensures var written := |rows| - |old(rows)|;
              && 0 <= written <= |atts| && ok == (written == |atts|) && rows[..|old(rows)|] == old(rows)
              && (written < |atts| ==> !metadata[written])
              && forall k :: 0 <= k < written ==>
                   metadata[k] && rows[|old(rows)| + k] == AttachmentRow(m, atts[k].filename, KeyOf(m, atts[k]))
    {
      ok := WriteRows(m, atts, s3Keys, metadata);
      RowsUpToFailure(m, atts, metadata, |atts|);
    }

    /** The loop of step 7. */
    method WriteRows(m: Mail, atts: seq<Attachment>, s3Keys: seq<string>, metadata: seq<bool>) returns (ok: bool)
      requires |metadata| >= |atts| == |s3Keys|
      requires forall k :: 0 <= k < |atts| ==> s3Keys[k] == KeyOf(m, atts[k])
      modifies this`rows
      ensures rows == old(rows) + RowsFor(m, atts, metadata, |atts|)
      ensures ok == (|RowsFor(m, atts, metadata, |atts|)| == |atts|)
    {
      for i := 0 to |atts|
        invariant rows == old(rows) + RowsFor(m, atts, metadata, i)
        invariant |RowsFor(m, atts, metadata, i)| == i
      {
        if !metadata[i] {
          RowsStop(m, atts, metadata, i, |atts|);
          return false;
        }
        rows := rows + [AttachmentRow(m, atts[i].filename, s3Keys[i])];
      }
      return true;
    }

    method IngestEmail(m: Mail, atts: seq<Attachment>, a: Answers) returns (r: Result)
      requires Fits(atts, a)
      modifies this
      ensures (Stores(), r) == Saga(old(Stores()), m, atts, a)
    {
      if a.lookup == NoAccount {
        return AccountNotFound;
      }
      if a.lookup == LookupFailed {
        return FailedBefore;
      }
      if !a.checkOk {
        return FailedBefore;
      }
      if m in emails {
        return AlreadyExists;
      }
      if !a.fetchOk || !a.parseOk {
        return FailedBefore;
      }
      var s3Keys, uploaded := UploadAttachments(m, atts, a);
      if !uploaded {
        return FailedUpload;
      }
      if a.raced {
        emails := emails + {m};
      }
      var conflict := m in emails;
      if conflict || !a.insertOk {
        Cleanup(m, atts, s3Keys, a.deletes);
        return if conflict then AlreadyExists else FailedInsert;
      }
      emails := emails + {m};
      var complete := StoreMetadata(m, atts, s3Keys, a.metadata);
      return if complete then Ingested else FailedMetadata;
    }
  }

  lemma {:induction false} UploadsStop(puts: seq<Put>, i: nat, count: nat)
    requires i < count <= |puts| && UploadsDone(puts, i) == i && puts[i].PutFailed?
    ensures UploadsDone(puts, count) == i
    decreases count
  {
    if i + 1 < count {
      UploadsStop(puts, i, count - 1);
    }
  }

  lemma {:induction false} RowsUpToFailure(m: Mail, atts: seq<Attachment>, metadata: seq<bool>, n: nat)
    requires n <= |atts| && n <= |metadata|
    ensures var rows := RowsFor(m, atts, metadata, n);
            && |rows| <= n && (|rows| < n ==> !metadata[|rows|])
            && forall k :: 0 <= k < |rows| ==>
                 metadata[k] && rows[k] == AttachmentRow(m, atts[k].filename, KeyOf(m, atts[k]))
  {
    if n > 0 {
      RowsUpToFailure(m, atts, metadata, n - 1);
    }
  }

  lemma {:induction false} RowsStop(m: Mail, atts: seq<Attachment>, metadata: seq<bool>, i: nat, count: nat)
    requires i < count <= |atts| && count <= |metadata| && !metadata[i]
    requires |RowsFor(m, atts, metadata, i)| == i
    ensures RowsFor(m, atts, metadata, count) == RowsFor(m, atts, metadata, i)
    decreases count
  {
    if i + 1 < count {
      RowsStop(m, atts, metadata, i, count - 1);
    }
  }
}
