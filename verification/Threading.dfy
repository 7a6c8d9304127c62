/**
 Reply threading: the composer's checks on In-Reply-To and References
 (internal/composer/composer.go), the reply's References list
 (internal/api/message_handler.go, buildReplyContext), and whole chains of replies.
 */
module Threading {
  import opened Common
  import opened MessageIds
  import opened References

  // ---------------------------------------------------------------------------
  // The composer's checks
  // ---------------------------------------------------------------------------

  predicate IsValidMessageID(id: string) {
    if |id| < 5 then false
    else if id[0] != '<' || id[|id| - 1] != '>' then false
    else
      var inner := id[1..|id| - 1];
      var at := Index(inner, "@");
      0 < at < |inner| - 1
  }

  /** `id` is "<" left "@" right ">" with both parts non-empty, split at the first '@'. */
  ghost predicate HasIdShape(id: string, left: string, right: string) {
    && id == "<" + left + "@" + right + ">"
    && left != "" && right != "" && '@' !in left
  }

  lemma ShapeOfValid(id: string)
    requires IsValidMessageID(id)
    ensures exists left, right :: HasIdShape(id, left, right)
  {
    var inner := id[1..|id| - 1];
    var at := Index(inner, "@");
    var left, right := inner[..at], inner[at + 1..];
    assert inner[at..at + 1] == "@";
    forall i | 0 <= i < at
      ensures left[i] != '@'
    {
      assert !OccursAt(inner, "@", i);
      assert inner[i..i + 1] == [inner[i]];
    }
    assert inner == left + "@" + right;
    assert id == "<" + inner + ">";
    assert HasIdShape(id, left, right);
  }

  lemma ValidOfShape(id: string, left: string, right: string)
    requires HasIdShape(id, left, right)
    ensures IsValidMessageID(id)
  {
    var inner := id[1..|id| - 1];
    assert inner == left + "@" + right;
    assert inner[|left|..|left| + 1] == "@";
    assert OccursAt(inner, "@", |left|);
    forall i | 0 <= i < |left|
      ensures !OccursAt(inner, "@", i)
    {
      assert inner[i..i + 1][0] == left[i];
    }
  }

  /** The accepted ids are exactly those of the documented shape. */
  lemma ValidMessageIDShape(id: string)
    ensures IsValidMessageID(id) <==> exists left, right :: HasIdShape(id, left, right)
  {
    if IsValidMessageID(id) {
      ShapeOfValid(id);
    }
    if left, right :| HasIdShape(id, left, right) {
      ValidOfShape(id, left, right);
    }
  }

  datatype ThreadingError = InvalidInReplyTo(id: string) | InvalidReference(id: string)

  /** The last two checks of Validate: the first offending id is reported. */
  method ValidateThreading(inReplyTo: string, references: seq<string>) returns (err: Option<ThreadingError>)
    ensures err == Some(InvalidInReplyTo(inReplyTo)) <==> inReplyTo != "" && !IsValidMessageID(inReplyTo)
    ensures err.None? <==>
            && (inReplyTo == "" || IsValidMessageID(inReplyTo))
            && forall k :: 0 <= k < |references| ==> IsValidMessageID(references[k])
    ensures err.Some? && err.value.InvalidReference? ==>
              exists k :: 0 <= k < |references| && err.value.id == references[k]
                && !IsValidMessageID(references[k]) && forall j :: 0 <= j < k ==> IsValidMessageID(references[j])
  {
    if inReplyTo != "" && !IsValidMessageID(inReplyTo) {
      return Some(InvalidInReplyTo(inReplyTo));
    }
    for k := 0 to |references|
      invariant forall j :: 0 <= j < k ==> IsValidMessageID(references[j])
    {
      if !IsValidMessageID(references[k]) {
        return Some(InvalidReference(references[k]));
      }
    }
    return None;
  }

  // ---------------------------------------------------------------------------
  // Replies
  // ---------------------------------------------------------------------------

  /** The parts of a stored email that threading reads. */
  datatype Stored = Stored(messageId: string, raw: string)

  /** The References list of a reply to `original`. */
  function ReplyReferences(original: Stored): seq<string> {
    if original.messageId != "" then ExtractedIds(original.raw) + [original.messageId] else []
  }

  /** buildReplyContext's threading part: without a Message-ID the original's references are not carried on. */
  method BuildReplyContext(original: Stored) returns (inReplyTo: string, references: seq<string>)
    ensures inReplyTo == original.messageId
    ensures original.messageId == "" ==> references == []
    ensures original.messageId != "" ==> references == ExtractedIds(original.raw) + [original.messageId]
    ensures references == ReplyReferences(original)
  {
    inReplyTo, references := original.messageId, [];
    if original.messageId != "" {
      references := ExtractReferences(original.raw);
      references := references + [original.messageId];
    }
  }

  /**
   The message text Build may produce for these references: no header when there are
   none, else one header whose printed value is folded anywhere the syntax allows, but
   not inside an id.
   */
  ghost predicate BuiltWith(raw: string, refs: seq<string>) {
    if refs == [] then forall i :: !NameAt(raw, i)
    else exists pre, cut, rest :: Prints(raw, refs, pre, cut, rest)
  }

  predicate Prints(raw: string, refs: seq<string>, pre: string, cut: seq<bool>, rest: string) {
    HasReferences(raw, pre, "References:", " " + Join(refs), cut, rest) && !CutsAnId(None, " " + Join(refs), cut)
  }

  ghost predicate IsReplyTo(reply: Stored, original: Stored) {
    BuiltWith(reply.raw, ReplyReferences(original))
  }

  /** A usable id: accepted by the composer and without brackets inside. */
  predicate IsThreadId(id: string) {
    IsValidMessageID(id) && IsToken(id)
  }

  /** For ids without white space the second half of `Prints` holds of every fold. */
  lemma EveryFoldPrints(raw: string, refs: seq<string>, pre: string, cut: seq<bool>, rest: string)
    requires forall k :: 0 <= k < |refs| ==> IsThreadId(refs[k]) && NoSpaces(refs[k])
    requires HasReferences(raw, pre, "References:", " " + Join(refs), cut, rest)
    ensures Prints(raw, refs, pre, cut, rest)
  {
    assert forall k :: 0 <= k < |refs| ==> IsToken(refs[k]);
    SpacedIsNotCut(Join(refs), cut, refs);
  }

  function Ids(thread: seq<Stored>): seq<string> {
    seq(|thread|, k requires 0 <= k < |thread| => thread[k].messageId)
  }

  /** What is built from a list of usable ids is extracted as that list. */
  lemma BuildThenExtract(raw: string, refs: seq<string>)
    requires BuiltWith(raw, refs)
    requires forall k :: 0 <= k < |refs| ==> IsThreadId(refs[k])
    ensures ExtractedIds(raw) == refs
  {
    if refs != [] {
      var pre, cut, rest :| Prints(raw, refs, pre, cut, rest);
      PrintFoldExtractExactly(refs, raw, pre, "References:", cut, rest);
    } else {
      NoNameNoIds(raw);
    }
  }

  /** One hop: the reply carries what its original carried, and then the original's id. */
  lemma ThreadHop(original: Stored, reply: Stored, carried: seq<string>)
    requires forall i :: 0 <= i < |carried| ==> IsThreadId(carried[i])
    requires IsThreadId(original.messageId)
    requires ExtractedIds(original.raw) == carried
    requires IsReplyTo(reply, original)
    ensures ExtractedIds(reply.raw) == carried + [original.messageId]
  {
    BuildThenExtract(reply.raw, ReplyReferences(original));
  }

  /** All ids in play are usable. */
  predicate UsableIds(roots: seq<string>, thread: seq<Stored>) {
    && (forall i :: 0 <= i < |roots| ==> IsThreadId(roots[i]))
    && (forall i :: 0 <= i < |thread| ==> IsThreadId(thread[i].messageId))
  }

  ghost predicate IsThread(roots: seq<string>, thread: seq<Stored>) {
    && thread != [] && UsableIds(roots, thread)
    && BuiltWith(thread[0].raw, roots)
    && (forall i :: 0 < i < |thread| ==> IsReplyTo(thread[i], thread[i - 1]))
  }

  /** The ids that message number `k` should carry. */
  function Ancestors(roots: seq<string>, thread: seq<Stored>, k: nat): seq<string>
    requires k <= |thread|
  {
    roots + Ids(thread[..k])
  }

  lemma AncestorsGrow(roots: seq<string>, thread: seq<Stored>, k: nat)
    requires k < |thread|
    ensures Ancestors(roots, thread, k + 1) == Ancestors(roots, thread, k) + [thread[k].messageId]
    ensures Ancestors(roots, thread, 0) == roots && |Ancestors(roots, thread, k)| == |roots| + k
  {
  }

  lemma AncestorsAreUsable(roots: seq<string>, thread: seq<Stored>, k: nat)
    requires k <= |thread| && UsableIds(roots, thread)
    ensures forall i :: 0 <= i < |Ancestors(roots, thread, k)| ==> IsThreadId(Ancestors(roots, thread, k)[i])
  {
    var ids := Ancestors(roots, thread, k);
    forall i | 0 <= i < |ids|
      ensures IsThreadId(ids[i])
    {
      if i >= |roots| {
        assert ids[i] == thread[i - |roots|].messageId;
      }
    }
  }

  /**
   Section 3.6.4 of RFC 5322 over a chain of any length: if the first message carries the
   references `roots` and each later one answers the one before it, then every message
   carries exactly `roots` followed by the ids of all its ancestors, oldest first.
   */
  lemma {:induction false} ThreadChain(roots: seq<string>, thread: seq<Stored>, k: nat)
    requires IsThread(roots, thread) && k < |thread|
    ensures ExtractedIds(thread[k].raw) == roots + Ids(thread[..k])
  {
    assert Ancestors(roots, thread, k) == roots + Ids(thread[..k]);
    if k == 0 {
      FirstCarriesRoots(roots, thread);
    } else {
      ThreadChain(roots, thread, k - 1);
      NextCarriesOneMore(roots, thread, k - 1);
    }
  }

  // ---------------------------------------------------------------------------
  // Chains under arbitrary folding
  // ---------------------------------------------------------------------------

  /** The header may be folded anywhere the syntax allows. */
  ghost predicate FoldedWith(raw: string, refs: seq<string>) {
    if refs == [] then forall i :: !NameAt(raw, i)
    else exists pre, cut, rest :: HasReferences(raw, pre, "References:", " " + Join(refs), cut, rest)
  }

  predicate SpacelessIds(roots: seq<string>, thread: seq<Stored>) {
    && (forall i :: 0 <= i < |roots| ==> NoSpaces(roots[i]))
    && (forall i :: 0 <= i < |thread| ==> NoSpaces(thread[i].messageId))
  }

  ghost predicate IsFoldedThread(roots: seq<string>, thread: seq<Stored>) {
    && thread != [] && UsableIds(roots, thread) && SpacelessIds(roots, thread)
    && FoldedWith(thread[0].raw, roots)
    && (forall i :: 0 < i < |thread| ==> FoldedWith(thread[i].raw, ReplyReferences(thread[i - 1])))
  }

  lemma FoldThenExtract(raw: string, refs: seq<string>)
    requires FoldedWith(raw, refs)
    requires forall k :: 0 <= k < |refs| ==> IsThreadId(refs[k]) && NoSpaces(refs[k])
    ensures ExtractedIds(raw) == refs
  {
    if refs != [] {
      var pre, cut, rest :| HasReferences(raw, pre, "References:", " " + Join(refs), cut, rest);
      EveryFoldPrints(raw, refs, pre, cut, rest);
    }
    BuildThenExtract(raw, refs);
  }

  lemma AncestorsAreSpaceless(roots: seq<string>, thread: seq<Stored>, k: nat)
    requires k <= |thread| && SpacelessIds(roots, thread)
    ensures forall i :: 0 <= i < |Ancestors(roots, thread, k)| ==> NoSpaces(Ancestors(roots, thread, k)[i])
  {
    var ids := Ancestors(roots, thread, k);
    forall i | 0 <= i < |ids|
      ensures NoSpaces(ids[i])
    {
      if i >= |roots| {
        assert ids[i] == thread[i - |roots|].messageId;
      }
    }
  }

  /**
   The same over a chain of any length in which every header is folded wherever the syntax
   allows: for ids without white space no folding at any hop loses an ancestor.
   */
  lemma {:induction false} FoldedThreadChain(roots: seq<string>, thread: seq<Stored>, k: nat)
    requires IsFoldedThread(roots, thread) && k < |thread|
    ensures ExtractedIds(thread[k].raw) == roots + Ids(thread[..k])
  {
    assert Ancestors(roots, thread, k) == roots + Ids(thread[..k]);
    AncestorsAreUsable(roots, thread, k);
    AncestorsAreSpaceless(roots, thread, k);
    if k == 0 {
      AncestorsGrow(roots, thread, 0);
    } else {
      FoldedThreadChain(roots, thread, k - 1);
      assert Ancestors(roots, thread, k - 1) == roots + Ids(thread[..k - 1]);
      AncestorsGrow(roots, thread, k - 1);
      assert ReplyReferences(thread[k - 1]) == Ancestors(roots, thread, k);
    }
    FoldThenExtract(thread[k].raw, Ancestors(roots, thread, k));
  }

  lemma FirstCarriesRoots(roots: seq<string>, thread: seq<Stored>)
    requires IsThread(roots, thread)
    ensures ExtractedIds(thread[0].raw) == Ancestors(roots, thread, 0)
  {
    BuildThenExtract(thread[0].raw, roots);
    AncestorsGrow(roots, thread, 0);
  }

  lemma NextCarriesOneMore(roots: seq<string>, thread: seq<Stored>, k: nat)
    requires IsThread(roots, thread) && k + 1 < |thread|
    requires ExtractedIds(thread[k].raw) == Ancestors(roots, thread, k)
    ensures ExtractedIds(thread[k + 1].raw) == Ancestors(roots, thread, k + 1)
  {
    AncestorsAreUsable(roots, thread, k);
    AncestorsGrow(roots, thread, k);
    ThreadHop(thread[k], thread[k + 1], Ancestors(roots, thread, k));
  }

  /** No id that a reply in such a chain carries is refused by the composer's checks. */
  lemma ThreadIsAccepted(roots: seq<string>, thread: seq<Stored>, k: nat)
    requires IsThread(roots, thread) && k < |thread|
    ensures forall i :: 0 <= i < |ReplyReferences(thread[k])| ==> IsValidMessageID(ReplyReferences(thread[k])[i])
    ensures |ReplyReferences(thread[k])| == |roots| + k + 1
  {
    ThreadChain(roots, thread, k);
    AncestorsGrow(roots, thread, k);
    AncestorsAreUsable(roots, thread, k + 1);
    assert ReplyReferences(thread[k]) == Ancestors(roots, thread, k + 1);
  }
}
