/**
 The Message-ID scanner of the reply path (internal/api/message_handler.go) and its
 inverse, the space-separated printer of internal/composer/composer.go.

 Strings are sequences of ASCII characters, so one `char` is one byte.
 */
module MessageIds {
  import opened Common

  /** One well-formed id token: angle brackets around a text without brackets. */
  predicate IsToken(id: string) {
    && 2 <= |id|
    && id[0] == '<'
    && id[|id| - 1] == '>'
    && NoBrackets(id[1..|id| - 1])
  }

  predicate NoBrackets(s: string) {
    forall i :: 0 <= i < |s| ==> s[i] != '<' && s[i] != '>'
  }

  /** The scanner as a function: `open` is the text since the last unmatched '<'. */
  function ParseFrom(open: Option<string>, s: string): seq<string>
    decreases |s|
  {
    if s == "" then []
    else if s[0] == '<' then ParseFrom(Some("<"), s[1..])
    else if s[0] == '>' then
      (if open.Some? then [open.value + ">"] else []) + ParseFrom(None, s[1..])
    else ParseFrom(Extend(open, s[..1]), s[1..])
  }

  function Extend(open: Option<string>, t: string): Option<string> {
    if open.Some? then Some(open.value + t) else None
  }

  function ParseIds(s: string): seq<string> {
    ParseFrom(None, s)
  }

  /** parseMessageIDs: one left-to-right pass with the index of the last '<'. */
  method ParseMessageIDs(s: string) returns (ids: seq<string>)
    ensures ids == ParseIds(s)
  {
    ids := [];
    var start := -1;
    for i := 0 to |s|
      invariant -1 <= start < i
      invariant ids + ParseFrom(if start >= 0 then Some(s[start..i]) else None, s[i..]) == ParseIds(s)
    {
      assert s[i..][1..] == s[i + 1..] && s[i..][..1] == [s[i]];
      if s[i] == '<' {
        start := i;
        assert s[i..i + 1] == "<";
      } else if s[i] == '>' && start >= 0 {
        assert s[start..i] + ">" == s[start..i + 1];
        ids := ids + [s[start..i + 1]];
        start := -1;
      } else if start >= 0 {
        assert s[start..i] + [s[i]] == s[start..i + 1];
      }
    }
  }

  /** The scanner state after reading `s`. */
  function OpenAfter(open: Option<string>, s: string): Option<string>
    decreases |s|
  {
    if s == "" then open
    else if s[0] == '<' then OpenAfter(Some("<"), s[1..])
    else if s[0] == '>' then OpenAfter(None, s[1..])
    else OpenAfter(Extend(open, s[..1]), s[1..])
  }

  lemma {:induction false} ParseConcat(open: Option<string>, a: string, b: string)
    ensures ParseFrom(open, a + b) == ParseFrom(open, a) + ParseFrom(OpenAfter(open, a), b)
    ensures OpenAfter(open, a + b) == OpenAfter(OpenAfter(open, a), b)
    decreases |a|
  {
    if a == "" {
      assert a + b == b;
    } else {
      assert (a + b)[1..] == a[1..] + b && (a + b)[..1] == a[..1];
      var next := if a[0] == '<' then Some("<") else if a[0] == '>' then None else Extend(open, a[..1]);
      ParseConcat(next, a[1..], b);
    }
  }

  /** Text without brackets yields no id and only lengthens an open one. */
  lemma {:induction false} ParsePlain(open: Option<string>, t: string)
    requires NoBrackets(t)
    ensures ParseFrom(open, t) == []
    ensures OpenAfter(open, t) == Extend(open, t)
    decreases |t|
  {
    if t != "" {
      ParsePlain(Extend(open, t[..1]), t[1..]);
      if open.Some? {
        assert open.value + t[..1] + t[1..] == open.value + t;
      }
    } else if open.Some? {
      assert open.value + t == open.value;
    }
  }

  /** Whatever was open before it, a token is read as itself and closes the scanner. */
  lemma ParseToken(open: Option<string>, id: string)
    requires IsToken(id)
    ensures ParseFrom(open, id) == [id]
    ensures OpenAfter(open, id) == None
  {
    var inner := id[1..|id| - 1];
    var tail := inner + ">";
    assert id == "<" + tail;
    assert id[1..] == tail;
    ParsePlain(Some("<"), inner);
    ParseConcat(Some("<"), inner, ">");
    assert ">"[1..] == "";
    assert "<" + inner + ">" == id;
  }

  // ---------------------------------------------------------------------------
  // What is parsed
  // ---------------------------------------------------------------------------

  predicate IsBracket(c: char) {
    c == '<' || c == '>'
  }

  /** Positions i < j hold a '<' and a '>' with no bracket between them. */
  predicate InnermostPair(s: string, i: nat, j: nat) {
    i < j < |s| && s[i] == '<' && s[j] == '>' && forall k :: i < k < j ==> !IsBracket(s[k])
  }

  /** The open text `o` is the end of `p` from its last bracket on, if that is a '<'. */
  ghost predicate DescribesOpen(p: string, o: Option<string>) {
    if o.Some?
    then
      && 1 <= |o.value| <= |p|
      && o.value == p[|p| - |o.value|..]
      && p[|p| - |o.value|] == '<'
      && forall k :: |p| - |o.value| < k < |p| ==> !IsBracket(p[k])
    else
      forall i :: 0 <= i < |p| && p[i] == '<' ==> exists k :: i < k < |p| && IsBracket(p[k])
  }

  lemma {:induction false} OpenAfterMeaning(p: string)
    ensures DescribesOpen(p, OpenAfter(None, p))
    decreases |p|
  {
    if p != "" {
      var q, c := p[..|p| - 1], p[|p| - 1];
      OpenAfterMeaning(q);
      assert p == q + [c];
      OpenSnoc(q, c);
      DescribesSnoc(q, c, OpenAfter(None, q));
    }
  }

  function OpenNext(o: Option<string>, c: char): Option<string> {
    if c == '<' then Some("<") else if c == '>' then None else Extend(o, [c])
  }

  lemma OpenSnoc(q: string, c: char)
    ensures OpenAfter(None, q + [c]) == OpenNext(OpenAfter(None, q), c)
  {
    ParseConcat(None, q, [c]);
    assert [c][1..] == "" && [c][..1] == [c];
  }

  lemma DescribesSnoc(q: string, c: char, o: Option<string>)
    requires DescribesOpen(q, o)
    ensures DescribesOpen(q + [c], OpenNext(o, c))
  {
    var p := q + [c];
    if c == '>' {
      assert IsBracket(p[|p| - 1]);
    } else if c != '<' && o.None? {
      forall i | 0 <= i < |p| && p[i] == '<'
        ensures exists k :: i < k < |p| && IsBracket(p[k])
      {
        assert q[i] == '<';
        var k :| i < k < |q| && IsBracket(q[k]);
        assert IsBracket(p[k]);
      }
    }
  }

  /** The pairs `spans` are exactly the innermost bracket pairs of `s`, in order and disjoint. */
  ghost predicate AreInnermostPairs(s: string, spans: seq<(nat, nat)>) {
    && (forall k :: 0 <= k < |spans| ==> InnermostPair(s, spans[k].0, spans[k].1))
    && (forall k, l :: 0 <= k < l < |spans| ==> spans[k].1 < spans[l].0)
    && (forall i: nat, j: nat :: InnermostPair(s, i, j) ==> (i, j) in spans)
  }

  /** The ids are the texts of the spans. */
  ghost predicate AreTexts(s: string, spans: seq<(nat, nat)>, ids: seq<string>) {
    && |ids| == |spans|
    && forall k :: 0 <= k < |spans| ==> spans[k].0 <= spans[k].1 < |s| && ids[k] == s[spans[k].0..spans[k].1 + 1]
  }

  /**
   For every text, the scanner returns exactly the innermost "<…>" substrings, each
   once, left to right and without overlap.
   */
  lemma {:induction false} ParsedAreInnermostPairs(s: string) returns (spans: seq<(nat, nat)>)
    ensures AreInnermostPairs(s, spans)
    ensures AreTexts(s, spans, ParseIds(s))
    decreases |s|
  {
    if s == "" {
      spans := [];
    } else {
      var q, c := s[..|s| - 1], s[|s| - 1];
      var before := ParsedAreInnermostPairs(q);
      assert s == q + [c];
      ParseSnoc(q, c);
      OpenAfterMeaning(q);
      var o := OpenAfter(None, q);
      TextsStay(q, c, before, ParseIds(q));
      if c == '>' && o.Some? {
        var at := |q| - |o.value|;
        NewPair(q, before, at);
        NewText(q, before, ParseIds(q), at, o.value);
        spans := before + [(at, |q|)];
      } else {
        NoNewPair(q, c, o, before);
        spans := before;
      }
    }
  }

  lemma TextsStay(q: string, c: char, spans: seq<(nat, nat)>, ids: seq<string>)
    requires AreTexts(q, spans, ids)
    ensures AreTexts(q + [c], spans, ids)
  {
  }

  lemma NewText(q: string, spans: seq<(nat, nat)>, ids: seq<string>, at: nat, open: string)
    requires AreTexts(q + ">", spans, ids)
    requires at < |q| && open == q[at..]
    ensures AreTexts(q + ">", spans + [(at, |q|)], ids + [open + ">"])
  {
    assert (q + ">")[at..|q| + 1] == open + ">";
  }

  lemma ParseSnoc(q: string, c: char)
    ensures var o := OpenAfter(None, q);
            ParseIds(q + [c]) == ParseIds(q) + if c == '>' && o.Some? then [o.value + ">"] else []
  {
    ParseConcat(None, q, [c]);
    assert [c][1..] == "";
  }

  lemma PairInPrefix(q: string, c: char, i: nat, j: nat)
    requires j < |q| && InnermostPair(q + [c], i, j)
    ensures InnermostPair(q, i, j)
  {
    forall k | i < k < j
      ensures !IsBracket(q[k])
    {
      assert !IsBracket((q + [c])[k]);
    }
  }

  lemma OldPairsStay(q: string, c: char, spans: seq<(nat, nat)>)
    requires AreInnermostPairs(q, spans)
    ensures forall k :: 0 <= k < |spans| ==> InnermostPair(q + [c], spans[k].0, spans[k].1)
  {
  }

  lemma NewPair(q: string, spans: seq<(nat, nat)>, at: nat)
    requires AreInnermostPairs(q, spans)
    requires at < |q| && q[at] == '<' && forall k :: at < k < |q| ==> !IsBracket(q[k])
    ensures AreInnermostPairs(q + ">", spans + [(at, |q|)])
  {
    var s, all := q + ">", spans + [(at, |q|)];
    OldPairsStay(q, '>', spans);
    forall k | 0 <= k < |spans|
      ensures spans[k].1 < at
    {
      assert IsBracket(q[spans[k].1]);
    }
    forall i: nat, j: nat | InnermostPair(s, i, j)
      ensures (i, j) in all
    {
      if j < |q| {
        PairInPrefix(q, '>', i, j);
      } else {
        assert IsBracket(s[i]) && IsBracket(s[at]);
        assert i == at;
        assert all[|spans|] == (i, j);
      }
    }
  }

  lemma NoNewPair(q: string, c: char, o: Option<string>, spans: seq<(nat, nat)>)
    requires AreInnermostPairs(q, spans) && DescribesOpen(q, o)
    requires c != '>' || o.None?
    ensures AreInnermostPairs(q + [c], spans)
  {
    var s := q + [c];
    OldPairsStay(q, c, spans);
    forall i: nat | i < |q|
      ensures !InnermostPair(s, i, |q|)
    {
      if q[i] == '<' && o.None? {
        var k :| i < k < |q| && IsBracket(q[k]);
        assert IsBracket(s[k]);
      }
    }
    forall i: nat, j: nat | j < |q| && InnermostPair(s, i, j)
      ensures InnermostPair(q, i, j)
    {
      PairInPrefix(q, c, i, j);
    }
  }

  /** Every parsed id is a bracket-free token. */
  lemma ParsedAreTokens(s: string)
    ensures forall k :: 0 <= k < |ParseIds(s)| ==> IsToken(ParseIds(s)[k])
  {
    var spans := ParsedAreInnermostPairs(s);
    forall k | 0 <= k < |ParseIds(s)|
      ensures IsToken(ParseIds(s)[k])
    {
      var (i, j) := spans[k];
      assert InnermostPair(s, i, j);
      var inner := s[i..j + 1][1..j - i];
      forall k | 0 <= k < |inner|
        ensures !IsBracket(inner[k])
      {
        assert inner[k] == s[i + 1 + k];
      }
    }
  }

  // ---------------------------------------------------------------------------
  // Printing and reading back
  // ---------------------------------------------------------------------------

  /** strings.Join(ids, " "). */
  function Join(ids: seq<string>): string {
    if |ids| == 0 then ""
    else if |ids| == 1 then ids[0]
    else ids[0] + " " + Join(ids[1..])
  }

  /** The printed form: the ids in order, one space between any two of them. */
  lemma {:induction false} JoinSnoc(ids: seq<string>, id: string)
    ensures Join([id]) == id && Join([]) == ""
    ensures ids != [] ==> Join(ids + [id]) == Join(ids) + " " + id
    decreases |ids|
  {
    if |ids| > 1 {
      assert (ids + [id])[1..] == ids[1..] + [id];
      JoinSnoc(ids[1..], id);
    } else if |ids| == 1 {
      assert (ids + [id])[1..] == [id];
    }
  }

  /** Any list of tokens is read back from its printed form. */
  lemma {:induction false} ParseJoin(ids: seq<string>)
    requires forall k :: 0 <= k < |ids| ==> IsToken(ids[k])
    ensures ParseIds(Join(ids)) == ids
    ensures OpenAfter(None, Join(ids)) == None
    decreases |ids|
  {
    if |ids| == 1 {
      ParseToken(None, ids[0]);
    } else if |ids| > 1 {
      ParseToken(None, ids[0]);
      ParsePlain(None, " ");
      ParseConcat(None, ids[0], " ");
      ParseJoin(ids[1..]);
      ParseConcat(None, ids[0] + " ", Join(ids[1..]));
      assert ids == [ids[0]] + ids[1..];
    }
  }

  /** Reading, printing and reading again changes nothing, for every text. */
  lemma ParseIsStable(s: string)
    ensures ParseIds(Join(ParseIds(s))) == ParseIds(s)
  {
    ParsedAreTokens(s);
    ParseJoin(ParseIds(s));
  }
}
