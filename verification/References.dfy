/**
 Finding and reading the References header (internal/api/message_handler.go,
 extractReferences), for ASCII text.
 */
module References {
  import opened Common
  import opened MessageIds

  const REFERENCES := "references:"

  // ---------------------------------------------------------------------------
  // strings.ToLower and strings.Index
  // ---------------------------------------------------------------------------

  function LowerChar(c: char): char {
    if 'A' <= c <= 'Z' then c - 'A' + 'a' else c
  }

  function Lower(s: string): string {
    seq(|s|, i requires 0 <= i < |s| => LowerChar(s[i]))
  }

  predicate OccursAt(s: string, pattern: string, i: int) {
    0 <= i <= |s| - |pattern| && s[i..i + |pattern|] == pattern
  }

  /** strings.Index: the first occurrence, or -1. */
  function IndexFrom(s: string, pattern: string, from: nat): (r: int)
    requires from <= |s|
    ensures -1 <= r
    ensures r == -1 ==> forall i :: from <= i ==> !OccursAt(s, pattern, i)
    ensures r >= 0 ==> from <= r && OccursAt(s, pattern, r) && forall i :: from <= i < r ==> !OccursAt(s, pattern, i)
    decreases |s| - from
  {
    if OccursAt(s, pattern, from) then from
    else if from == |s| then -1
    else IndexFrom(s, pattern, from + 1)
  }

  function Index(s: string, pattern: string): int {
    IndexFrom(s, pattern, 0)
  }

  // ---------------------------------------------------------------------------
  // The header's name, in any case
  // ---------------------------------------------------------------------------

  predicate IsHeaderName(name: string) {
    |name| == 11 && forall i :: 0 <= i < 11 ==> name[i] == "references:"[i] || name[i] == "REFERENCES:"[i]
  }

  predicate NameAt(s: string, i: int) {
    0 <= i <= |s| - 11 && IsHeaderName(s[i..i + 11])
  }

  /** Where "references:" stands in the text, each letter in either case. */
  lemma NameAtMeaning(s: string, i: int)
    ensures NameAt(s, i) <==>
              && 0 <= i <= |s| - 11
              && forall k :: 0 <= k < 11 ==> s[i + k] == "references:"[k] || s[i + k] == "REFERENCES:"[k]
  {
    if 0 <= i <= |s| - 11 {
      var name := s[i..i + 11];
      assert forall k :: 0 <= k < 11 ==> name[k] == s[i + k];
    }
  }

  /** The name as the composer prints it. */
  const COMPOSED_NAME := "References:"

  lemma ComposedNameIsName()
    ensures COMPOSED_NAME == "References:" && IsHeaderName("References:")
  {
  }

  lemma LowerIsName(name: string)
    requires |name| == 11
    ensures Lower(name) == REFERENCES <==> IsHeaderName(name)
  {
    if Lower(name) == REFERENCES {
      forall i | 0 <= i < 11
        ensures name[i] == "references:"[i] || name[i] == "REFERENCES:"[i]
      {
        assert LowerChar(name[i]) == Lower(name)[i] == REFERENCES[i];
        UpperOf(name[i], i);
      }
    } else if IsHeaderName(name) {
      forall i | 0 <= i < 11
        ensures Lower(name)[i] == REFERENCES[i]
      {
        UpperOf(name[i], i);
      }
    }
  }

  lemma UpperOf(c: char, i: nat)
    requires i < 11
    ensures LowerChar(c) == "references:"[i] <==> c == "references:"[i] || c == "REFERENCES:"[i]
  {
  }

  lemma OccursIsName(s: string, i: int)
    ensures OccursAt(Lower(s), REFERENCES, i) <==> NameAt(s, i)
  {
    if 0 <= i <= |s| - 11 {
      assert Lower(s)[i..i + 11] == Lower(s[i..i + 11]);
      LowerIsName(s[i..i + 11]);
    }
  }

  /** strings.Index on the lowered text finds the first name. */
  lemma IndexIsFirstName(s: string, p: nat)
    ensures Index(Lower(s), REFERENCES) == p <==> NameAt(s, p) && forall i :: 0 <= i < p ==> !NameAt(s, i)
    ensures Index(Lower(s), REFERENCES) == -1 <==> forall i :: !NameAt(s, i)
  {
    forall i
      ensures OccursAt(Lower(s), REFERENCES, i) <==> NameAt(s, i)
    {
      OccursIsName(s, i);
    }
  }

  // ---------------------------------------------------------------------------
  // The two scanning loops, as functions of the text that is left
  // ---------------------------------------------------------------------------

  predicate IsWsp(c: char) {
    c == ' ' || c == '\t'
  }

  predicate IsLineEnd(c: char) {
    c == '\r' || c == '\n'
  }

  function WspLength(t: string): (n: nat)
    ensures n <= |t|
  {
    if t != "" && IsWsp(t[0]) then 1 + WspLength(t[1..]) else 0
  }

  /** How many characters a line end takes: a '\n' after either character is part of it. */
  function LineEndLength(t: string): (n: nat)
    requires t != ""
    ensures 1 <= n <= |t|
  {
    if 1 < |t| && t[1] == '\n' then 2 else 1
  }

  /** Length of the header value at the start of `t`; a line end followed by WSP continues it. */
  function ValueLength(t: string): (n: nat)
    ensures n <= |t|
    decreases |t|
  {
    if t == "" then 0
    else if IsLineEnd(t[0]) then
      var n := LineEndLength(t);
      if n < |t| && IsWsp(t[n]) then n + ValueLength(t[n..]) else 0
    else 1 + ValueLength(t[1..])
  }

  /** The text read as the header value, given everything after the colon. */
  function HeaderValue(afterColon: string): string {
    var t := afterColon[WspLength(afterColon)..];
    t[..ValueLength(t)]
  }

  function ExtractedIds(raw: string): seq<string> {
    var at := Index(Lower(raw), REFERENCES);
    if at == -1 then [] else ParseIds(HeaderValue(raw[at + |REFERENCES|..]))
  }

  method ExtractReferences(raw: string) returns (ids: seq<string>)
    ensures ids == ExtractedIds(raw)
  {
    var rawLower := Lower(raw);
    var idx := Index(rawLower, REFERENCES);
    if idx == -1 {
      return [];
    }
    var start := idx + |REFERENCES|;
    var headerValue := ReadHeaderValue(raw, start);
    ids := ParseMessageIDs(headerValue);
  }

  /** The two loops of extractReferences, from behind the colon. */
  method ReadHeaderValue(raw: string, colon: nat) returns (value: string)
    requires colon <= |raw|
    ensures value == HeaderValue(raw[colon..])
  {
    var start := SkipWsp(raw, colon);
    var end := FindValueEnd(raw, start);
    HeaderValueAt(raw, colon, start, end);
    value := raw[start..end];
  }

  /** The first loop of extractReferences: white space after the colon is jumped over. */
  method SkipWsp(raw: string, colon: nat) returns (start: nat)
    requires colon <= |raw|
    ensures colon <= start <= |raw| && start - colon == WspLength(raw[colon..])
    ensures forall p :: colon <= p < start ==> raw[p] == ' ' || raw[p] == '\t'
    ensures start < |raw| ==> raw[start] != ' ' && raw[start] != '\t'
  {
    start := colon;
    while start < |raw| && IsWsp(raw[start])
      invariant colon <= start <= |raw|
      invariant start - colon + WspLength(raw[start..]) == WspLength(raw[colon..])
      invariant forall p :: colon <= p < start ==> IsWsp(raw[p])
    {
      assert raw[start..][1..] == raw[start + 1..];
      start := start + 1;
    }
  }

  /** The second loop of extractReferences: a line end followed by white space is jumped over. */
  method FindValueEnd(raw: string, start: nat) returns (end: nat)
    requires start <= |raw|
    ensures start <= end <= |raw| && end - start == ValueLength(raw[start..])
    ensures end < |raw| ==> ValueStops(raw, end)
    ensures forall p :: start <= p < end ==> !ValueStops(raw, p)
  {
    end := start;
    while end < |raw|
      invariant start <= end <= |raw|
      invariant forall p :: start <= p < end ==> !ValueStops(raw, p)
      decreases |raw| - end
    {
      if IsLineEnd(raw[end]) {
        var next := end + 1;
        if next < |raw| && raw[next] == '\n' {
          next := next + 1;
        }
        if next < |raw| && IsWsp(raw[next]) {
          NoStopBefore(raw, end);
          end := next;
          continue;
        }
        break;
      }
      end := end + 1;
    }
    LengthToFirstStop(raw, start, end);
  }

  lemma {:induction false} LengthToFirstStop(raw: string, start: nat, end: nat)
    requires start <= end <= |raw|
    requires end < |raw| ==> ValueStops(raw, end)
    requires forall p :: start <= p < end ==> !ValueStops(raw, p)
    ensures end - start == ValueLength(raw[start..])
    decreases |raw| - start
  {
    if start < end {
      ValueLengthStep(raw, start);
      var next := if IsLineEnd(raw[start]) then NextLine(raw, start) else start + 1;
      if IsLineEnd(raw[start]) {
        assert !ValueStops(raw, start);
        NoStopBefore(raw, start);
      }
      LengthToFirstStop(raw, next, end);
    } else if end < |raw| {
      ValueLengthStep(raw, end);
    }
  }

  lemma NoStopBefore(raw: string, end: nat)
    requires end < |raw| && IsLineEnd(raw[end]) && NextLine(raw, end) < |raw| && IsWsp(raw[NextLine(raw, end)])
    ensures forall p :: end <= p < NextLine(raw, end) ==> !ValueStops(raw, p)
  {
  }

  /** A line end that no white space follows. */
  predicate ValueStops(raw: string, p: nat)
    requires p < |raw|
  {
    IsLineEnd(raw[p]) && !(NextLine(raw, p) < |raw| && IsWsp(raw[NextLine(raw, p)]))
  }

  /** CR, LF or CRLF, with neither a space nor a tab after it. */
  lemma ValueStopsMeaning(raw: string, p: nat)
    requires p < |raw|
    ensures ValueStops(raw, p) <==>
              && (raw[p] == '\r' || raw[p] == '\n')
              && var next := if p + 1 < |raw| && raw[p + 1] == '\n' then p + 2 else p + 1;
                 next < |raw| ==> raw[next] != ' ' && raw[next] != '\t'
  {
  }

  function NextLine(raw: string, end: nat): nat {
    if end + 1 < |raw| && raw[end + 1] == '\n' then end + 2 else end + 1
  }

  lemma ValueLengthStep(raw: string, end: nat)
    requires end < |raw|
    ensures ValueLength(raw[end..]) ==
            if IsLineEnd(raw[end]) then
              var next := NextLine(raw, end);
              if next < |raw| && IsWsp(raw[next]) then next - end + ValueLength(raw[next..]) else 0
            else 1 + ValueLength(raw[end + 1..])
  {
    var t := raw[end..];
    var n := LineEndLength(t);
    assert t[1..] == raw[end + 1..] && t[n..] == raw[end + n..];
  }

  lemma SliceOfSlices(raw: string, colon: nat, start: nat, end: nat)
    requires colon <= start <= end <= |raw|
    ensures raw[colon..][start - colon..] == raw[start..]
    ensures raw[start..][..end - start] == raw[start..end]
  {
  }

  lemma HeaderValueAt(raw: string, colon: nat, start: nat, end: nat)
    requires colon <= start <= end <= |raw|
    requires start - colon == WspLength(raw[colon..])
    requires end - start == ValueLength(raw[start..])
    ensures raw[start..end] == HeaderValue(raw[colon..])
  {
    SliceOfSlices(raw, colon, start, end);
  }

  // ---------------------------------------------------------------------------
  // Folding (section 2.2.3 of RFC 5322)
  // ---------------------------------------------------------------------------

  const CRLF := "\r\n"

  predicate OneLine(v: string) {
    forall i :: 0 <= i < |v| ==> v[i] != '\r' && v[i] != '\n'
  }

  /** `cut[i]` asks for a line break before `v[i]`, which must be white space. */
  predicate LegalFolding(v: string, cut: seq<bool>) {
    |cut| == |v| && forall i :: 0 <= i < |v| && cut[i] ==> v[i] == ' ' || v[i] == '\t'
  }

  function Fold(v: string, cut: seq<bool>): string
    requires |cut| == |v|
  {
    if v == "" then ""
    else (if cut[0] then CRLF else "") + v[..1] + Fold(v[1..], cut[1..])
  }

  /** The first bracket of `s` is a '>'. */
  predicate ClosesNext(s: string) {
    s != "" && (s[0] == '>' || (s[0] != '<' && ClosesNext(s[1..])))
  }

  /** Some break falls between the brackets of an id the scanner returns. */
  predicate CutsAnId(open: Option<string>, v: string, cut: seq<bool>)
    requires |cut| == |v|
    decreases |v|
  {
    v != "" && (
      || (cut[0] && open.Some? && ClosesNext(v))
      || CutsAnId(OpenAfter(open, v[..1]), v[1..], cut[1..]))
  }

  /** Text after a line break that starts no continuation, or none. */
  predicate StartsNoContinuation(rest: string) {
    rest == "" || (rest[0] != ' ' && rest[0] != '\t')
  }

  /** A line break that is not followed by white space ends the value. */
  lemma ValueEnds(rest: string)
    requires StartsNoContinuation(rest)
    ensures ValueLength(CRLF + rest) == 0
  {
    var tail := CRLF + rest;
    assert LineEndLength(tail) == 2 && tail[2..] == rest;
  }

  /** A line break that is followed by white space belongs to the value. */
  lemma ValueGoesOn(line: string)
    requires line != "" && IsWsp(line[0])
    ensures ValueLength(CRLF + line) == 2 + ValueLength(line)
  {
    var tail := CRLF + line;
    assert LineEndLength(tail) == 2 && tail[2..] == line;
  }

  lemma ValueChar(c: string, more: string)
    requires |c| == 1 && !IsLineEnd(c[0])
    ensures ValueLength(c + more) == 1 + ValueLength(more)
  {
    assert (c + more)[1..] == more;
  }

  lemma Regroup(a: string, b: string, c: string, d: string)
    ensures a + b + c + d == a + (b + (c + d))
  {
  }

  lemma FoldStep(v: string, cut: seq<bool>, tail: string)
    requires v != "" && |cut| == |v|
    ensures Fold(v, cut) + tail == (if cut[0] then CRLF else "") + (v[..1] + (Fold(v[1..], cut[1..]) + tail))
  {
    Regroup(if cut[0] then CRLF else "", v[..1], Fold(v[1..], cut[1..]), tail);
  }

  /** The scan stops exactly at the end of the folded value, whatever header or body follows. */
  lemma {:induction false} ValueLengthOfFolded(v: string, cut: seq<bool>, tail: string)
    requires OneLine(v) && LegalFolding(v, cut)
    requires ValueLength(tail) == 0
    ensures ValueLength(Fold(v, cut) + tail) == |Fold(v, cut)|
    decreases |v|
  {
    if v == "" {
      assert Fold(v, cut) + tail == tail;
    } else {
      ValueLengthOfFolded(v[1..], cut[1..], tail);
      var more := Fold(v[1..], cut[1..]) + tail;
      ValueChar(v[..1], more);
      FoldStep(v, cut, tail);
      if cut[0] {
        ValueGoesOn(v[..1] + more);
      } else {
        assert "" + (v[..1] + more) == v[..1] + more;
      }
    }
  }

  /** White space before the value never changes what is parsed from it. */
  lemma {:induction false} LeadingWspIsIgnored(t: string)
    ensures ParseIds(t[WspLength(t)..]) == ParseIds(t)
    decreases |t|
  {
    if t != "" && IsWsp(t[0]) {
      LeadingWspIsIgnored(t[1..]);
      assert t[1..][WspLength(t[1..])..] == t[WspLength(t)..];
    }
  }

  lemma {:induction false} ValueLengthPastWsp(t: string)
    ensures WspLength(t) <= ValueLength(t)
    ensures HeaderValue(t) == t[..ValueLength(t)][WspLength(t)..]
    decreases |t|
  {
    if t != "" && IsWsp(t[0]) {
      ValueLengthPastWsp(t[1..]);
      var n := WspLength(t[1..]);
      assert t[1..][n..] == t[n + 1..];
      assert t[1..][..ValueLength(t[1..])][n..] == t[..ValueLength(t)][n + 1..];
    } else {
      assert t[0..] == t;
    }
  }

  /** Skipping leading white space and stopping at the value's end commute with parsing. */
  lemma HeaderValueIds(t: string)
    ensures ParseIds(HeaderValue(t)) == ParseIds(t[..ValueLength(t)])
  {
    ValueLengthPastWsp(t);
    var value := t[..ValueLength(t)];
    WspPrefix(t, value);
    LeadingWspIsIgnored(value);
  }

  lemma {:induction false} WspPrefix(t: string, p: string)
    requires WspLength(t) <= |p| && p <= t
    ensures WspLength(p) == WspLength(t)
    decreases |t|
  {
    if t != "" && p != "" && IsWsp(t[0]) {
      WspPrefix(t[1..], p[1..]);
    }
  }

  /**
   The parsed ids are the same for the folded and the unfolded value exactly when no
   break falls inside an id.  `o` and `o'` are the scanner's open texts on the two sides.
   */
  lemma {:induction false} FoldedIdsFrom(o: Option<string>, o': Option<string>, v: string, cut: seq<bool>)
    requires LegalFolding(v, cut)
    requires o.Some? == o'.Some?
    requires o.Some? ==> o'.value == o.value || |o'.value| > |o.value|
    ensures |ParseFrom(o', Fold(v, cut))| == |ParseFrom(o, v)|
    ensures ParseFrom(o', Fold(v, cut)) == ParseFrom(o, v)
            <==> (o.Some? && ClosesNext(v) ==> o' == o) && !CutsAnId(o, v, cut)
    decreases |v|, 2
  {
    if v != "" {
      var more := Fold(v[1..], cut[1..]);
      var broken := Break(o', cut[0]);
      BreakStep(o', v, cut);
      BreakDiffers(o, o', cut[0]);
      FoldedStep(o, broken, v, cut, more);
    }
  }

  /** The open text after an optional line break. */
  function Break(o: Option<string>, cut: bool): Option<string> {
    if cut then Extend(o, CRLF) else o
  }

  lemma PlainPrefix(o: Option<string>, t: string, line: string)
    requires NoBrackets(t)
    ensures ParseFrom(o, t + line) == ParseFrom(Extend(o, t), line)
  {
    ParsePlain(o, t);
    ParseConcat(o, t, line);
  }

  lemma FoldFirst(v: string, cut: seq<bool>)
    requires v != "" && |cut| == |v|
    ensures var line := v[..1] + Fold(v[1..], cut[1..]);
            Fold(v, cut) == if cut[0] then CRLF + line else line
  {
    Regroup(CRLF, v[..1], Fold(v[1..], cut[1..]), "");
  }

  lemma BreakStep(o: Option<string>, v: string, cut: seq<bool>)
    requires v != "" && |cut| == |v|
    ensures ParseFrom(o, Fold(v, cut)) == ParseFrom(Break(o, cut[0]), v[..1] + Fold(v[1..], cut[1..]))
  {
    FoldFirst(v, cut);
    if cut[0] {
      PlainPrefix(o, CRLF, v[..1] + Fold(v[1..], cut[1..]));
    }
  }

  /** A break sets the two open texts apart for good. */
  lemma BreakDiffers(o: Option<string>, o': Option<string>, cut: bool)
    requires o.Some? == o'.Some?
    requires o.Some? ==> o'.value == o.value || |o'.value| > |o.value|
    ensures var b := Break(o', cut);
            && b.Some? == o.Some? && (o.Some? ==> b.value == o.value || |b.value| > |o.value|)
            && (b == o <==> o' == o && !(cut && o.Some?))
  {
  }

  lemma OneChar(o: Option<string>, v: string)
    requires v != ""
    ensures OpenAfter(o, v[..1]) == if v[0] == '<' then Some("<") else if v[0] == '>' then None else Extend(o, v[..1])
  {
    assert v[..1][1..] == "" && v[..1][..1] == v[..1];
  }

  /** The step of `FoldedIdsFrom` after the optional line break: both sides read `v[0]`. */
  lemma {:induction false} FoldedStep(o: Option<string>, b: Option<string>, v: string, cut: seq<bool>, more: string)
    requires v != "" && LegalFolding(v, cut)
    requires more == Fold(v[1..], cut[1..])
    requires o.Some? == b.Some?
    requires o.Some? ==> b.value == o.value || |b.value| > |o.value|
    ensures |ParseFrom(b, v[..1] + more)| == |ParseFrom(o, v)|
    ensures ParseFrom(b, v[..1] + more) == ParseFrom(o, v)
            <==> (o.Some? && ClosesNext(v) ==> b == o) && !CutsAnId(OpenAfter(o, v[..1]), v[1..], cut[1..])
    decreases |v|, 1
  {
    var line := v[..1] + more;
    assert line[1..] == more && line[..1] == v[..1];
    OneChar(o, v);
    if v[0] == '<' {
      FoldedIdsFrom(Some("<"), Some("<"), v[1..], cut[1..]);
      assert ParseFrom(b, line) == ParseFrom(Some("<"), more) && !ClosesNext(v);
    } else if v[0] == '>' {
      FoldedCloseStep(o, b, v, cut, more);
    } else {
      FoldedPlainStep(o, b, v, cut, more);
    }
  }

  /** The step for a '>': both sides return their open text, if any. */
  lemma {:induction false} FoldedCloseStep(o: Option<string>, b: Option<string>, v: string, cut: seq<bool>,
                                           more: string)
    requires v != "" && v[0] == '>' && LegalFolding(v, cut)
    requires more == Fold(v[1..], cut[1..])
    requires o.Some? == b.Some?
    ensures |ParseFrom(b, v[..1] + more)| == |ParseFrom(o, v)|
    ensures ParseFrom(b, v[..1] + more) == ParseFrom(o, v)
            <==> (o.Some? && ClosesNext(v) ==> b == o) && !CutsAnId(OpenAfter(o, v[..1]), v[1..], cut[1..])
    decreases |v|, 0
  {
    var line := v[..1] + more;
    assert line[1..] == more && line[0] == '>';
    OneChar(o, v);
    FoldedIdsFrom(None, None, v[1..], cut[1..]);
    var xs, ys := ParseFrom(None, more), ParseFrom(None, v[1..]);
    if o.Some? {
      assert ParseFrom(b, line) == [b.value + ">"] + xs && ParseFrom(o, v) == [o.value + ">"] + ys;
      Append(b.value, o.value, ">");
      SameHead(b.value + ">", o.value + ">", xs, ys);
      assert b == o <==> b.value == o.value;
    } else {
      assert ParseFrom(b, line) == [] + xs == xs && ParseFrom(o, v) == [] + ys == ys;
    }
  }

  /** The step for a character that is not a bracket: it is appended to both open texts. */
  lemma {:induction false} FoldedPlainStep(o: Option<string>, b: Option<string>, v: string, cut: seq<bool>,
                                           more: string)
    requires v != "" && !IsBracket(v[0]) && LegalFolding(v, cut)
    requires more == Fold(v[1..], cut[1..])
    requires o.Some? == b.Some?
    requires o.Some? ==> b.value == o.value || |b.value| > |o.value|
    ensures |ParseFrom(b, v[..1] + more)| == |ParseFrom(o, v)|
    ensures ParseFrom(b, v[..1] + more) == ParseFrom(o, v)
            <==> (o.Some? && ClosesNext(v) ==> b == o) && !CutsAnId(OpenAfter(o, v[..1]), v[1..], cut[1..])
    decreases |v|, 0
  {
    var line := v[..1] + more;
    assert line[1..] == more && line[..1] == v[..1];
    var o1, b1 := Extend(o, v[..1]), Extend(b, v[..1]);
    OneChar(o, v);
    if o.Some? {
      Append(b.value, o.value, v[..1]);
    }
    assert o.Some? ==> (b1 == o1 <==> b == o);
    FoldedIdsFrom(o1, b1, v[1..], cut[1..]);
    assert OpenAfter(o, v[..1]) == o1;
    assert ClosesNext(v) == ClosesNext(v[1..]);
    assert ParseFrom(o, v) == ParseFrom(o1, v[1..]);
    assert ParseFrom(b, line) == ParseFrom(b1, more);
  }

  lemma Append(x: string, y: string, t: string)
    ensures x + t == y + t <==> x == y
  {
    if x + t == y + t {
      assert |x| == |y|;
      assert (x + t)[..|x|] == x && (y + t)[..|y|] == y;
    }
  }

  lemma SameHead(x: string, y: string, xs: seq<string>, ys: seq<string>)
    ensures [x] + xs == [y] + ys <==> x == y && xs == ys
  {
    assert ([x] + xs)[0] == x && ([y] + ys)[0] == y;
    assert ([x] + xs)[1..] == xs && ([y] + ys)[1..] == ys;
  }

  // ---------------------------------------------------------------------------
  // The header as a whole
  // ---------------------------------------------------------------------------

  /**
   `raw` is a message in which the first match of the header name, in any case, starts a
   References header whose value is `v`, folded at `cut` and ended by CRLF.
   */
  predicate HasReferences(raw: string, pre: string, name: string, v: string, cut: seq<bool>, rest: string) {
    && IsHeaderName(name)
    && OneLine(v) && LegalFolding(v, cut)
    && StartsNoContinuation(rest)
    && raw == pre + name + Fold(v, cut) + (CRLF + rest)
    && (forall i :: 0 <= i < |pre| ==> !NameAt(raw, i))
  }

  lemma HeaderIndex(raw: string, pre: string, name: string, v: string, cut: seq<bool>, rest: string)
    requires HasReferences(raw, pre, name, v, cut, rest)
    ensures Index(Lower(raw), REFERENCES) == |pre|
  {
    assert raw[|pre|..|pre| + 11] == name;
    IndexIsFirstName(raw, |pre|);
  }

  /** Without a name anywhere there are no ids. */
  lemma NoNameNoIds(raw: string)
    requires forall i :: !NameAt(raw, i)
    ensures ExtractedIds(raw) == []
  {
    IndexIsFirstName(raw, 0);
  }

  lemma AfterTheColon(raw: string, pre: string, name: string, v: string, cut: seq<bool>, rest: string)
    requires HasReferences(raw, pre, name, v, cut, rest)
    ensures ExtractedIds(raw) == ParseIds(Fold(v, cut))
  {
    var t := Fold(v, cut) + (CRLF + rest);
    HeaderIndex(raw, pre, name, v, cut, rest);
    DropParts(pre, name, Fold(v, cut), CRLF + rest);
    assert raw[|pre| + |REFERENCES|..] == t;
    FoldedValue(v, cut, rest);
    HeaderValueIds(t);
  }

  lemma DropParts(a: string, b: string, c: string, d: string)
    ensures (a + b + c + d)[|a| + |b|..] == c + d
  {
  }

  lemma FoldedValue(v: string, cut: seq<bool>, rest: string)
    requires OneLine(v) && LegalFolding(v, cut) && StartsNoContinuation(rest)
    ensures var t := Fold(v, cut) + (CRLF + rest); t[..ValueLength(t)] == Fold(v, cut)
  {
    ValueEnds(rest);
    ValueLengthOfFolded(v, cut, CRLF + rest);
  }

  /**
   Extraction does not depend on the folding, the case of the name, the other headers or
   the body, exactly when no line break falls inside an id.
   */
  lemma FoldingIsIrrelevant(raw: string, pre: string, name: string, v: string, cut: seq<bool>, rest: string)
    requires HasReferences(raw, pre, name, v, cut, rest)
    ensures ExtractedIds(raw) == ParseIds(v) <==> !CutsAnId(None, v, cut)
  {
    AfterTheColon(raw, pre, name, v, cut, rest);
    FoldedIdsFrom(None, None, v, cut);
  }

  predicate NoSpaces(s: string) {
    forall i :: 0 <= i < |s| ==> s[i] != ' ' && s[i] != '\t'
  }

  /** A printed list of ids without inner white space cannot be cut: every fold is harmless. */
  lemma {:induction false} JoinedIdsAreNotCut(ids: seq<string>, cut: seq<bool>)
    requires forall k :: 0 <= k < |ids| ==> IsToken(ids[k]) && NoSpaces(ids[k])
    requires LegalFolding(Join(ids), cut)
    ensures !CutsAnId(None, Join(ids), cut)
    decreases |ids|, 0
  {
    if |ids| == 1 {
      TokenIsNotCut(None, ids[0], cut);
    } else if |ids| > 1 {
      var id, more := ids[0], Join(ids[1..]);
      var n := |id|;
      SpacedIsNotCut(more, cut[n..], ids[1..]);
      assert Join(ids) == id + (" " + more);
      ParseToken(None, id);
      CutsConcat(None, id, " " + more, cut[..n], cut[n..]);
      assert cut[..n] + cut[n..] == cut;
    }
  }

  lemma SpacedIsNotCut(more: string, cut: seq<bool>, ids: seq<string>)
    requires forall k :: 0 <= k < |ids| ==> IsToken(ids[k]) && NoSpaces(ids[k])
    requires more == Join(ids) && LegalFolding(" " + more, cut)
    ensures !CutsAnId(None, " " + more, cut)
    decreases |ids|, 1
  {
    var v := " " + more;
    assert v[1..] == more && v[..1] == " ";
    JoinedIdsAreNotCut(ids, cut[1..]);
    OneChar(None, v);
  }

  lemma {:induction false} TokenIsNotCut(o: Option<string>, id: string, cut: seq<bool>)
    requires NoSpaces(id) && LegalFolding(id, cut)
    ensures !CutsAnId(o, id, cut)
    decreases |id|
  {
    if id != "" {
      TokenIsNotCut(OpenAfter(o, id[..1]), id[1..], cut[1..]);
    }
  }

  /** When the first part leaves the scanner closed, cuts can be looked for part by part. */
  lemma {:induction false} CutsConcat(o: Option<string>, a: string, b: string, ca: seq<bool>, cb: seq<bool>)
    requires |a| == |ca| && |b| == |cb|
    requires !ClosesNext(b) || OpenAfter(o, a).None?
    requires NoSpaces(a) && LegalFolding(a, ca)
    ensures CutsAnId(o, a + b, ca + cb) == CutsAnId(OpenAfter(o, a), b, cb)
    decreases |a|
  {
    if a == "" {
      assert a + b == b && ca + cb == cb;
    } else {
      assert (a + b)[1..] == a[1..] + b && (ca + cb)[1..] == ca[1..] + cb && (a + b)[..1] == a[..1];
      assert a == a[..1] + a[1..];
      ParseConcat(o, a[..1], a[1..]);
      CutsConcat(OpenAfter(o, a[..1]), a[1..], b, ca[1..], cb);
    }
  }

  lemma SpacedParse(ids: seq<string>)
    requires forall k :: 0 <= k < |ids| ==> IsToken(ids[k])
    ensures ParseIds(" " + Join(ids)) == ids
  {
    ParsePlain(None, " ");
    ParseConcat(None, " ", Join(ids));
    ParseJoin(ids);
  }

  /** What was printed and folded is extracted again exactly when no line break fell inside an id. */
  lemma PrintFoldExtractExactly(ids: seq<string>, raw: string, pre: string, name: string, cut: seq<bool>, rest: string)
    requires forall k :: 0 <= k < |ids| ==> IsToken(ids[k])
    requires HasReferences(raw, pre, name, " " + Join(ids), cut, rest)
    ensures ExtractedIds(raw) == ids <==> !CutsAnId(None, " " + Join(ids), cut)
  {
    FoldingIsIrrelevant(raw, pre, name, " " + Join(ids), cut, rest);
    SpacedParse(ids);
  }

  /** Ids without white space survive printing, folding anywhere legal and extracting. */
  lemma PrintFoldExtract(ids: seq<string>, raw: string, pre: string, name: string, cut: seq<bool>, rest: string)
    requires forall k :: 0 <= k < |ids| ==> IsToken(ids[k]) && NoSpaces(ids[k])
    requires HasReferences(raw, pre, name, " " + Join(ids), cut, rest)
    ensures ExtractedIds(raw) == ids
  {
    SpacedIsNotCut(Join(ids), cut, ids);
    PrintFoldExtractExactly(ids, raw, pre, name, cut, rest);
  }

  // ---------------------------------------------------------------------------
  // Where the code departs from the header syntax
  // ---------------------------------------------------------------------------

  /** A blank line made of CRLFs always ends the value. */
  lemma BlankLine(v: string, body: string)
    requires OneLine(v)
    ensures ValueLength(v + (CRLF + (CRLF + body))) == |v|
  {
    ValueEnds(CRLF + body);
    PlainValue(v, CRLF + (CRLF + body));
  }

  /**
   A blank line made of bare LFs does so exactly when the body does not start with white
   space; otherwise the body's start is read as part of the header.
   */
  lemma BareBlankLine(v: string, body: string)
    requires OneLine(v)
    ensures ValueLength(v + ("\n\n" + body))
            == |v| + if body != "" && (body[0] == ' ' || body[0] == '\t') then 2 + ValueLength(body) else 0
  {
    LFPair(body);
    PlainValue(v, "\n\n" + body);
  }

  lemma LFPair(body: string)
    ensures ValueLength("\n\n" + body) == if body != "" && IsWsp(body[0]) then 2 + ValueLength(body) else 0
  {
    var tail := "\n\n" + body;
    assert LineEndLength(tail) == 2 && tail[2..] == body;
  }

  lemma {:induction false} PlainValue(v: string, rest: string)
    requires OneLine(v)
    ensures ValueLength(v + rest) == |v| + ValueLength(rest)
    decreases |v|
  {
    if v == "" {
      assert v + rest == rest;
    } else {
      assert (v + rest)[1..] == v[1..] + rest;
      PlainValue(v[1..], rest);
    }
  }

  /**
   The name is looked for anywhere, not only at the start of a line: whatever text first
   holds it, in any case, is read as the header, and all that follows its line, also a
   real References header, is ignored.
   */
  lemma EarlierMentionHidesTheHeader(pre: string, name: string, v: string, rest: string)
    requires IsHeaderName(name) && forall i :: 0 <= i < |pre| ==> !NameAt(pre + name, i)
    requires OneLine(v) && StartsNoContinuation(rest)
    ensures ExtractedIds(pre + name + v + (CRLF + rest)) == ParseIds(v)
  {
    var cut := NoCuts(v);
    UnfoldedIsItself(v);
    var raw := pre + name + v + (CRLF + rest);
    SameFirst(pre, name, v + (CRLF + rest));
    assert raw == pre + name + (v + (CRLF + rest));
    AfterTheColon(raw, pre, name, v, cut, rest);
  }

  /** A header in any mix of cases is read, when no such text stands before it. */
  lemma AnyCaseIsRead(pre: string, name: string, v: string, rest: string)
    requires |name| == 11
    requires forall k :: 0 <= k < 11 ==> name[k] == "references:"[k] || name[k] == "REFERENCES:"[k]
    requires forall i :: 0 <= i < |pre| ==> !NameAt(pre + name, i)
    requires OneLine(v) && StartsNoContinuation(rest)
    ensures ExtractedIds(pre + name + v + (CRLF + rest)) == ParseIds(v)
  {
    EarlierMentionHidesTheHeader(pre, name, v, rest);
  }

  /** The header that the composer prints, at the start of a message. */
  lemma ComposedHeaderIsRead(v: string, rest: string)
    requires OneLine(v) && StartsNoContinuation(rest)
    ensures ExtractedIds("References:" + v + (CRLF + rest)) == ParseIds(v)
  {
    ComposedNameIsName();
    assert "" + "References:" == "References:";
    EarlierMentionHidesTheHeader("", "References:", v, rest);
  }

  /** In particular a header whose name ends in the one looked for, as X-References. */
  lemma PrefixedNameHidesTheHeader(prefix: string, name: string, v: string, rest: string)
    requires IsHeaderName(name) && forall i :: 0 <= i < |prefix| ==> !NameAt(prefix + name, i)
    requires OneLine(v) && NoBrackets(v) && StartsNoContinuation(rest)
    ensures ExtractedIds(prefix + name + v + (CRLF + rest)) == []
  {
    EarlierMentionHidesTheHeader(prefix, name, v, rest);
    ParsePlain(None, v);
  }

  /** Every one-line header of this name that follows `pre` is read, whatever comes after it. */
  ghost predicate IsAlwaysRead(pre: string, name: string) {
    forall v, rest :: OneLine(v) && StartsNoContinuation(rest) ==>
      ExtractedIds(pre + name + v + (CRLF + rest)) == ParseIds(v)
  }

  /**
   Exactly when a References header at the start of a line is read: when the name does not
   occur, in any case, anywhere before it.
   */
  lemma HeaderIsReadExactly(pre: string, name: string)
    requires IsHeaderName(name)
    requires pre == "" || (|pre| >= 2 && pre[|pre| - 2..] == CRLF)
    ensures IsAlwaysRead(pre, name) <==> forall i :: 0 <= i < |pre| ==> !NameAt(pre + name, i)
  {
    if forall i :: 0 <= i < |pre| ==> !NameAt(pre + name, i) {
      forall v, rest | OneLine(v) && StartsNoContinuation(rest)
        ensures ExtractedIds(pre + name + v + (CRLF + rest)) == ParseIds(v)
      {
        EarlierMentionHidesTheHeader(pre, name, v, rest);
      }
    } else {
      assert IsToken("<a>");
      ParseToken(None, "<a>");
      NotAlwaysRead(pre, name, "<a>", "");
    }
  }

  /** With an earlier occurrence, the same ids are read for different headers. */
  lemma NotAlwaysRead(pre: string, name: string, v: string, u: string)
    requires IsHeaderName(name) && exists i :: 0 <= i < |pre| && NameAt(pre + name, i)
    requires |pre| >= 2 && pre[|pre| - 2..] == CRLF
    requires OneLine(v) && OneLine(u) && ParseIds(v) != ParseIds(u)
    ensures !IsAlwaysRead(pre, name)
  {
    var i := EarlierOccurrence(pre, name);
    var end := CRLF + "";
    ReadsTheEarlierOne(pre, name, i, v + end);
    ReadsTheEarlierOne(pre, name, i, u + end);
    assert pre + name + v + end == pre + name + (v + end);
    assert pre + name + u + end == pre + name + (u + end);
    assert StartsNoContinuation("");
  }

  lemma NoLineEndInside(s: string, i: nat)
    requires NameAt(s, i)
    ensures forall k :: i <= k < i + 11 ==> !IsLineEnd(s[k])
  {
    forall k | i <= k < i + 11
      ensures !IsLineEnd(s[k])
    {
      assert s[k] == s[i..i + 11][k - i];
    }
  }

  /** The first of the earlier occurrences ends before the line break in front of the header. */
  lemma EarlierOccurrence(pre: string, name: string) returns (i: nat)
    requires IsHeaderName(name) && exists i :: 0 <= i < |pre| && NameAt(pre + name, i)
    requires |pre| >= 2 && pre[|pre| - 2..] == CRLF
    ensures i + 11 <= |pre| - 2 && NameAt(pre + name, i) && forall k :: 0 <= k < i ==> !NameAt(pre + name, k)
  {
    var s := pre + name;
    IndexIsFirstName(s, 0);
    i := Index(Lower(s), REFERENCES);
    IndexIsFirstName(s, i);
    NoLineEndInside(s, i);
    assert pre[|pre| - 2] == CRLF[0] && pre[|pre| - 1] == CRLF[1];
    assert IsLineEnd(s[|pre| - 2]) && IsLineEnd(s[|pre| - 1]);
  }

  /** What is read then does not depend on the header. */
  lemma ReadsTheEarlierOne(pre: string, name: string, i: nat, tail: string)
    requires IsHeaderName(name)
    requires NameAt(pre + name, i) && forall k :: 0 <= k < i ==> !NameAt(pre + name, k)
    requires |pre| >= 2 && pre[|pre| - 2..] == CRLF && i + 11 <= |pre| - 2
    ensures ExtractedIds(pre + name + tail) == ParseIds(HeaderValue(pre[i + 11..]))
  {
    var raw, at := pre + name + tail, i + 11;
    NamesBeforeTail(pre + name, tail, i);
    IndexIsFirstName(raw, i);
    var m, rest := pre[at..|pre| - 2], name + tail;
    assert pre[at..] == m + CRLF;
    assert raw[at..] == m + CRLF + rest;
    assert rest[0] == name[0];
    ValueStopsAt(m, rest);
  }

  /** Text after a name does not change where the first one is. */
  lemma NamesBeforeTail(s: string, tail: string, i: nat)
    requires i + 11 <= |s|
    ensures forall k :: 0 <= k <= i ==> (NameAt(s + tail, k) <==> NameAt(s, k))
  {
    forall k | 0 <= k <= i
      ensures NameAt(s + tail, k) <==> NameAt(s, k)
    {
      assert (s + tail)[k..k + 11] == s[k..k + 11];
    }
  }

  lemma SameFirst(pre: string, name: string, tail: string)
    requires IsHeaderName(name) && forall i :: 0 <= i < |pre| ==> !NameAt(pre + name, i)
    ensures forall i :: 0 <= i < |pre| ==> !NameAt(pre + name + tail, i)
  {
    NamesBeforeTail(pre + name, tail, |pre|);
  }

  /** A value does not reach past a line break that starts no continuation. */
  lemma ValueStopsAt(m: string, rest: string)
    requires StartsNoContinuation(rest)
    ensures HeaderValue(m + CRLF + rest) == HeaderValue(m + CRLF)
  {
    WspStops(m, rest);
    var w := WspLength(m + CRLF);
    assert (m + CRLF + rest)[w..] == m[w..] + CRLF + rest;
    assert (m + CRLF)[w..] == m[w..] + CRLF;
    LengthStops(m[w..], rest);
    assert (m[w..] + CRLF + rest)[..|m[w..]| + 2] == m[w..] + CRLF;
  }

  lemma {:induction false} WspStops(m: string, rest: string)
    ensures WspLength(m + CRLF + rest) == WspLength(m + CRLF) <= |m|
    decreases |m|
  {
    if m != "" && IsWsp(m[0]) {
      assert (m + CRLF + rest)[1..] == m[1..] + CRLF + rest && (m + CRLF)[1..] == m[1..] + CRLF;
      WspStops(m[1..], rest);
    }
  }

  lemma {:induction false} LengthStops(m: string, rest: string)
    requires StartsNoContinuation(rest)
    ensures ValueLength(m + CRLF + rest) == ValueLength(m + CRLF)
    decreases |m|
  {
    if m == "" {
      assert m + CRLF + rest == CRLF + rest && m + CRLF == CRLF + "";
      ValueEnds(rest);
      ValueEnds("");
    } else if IsLineEnd(m[0]) {
      var n := if 1 < |m| && m[1] == '\n' then 2 else 1;
      LineStep(m, rest, n);
      LineStep(m, "", n);
      assert m + CRLF + "" == m + CRLF && m[n..] + CRLF + "" == m[n..] + CRLF;
      LengthStops(m[n..], rest);
    } else {
      assert (m + CRLF + rest)[1..] == m[1..] + CRLF + rest && (m + CRLF)[1..] == m[1..] + CRLF;
      LengthStops(m[1..], rest);
    }
  }

  lemma LineStep(m: string, rest: string, n: nat)
    requires m != "" && IsLineEnd(m[0]) && n == if 1 < |m| && m[1] == '\n' then 2 else 1
    ensures ValueLength(m + CRLF + rest)
            == if n < |m| && IsWsp(m[n]) then n + ValueLength(m[n..] + CRLF + rest) else 0
  {
    var t := m + CRLF + rest;
    assert t[1] == if 1 < |m| then m[1] else '\r';
    assert LineEndLength(t) == n;
    assert t[n] == if n < |m| then m[n] else '\r';
    assert t[n..] == m[n..] + CRLF + rest;
  }

  function NoCuts(v: string): seq<bool> {
    seq(|v|, _ => false)
  }

  lemma {:induction false} UnfoldedIsItself(v: string)
    ensures Fold(v, NoCuts(v)) == v
    decreases |v|
  {
    if v != "" {
      assert NoCuts(v)[1..] == NoCuts(v[1..]);
      UnfoldedIsItself(v[1..]);
    }
  }
}
