/** Quoting and escaping of an original message (internal/api/message_handler.go). */
module Quoting {

  // ---------------------------------------------------------------------------
  // Lines
  // ---------------------------------------------------------------------------

  predicate IsLine(s: string) {
    forall i :: 0 <= i < |s| ==> s[i] != '\n'
  }

  /** strings.Split(text, "\n"). */
  function Split(text: string): (lines: seq<string>)
    ensures |lines| >= 1
    ensures forall k :: 0 <= k < |lines| ==> IsLine(lines[k])
  {
    if text == "" then [""]
    else
      var more := Split(text[1..]);
      if text[0] == '\n' then [""] + more else [text[..1] + more[0]] + more[1..]
  }

  /** strings.Join(lines, "\n"). */
  function JoinLines(lines: seq<string>): string {
    if |lines| == 0 then "" else if |lines| == 1 then lines[0] else lines[0] + "\n" + JoinLines(lines[1..])
  }

  lemma {:induction false} JoinSplit(text: string)
    ensures JoinLines(Split(text)) == text
    decreases |text|
  {
    if text != "" {
      JoinSplit(text[1..]);
      var more := Split(text[1..]);
      if text[0] == '\n' {
        assert ([""] + more)[1..] == more;
        assert "" + "\n" + text[1..] == text;
      } else {
        var lines := [text[..1] + more[0]] + more[1..];
        assert lines[1..] == more[1..];
        assert JoinLines(lines) == text[..1] + JoinLines(more);
      }
    }
  }

  lemma SplitCons(c: char, text: string)
    ensures Split([c] + text) == if c == '\n' then [""] + Split(text) else [[c] + Split(text)[0]] + Split(text)[1..]
  {
    var whole := [c] + text;
    assert whole[1..] == text && whole[..1] == [c];
  }

  lemma JoinCons(c: char, line: string, rest: seq<string>)
    ensures JoinLines([[c] + line] + rest) == [c] + JoinLines([line] + rest)
  {
    assert ([[c] + line] + rest)[1..] == rest && ([line] + rest)[1..] == rest;
  }

  lemma JoinEmptyLine(rest: seq<string>)
    requires rest != []
    ensures JoinLines([""] + rest) == ['\n'] + JoinLines(rest)
  {
    assert ([""] + rest)[1..] == rest;
    assert "" + "\n" == ['\n'];
  }

  lemma {:induction false} SplitLine(line: string, rest: seq<string>)
    requires IsLine(line)
    requires forall k :: 0 <= k < |rest| ==> IsLine(rest[k])
    ensures Split(JoinLines([line] + rest)) == [line] + rest
    decreases |rest|, |line|
  {
    if line != "" {
      var c, more := line[0], line[1..];
      assert line == [c] + more;
      JoinCons(c, more, rest);
      SplitLine(more, rest);
      SplitCons(c, JoinLines([more] + rest));
    } else if rest != [] {
      assert rest == [rest[0]] + rest[1..];
      SplitLine(rest[0], rest[1..]);
      JoinEmptyLine(rest);
      SplitCons('\n', JoinLines(rest));
    }
  }

  const PREFIX := "> "

  function Prefixed(lines: seq<string>): seq<string> {
    seq(|lines|, k requires 0 <= k < |lines| => PREFIX + lines[k])
  }

  function Quoted(text: string): string {
    JoinLines(Prefixed(Split(text)))
  }

  /** quoteLines: split, prefix every line in place, join. */
  method QuoteLines(text: string) returns (r: string)
    ensures r == Quoted(text)
  {
    var lines := Split(text);
    for i := 0 to |lines|
      invariant |lines| == |Split(text)|
      invariant forall k :: 0 <= k < i ==> lines[k] == PREFIX + Split(text)[k]
      invariant forall k :: i <= k < |lines| ==> lines[k] == Split(text)[k]
    {
      lines := lines[i := PREFIX + lines[i]];
    }
    assert lines == Prefixed(Split(text));
    r := JoinLines(lines);
  }

  /** The lines of a quoted text are the original lines, each with the prefix. */
  lemma QuotedLines(text: string)
    ensures Split(Quoted(text)) == Prefixed(Split(text))
  {
    var lines := Prefixed(Split(text));
    forall k | 0 <= k < |lines|
      ensures IsLine(lines[k])
    {
      assert IsLine(Split(text)[k]);
    }
    assert lines == [lines[0]] + lines[1..];
    SplitLine(lines[0], lines[1..]);
  }

  lemma {:induction false} SplitFirst(line: string, rest: string)
    requires '\n' !in line
    ensures Split(line) == [line]
    ensures Split(line + "\n" + rest) == [line] + Split(rest)
    decreases |line|
  {
    if line == "" {
      assert line + "\n" + rest == ['\n'] + rest;
      SplitCons('\n', rest);
    } else {
      var c, more := line[0], line[1..];
      assert line == [c] + more && line + "\n" + rest == [c] + (more + "\n" + rest);
      SplitFirst(more, rest);
      SplitCons(c, more);
      SplitCons(c, more + "\n" + rest);
    }
  }

  /** What quoting is: "> " before the first line, and the rest quoted after its line break. */
  lemma QuotedLineByLine(line: string, rest: string)
    requires '\n' !in line
    ensures Quoted(line) == "> " + line
    ensures Quoted(line + "\n" + rest) == "> " + line + "\n" + Quoted(rest)
  {
    SplitFirst(line, rest);
    var lines := Prefixed([line] + Split(rest));
    assert lines[0] == "> " + line && lines[1..] == Prefixed(Split(rest));
    assert Prefixed([line]) == ["> " + line];
  }

  /** Takes one level of quoting off every line. */
  function Unquoted(text: string): string {
    JoinLines(Stripped(Split(text)))
  }

  function Stripped(lines: seq<string>): seq<string> {
    seq(|lines|, k requires 0 <= k < |lines| => if PREFIX <= lines[k] then lines[k][|PREFIX|..] else lines[k])
  }

  lemma StripPrefixed(lines: seq<string>)
    ensures Stripped(Prefixed(lines)) == lines
  {
  }

  /** Quoting keeps the lines apart and loses nothing. */
  lemma UnquoteQuoted(text: string)
    ensures Unquoted(Quoted(text)) == text
    ensures |Split(Quoted(text))| == |Split(text)|
  {
    QuotedLines(text);
    StripPrefixed(Split(text));
    JoinSplit(text);
  }

  function Repeat(f: string -> string, times: nat, text: string): string {
    if times == 0 then text else f(Repeat(f, times - 1, text))
  }

  lemma {:induction false} RepeatShift(f: string -> string, times: nat, text: string)
    ensures Repeat(f, times, f(text)) == f(Repeat(f, times, text))
  {
    if times > 0 {
      RepeatShift(f, times - 1, text);
    }
  }

  lemma {:induction false} RepeatInverse(f: string -> string, g: string -> string, times: nat, text: string)
    requires forall t :: g(f(t)) == t
    ensures Repeat(g, times, Repeat(f, times, text)) == text
  {
    if times > 0 {
      var before := Repeat(f, times - 1, text);
      RepeatShift(g, times - 1, f(before));
      RepeatInverse(f, g, times - 1, text);
    }
  }

  /** However deep a thread of replies has quoted a text, it can be read back. */
  lemma UnquoteQuotedTimes(text: string, depth: nat)
    ensures Repeat(Unquoted, depth, Repeat(Quoted, depth, text)) == text
  {
    forall t
      ensures Unquoted(Quoted(t)) == t
    {
      UnquoteQuoted(t);
    }
    RepeatInverse(Quoted, Unquoted, depth, text);
  }

  // ---------------------------------------------------------------------------
  // HTML escaping
  // ---------------------------------------------------------------------------

  /** strings.ReplaceAll for a one-character pattern. */
  function ReplaceAll(s: string, c: char, entity: string): string {
    if s == "" then "" else (if s[0] == c then entity else s[..1]) + ReplaceAll(s[1..], c, entity)
  }

  function EscapeChar(c: char): string {
    if c == '&' then "&amp;"
    else if c == '<' then "&lt;"
    else if c == '>' then "&gt;"
    else if c == '"' then "&quot;"
    else [c]
  }

  /** Every character escaped on its own, in one pass. */
  function Escaped(s: string): string {
    if s == "" then "" else EscapeChar(s[0]) + Escaped(s[1..])
  }

  /** escapeHTML: four replacements, one after the other. */
  method EscapeHTML(input: string) returns (s: string)
    ensures s == Escaped(input)
  {
    s := input;
    s := ReplaceAll(s, '&', "&amp;");
    s := ReplaceAll(s, '<', "&lt;");
    s := ReplaceAll(s, '>', "&gt;");
    s := ReplaceAll(s, '"', "&quot;");
    FourPassesAreOne(input);
  }

  function FourPasses(s: string): string {
    ReplaceAll(ReplaceAll(ReplaceAll(ReplaceAll(s, '&', "&amp;"), '<', "&lt;"), '>', "&gt;"), '"', "&quot;")
  }

  lemma ReplaceCons(x: char, t: string, c: char, entity: string)
    ensures ReplaceAll([x] + t, c, entity) == (if x == c then entity else [x]) + ReplaceAll(t, c, entity)
  {
    assert ([x] + t)[1..] == t && ([x] + t)[..1] == [x];
  }

  lemma {:induction false} ReplaceConcat(a: string, b: string, c: char, entity: string)
    ensures ReplaceAll(a + b, c, entity) == ReplaceAll(a, c, entity) + ReplaceAll(b, c, entity)
    decreases |a|
  {
    if a == "" {
      assert a + b == b;
    } else {
      var x, more := a[0], a[1..];
      assert a == [x] + more && a + b == [x] + (more + b);
      ReplaceCons(x, more, c, entity);
      ReplaceCons(x, more + b, c, entity);
      ReplaceConcat(more, b, c, entity);
    }
  }

  lemma {:induction false} ReplaceNothing(a: string, c: char, entity: string)
    requires c !in a
    ensures ReplaceAll(a, c, entity) == a
    decreases |a|
  {
    if a != "" {
      ReplaceNothing(a[1..], c, entity);
    }
  }

  lemma ReplaceOne(a: string, c: char, entity: string)
    requires a == [c]
    ensures ReplaceAll(a, c, entity) == entity
  {
    assert a[1..] == "" && entity + "" == entity;
  }

  lemma LastTwoPasses(t: string)
    requires '>' !in t && '"' !in t
    ensures ReplaceAll(ReplaceAll(t, '>', "&gt;"), '"', "&quot;") == t
  {
    ReplaceNothing(t, '>', "&gt;");
    ReplaceNothing(t, '"', "&quot;");
  }

  lemma LastThreePasses(t: string)
    requires '<' !in t && '>' !in t && '"' !in t
    ensures ReplaceAll(ReplaceAll(ReplaceAll(t, '<', "&lt;"), '>', "&gt;"), '"', "&quot;") == t
  {
    ReplaceNothing(t, '<', "&lt;");
    LastTwoPasses(t);
  }

  lemma FourPassesOnChar(c: char)
    ensures FourPasses([c]) == EscapeChar(c)
  {
    if c == '&' {
      ReplaceOne([c], '&', "&amp;");
      LastThreePasses("&amp;");
    } else {
      ReplaceNothing([c], '&', "&amp;");
      if c == '<' {
        ReplaceOne([c], '<', "&lt;");
        LastTwoPasses("&lt;");
      } else if c == '>' {
        ReplaceNothing([c], '<', "&lt;");
        ReplaceOne([c], '>', "&gt;");
        ReplaceNothing("&gt;", '"', "&quot;");
      } else if c == '"' {
        ReplaceNothing([c], '<', "&lt;");
        ReplaceNothing([c], '>', "&gt;");
        ReplaceOne([c], '"', "&quot;");
      } else {
        LastThreePasses([c]);
      }
    }
  }

  lemma FourPassesConcat(a: string, b: string)
    ensures FourPasses(a + b) == FourPasses(a) + FourPasses(b)
  {
    ReplaceConcat(a, b, '&', "&amp;");
    var a1, b1 := ReplaceAll(a, '&', "&amp;"), ReplaceAll(b, '&', "&amp;");
    ReplaceConcat(a1, b1, '<', "&lt;");
    var a2, b2 := ReplaceAll(a1, '<', "&lt;"), ReplaceAll(b1, '<', "&lt;");
    ReplaceConcat(a2, b2, '>', "&gt;");
    ReplaceConcat(ReplaceAll(a2, '>', "&gt;"), ReplaceAll(b2, '>', "&gt;"), '"', "&quot;");
  }

  /** Because '&' goes first, no replacement touches the output of another. */
  lemma {:induction false} FourPassesAreOne(s: string)
    ensures FourPasses(s) == Escaped(s)
    decreases |s|
  {
    if s != "" {
      FourPassesAreOne(s[1..]);
      FourPassesConcat(s[..1], s[1..]);
      FourPassesOnChar(s[0]);
      assert s == s[..1] + s[1..] && s[..1] == [s[0]];
    }
  }

  /** What escaping is: each of four characters becomes its entity, any other stays. */
  lemma {:induction false} EscapedCharByChar(s: string, c: char, t: string)
    ensures Escaped("&") == "&amp;" && Escaped("<") == "&lt;" && Escaped(">") == "&gt;" && Escaped("\"") == "&quot;"
    ensures c != '&' && c != '<' && c != '>' && c != '"' ==> Escaped([c]) == [c]
    ensures Escaped(s + t) == Escaped(s) + Escaped(t)
    decreases |s|
  {
    EscapedOne(c);
    EscapedOne('&');
    EscapedOne('<');
    EscapedOne('>');
    EscapedOne('"');
    if s == "" {
      assert s + t == t;
    } else {
      assert (s + t)[1..] == s[1..] + t;
      EscapedCharByChar(s[1..], c, t);
    }
  }

  lemma EscapedOne(c: char)
    ensures Escaped([c]) == EscapeChar(c)
  {
    assert [c][1..] == "" && EscapeChar(c) + "" == EscapeChar(c);
  }

  /** A reader of the escaped text: the four entities, and any other character as itself. */
  function Unescaped(t: string): string
    decreases |t|
  {
    if t == "" then ""
    else if "&amp;" <= t then "&" + Unescaped(t[5..])
    else if "&lt;" <= t then "<" + Unescaped(t[4..])
    else if "&gt;" <= t then ">" + Unescaped(t[4..])
    else if "&quot;" <= t then "\"" + Unescaped(t[6..])
    else t[..1] + Unescaped(t[1..])
  }

  lemma UnescapeChar(c: char, t: string)
    ensures Unescaped(EscapeChar(c) + t) == [c] + Unescaped(t)
  {
    var e := EscapeChar(c);
    var u := e + t;
    assert u[|e|..] == t && e <= u;
    assert c != '&'
           ==> e[0] != '&' || (e[1] == 'l' && c == '<') || (e[1] == 'g' && c == '>') || (e[1] == 'q' && c == '"');
    assert u[0] == e[0];
    if c == '<' || c == '>' || c == '"' {
      assert u[1] == e[1];
    }
  }

  /** Escaping is undone by the reader, so different texts stay different. */
  lemma {:induction false} UnescapeEscaped(s: string)
    ensures Unescaped(Escaped(s)) == s
    decreases |s|
  {
    if s != "" {
      UnescapeEscaped(s[1..]);
      UnescapeChar(s[0], Escaped(s[1..]));
    }
  }

  /** No character of the escaped text can open a tag or end an attribute. */
  lemma {:induction false} EscapedIsInert(s: string)
    ensures '<' !in Escaped(s) && '>' !in Escaped(s) && '"' !in Escaped(s)
    decreases |s|
  {
    if s != "" {
      EscapedIsInert(s[1..]);
    }
  }
}
