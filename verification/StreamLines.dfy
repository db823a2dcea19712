/**
 Text as its lines.  A stream is cut at newlines; every line keeps its own, so
 the lines of a text and the text determine each other, and line i (from 0) is
 the text's line i + 1.
 */
module StreamLines {
  import opened Basics

  /** unicode.IsSpace */
  predicate IsSpace(c: char) {
    '\t' <= c <= '\r' || c == ' ' || c == '\U{85}' || c == '\U{A0}' || c == '\U{1680}' ||
    '\U{2000}' <= c <= '\U{200A}' || c == '\U{2028}' || c == '\U{2029}' || c == '\U{202F}' ||
    c == '\U{205F}' || c == '\U{3000}'
  }

  function TrimLeft(s: string): string {
    if s == "" || !IsSpace(s[0]) then s else TrimLeft(s[1..])
  }

  function Utf8Len(c: char): nat {
    if c < '\U{80}' then 1 else if c < '\U{800}' then 2 else if c < '\U{10000}' then 3 else 4
  }

  /** len(s) in bytes */
  function Size(s: string): nat {
    if s == "" then 0 else Utf8Len(s[0]) + Size(s[1..])
  }

  function Newlines(s: string): nat {
    if s == "" then 0 else (if s[0] == '\n' then 1 else 0) + Newlines(s[1..])
  }

  /** Twice the characters that can introduce a YAML node. */
  function NodeBound(s: string): nat {
    if s == "" then 0 else (if s[0] in ":-,[{?" then 2 else 0) + NodeBound(s[1..])
  }

  lemma {:induction false} NewlinesConcat(s: string, t: string)
    ensures Newlines(s + t) == Newlines(s) + Newlines(t)
  {
    if s == "" {
      assert s + t == t;
    } else {
      assert (s + t)[1..] == s[1..] + t;
      NewlinesConcat(s[1..], t);
    }
  }

  lemma {:induction false} SizeConcat(s: string, t: string)
    ensures Size(s + t) == Size(s) + Size(t)
  {
    if s == "" {
      assert s + t == t;
    } else {
      assert (s + t)[1..] == s[1..] + t;
      SizeConcat(s[1..], t);
    }
  }

  /** How long the first line of s is: up to its newline, or all of it. */
  function LineLength(s: string): (n: nat)
    requires s != ""
    ensures 0 < n <= |s|
  {
    if s[0] == '\n' || |s| == 1 then 1 else 1 + LineLength(s[1..])
  }

  lemma {:induction false} FirstLine(s: string)
    requires s != ""
    ensures var n := LineLength(s);
            && (n == |s| || s[n - 1] == '\n')
            && Newlines(s[..n - 1]) == 0
  {
    if s[0] != '\n' && |s| > 1 {
      FirstLine(s[1..]);
      assert s[..LineLength(s) - 1][1..] == s[1..][..LineLength(s[1..]) - 1];
    }
  }

  function LinesOf(s: string): seq<string> {
    if s == "" then [] else [s[..LineLength(s)]] + LinesOf(s[LineLength(s)..])
  }

  function Text(ls: seq<string>): string {
    if ls == [] then "" else ls[0] + Text(ls[1..])
  }

  predicate EndsLine(l: string) {
    l != "" && l[|l| - 1] == '\n' && Newlines(l[..|l| - 1]) == 0
  }

  /** Lines as a stream has them: only the last may lack its newline. */
  predicate WellLined(ls: seq<string>) {
    && (forall i :: 0 <= i < |ls| ==> ls[i] != "" && Newlines(ls[i][..|ls[i]| - 1]) == 0)
    && (forall i :: 0 <= i < |ls| - 1 ==> EndsLine(ls[i]))
  }

  lemma {:induction false} WellLinedCons(l: string, rest: seq<string>)
    requires l != "" && Newlines(l[..|l| - 1]) == 0 && WellLined(rest) && (rest == [] || l[|l| - 1] == '\n')
    ensures WellLined([l] + rest)
  {
    var ls := [l] + rest;
    forall i | 0 <= i < |ls|
      ensures ls[i] != "" && Newlines(ls[i][..|ls[i]| - 1]) == 0 && (i < |ls| - 1 ==> EndsLine(ls[i]))
    {
      if i > 0 {
        assert ls[i] == rest[i - 1];
      }
    }
  }

  lemma {:induction false} LinesAreWell(s: string)
    ensures WellLined(LinesOf(s))
  {
    if s != "" {
      var n := LineLength(s);
      LinesAreWell(s[n..]);
      FirstLine(s);
      assert s[..n][..n - 1] == s[..n - 1];
      WellLinedCons(s[..n], LinesOf(s[n..]));
    }
  }

  /** Cutting a text into lines and joining them gives the text back. */
  lemma {:induction false} TextOfLines(s: string)
    ensures Text(LinesOf(s)) == s
  {
    if s != "" {
      var n := LineLength(s);
      TextOfLines(s[n..]);
      assert LinesOf(s)[1..] == LinesOf(s[n..]);
    }
  }

  lemma {:induction false} LineLengthOf(l: string, rest: string)
    requires l != "" && Newlines(l[..|l| - 1]) == 0 && (rest == "" || EndsLine(l))
    ensures LineLength(l + rest) == |l|
  {
    var s := l + rest;
    if |l| > 1 {
      assert l[0] != '\n';
      assert s[1..] == l[1..] + rest;
      assert l[1..][..|l| - 2] == l[..|l| - 1][1..];
      if EndsLine(l) {
        assert EndsLine(l[1..]);
      }
      LineLengthOf(l[1..], rest);
    }
  }

  /** Joining lines and cutting the text again gives the lines back. */
  lemma {:induction false} LinesOfText(ls: seq<string>)
    requires WellLined(ls)
    ensures LinesOf(Text(ls)) == ls
  {
    if ls != [] {
      var s := Text(ls);
      var rest := Text(ls[1..]);
      if |ls| == 1 {
        assert ls[1..] == [];
      } else {
        assert EndsLine(ls[0]);
      }
      LineLengthOf(ls[0], rest);
      assert s[..|ls[0]|] == ls[0] && s[|ls[0]|..] == rest;
      LinesOfText(ls[1..]);
    }
  }

  /** A stretch of a stream's lines is itself lines of a stream. */
  lemma {:induction false} WellLinedSlice(ls: seq<string>, a: nat, b: nat)
    requires WellLined(ls) && a <= b <= |ls|
    ensures WellLined(ls[a..b])
  {
  }

  /** Line i begins after i newlines. */
  lemma {:induction false} NewlinesBefore(ls: seq<string>, i: nat)
    requires WellLined(ls) && i < |ls|
    ensures Newlines(Text(ls[..i])) == i
  {
    if i > 0 {
      var l := ls[0];
      assert ls[..i][1..] == ls[1..][..i - 1] && ls[..i][0] == l;
      NewlinesBefore(ls[1..], i - 1);
      NewlinesConcat(l, Text(ls[..i][1..]));
      assert EndsLine(l);
      assert l == l[..|l| - 1] + "\n";
      NewlinesConcat(l[..|l| - 1], "\n");
    }
  }

  lemma {:induction false} TextConcat(a: seq<string>, b: seq<string>)
    ensures Text(a + b) == Text(a) + Text(b)
  {
    if a == [] {
      assert a + b == b;
    } else {
      assert (a + b)[1..] == a[1..] + b;
      TextConcat(a[1..], b);
    }
  }

  /* ---------- what splitting a stream reads of a line ---------- */

  /** A line of a stream and what is read of it: whether it is a document
      separator ("---"), an invalid one (followed by more than a comment), blank,
      its YAML node bound and its bytes. */
  datatype Line = Line(text: string, sep: bool, bad: bool, blank: bool, nodes: nat, bytes: nat)

  predicate IsSep(l: string) {
    |l| >= 3 && l[0] == l[1] == l[2] == '-'
  }

  predicate IsBadSep(l: string) {
    IsSep(l) && var t := TrimLeft(l[3..]); t != "" && t[0] != '#'
  }

  function LineFor(l: string): Line {
    Line(l, IsSep(l), IsBadSep(l), TrimLeft(l) == "", NodeBound(l), Size(l))
  }

  function LinesFor(ts: seq<string>): (r: seq<Line>)
    ensures |r| == |ts|
  {
    Each(LineFor, ts)
  }

  /** The lines of a text. */
  function Lines(s: string): seq<Line> {
    LinesFor(LinesOf(s))
  }

  function Texts(ls: seq<Line>): (r: seq<string>)
    ensures |r| == |ls|
  {
    if ls == [] then [] else [ls[0].text] + Texts(ls[1..])
  }

  /** The text some lines are. */
  function Joined(ls: seq<Line>): string {
    Text(Texts(ls))
  }

  lemma {:induction false} TextsOfLines(ts: seq<string>)
    ensures Texts(LinesFor(ts)) == ts
  {
    if ts != [] {
      assert LinesFor(ts)[1..] == LinesFor(ts[1..]);
      TextsOfLines(ts[1..]);
    }
  }

  lemma {:induction false} EachInSlice<A, B>(f: A -> B, xs: seq<A>, a: nat, b: nat)
    requires a <= b <= |xs|
    ensures Each(f, xs[a..b]) == Each(f, xs)[a..b]
  {
    forall i | 0 <= i < b - a
      ensures Each(f, xs[a..b])[i] == Each(f, xs)[a + i]
    {
      assert xs[a..b][i] == xs[a + i];
    }
  }

  lemma {:induction false} LinesForAt(ts: seq<string>, i: nat)
    requires i < |ts|
    ensures LinesFor(ts)[i] == LineFor(ts[i])
  {
  }

  lemma {:induction false} LinesForSlice(ts: seq<string>, a: nat, b: nat)
    requires a <= b <= |ts|
    ensures LinesFor(ts[a..b]) == LinesFor(ts)[a..b]
  {
    EachInSlice(LineFor, ts, a, b);
  }

  /** Cutting the text of a stretch of a stream's lines gives those lines back. */
  lemma {:induction false} Recut(s: string, a: nat, b: nat)
    requires a <= b <= |Lines(s)|
    ensures Lines(Joined(Lines(s)[a..b])) == Lines(s)[a..b]
  {
    var ts := LinesOf(s);
    LinesAreWell(s);
    WellLinedSlice(ts, a, b);
    LinesForSlice(ts, a, b);
    TextsOfLines(ts[a..b]);
    LinesOfText(ts[a..b]);
  }

  lemma {:induction false} TrimLeftConcat(x: string, y: string)
    ensures TrimLeft(x + y) == "" <==> TrimLeft(x) == "" && TrimLeft(y) == ""
  {
    if x == "" {
      assert x + y == y;
    } else if IsSpace(x[0]) {
      assert (x + y)[1..] == x[1..] + y;
      TrimLeftConcat(x[1..], y);
    }
  }

  lemma {:induction false} BlankText(ls: seq<Line>)
    requires forall k :: 0 <= k < |ls| ==> ls[k] == LineFor(ls[k].text)
    ensures TrimLeft(Joined(ls)) == "" <==> forall k :: 0 <= k < |ls| ==> ls[k].blank
  {
    if ls != [] {
      BlankText(ls[1..]);
      TrimLeftConcat(ls[0].text, Joined(ls[1..]));
      assert Joined(ls) == ls[0].text + Joined(ls[1..]);
      assert forall k :: 0 < k < |ls| ==> ls[k] == ls[1..][k - 1];
    }
  }

  lemma {:induction false} JoinedIsText(s: string, b: nat)
    requires b <= |Lines(s)|
    ensures Joined(Lines(s)[..b]) == Text(LinesOf(s)[..b])
  {
    var ts := LinesOf(s);
    LinesForSlice(ts, 0, b);
    assert ts[0..b] == ts[..b] && Lines(s)[0..b] == Lines(s)[..b];
    TextsOfLines(ts[..b]);
  }

  /** The text of the first b lines is a prefix of the text. */
  lemma {:induction false} JoinedPrefix(s: string, b: nat)
    requires b <= |Lines(s)|
    ensures Joined(Lines(s)[..b]) <= s
  {
    var ts := LinesOf(s);
    JoinedIsText(s, b);
    TextOfLines(s);
    assert ts[..b] + ts[b..] == ts;
    TextConcat(ts[..b], ts[b..]);
  }

  /** The text of lines that begin with a separator begins with a dash. */
  lemma {:induction false} JoinedSep(s: string, a: nat, b: nat)
    requires a < b <= |Lines(s)| && Lines(s)[a].sep
    ensures Joined(Lines(s)[a..b]) != "" && Joined(Lines(s)[a..b])[0] == '-'
  {
    LinesForAt(LinesOf(s), a);
  }

  /** The stream parser's line counter: it counts the newlines since the offset asked for last. */
  class LineCounter {
    const data: string
    var lineOff: nat
    var newlines: nat

    ghost predicate Valid()
      reads this
    {
      lineOff <= |data| && newlines == Newlines(data[..lineOff])
    }

    constructor (text: string)
      ensures Valid() && data == text
    {
      data := text;
      lineOff, newlines := 0, 0;
    }

    /** The 1-based line of byte offset off, asked for in any order. */
    method Line(off: nat) returns (line: nat)
      requires Valid() && off <= |data|
      modifies this
      ensures Valid() && line == 1 + Newlines(data[..off])
    {
      if off < lineOff {
        lineOff, newlines := 0, 0;
      }
      NewlinesConcat(data[..lineOff], data[lineOff..off]);
      assert data[..lineOff] + data[lineOff..off] == data[..off];
      newlines := newlines + Newlines(data[lineOff..off]);
      lineOff := off;
      line := 1 + newlines;
    }
  }

  /* ---------- whether a stream opens as JSON ---------- */

  const JSON_PEEK := 4096

  /** How many characters of s fit in the given bytes. */
  function Peek(s: string, bytes: nat): (n: nat)
    ensures n <= |s|
  {
    if s == "" || Utf8Len(s[0]) > bytes then 0 else 1 + Peek(s[1..], bytes - Utf8Len(s[0]))
  }

  /** utilyaml.IsJSONBuffer of the first jsonPeek bytes: a leading "{". */
  predicate OpensAsJSON(s: string) {
    var t := TrimLeft(s[..Peek(s, JSON_PEEK)]);
    t != "" && t[0] == '{'
  }

  lemma {:induction false} TrimLeftPrefix(s: string, p: nat)
    requires p <= |s| && TrimLeft(s[..p]) != ""
    ensures TrimLeft(s) != "" && TrimLeft(s)[0] == TrimLeft(s[..p])[0]
  {
    if p > 0 && IsSpace(s[0]) {
      assert s[..p][1..] == s[1..][..p - 1];
      TrimLeftPrefix(s[1..], p - 1);
    }
  }

  lemma {:induction false} PeekPrefix(s: string, p: nat, bytes: nat)
    requires p <= |s|
    ensures Peek(s[..p], bytes) <= Peek(s, bytes)
  {
    if p > 0 && Utf8Len(s[0]) <= bytes {
      assert s[..p][1..] == s[1..][..p - 1];
      PeekPrefix(s[1..], p - 1, bytes - Utf8Len(s[0]));
    }
  }

  /** A prefix of text that does not open as JSON does not either. */
  lemma {:induction false} PrefixNotJSON(s: string, p: nat)
    requires p <= |s| && !OpensAsJSON(s)
    ensures !OpensAsJSON(s[..p])
  {
    PeekPrefix(s, p, JSON_PEEK);
    var j, k := Peek(s[..p], JSON_PEEK), Peek(s, JSON_PEEK);
    assert s[..p][..j] == s[..k][..j];
    if TrimLeft(s[..p][..j]) != "" {
      TrimLeftPrefix(s[..k], j);
    }
  }

  /** Nor does text that starts with a separator. */
  lemma {:induction false} DashNotJSON(s: string)
    requires s != "" && s[0] == '-'
    ensures !OpensAsJSON(s)
  {
  }
}
