/**
 Splitting a Helm manifest into bounded runs of documents (splitManifest)
 against the --files stream parser (streamParser.yamlStream), which reads the
 manifest whole.  Both walk the lines of the text; an offset is a line index,
 so the line a document starts on is its index plus one.
 */
module YamlStream {
  import opened StreamLines

  /** One non-blank document: lines from up to (not including) to, so it starts on line from + 1. */
  datatype Doc = Doc(from: nat, to: nat)

  /** A separator reading stops at. */
  predicate Stops(l: Line) {
    l.sep && l.bad
  }

  predicate Blank(ls: seq<Line>, a: nat, b: nat)
    requires b <= |ls|
  {
    forall k :: a <= k < b ==> ls[k].blank
  }

  function DocAt(ls: seq<Line>, a: nat, b: nat): seq<Doc>
    requires b <= |ls|
  {
    if Blank(ls, a, b) then [] else [Doc(a, b)]
  }

  /** A document whose lines are blank is one whose text trims to nothing. */
  lemma {:induction false} BlankAsText(s: string, a: nat, b: nat)
    requires a <= b <= |Lines(s)|
    ensures Blank(Lines(s), a, b) <==> TrimLeft(Joined(Lines(s)[a..b])) == ""
  {
    var all, ls := Lines(s), Lines(s)[a..b];
    forall k | 0 <= k < |ls|
      ensures ls[k] == LineFor(ls[k].text)
    {
      LinesForAt(LinesOf(s), a + k);
    }
    BlankText(ls);
    assert forall k :: a <= k < b ==> all[k] == ls[k - a];
    assert forall k :: 0 <= k < b - a ==> ls[k] == all[a + k];
  }

  /** The documents read from line i on, the current one having begun at start. */
  function Docs(ls: seq<Line>, start: nat, i: nat): seq<Doc>
    requires start <= i <= |ls|
    decreases |ls| - i
  {
    if i == |ls| then DocAt(ls, start, i)
    else if !ls[i].sep then Docs(ls, start, i + 1)
    else if ls[i].bad then DocAt(ls, start, i)
    else DocAt(ls, start, i) + Docs(ls, i + 1, i + 1)
  }

  /** Where reading from line i stops: the first invalid separator, or the end. */
  function StopAt(ls: seq<Line>, i: nat): (p: nat)
    requires i <= |ls|
    ensures i <= p <= |ls|
    decreases |ls| - i
  {
    if i == |ls| || Stops(ls[i]) then i else StopAt(ls, i + 1)
  }

  /** p is the first invalid separator, or the end where there is none. */
  ghost predicate FirstStop(ls: seq<Line>, p: nat) {
    p <= |ls| && (p == |ls| || Stops(ls[p])) && forall k :: 0 <= k < p ==> !Stops(ls[k])
  }

  lemma {:induction false} StopIs(ls: seq<Line>, i: nat)
    requires i <= |ls| && forall k :: 0 <= k < i ==> !Stops(ls[k])
    ensures FirstStop(ls, StopAt(ls, i))
    decreases |ls| - i
  {
    if i < |ls| && !Stops(ls[i]) {
      StopIs(ls, i + 1);
    }
  }

  /* ---------- what a document is ---------- */

  ghost predicate NoSep(ls: seq<Line>, a: nat, b: nat)
    requires b <= |ls|
  {
    forall k :: a <= k < b ==> !ls[k].sep
  }

  /** The lines of d are all those between two separators, or a separator and an end
      of the stream, not all blank, with no invalid separator before their end. */
  ghost predicate IsDocument(ls: seq<Line>, d: Doc) {
    && d.from < d.to <= |ls| && NoSep(ls, d.from, d.to)
    && (d.from == 0 || ls[d.from - 1].sep) && (d.to == |ls| || ls[d.to].sep)
    && (forall k :: 0 <= k < d.to ==> !Stops(ls[k]))
    && !Blank(ls, d.from, d.to)
  }

  ghost predicate Ordered(docs: seq<Doc>) {
    forall p, q :: 0 <= p < q < |docs| ==> docs[p].to < docs[q].from
  }

  /** The documents of the stream, every one, in order. */
  ghost predicate Reads(ls: seq<Line>, docs: seq<Doc>) {
    (forall d :: d in docs <==> IsDocument(ls, d)) && Ordered(docs)
  }

  /** Reading is at line i: the document there began at start, after a separator or
      at the beginning. */
  ghost predicate Within(ls: seq<Line>, start: nat, i: nat) {
    && start <= i <= |ls| && NoSep(ls, start, i) && (start == 0 || ls[start - 1].sep)
    && forall k :: 0 <= k < i ==> !Stops(ls[k])
  }

  /** The document that began at start ends at the next separator, and no other
      begins before it. */
  lemma {:induction false} EndsThere(ls: seq<Line>, start: nat, i: nat, d: Doc)
    requires Within(ls, start, i) && (i == |ls| || ls[i].sep) && IsDocument(ls, d) && d.from >= start
    ensures d == Doc(start, i) || (i < |ls| && !Stops(ls[i]) && d.from > i)
  {
    if d.from <= i {
      assert d.from == start;
      assert d.to <= i;
    }
  }

  lemma {:induction false} DocsAre(ls: seq<Line>, start: nat, i: nat, d: Doc)
    requires Within(ls, start, i)
    ensures d in Docs(ls, start, i) <==> IsDocument(ls, d) && d.from >= start
    decreases |ls| - i
  {
    if i < |ls| && !ls[i].sep {
      DocsAre(ls, start, i + 1, d);
    } else {
      assert d in DocAt(ls, start, i) <==> d == Doc(start, i) && !Blank(ls, start, i);
      if i < |ls| && !ls[i].bad {
        DocsAre(ls, i + 1, i + 1, d);
      }
      if IsDocument(ls, d) && d.from >= start {
        EndsThere(ls, start, i, d);
      }
    }
  }

  lemma {:induction false} DocsInBounds(ls: seq<Line>, start: nat, i: nat)
    requires start <= i <= |ls|
    ensures forall d :: d in Docs(ls, start, i) ==> start <= d.from < d.to <= |ls|
    decreases |ls| - i
  {
    if i < |ls| {
      DocsInBounds(ls, if ls[i].sep then i + 1 else start, i + 1);
    }
  }

  lemma {:induction false} OrderedCons(d: Doc, docs: seq<Doc>)
    requires Ordered(docs) && forall e :: e in docs ==> d.to < e.from
    ensures Ordered([d] + docs)
  {
  }

  lemma {:induction false} DocsInOrder(ls: seq<Line>, start: nat, i: nat)
    requires start <= i <= |ls|
    ensures Ordered(Docs(ls, start, i))
    decreases |ls| - i
  {
    if i < |ls| {
      if !ls[i].sep {
        DocsInOrder(ls, start, i + 1);
      } else if !ls[i].bad {
        DocsInOrder(ls, i + 1, i + 1);
        DocsInBounds(ls, i + 1, i + 1);
        if !Blank(ls, start, i) {
          OrderedCons(Doc(start, i), Docs(ls, i + 1, i + 1));
        }
      }
    }
  }

  /** What is read is every document of the stream, in order. */
  lemma {:induction false} DocsRead(ls: seq<Line>)
    ensures Reads(ls, Docs(ls, 0, 0))
  {
    DocsInOrder(ls, 0, 0);
    forall d
      ensures d in Docs(ls, 0, 0) <==> IsDocument(ls, d)
    {
      DocsAre(ls, 0, 0, d);
    }
  }

  /** A line that no separator parts from one that is not blank, and no invalid
      separator comes before, is in a document, and in that one alone. */
  lemma {:induction false} LineIsRead(ls: seq<Line>, docs: seq<Doc>, k: nat, j: nat) returns (p: nat)
    requires Reads(ls, docs) && k < |ls| && j < |ls| && !ls[j].blank
    requires NoSep(ls, if k < j then k else j, if k < j then j + 1 else k + 1)
    requires forall m :: 0 <= m < k ==> !Stops(ls[m])
    ensures p < |docs| && docs[p].from <= k < docs[p].to
    ensures forall q :: 0 <= q < |docs| && docs[q].from <= k < docs[q].to ==> q == p
  {
    var a: nat, b: nat := if k < j then k else j, if k < j then j + 1 else k + 1;
    while a > 0 && !ls[a - 1].sep
      invariant a <= k && a <= j && NoSep(ls, a, b)
    {
      a := a - 1;
    }
    while b < |ls| && !ls[b].sep
      invariant k < b <= |ls| && j < b && NoSep(ls, a, b)
    {
      b := b + 1;
    }
    var d := Doc(a, b);
    assert !Blank(ls, a, b);
    assert IsDocument(ls, d);
    p :| 0 <= p < |docs| && docs[p] == d;
  }

  /** Splits a stream into documents, as kubectl's YAMLReader does: every document of
      it, in order; bad is the line of the invalid separator reading stopped at. */
  method ReadStream(ls: seq<Line>) returns (docs: seq<Doc>, bad: seq<nat>)
    ensures docs == Docs(ls, 0, 0) && Reads(ls, docs)
    ensures bad == if StopAt(ls, 0) < |ls| then [StopAt(ls, 0) + 1] else []
    ensures FirstStop(ls, if bad == [] then |ls| else bad[0] - 1)
  {
    StopIs(ls, 0);
    DocsRead(ls);
    docs, bad := [], [];
    var docStart := 0;
    for i := 0 to |ls|
      invariant docStart <= i
      invariant docs + Docs(ls, docStart, i) == Docs(ls, 0, 0)
      invariant StopAt(ls, i) == StopAt(ls, 0)
    {
      if ls[i].sep {
        docs := docs + DocAt(ls, docStart, i);
        if ls[i].bad {
          bad := [i + 1];
          return;
        }
        docStart := i + 1;
      }
    }
    docs := docs + DocAt(ls, docStart, |ls|);
  }

  function Shift(ds: seq<Doc>, lines: nat): (r: seq<Doc>)
    ensures |r| == |ds|
    ensures forall k :: 0 <= k < |ds| ==> r[k] == Doc(ds[k].from + lines, ds[k].to + lines)
  {
    seq(|ds|, k requires 0 <= k < |ds| => Doc(ds[k].from + lines, ds[k].to + lines))
  }

  lemma {:induction false} DocAtSuffix(ls: seq<Line>, p: nat, a: nat, b: nat)
    requires a <= b && p + b <= |ls|
    ensures DocAt(ls, p + a, p + b) == Shift(DocAt(ls[p..], a, b), p)
  {
    if Blank(ls[p..], a, b) {
      forall k | p + a <= k < p + b
        ensures ls[k].blank
      {
        assert ls[p..][k - p] == ls[k];
      }
    } else {
      var k :| a <= k < b && !ls[p..][k].blank;
      assert !ls[p + k].blank;
    }
  }

  lemma {:induction false} ShiftConcat(a: seq<Doc>, b: seq<Doc>, lines: nat)
    ensures Shift(a + b, lines) == Shift(a, lines) + Shift(b, lines)
  {
  }

  /** Reading from inside a stream is reading its suffix, lines shifted. */
  lemma {:induction false} DocsOfSuffix(ls: seq<Line>, p: nat, start: nat, i: nat)
    requires start <= i && p + i <= |ls|
    ensures Docs(ls, p + start, p + i) == Shift(Docs(ls[p..], start, i), p)
    decreases |ls| - i
  {
    var t := ls[p..];
    DocAtSuffix(ls, p, start, i);
    if p + i < |ls| {
      assert t[i] == ls[p + i];
      if !t[i].sep {
        DocsOfSuffix(ls, p, start, i + 1);
        assert Docs(t, start, i) == Docs(t, start, i + 1);
      } else if !t[i].bad {
        DocsOfSuffix(ls, p, i + 1, i + 1);
        ShiftConcat(DocAt(t, start, i), Docs(t, i + 1, i + 1), p);
      }
    }
  }

  lemma {:induction false} DocAtPrefix(ls: seq<Line>, p: nat, a: nat, b: nat)
    requires b <= p <= |ls|
    ensures DocAt(ls[..p], a, b) == DocAt(ls, a, b)
  {
    assert forall k :: a <= k < b ==> ls[..p][k] == ls[k];
  }

  /** At the separator itself the document before it ends. */
  lemma {:induction false} CutHere(ls: seq<Line>, start: nat, p: nat)
    requires start <= p < |ls| && ls[p].sep
    ensures Docs(ls, start, p) == Docs(ls[..p], start, p) + Docs(ls, p, p)
  {
    DocAtPrefix(ls, p, start, p);
    assert DocAt(ls, p, p) == [];
  }

  lemma {:induction false} CutLine(ls: seq<Line>, start: nat, i: nat, p: nat)
    requires start <= i < p <= |ls| && !ls[i].sep
    ensures Docs(ls, start, i) == Docs(ls, start, i + 1) && Docs(ls[..p], start, i) == Docs(ls[..p], start, i + 1)
  {
    assert ls[..p][i] == ls[i];
  }

  /** Past a separator before the cut. */
  lemma {:induction false} CutSeparator(ls: seq<Line>, start: nat, i: nat, p: nat, rest: seq<Doc>)
    requires start <= i < p <= |ls| && ls[i].sep && !ls[i].bad
    requires Docs(ls, i + 1, i + 1) == Docs(ls[..p], i + 1, i + 1) + rest
    ensures Docs(ls, start, i) == Docs(ls[..p], start, i) + rest
  {
    assert ls[..p][i] == ls[i];
    DocAtPrefix(ls, p, start, i);
    Associates(DocAt(ls, start, i), Docs(ls[..p], i + 1, i + 1), rest);
  }

  lemma {:induction false} Associates<T>(a: seq<T>, b: seq<T>, c: seq<T>)
    ensures a + (b + c) == a + b + c
  {
  }

  /** Cutting at a separator splits what is read: the documents before it are
      those of the prefix, the rest those read from it. */
  lemma {:induction false} CutAt(ls: seq<Line>, start: nat, i: nat, p: nat)
    requires start <= i <= p < |ls| && ls[p].sep && StopAt(ls, i) >= p
    ensures Docs(ls, start, i) == Docs(ls[..p], start, i) + Docs(ls, p, p)
    decreases |ls| - i
  {
    if i == p {
      CutHere(ls, start, p);
    } else {
      if !ls[i].sep {
        CutAt(ls, start, i + 1, p);
        CutLine(ls, start, i, p);
      } else {
        CutAt(ls, i + 1, i + 1, p);
        CutSeparator(ls, start, i, p, Docs(ls, p, p));
      }
    }
  }

  lemma {:induction false} StopAtPrefix(ls: seq<Line>, i: nat, p: nat)
    requires i <= p <= |ls| && StopAt(ls, i) >= p
    ensures StopAt(ls[..p], i) == p
    decreases |ls| - i
  {
    if i < p {
      StopAtPrefix(ls, i + 1, p);
    }
  }

  /** Nothing is read past an invalid separator. */
  lemma {:induction false} ReadUpToStop(ls: seq<Line>, start: nat, i: nat, p: nat)
    requires start <= i <= |ls| && p == StopAt(ls, i)
    ensures Docs(ls, start, i) == Docs(ls[..p], start, i)
    decreases |ls| - i
  {
    if i < p {
      ReadUpToStop(ls, if ls[i].sep then i + 1 else start, i + 1, p);
    }
  }
}

module ManifestSplit {
  import opened StreamLines
  import opened YamlStream

  const CHUNK_BYTES := 0x10_0000      // manifestChunkBytes
  const MAX_DOC_BYTES := 0x20_0000    // maxManifestDocBytes
  const MAX_NODES := 0x1_0000         // maxManifestNodes

  /** One call of fn: a run of the manifest's lines, the line it starts on, and
      whether it is to be parsed. */
  datatype Piece = Piece(lines: seq<Line>, line: nat, whole: bool)

  /** A stretch of the manifest from line index start, of at most nodes YAML nodes. */
  datatype Span = Span(start: nat, nodes: nat)

  /** run: whole documents not yet passed on; doc: the document being read; out: the calls made. */
  datatype Split = Split(run: Span, doc: Span, out: seq<Piece>)

  /** Bytes of a stretch of lines. */
  function Bytes(ls: seq<Line>): nat {
    if ls == [] then 0 else ls[0].bytes + Bytes(ls[1..])
  }

  /** Passes on a run that is full without the document that ends at end. */
  function Flush(m: seq<Line>, st: Split, end: nat): Split
    requires st.run.start <= st.doc.start <= end <= |m|
  {
    if st.doc.start > st.run.start &&
       (Bytes(m[st.run.start..end]) > CHUNK_BYTES || st.run.nodes + st.doc.nodes > MAX_NODES)
    then Split(Span(st.doc.start, 0), st.doc, st.out + [Piece(m[st.run.start..st.doc.start], st.run.start + 1, true)])
    else st
  }

  /** Passes on a document over a limit unparsed, and adds any other to the run. */
  function Settle(m: seq<Line>, st: Split, end: nat): Split
    requires st.run.start <= st.doc.start <= end <= |m|
  {
    if Bytes(m[st.doc.start..end]) > MAX_DOC_BYTES || st.doc.nodes > MAX_NODES
    then Split(Span(end, 0), Span(end, 2), st.out + [Piece(m[st.doc.start..end], st.doc.start + 1, false)])
    else Split(Span(st.run.start, st.run.nodes + st.doc.nodes), Span(end, 2), st.out)
  }

  /** Ends the document at line index end. */
  function EndDoc(m: seq<Line>, st: Split, end: nat): Split
    requires st.run.start <= st.doc.start <= end <= |m|
  {
    Settle(m, Flush(m, st, end), end)
  }

  /* ---------- what a piece is, read off its lines alone ---------- */

  function Seps(ls: seq<Line>): nat {
    if ls == [] then 0 else (if ls[0].sep then 1 else 0) + Seps(ls[1..])
  }

  /** The node bound of the lines that are no separators. */
  function LineNodes(ls: seq<Line>): nat {
    if ls == [] then 0 else (if ls[0].sep then 0 else ls[0].nodes) + LineNodes(ls[1..])
  }

  /** A document begins at each separator, and at the start. */
  function Documents(ls: seq<Line>): nat {
    Seps(ls) + if ls != [] && ls[0].sep then 0 else 1
  }

  /** A bound on the YAML nodes of a text: two per document (root and document
      node) and those its lines can introduce. */
  function Nodes(ls: seq<Line>): nat {
    2 * Documents(ls) + LineNodes(ls)
  }

  /** A parsed piece is within the node bound, and within the chunk or one
      document within the document limit; a piece not parsed is a single
      document over a limit. */
  ghost predicate Fits(p: Piece) {
    if p.whole then
      && Nodes(p.lines) <= MAX_NODES
      && (Bytes(p.lines) <= CHUNK_BYTES || (Documents(p.lines) == 1 && Bytes(p.lines) <= MAX_DOC_BYTES))
    else
      Documents(p.lines) == 1 && (Bytes(p.lines) > MAX_DOC_BYTES || Nodes(p.lines) > MAX_NODES)
  }

  function Glue(ps: seq<Piece>): seq<Line> {
    if ps == [] then [] else Glue(ps[..|ps| - 1]) + ps[|ps| - 1].lines
  }

  /** What is read of a piece, at the manifest's lines. */
  function DocsOf(p: Piece): seq<Doc> {
    Shift(Docs(p.lines, 0, 0), if p.line == 0 then 0 else p.line - 1)
  }

  function AllDocs(ps: seq<Piece>): seq<Doc> {
    if ps == [] then [] else AllDocs(ps[..|ps| - 1]) + DocsOf(ps[|ps| - 1])
  }

  /** The documents of the pieces that are parsed. */
  function ReadDocs(ps: seq<Piece>): seq<Doc> {
    if ps == [] then []
    else ReadDocs(ps[..|ps| - 1]) + if ps[|ps| - 1].whole then DocsOf(ps[|ps| - 1]) else []
  }

  function Skipped(ps: seq<Piece>): nat {
    if ps == [] then 0 else Skipped(ps[..|ps| - 1]) + if ps[|ps| - 1].whole then 0 else 1
  }

  lemma {:induction false} TalliesAdd(a: seq<Line>, b: seq<Line>)
    ensures Seps(a + b) == Seps(a) + Seps(b)
    ensures LineNodes(a + b) == LineNodes(a) + LineNodes(b)
    ensures Bytes(a + b) == Bytes(a) + Bytes(b)
  {
    if a == [] {
      assert a + b == b;
    } else {
      assert (a + b)[1..] == a[1..] + b;
      TalliesAdd(a[1..], b);
    }
  }

  /** A line that is no separator adds its nodes to the document it belongs to. */
  lemma {:induction false} AddLine(m: seq<Line>, d: nat, i: nat)
    requires d <= i < |m| && !m[i].sep
    ensures Nodes(m[d..i + 1]) == Nodes(m[d..i]) + m[i].nodes
    ensures Documents(m[d..i + 1]) == Documents(m[d..i])
  {
    assert m[d..i + 1] == m[d..i] + [m[i]];
    TalliesAdd(m[d..i], [m[i]]);
  }

  /** A document that begins with a separator adds up with what precedes it. */
  lemma {:induction false} AddDocument(m: seq<Line>, r: nat, d: nat, end: nat)
    requires r < d < end <= |m| && m[d].sep
    ensures Nodes(m[r..end]) == Nodes(m[r..d]) + Nodes(m[d..end])
  {
    assert m[r..end] == m[r..d] + m[d..end];
    TalliesAdd(m[r..d], m[d..end]);
  }

  lemma {:induction false} BytesOfTail(m: seq<Line>, r: nat, d: nat, end: nat)
    requires r <= d <= end <= |m|
    ensures Bytes(m[d..end]) <= Bytes(m[r..end])
  {
    assert m[r..end] == m[r..d] + m[d..end];
    TalliesAdd(m[r..d], m[d..end]);
  }

  /* ---------- the invariant of the loop ---------- */

  /** A place a document can begin: the start, a separator, or the end. */
  ghost predicate Boundary(m: seq<Line>, p: nat) {
    p == 0 || p == |m| || (p < |m| && m[p].sep)
  }

  /** A piece is a stretch of the manifest that begins at a boundary and fits. */
  ghost predicate PieceOf(m: seq<Line>, p: Piece) {
    && p.line >= 1 && p.lines != [] && p.line - 1 + |p.lines| <= |m|
    && p.lines == m[p.line - 1..p.line - 1 + |p.lines|]
    && Boundary(m, p.line - 1)
    && Fits(p)
  }

  /** The pieces passed on cover the manifest up to r and read as it does. */
  ghost predicate Covers(m: seq<Line>, out: seq<Piece>, r: nat) {
    && r <= |m|
    && Glue(out) == m[..r]
    && AllDocs(out) == Docs(m[..r], 0, 0)
    && (forall p :: p in out ==> PieceOf(m, p))
  }

  ghost predicate Good(m: seq<Line>, st: Split, i: nat) {
    var r, d := st.run.start, st.doc.start;
    && r <= d <= i <= |m| && Boundary(m, r) && Boundary(m, d)
    && Covers(m, st.out, r)
    && (r < d ==> Fits(Piece(m[r..d], r + 1, true)) && Nodes(m[r..d]) <= st.run.nodes)
  }

  ghost predicate Reading(m: seq<Line>, doc: Span, i: nat) {
    doc.start <= i <= |m| && doc.nodes == Nodes(m[doc.start..i]) && Documents(m[doc.start..i]) == 1
  }

  lemma {:induction false} FromLine(s: seq<Line>, r: nat)
    requires r <= |s|
    ensures Docs(s, r, r) == Shift(Docs(s[r..], 0, 0), r)
  {
    DocsOfSuffix(s, r, 0, 0);
  }

  lemma {:induction false} CutAndShift(s: seq<Line>, r: nat)
    requires 0 < r < |s| && s[r].sep && StopAt(s, 0) >= r
    ensures Docs(s, 0, 0) == Docs(s[..r], 0, 0) + Shift(Docs(s[r..], 0, 0), r)
  {
    CutAt(s, 0, 0, r);
    FromLine(s, r);
  }

  lemma {:induction false} UnderTheSlice<T>(m: seq<T>, r: nat, d: nat)
    requires r <= d <= |m|
    ensures m[..d][..r] == m[..r] && m[..d][r..] == m[r..d]
  {
  }

  /** Reading up to d is reading up to r, then the piece between, shifted. */
  lemma {:induction false} DocsUpTo(m: seq<Line>, r: nat, d: nat)
    requires r < d <= |m| && Boundary(m, r) && StopAt(m, 0) >= d
    ensures Docs(m[..d], 0, 0) == Docs(m[..r], 0, 0) + Shift(Docs(m[r..d], 0, 0), r)
  {
    UnderTheSlice(m, r, d);
    if r == 0 {
      DocsOfSuffix(m[..d], 0, 0, 0);
    } else {
      StopAtPrefix(m, 0, d);
      CutAndShift(m[..d], r);
    }
  }

  lemma {:induction false} AppendPiece(out: seq<Piece>, p: Piece)
    ensures Glue(out + [p]) == Glue(out) + p.lines
    ensures AllDocs(out + [p]) == AllDocs(out) + DocsOf(p)
  {
    assert (out + [p])[..|out|] == out;
  }

  lemma {:induction false} PieceIs(m: seq<Line>, r: nat, d: nat, whole: bool)
    requires r < d <= |m| && Boundary(m, r) && Fits(Piece(m[r..d], r + 1, whole))
    ensures PieceOf(m, Piece(m[r..d], r + 1, whole))
  {
  }

  /** Passing on the piece between two boundaries keeps the cover. */
  lemma {:induction false} PassOn(m: seq<Line>, out: seq<Piece>, r: nat, d: nat, whole: bool)
    requires Covers(m, out, r) && r < d <= |m| && Boundary(m, r) && StopAt(m, 0) >= d
    requires Fits(Piece(m[r..d], r + 1, whole))
    ensures Covers(m, out + [Piece(m[r..d], r + 1, whole)], d)
  {
    var p := Piece(m[r..d], r + 1, whole);
    PieceIs(m, r, d, whole);
    AppendPiece(out, p);
    assert Glue(out + [p]) == m[..d] by {
      assert m[..r] + m[r..d] == m[..d];
    }
    assert AllDocs(out + [p]) == Docs(m[..d], 0, 0) by {
      DocsUpTo(m, r, d);
    }
  }

  /** Nothing is waiting before the document, or the run has room for it. */
  ghost predicate HasRoom(m: seq<Line>, st: Split, end: nat)
    requires st.run.start <= st.doc.start <= end <= |m|
  {
    st.doc.start > st.run.start ==>
      Bytes(m[st.run.start..end]) <= CHUNK_BYTES && st.run.nodes + st.doc.nodes <= MAX_NODES
  }

  lemma {:induction false} FlushKeeps(m: seq<Line>, st: Split, end: nat)
    requires Good(m, st, end) && StopAt(m, 0) >= end
    ensures var st' := Flush(m, st, end); Good(m, st', end) && HasRoom(m, st', end) && st'.doc == st.doc
  {
    if Flush(m, st, end) != st {
      PassOn(m, st.out, st.run.start, st.doc.start, true);
    }
  }

  /** A document over a limit is passed on alone, nothing waiting before it. */
  lemma {:induction false} DocPasses(m: seq<Line>, st: Split, end: nat)
    requires Good(m, st, end) && Reading(m, st.doc, end) && Boundary(m, end) && StopAt(m, 0) >= end
    requires HasRoom(m, st, end) && (Bytes(m[st.doc.start..end]) > MAX_DOC_BYTES || st.doc.nodes > MAX_NODES)
    ensures Good(m, Settle(m, st, end), end)
  {
    BytesOfTail(m, st.run.start, st.doc.start, end);
    PassOn(m, st.out, st.doc.start, end, false);
  }

  /** A document within the limits joins the run. */
  lemma {:induction false} DocJoins(m: seq<Line>, st: Split, end: nat)
    requires Good(m, st, end) && Reading(m, st.doc, end) && Boundary(m, end)
    requires HasRoom(m, st, end) && !(Bytes(m[st.doc.start..end]) > MAX_DOC_BYTES || st.doc.nodes > MAX_NODES)
    ensures Good(m, Settle(m, st, end), end)
  {
    if st.run.start < st.doc.start < end {
      AddDocument(m, st.run.start, st.doc.start, end);
    }
  }

  /** Ending a document keeps the invariant. */
  lemma {:induction false} EndDocKeeps(m: seq<Line>, st: Split, end: nat)
    requires Good(m, st, end) && Reading(m, st.doc, end) && Boundary(m, end) && StopAt(m, 0) >= end
    ensures Good(m, EndDoc(m, st, end), end)
    ensures EndDoc(m, st, end).doc == Span(end, 2)
  {
    FlushKeeps(m, st, end);
    var st' := Flush(m, st, end);
    if Bytes(m[st'.doc.start..end]) > MAX_DOC_BYTES || st'.doc.nodes > MAX_NODES {
      DocPasses(m, st', end);
    } else {
      DocJoins(m, st', end);
    }
  }

  lemma {:induction false} NewDocument(m: seq<Line>, i: nat)
    requires i < |m| && m[i].sep
    ensures Reading(m, Span(i, 2), i + 1)
  {
    var ls := m[i..i + 1];
    assert ls[1..] == [];
    assert Seps(ls) == 1 && LineNodes(ls) == 0;
  }

  /** A separator ends the document before it and begins the next. */
  lemma {:induction false} SeparatorKeeps(m: seq<Line>, st: Split, i: nat)
    requires i < |m| && m[i].sep && Good(m, st, i) && Reading(m, st.doc, i) && StopAt(m, 0) >= i
    ensures var st' := EndDoc(m, st, i);
            Good(m, st', i) && Reading(m, st'.doc, i + 1) && st'.doc.start == i
  {
    EndDocKeeps(m, st, i);
    NewDocument(m, i);
  }

  /** Any other line belongs to the document being read. */
  lemma {:induction false} LineKeeps(m: seq<Line>, st: Split, i: nat)
    requires i < |m| && !m[i].sep && Good(m, st, i) && Reading(m, st.doc, i)
    ensures var st' := Split(st.run, Span(st.doc.start, st.doc.nodes + m[i].nodes), st.out);
            Good(m, st', i + 1) && Reading(m, st'.doc, i + 1)
  {
    AddLine(m, st.doc.start, i);
  }

  lemma {:induction false} StartGood(m: seq<Line>)
    ensures Good(m, Split(Span(0, 0), Span(0, 2), []), 0) && Reading(m, Span(0, 2), 0)
  {
    assert m[0..0] == [] && m[..0] == [];
  }

  /** The loop before line i, no invalid separator met. */
  ghost predicate Scanning(m: seq<Line>, st: Split, i: nat) {
    i <= |m| && StopAt(m, i) == StopAt(m, 0) && Good(m, st, i) && Reading(m, st.doc, i)
  }

  /** The loop once reading has ended. */
  ghost predicate Ended(m: seq<Line>, st: Split) {
    Good(m, st, st.doc.start) && st.doc.start == StopAt(m, 0)
  }

  /** The pieces once the last run is passed on. */
  function LastRun(m: seq<Line>, st: Split): seq<Piece>
    requires st.doc.start <= |m|
  {
    if st.run.start < st.doc.start
    then st.out + [Piece(m[st.run.start..st.doc.start], st.run.start + 1, true)]
    else st.out
  }

  /** They cover what is read, and read as the manifest does. */
  lemma {:induction false} LastRunCovers(m: seq<Line>, st: Split)
    requires Ended(m, st)
    ensures Covers(m, LastRun(m, st), StopAt(m, 0)) && AllDocs(LastRun(m, st)) == Docs(m, 0, 0)
  {
    if st.run.start < st.doc.start {
      PassOn(m, st.out, st.run.start, st.doc.start, true);
    }
    ReadUpToStop(m, 0, 0, StopAt(m, 0));
  }

  lemma {:induction false} EndOfText(m: seq<Line>, st: Split)
    requires Scanning(m, st, |m|)
    ensures Ended(m, EndDoc(m, st, |m|))
  {
    EndDocKeeps(m, st, |m|);
  }

  function NextLine(m: seq<Line>, st: Split, i: nat): Split
    requires i < |m|
  {
    Split(st.run, Span(st.doc.start, st.doc.nodes + m[i].nodes), st.out)
  }

  lemma {:induction false} LineScans(m: seq<Line>, st: Split, i: nat)
    requires i < |m| && Scanning(m, st, i) && !m[i].sep
    ensures Scanning(m, NextLine(m, st, i), i + 1)
  {
    LineKeeps(m, st, i);
  }

  lemma {:induction false} SeparatorScans(m: seq<Line>, st: Split, i: nat)
    requires i < |m| && Scanning(m, st, i) && m[i].sep
    ensures if m[i].bad then Ended(m, EndDoc(m, st, i)) else Scanning(m, EndDoc(m, st, i), i + 1)
  {
    SeparatorKeeps(m, st, i);
  }

  /* ---------- a run is passed on only when it is full ---------- */

  /** The document that begins at d ends at end. */
  ghost predicate DocEnds(m: seq<Line>, d: nat, end: nat) {
    d < end <= |m| && Boundary(m, end) && forall k :: d < k < end ==> !m[k].sep
  }

  /** What a run counts beyond its own nodes: the empty document before a separator
      that opens the manifest. */
  function Extra(m: seq<Line>, r: nat): nat {
    if r == 0 && m != [] && m[0].sep then 2 else 0
  }

  /** The lines from r to d and the document after them are more than one run takes. */
  ghost predicate Overflows(m: seq<Line>, r: nat, d: nat, end: nat)
    requires r <= d <= end <= |m|
  {
    Bytes(m[r..end]) > CHUNK_BYTES || Nodes(m[r..d]) + Extra(m, r) + Nodes(m[d..end]) > MAX_NODES
  }

  /** The run had no room for the document after it. */
  ghost predicate FullAt(m: seq<Line>, r: nat, d: nat)
    requires r <= d
  {
    exists end: nat :: DocEnds(m, d, end) && Overflows(m, r, d, end)
  }

  ghost predicate Full(m: seq<Line>, p: Piece) {
    p.line >= 1 && FullAt(m, p.line - 1, p.line - 1 + |p.lines|)
  }

  /** Every run to be parsed, but the last piece, is full. */
  ghost predicate Packed(m: seq<Line>, out: seq<Piece>) {
    forall k :: 0 <= k < |out| - 1 && out[k].whole ==> Full(m, out[k])
  }

  ghost predicate AllFull(m: seq<Line>, out: seq<Piece>) {
    forall p :: p in out && p.whole ==> Full(m, p)
  }

  /** The run's count is of its lines, and the document being read is one. */
  ghost predicate Counted(m: seq<Line>, st: Split, i: nat) {
    var r, d := st.run.start, st.doc.start;
    && r <= d <= i <= |m| && (if i > 0 then d < i else st.run.nodes == 0) && (forall k :: d < k < i ==> !m[k].sep)
    && st.run.nodes <= (if r < d then Nodes(m[r..d]) else 0) + Extra(m, r)
  }

  lemma {:induction false} FlushPacks(m: seq<Line>, st: Split, end: nat)
    requires Counted(m, st, end) && Reading(m, st.doc, end) && Boundary(m, end) && AllFull(m, st.out)
    ensures AllFull(m, Flush(m, st, end).out)
  {
    var r, d := st.run.start, st.doc.start;
    if Flush(m, st, end) != st {
      assert DocEnds(m, d, end) && Overflows(m, r, d, end);
      assert FullAt(m, r, d) && |m[r..d]| == d - r;
    }
  }

  lemma {:induction false} EndDocPacks(m: seq<Line>, st: Split, end: nat)
    requires Counted(m, st, end) && Reading(m, st.doc, end) && Boundary(m, end) && AllFull(m, st.out)
    ensures AllFull(m, EndDoc(m, st, end).out)
  {
    FlushPacks(m, st, end);
  }

  lemma {:induction false} EndDocCounts(m: seq<Line>, st: Split, end: nat)
    requires Counted(m, st, end) && Reading(m, st.doc, end) && Boundary(m, st.doc.start) && end < |m| && m[end].sep
    ensures Counted(m, EndDoc(m, st, end), end + 1)
  {
    var r, d := st.run.start, st.doc.start;
    if r < d {
      AddDocument(m, r, d, end);
    }
  }

  lemma {:induction false} LineCounts(m: seq<Line>, st: Split, i: nat)
    requires i < |m| && !m[i].sep && Counted(m, st, i)
    ensures Counted(m, NextLine(m, st, i), i + 1)
  {
  }

  lemma {:induction false} StartCounts(m: seq<Line>)
    ensures Counted(m, Split(Span(0, 0), Span(0, 2), []), 0) && AllFull(m, [])
  {
  }

  lemma {:induction false} LastRunPacks(m: seq<Line>, st: Split)
    requires AllFull(m, st.out) && st.doc.start <= |m|
    ensures Packed(m, LastRun(m, st))
  {
    forall k | 0 <= k < |LastRun(m, st)| - 1 && LastRun(m, st)[k].whole
      ensures Full(m, LastRun(m, st)[k])
    {
      assert LastRun(m, st)[k] == st.out[k] && st.out[k] in st.out;
    }
  }

  ghost predicate Packing(m: seq<Line>, st: Split, i: nat) {
    Scanning(m, st, i) && Counted(m, st, i) && AllFull(m, st.out)
  }

  ghost predicate Done(m: seq<Line>, st: Split) {
    Ended(m, st) && AllFull(m, st.out)
  }

  lemma {:induction false} SeparatorPacks(m: seq<Line>, st: Split, i: nat)
    requires i < |m| && Packing(m, st, i) && m[i].sep
    ensures if m[i].bad then Done(m, EndDoc(m, st, i)) else Packing(m, EndDoc(m, st, i), i + 1)
  {
    SeparatorScans(m, st, i);
    EndDocPacks(m, st, i);
    EndDocCounts(m, st, i);
  }

  lemma {:induction false} LinePacks(m: seq<Line>, st: Split, i: nat)
    requires i < |m| && Packing(m, st, i) && !m[i].sep
    ensures Packing(m, NextLine(m, st, i), i + 1)
  {
    LineScans(m, st, i);
    LineCounts(m, st, i);
  }

  lemma {:induction false} TextPacks(m: seq<Line>, st: Split)
    requires Packing(m, st, |m|)
    ensures Done(m, EndDoc(m, st, |m|))
  {
    EndOfText(m, st);
    EndDocPacks(m, st, |m|);
  }

  /** The loop before line i, or once an invalid separator was met. */
  ghost predicate Looping(m: seq<Line>, st: Split, i: nat, invalid: bool) {
    if invalid then Done(m, st) else Packing(m, st, i)
  }

  /** One line of the manifest. */
  method ReadLine(m: seq<Line>, st: Split, i: nat) returns (next: Split, invalid: bool)
    requires i < |m| && Packing(m, st, i)
    ensures Looping(m, next, i + 1, invalid)
  {
    if m[i].sep {
      SeparatorPacks(m, st, i);
      return EndDoc(m, st, i), m[i].bad;
    }
    LinePacks(m, st, i);
    return NextLine(m, st, i), false;
  }

  /** Passes on what is left. */
  method PassLast(m: seq<Line>, st: Split) returns (pieces: seq<Piece>)
    requires Done(m, st)
    ensures Covers(m, pieces, StopAt(m, 0)) && AllDocs(pieces) == Docs(m, 0, 0) && Packed(m, pieces)
  {
    LastRunCovers(m, st);
    LastRunPacks(m, st);
    pieces := LastRun(m, st);
  }

  /** Cuts a manifest, given as its lines, into runs: they cover it up to its
      first invalid separator, each within its bounds (or one document over
      them, passed on unparsed) and but for the last as full as they allow, and
      read as the manifest does. */
  method SplitLines(m: seq<Line>) returns (pieces: seq<Piece>)
    ensures Covers(m, pieces, StopAt(m, 0))
    ensures AllDocs(pieces) == Docs(m, 0, 0) && Packed(m, pieces)
  {
    var st := Split(Span(0, 0), Span(0, 2), []);
    var invalid, i := false, 0;
    StartGood(m);
    StartCounts(m);
    while i < |m| && !invalid
      invariant i <= |m| && Looping(m, st, i, invalid)
    {
      st, invalid := ReadLine(m, st, i);
      i := i + 1;
    }
    if !invalid {
      TextPacks(m, st);
      st := EndDoc(m, st, |m|);
    }
    pieces := PassLast(m, st);
  }

  /* ---------- what is not read ---------- */

  lemma {:induction false} DocsPerSeparator(ls: seq<Line>, start: nat, i: nat)
    requires start <= i <= |ls|
    ensures |Docs(ls, start, i)| <= 1 + Seps(ls[i..])
    decreases |ls| - i
  {
    if i < |ls| {
      assert ls[i..][1..] == ls[i + 1..];
      DocsPerSeparator(ls, if ls[i].sep then i + 1 else start, i + 1);
    }
  }

  /** A piece that is one document holds at most one. */
  lemma {:induction false} OneDocument(ls: seq<Line>)
    requires Documents(ls) == 1
    ensures |Docs(ls, 0, 0)| <= 1
  {
    if ls != [] && ls[0].sep {
      DocsPerSeparator(ls, 1, 1);
    } else {
      DocsPerSeparator(ls, 0, 0);
      assert ls[0..] == ls;
    }
  }

  /** What is not read is at most one document for each piece passed on unparsed. */
  lemma {:induction false} UnreadDocuments(ps: seq<Piece>)
    requires forall p :: p in ps ==> Fits(p)
    ensures |ReadDocs(ps)| <= |AllDocs(ps)| <= |ReadDocs(ps)| + Skipped(ps)
    ensures Skipped(ps) == 0 ==> ReadDocs(ps) == AllDocs(ps)
  {
    if ps != [] {
      var p := ps[|ps| - 1];
      UnreadDocuments(ps[..|ps| - 1]);
      assert p in ps && Fits(p);
      if !p.whole {
        OneDocument(p.lines);
      }
    }
  }

  /* ---------- the manifest and its runs as text ---------- */

  /** What the stream parser reads of a text that does not open as JSON. */
  function StreamDocs(text: string): seq<Doc> {
    Docs(Lines(text), 0, 0)
  }

  /** What the parser reads of the pieces' texts, each shifted to the manifest's lines. */
  function ParsedTexts(ps: seq<Piece>): seq<Doc> {
    if ps == [] then []
    else
      var p := ps[|ps| - 1];
      ParsedTexts(ps[..|ps| - 1]) + Shift(StreamDocs(Joined(p.lines)), if p.line == 0 then 0 else p.line - 1)
  }

  /** The bytes counted of lines are those of their text. */
  lemma {:induction false} BytesOfText(ts: seq<string>)
    ensures Bytes(LinesFor(ts)) == Size(Text(ts))
  {
    if ts != [] {
      BytesOfText(ts[1..]);
      SizeConcat(ts[0], Text(ts[1..]));
      assert LinesFor(ts)[1..] == LinesFor(ts[1..]);
    }
  }

  lemma {:induction false} BytesOfLines(s: string, a: nat, b: nat)
    requires a <= b <= |Lines(s)|
    ensures Bytes(Lines(s)[a..b]) == Size(Joined(Lines(s)[a..b]))
  {
    var ts := LinesOf(s);
    LinesForSlice(ts, a, b);
    TextsOfLines(ts[a..b]);
    BytesOfText(ts[a..b]);
  }

  /** The document starts, in the text, on its line: after that many newlines. */
  ghost predicate StartsOnLine(text: string, d: Doc) {
    d.from < |Lines(text)| &&
    var before := Joined(Lines(text)[..d.from]);
    before <= text && Newlines(before) == d.from
  }

  lemma {:induction false} DocStarts(text: string, d: Doc)
    requires d in StreamDocs(text)
    ensures StartsOnLine(text, d)
  {
    DocsInBounds(Lines(text), 0, 0);
    LinesAreWell(text);
    NewlinesBefore(LinesOf(text), d.from);
    JoinedIsText(text, d.from);
    JoinedPrefix(text, d.from);
  }

  /** The line the counter gives a document of its stream. */
  method LineOf(counter: LineCounter, d: Doc) returns (line: nat)
    requires counter.Valid() && d in StreamDocs(counter.data)
    modifies counter
    ensures counter.Valid() && line == d.from + 1
  {
    DocStarts(counter.data, d);
    var before := Joined(Lines(counter.data)[..d.from]);
    assert counter.data[..|before|] == before;
    line := counter.Line(|before|);
  }

  /** The parser reads a run as YAML too. */
  lemma {:induction false} PieceNotJSON(s: string, r: nat, d: nat)
    requires r < d <= |Lines(s)| && Boundary(Lines(s), r) && !OpensAsJSON(s)
    ensures !OpensAsJSON(Joined(Lines(s)[r..d]))
  {
    if r == 0 {
      assert Lines(s)[0..d] == Lines(s)[..d];
      JoinedPrefix(s, d);
      var t := Joined(Lines(s)[..d]);
      assert s[..|t|] == t;
      PrefixNotJSON(s, |t|);
    } else {
      JoinedSep(s, r, d);
      DashNotJSON(Joined(Lines(s)[r..d]));
    }
  }

  /** The text of a piece is read as YAML too, cut into the same lines, and as
      long as what was counted. */
  ghost predicate ReadsAlike(p: Piece) {
    !OpensAsJSON(Joined(p.lines)) && Lines(Joined(p.lines)) == p.lines && Bytes(p.lines) == Size(Joined(p.lines))
  }

  lemma {:induction false} SliceReadsAlike(s: string, r: nat, d: nat, p: Piece)
    requires r < d <= |Lines(s)| && Boundary(Lines(s), r) && p.lines == Lines(s)[r..d] && !OpensAsJSON(s)
    ensures ReadsAlike(p)
  {
    PieceNotJSON(s, r, d);
    Recut(s, r, d);
    BytesOfLines(s, r, d);
  }

  lemma {:induction false} PieceReadsAlike(s: string, p: Piece)
    requires PieceOf(Lines(s), p) && !OpensAsJSON(s)
    ensures ReadsAlike(p)
  {
    SliceReadsAlike(s, p.line - 1, p.line - 1 + |p.lines|, p);
  }

  /** A document read of a piece is, shifted, those same lines of the manifest. */
  lemma {:induction false} SameText(m: seq<Line>, p: Piece, d: Doc)
    requires PieceOf(m, p) && d in Docs(p.lines, 0, 0)
    ensures d.from <= d.to <= |p.lines|
    ensures p.lines[d.from..d.to] == m[d.from + p.line - 1..d.to + p.line - 1]
  {
    DocsInBounds(p.lines, 0, 0);
    SliceOfSlice(m, p.line - 1, p.line - 1 + |p.lines|, d.from, d.to);
  }

  lemma {:induction false} SliceOfSlice<T>(xs: seq<T>, a: nat, b: nat, c: nat, d: nat)
    requires a <= b <= |xs| && c <= d <= b - a
    ensures xs[a..b][c..d] == xs[a + c..a + d]
  {
    forall i | 0 <= i < d - c
      ensures xs[a..b][c..d][i] == xs[a + c..a + d][i]
    {
      assert xs[a..b][c..d][i] == xs[a..b][c + i] == xs[a + (c + i)];
    }
  }

  lemma {:induction false} PiecesRead(ps: seq<Piece>)
    requires forall p :: p in ps ==> ReadsAlike(p)
    ensures ParsedTexts(ps) == AllDocs(ps)
  {
    if ps != [] {
      PiecesRead(ps[..|ps| - 1]);
      assert ReadsAlike(ps[|ps| - 1]);
    }
  }

  /** Splits a release manifest.  One that opens as JSON is one document.  Any
      other is cut into runs whose texts, parsed one by one, give the documents
      and lines that parsing the manifest whole gives, in order, each document on
      the line it starts on in the manifest; both stop at the same invalid
      separator.  The bounds are of the texts themselves. */
  method SplitManifest(manifest: string) returns (pieces: seq<Piece>)
    ensures OpensAsJSON(manifest) ==>
              |pieces| == 1 && pieces[0].lines == Lines(manifest) && pieces[0].line == 1 &&
              (pieces[0].whole <==> Size(manifest) <= MAX_DOC_BYTES && NodeBound(manifest) <= MAX_NODES)
    ensures !OpensAsJSON(manifest) ==>
              var m := Lines(manifest);
              && ParsedTexts(pieces) == StreamDocs(manifest)
              && Glue(pieces) == m[..StopAt(m, 0)] && Packed(m, pieces)
              && (forall p :: p in pieces ==> PieceOf(m, p) && ReadsAlike(p))
              && Reads(m, ParsedTexts(pieces)) && (forall d :: d in ParsedTexts(pieces) ==> StartsOnLine(manifest, d))
  {
    if OpensAsJSON(manifest) {
      return [Piece(Lines(manifest), 1, Size(manifest) <= MAX_DOC_BYTES && NodeBound(manifest) <= MAX_NODES)];
    }
    pieces := SplitLines(Lines(manifest));
    forall p | p in pieces
      ensures ReadsAlike(p)
    {
      PieceReadsAlike(manifest, p);
    }
    PiecesRead(pieces);
    DocsRead(Lines(manifest));
    forall d | d in StreamDocs(manifest)
      ensures StartsOnLine(manifest, d)
    {
      DocStarts(manifest, d);
    }
  }
}
