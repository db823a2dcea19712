/**
 The status a tick writes: the targets of the spec evaluated, their reports
 shown, and every note bounded.
 */
module StatusWrite {
  import opened Basics
  import opened Repeats
  import opened StatusBounds

  /** What one target's evaluation reports, its gaps as they are rendered. */
  datatype Report = Report(findings: seq<Finding>, gaps: seq<Text>)

  /** A report and the warnings of the ignore rules applied to it. */
  datatype Evaluated = Evaluated(report: Report, warnings: seq<Text>)

  type Evaluate = Version -> Evaluated

  function GapsOf(): Report -> seq<Text> {
    (r: Report) => r.gaps
  }

  function WarningsOf(evaluate: Evaluate): Version -> seq<Text> {
    (v: Version) => evaluate(v).warnings
  }

  function ReportsOf(evaluate: Evaluate, targets: seq<Version>): seq<Report> {
    seq(|targets|, i requires 0 <= i < |targets| => evaluate(targets[i]).report)
  }

  /** The row counts every finding and shows the first twenty. */
  ghost predicate RowOf(r: Report, row: Row) {
    CountsOf(r.findings, |r.findings|, row) && TopOf(r.findings, |r.findings|, row.top)
  }

  ghost predicate RowsOf(reports: seq<Report>, rows: seq<Row>) {
    |rows| == |reports| && forall i :: 0 <= i < |rows| ==> RowOf(reports[i], rows[i])
  }

  /** The notes of xs that are not there yet, each once. */
  method AddNew(before: seq<Text>, xs: seq<Text>, ghost all: seq<Text>) returns (out: seq<Text>)
    requires before == Firsts(all)
    ensures out == Firsts(all + xs)
  {
    out := before;
    assert all + xs[..0] == all;
    for i := 0 to |xs|
      invariant out == Firsts(all + xs[..i])
    {
      SliceNext(xs, i);
      FirstsSnoc(all + xs[..i], xs[i]);
      assert all + xs[..i] + [xs[i]] == all + xs[..i + 1];
      if xs[i] !in out {
        out := out + [xs[i]];
      }
    }
    assert xs[..|xs|] == xs;
  }

  lemma {:induction false} RowsNext(reports: seq<Report>, i: nat, rows: seq<Row>, row: Row)
    requires i < |reports| && RowsOf(reports[..i], rows) && RowOf(reports[i], row)
    ensures RowsOf(reports[..i + 1], rows + [row])
  {
    forall j | 0 <= j < i + 1
      ensures RowOf(reports[..i + 1][j], (rows + [row])[j])
    {
      assert j < i ==> RowOf(reports[..i][j], rows[j]);
    }
  }

  /** StatusFromReports: a row per report, and each gap once, in first-seen order. */
  method StatusFromReports(reports: seq<Report>) returns (rows: seq<Row>, gaps: seq<Text>)
    ensures RowsOf(reports, rows) && gaps == Firsts(FlatMap(GapsOf(), reports))
  {
    rows, gaps := [], [];
    for i := 0 to |reports|
      invariant RowsOf(reports[..i], rows) && gaps == Firsts(FlatMap(GapsOf(), reports[..i]))
    {
      var row := TargetStatus(reports[i].findings);
      RowsNext(reports, i, rows, row);
      rows := rows + [row];
      FlatMapNext(GapsOf(), reports, i);
      gaps := AddNew(gaps, reports[i].gaps, FlatMap(GapsOf(), reports[..i]));
    }
    assert reports[..|reports|] == reports;
  }

  /** Every target evaluated, each warning noted once. */
  method EvaluateAll(evaluate: Evaluate, targets: seq<Version>) returns (reports: seq<Report>, warnings: seq<Text>)
    ensures reports == ReportsOf(evaluate, targets) && warnings == Firsts(FlatMap(WarningsOf(evaluate), targets))
  {
    reports, warnings := [], [];
    for i := 0 to |targets|
      invariant |reports| == i && forall j :: 0 <= j < i ==> reports[j] == evaluate(targets[j]).report
      invariant warnings == Firsts(FlatMap(WarningsOf(evaluate), targets[..i]))
    {
      var e := evaluate(targets[i]);
      reports := reports + [e.report];
      FlatMapNext(WarningsOf(evaluate), targets, i);
      warnings := AddNew(warnings, e.warnings, FlatMap(WarningsOf(evaluate), targets[..i]));
    }
    assert targets[..|targets|] == targets;
  }

  /* ---------- the notes ---------- */

  function SaidOf(say: TargetNote -> Text, chosen: seq<TargetNote>): seq<Text> {
    seq(|chosen|, i requires 0 <= i < |chosen| => say(chosen[i]))
  }

  /** What leads the notes: that the CRD is behind, and the targets not evaluated. */
  function Lead(crdNote: Option<Text>, say: TargetNote -> Text, chosen: seq<TargetNote>): seq<Text> {
    (if crdNote.Some? then [crdNote.value] else []) + SaidOf(say, chosen)
  }

  ghost predicate ListedNote(text: Text, note: Note) {
    note.Said? && Clipped(text, MAX_NOTE, note.text)
  }

  /** The first 32 notes clipped, and one that counts the rest. */
  ghost predicate Bounded(all: seq<Text>, out: seq<Note>) {
    && |out| == (if |all| <= MAX_NOT_ASSESSED then |all| else MAX_NOT_ASSESSED + 1)
    && (forall i :: 0 <= i < |out| && i < MAX_NOT_ASSESSED ==> ListedNote(all[i], out[i]))
    && (|all| > MAX_NOT_ASSESSED ==> out[MAX_NOT_ASSESSED] == AndMore(|all| - MAX_NOT_ASSESSED))
  }

  /** No note that leads is folded into the one that counts the rest. */
  lemma {:induction false} LeadIsListed(lead: seq<Text>, rest: seq<Text>, out: seq<Note>)
    requires Bounded(lead + rest, out) && |lead| <= MAX_NOT_ASSESSED
    ensures |lead| <= |out| && forall i :: 0 <= i < |lead| ==> ListedNote(lead[i], out[i])
  {
    forall i | 0 <= i < |lead|
      ensures ListedNote(lead[i], out[i])
    {
      assert (lead + rest)[i] == lead[i];
    }
  }

  lemma {:induction false} RowsAreBounded(reports: seq<Report>, rows: seq<Row>)
    requires RowsOf(reports, rows) && |rows| <= MAX_TARGETS
    ensures StatusCost(rows) <= 8 * 20 * (515 + 1027)
  {
    var found := seq(|reports|, i requires 0 <= i < |reports| => reports[i].findings);
    assert forall i :: 0 <= i < |rows| ==> RowOf(reports[i], rows[i]);
    StatusIsBounded(found, rows);
  }

  /** The notes after those that lead: why no target was evaluated, or the gaps and the
      warnings of those that were. */
  function Rest(evaluate: Evaluate, targets: seq<Version>, failed: bool, unresolved: Text): seq<Text> {
    if failed then [unresolved]
    else Firsts(FlatMap(GapsOf(), ReportsOf(evaluate, targets))) + Firsts(FlatMap(WarningsOf(evaluate), targets))
  }

  method ShowTargets(evaluate: Evaluate, targets: seq<Version>, failed: bool, unresolved: Text)
    returns (rows: seq<Row>, rest: seq<Text>)
    requires |targets| <= MAX_TARGETS
    ensures RowsOf(ReportsOf(evaluate, targets), rows) && StatusCost(rows) <= 8 * 20 * (515 + 1027)
    ensures rest == Rest(evaluate, targets, failed, unresolved)
  {
    var reports, warnings := EvaluateAll(evaluate, targets);
    var gaps;
    rows, gaps := StatusFromReports(reports);
    RowsAreBounded(reports, rows);
    rest := if failed then [unresolved] else gaps + warnings;
  }

  /** What is written, and the targets and notes it was made from. */
  datatype Status = Status(targets: seq<Version>, failed: bool, chosen: seq<TargetNote>, rows: seq<Row>, notes: seq<Note>)

  /** writeStatus: the rows of the spec's targets, and the notes in the order of
      what a reader must not miss.  Whatever the spec, the reports and their
      text, finding text and notes cost at most 8 * 20 * (515 + 1027) + 32 * 515
      encoded bytes and the entry that counts the notes left out, and no note on
      a target that was not evaluated is left out. */
  method WriteStatus(parse: Parse, parseServer: Parse, raws: seq<string>, server: string, crdNote: Option<Text>,
                     say: TargetNote -> Text, unresolved: Text, evaluate: Evaluate)
    returns (st: Status, ghost kept: seq<nat>, ghost skips: seq<nat>)
    ensures Sorts(parse, raws, |raws|, kept, skips) && Tells(parse, raws, kept, skips, st.chosen)
    ensures Resolves(parse, parseServer, raws, server, kept, st.targets, st.failed)
    ensures RowsOf(ReportsOf(evaluate, st.targets), st.rows)
    ensures Bounded(Lead(crdNote, say, st.chosen) + Rest(evaluate, st.targets, st.failed, unresolved), st.notes)
    ensures StatusCost(st.rows) + TextCost(st.notes) <= 8 * 20 * (515 + 1027) + 32 * 515
    ensures |st.notes| <= MAX_NOT_ASSESSED + 1
    ensures var lead := Lead(crdNote, say, st.chosen);
            |lead| <= |st.notes| && forall i :: 0 <= i < |lead| ==> ListedNote(lead[i], st.notes[i])
  {
    var targets, chosen, failed;
    targets, chosen, failed, kept, skips := ResolveTargets(parse, parseServer, raws, server);
    var lead := Lead(crdNote, say, chosen);
    var rows, rest := ShowTargets(evaluate, targets, failed, unresolved);
    var notes := BoundNotAssessed(lead + rest);
    LeadIsListed(lead, rest, notes);
    st := Status(targets, failed, chosen, rows, notes);
  }
}
