/**
 The bounds of a ClusterReadiness status: clipped text, capped lists, capped
 targets.
 */
module StatusBounds {
  import opened Basics
  import opened Picking

  const MAX_TARGETS := 8
  const MAX_TOP_FINDINGS := 20
  const MAX_TITLE := 512
  const MAX_REMEDIATION := 1024
  const MAX_NOTE := 512
  const MAX_NOT_ASSESSED := 32
  const MAX_SKIP_NOTES := 8

  /* ---------- clip ---------- */

  /** A character of a string, with the bytes it takes; a byte that is not UTF-8
      reads as the error character, one byte wide. */
  datatype Rune = Rune(code: nat, width: nat)

  const RUNE_ERROR := 0xFFFD

  function RuneLen(code: nat): nat {
    if code < 0x80 then 1 else if code < 0x800 then 2 else if code < 0x10000 then 3 else 4
  }

  type Text = s: seq<Rune> | forall r :: r in s ==> r.width == RuneLen(r.code) || (r.code == RUNE_ERROR && r.width == 1)

  const ELLIPSIS := Rune(0x2026, 3)

  /** What a character takes up in a JSON string, never less. */
  function JsonCost(r: Rune): nat {
    if r.code == 0x22 || r.code == 0x5C then 2
    else if r.code < 0x20 || r.code in {0x3C, 0x3E, 0x26, 0x2028, 0x2029, RUNE_ERROR} then 6
    else RuneLen(r.code)
  }

  /* ---------- JSON ---------- */

  function Hex(n: nat): (r: nat)
    requires n < 16
  {
    if n < 10 then 0x30 + n else 0x61 + n - 10
  }

  /** A character's UTF-8 bytes. */
  function Utf8(code: nat): (r: seq<nat>)
    ensures |r| == RuneLen(code)
  {
    if code < 0x80 then [code]
    else if code < 0x800 then [0xC0 + code / 0x40, 0x80 + code % 0x40]
    else if code < 0x10000 then [0xE0 + code / 0x1000, 0x80 + code / 0x40 % 0x40, 0x80 + code % 0x40]
    else [0xF0 + code / 0x40000, 0x80 + code / 0x1000 % 0x40, 0x80 + code / 0x40 % 0x40, 0x80 + code % 0x40]
  }

  /** A backslash, a u and four hexadecimal digits. */
  function Escaped(code: nat): (r: seq<nat>)
    requires code < 0x10000
    ensures |r| == 6
  {
    [0x5C, 0x75, Hex(code / 0x1000), Hex(code / 0x100 % 16), Hex(code / 16 % 16), Hex(code % 16)]
  }

  /** The letter of a control character that has a short escape. */
  function ShortEscape(code: nat): Option<nat> {
    if code == 0x08 then Some(0x62)
    else if code == 0x09 then Some(0x74)
    else if code == 0x0A then Some(0x6E)
    else if code == 0x0C then Some(0x66)
    else if code == 0x0D then Some(0x72)
    else None
  }

  /** What Go's encoder writes for a character. */
  function Json(r: Rune): seq<nat> {
    if r.code == 0x22 || r.code == 0x5C then [0x5C, r.code]
    else if ShortEscape(r.code).Some? then [0x5C, ShortEscape(r.code).value]
    else if r.code < 0x20 || r.code in {0x3C, 0x3E, 0x26, 0x2028, 0x2029} then Escaped(r.code)
    else if r.code == RUNE_ERROR && r.width == 1 then Escaped(RUNE_ERROR)
    else Utf8(r.code)
  }

  /** What Go's encoder writes for the first n characters. */
  function JsonTo(s: Text, n: nat): seq<nat>
    requires n <= |s|
  {
    if n == 0 then [] else JsonTo(s, n - 1) + Json(s[n - 1])
  }

  /** The cost of a character is what it takes up, but for one that has a short escape
      and a whole error character, which take up less. */
  lemma {:induction false} CostIsLength(r: Rune)
    ensures |Json(r)| <= JsonCost(r)
    ensures |Json(r)| == JsonCost(r) <==> ShortEscape(r.code).None? && (r.code == RUNE_ERROR ==> r.width == 1)
  {
  }

  /** The cost of the first n characters. */
  function CostTo(s: Text, n: nat): nat
    requires n <= |s|
  {
    if n == 0 then 0 else CostTo(s, n - 1) + JsonCost(s[n - 1])
  }

  function Cost(s: Text): nat {
    CostTo(s, |s|)
  }

  /** The bytes of the first n characters. */
  function BytesTo(s: Text, n: nat): nat
    requires n <= |s|
  {
    if n == 0 then 0 else BytesTo(s, n - 1) + s[n - 1].width
  }

  lemma {:induction false} CostCovers(s: Text, n: nat)
    requires n <= |s|
    ensures |JsonTo(s, n)| <= CostTo(s, n)
  {
    if n != 0 {
      CostCovers(s, n - 1);
      CostIsLength(s[n - 1]);
    }
  }

  lemma {:induction false} CostWithinBytes(s: Text, n: nat)
    requires n <= |s|
    ensures CostTo(s, n) <= 6 * BytesTo(s, n)
  {
    if n != 0 {
      CostWithinBytes(s, n - 1);
      assert s[n - 1] in s;
    }
  }

  lemma {:induction false} CostGrows(s: Text, i: nat, j: nat)
    requires i <= j <= |s|
    ensures CostTo(s, i) <= CostTo(s, j)
  {
    if i < j {
      CostGrows(s, i, j - 1);
    }
  }

  lemma {:induction false} CostAlike(s: Text, t: Text, n: nat)
    requires n <= |s| && n <= |t| && s[..n] == t[..n]
    ensures CostTo(s, n) == CostTo(t, n)
  {
    if n != 0 {
      assert s[..n - 1] == s[..n][..n - 1] == t[..n][..n - 1] == t[..n - 1];
      assert s[n - 1] == s[..n][n - 1] == t[..n][n - 1] == t[n - 1];
      CostAlike(s, t, n - 1);
    }
  }

  /** Whole characters that fit, marked when any did not. */
  ghost predicate Clipped(s: Text, n: nat, r: Text) {
    if Cost(s) <= n then r == s else exists k :: 0 <= k < |s| && ClippedAt(s, n, r, k)
  }

  /** r is the longest prefix that costs at most n, and an ellipsis. */
  ghost predicate ClippedAt(s: Text, n: nat, r: Text, k: nat)
    requires k < |s|
  {
    r == s[..k] + [ELLIPSIS] && CostTo(s, k) <= n < CostTo(s, k + 1)
  }

  lemma {:induction false} ClippedCost(s: Text, n: nat, r: Text, k: nat)
    requires k < |s| && ClippedAt(s, n, r, k)
    ensures Cost(r) <= n + 3 && Cost(s) > n
  {
    assert r[..k] == s[..k];
    CostAlike(s, r, k);
    CostGrows(s, k + 1, |s|);
  }

  /** clip: the text, or its longest prefix of whole characters that costs at
      most n, and then an ellipsis. */
  method Clip(s: Text, n: nat) returns (r: Text)
    ensures Clipped(s, n, r) && Cost(r) <= n + 3 && |JsonTo(r, |r|)| <= n + 3
  {
    if BytesTo(s, |s|) * 6 <= n {
      CostWithinBytes(s, |s|);
      CostCovers(s, |s|);
      return s;
    }
    var cost := 0;
    for k := 0 to |s|
      invariant cost == CostTo(s, k) <= n
    {
      cost := cost + JsonCost(s[k]);
      if cost > n {
        r := s[..k] + [ELLIPSIS];
        assert ClippedAt(s, n, r, k);
        ClippedCost(s, n, r, k);
        CostCovers(r, |r|);
        return;
      }
    }
    CostCovers(s, |s|);
    return s;
  }

  /* ---------- notes ---------- */

  datatype Note = Said(text: Text) | AndMore(count: nat)

  /** The cost of the entries that carry text. */
  function TextCost(notes: seq<Note>): nat {
    if notes == [] then 0
    else
      var last := notes[|notes| - 1];
      TextCost(notes[..|notes| - 1]) + (if last.Said? then Cost(last.text) else 0)
  }

  /** boundNotAssessed: the first entries, clipped, and how many were left out. */
  method BoundNotAssessed(notes: seq<Text>) returns (out: seq<Note>)
    ensures |notes| <= MAX_NOT_ASSESSED ==> |out| == |notes|
    ensures |notes| > MAX_NOT_ASSESSED ==>
              |out| == MAX_NOT_ASSESSED + 1 && out[MAX_NOT_ASSESSED] == AndMore(|notes| - MAX_NOT_ASSESSED)
    ensures forall i :: 0 <= i < |out| && i < MAX_NOT_ASSESSED ==> out[i].Said? && Clipped(notes[i], MAX_NOTE, out[i].text)
    ensures TextCost(out) <= MAX_NOT_ASSESSED * (MAX_NOTE + 3)
  {
    out := [];
    for i := 0 to |notes|
      invariant |out| == i <= MAX_NOT_ASSESSED && TextCost(out) <= i * (MAX_NOTE + 3)
      invariant forall j :: 0 <= j < i ==> out[j].Said? && Clipped(notes[j], MAX_NOTE, out[j].text)
    {
      if i == MAX_NOT_ASSESSED {
        TextCostSnoc(out, AndMore(|notes| - MAX_NOT_ASSESSED));
        out := out + [AndMore(|notes| - MAX_NOT_ASSESSED)];
        return;
      }
      var text := Clip(notes[i], MAX_NOTE);
      TextCostSnoc(out, Said(text));
      out := out + [Said(text)];
    }
  }

  lemma {:induction false} TextCostSnoc(notes: seq<Note>, last: Note)
    ensures TextCost(notes + [last]) == TextCost(notes) + (if last.Said? then Cost(last.text) else 0)
  {
    assert (notes + [last])[..|notes|] == notes;
  }

  /* ---------- one target's row ---------- */

  datatype Severity = Blocker | Warning | Info

  datatype Finding = Finding(category: string, severity: Severity, title: Text, remediation: Text)

  datatype TopFinding = TopFinding(category: string, severity: Severity, title: Text, remediation: Text)

  datatype Row = Row(blockers: nat, warnings: nat, infos: nat, byCategory: map<string, nat>, top: seq<TopFinding>)

  function HasSeverity(sev: Severity): Finding -> bool {
    (f: Finding) => f.severity == sev
  }

  function HasCategory(category: string): Finding -> bool {
    (f: Finding) => f.category == category
  }

  /** The findings of a severity among the first n. */
  ghost function Of(fs: seq<Finding>, n: nat, sev: Severity): nat
    requires n <= |fs|
  {
    |Places(HasSeverity(sev), fs, n)|
  }

  ghost function InCategory(fs: seq<Finding>, n: nat, category: string): nat
    requires n <= |fs|
  {
    |Places(HasCategory(category), fs, n)|
  }

  function CategoryAt(m: map<string, nat>, category: string): nat {
    if category in m then m[category] else 0
  }

  ghost predicate Shown(f: Finding, t: TopFinding) {
    && t.category == f.category && t.severity == f.severity
    && Clipped(f.title, MAX_TITLE, t.title) && Clipped(f.remediation, MAX_REMEDIATION, t.remediation)
  }

  function RowCost(top: seq<TopFinding>): nat {
    if top == [] then 0
    else RowCost(top[..|top| - 1]) + Cost(top[|top| - 1].title) + Cost(top[|top| - 1].remediation)
  }

  /** Every severity is one of three: the counts add up to the findings. */
  lemma {:induction false} CountsAddUp(fs: seq<Finding>, n: nat)
    requires n <= |fs|
    ensures Of(fs, n, Blocker) + Of(fs, n, Warning) + Of(fs, n, Info) == n
  {
    if n == 0 {
      NoPlaces(HasSeverity(Blocker), fs);
      NoPlaces(HasSeverity(Warning), fs);
      NoPlaces(HasSeverity(Info), fs);
    } else {
      CountsAddUp(fs, n - 1);
      PlacesNext(HasSeverity(Blocker), fs, n - 1);
      PlacesNext(HasSeverity(Warning), fs, n - 1);
      PlacesNext(HasSeverity(Info), fs, n - 1);
    }
  }

  lemma {:induction false} RowCostSnoc(top: seq<TopFinding>, t: TopFinding)
    ensures RowCost(top + [t]) == RowCost(top) + Cost(t.title) + Cost(t.remediation)
  {
    assert (top + [t])[..|top|] == top;
  }

  /** The counts are those of the first n findings. */
  ghost predicate CountsOf(fs: seq<Finding>, n: nat, row: Row)
    requires n <= |fs|
  {
    && row.blockers == Of(fs, n, Blocker) && row.warnings == Of(fs, n, Warning) && row.infos == Of(fs, n, Info)
    && (forall category :: CategoryAt(row.byCategory, category) == InCategory(fs, n, category))
    && (forall category :: category in row.byCategory ==> row.byCategory[category] > 0)
  }

  /** The top findings are the first n, twenty at most, each clipped. */
  ghost predicate TopOf(fs: seq<Finding>, n: nat, top: seq<TopFinding>)
    requires n <= |fs|
  {
    && |top| == (if n < MAX_TOP_FINDINGS then n else MAX_TOP_FINDINGS)
    && (forall i :: 0 <= i < |top| ==> Shown(fs[i], top[i]))
    && RowCost(top) <= |top| * (MAX_TITLE + 3 + MAX_REMEDIATION + 3)
  }

  method CountFinding(fs: seq<Finding>, n: nat, row: Row) returns (r: Row)
    requires n < |fs| && CountsOf(fs, n, row)
    ensures CountsOf(fs, n + 1, r) && r.top == row.top
  {
    var f := fs[n];
    PlacesNext(HasSeverity(Blocker), fs, n);
    PlacesNext(HasSeverity(Warning), fs, n);
    PlacesNext(HasSeverity(Info), fs, n);
    r := match f.severity
      case Blocker => row.(blockers := row.blockers + 1)
      case Warning => row.(warnings := row.warnings + 1)
      case Info => row.(infos := row.infos + 1);
    var more: map<string, nat> := row.byCategory[f.category := CategoryAt(row.byCategory, f.category) + 1];
    forall c
      ensures CategoryAt(more, c) == InCategory(fs, n + 1, c)
    {
      assert CategoryAt(row.byCategory, c) == InCategory(fs, n, c);
      PlacesNext(HasCategory(c), fs, n);
    }
    r := r.(byCategory := more);
  }

  method ShowOne(f: Finding) returns (t: TopFinding)
    ensures Shown(f, t) && Cost(t.title) + Cost(t.remediation) <= MAX_TITLE + 3 + MAX_REMEDIATION + 3
  {
    var title := Clip(f.title, MAX_TITLE);
    var remediation := Clip(f.remediation, MAX_REMEDIATION);
    t := TopFinding(f.category, f.severity, title, remediation);
  }

  lemma {:induction false} TopSnoc(fs: seq<Finding>, n: nat, top: seq<TopFinding>, t: TopFinding)
    requires n < |fs| && n < MAX_TOP_FINDINGS && TopOf(fs, n, top) && Shown(fs[n], t)
    requires Cost(t.title) + Cost(t.remediation) <= MAX_TITLE + 3 + MAX_REMEDIATION + 3
    ensures TopOf(fs, n + 1, top + [t])
  {
    RowCostSnoc(top, t);
    forall i | 0 <= i < n + 1
      ensures Shown(fs[i], (top + [t])[i])
    {
      assert i < n ==> Shown(fs[i], top[i]);
    }
  }

  method ShowFinding(fs: seq<Finding>, n: nat, top: seq<TopFinding>) returns (r: seq<TopFinding>)
    requires n < |fs| && TopOf(fs, n, top)
    ensures TopOf(fs, n + 1, r)
  {
    if |top| >= MAX_TOP_FINDINGS {
      return top;
    }
    var t := ShowOne(fs[n]);
    TopSnoc(fs, n, top, t);
    r := top + [t];
  }

  method AddFinding(fs: seq<Finding>, n: nat, row: Row) returns (r: Row)
    requires n < |fs| && CountsOf(fs, n, row) && TopOf(fs, n, row.top)
    ensures CountsOf(fs, n + 1, r) && TopOf(fs, n + 1, r.top)
  {
    var counted := CountFinding(fs, n, row);
    var top := ShowFinding(fs, n, counted.top);
    r := counted.(top := top);
  }

  /** TargetStatusFromReport: every finding counted, the first twenty shown. */
  method TargetStatus(fs: seq<Finding>) returns (row: Row)
    ensures CountsOf(fs, |fs|, row) && TopOf(fs, |fs|, row.top)
  {
    row := Row(0, 0, 0, map[], []);
    assert CountsOf(fs, 0, row) by {
      CountsAddUp(fs, 0);
      forall c
        ensures InCategory(fs, 0, c) == 0
      {
        NoPlaces(HasCategory(c), fs);
      }
    }
    for i := 0 to |fs|
      invariant CountsOf(fs, i, row) && TopOf(fs, i, row.top)
    {
      row := AddFinding(fs, i, row);
    }
  }

  function StatusCost(rows: seq<Row>): nat {
    if rows == [] then 0 else StatusCost(rows[..|rows| - 1]) + RowCost(rows[|rows| - 1].top)
  }

  /** However many findings and whatever their text, the finding text of a status
      of at most eight rows costs at most 8 * 20 * (515 + 1027) encoded bytes. */
  lemma {:induction false} StatusIsBounded(reports: seq<seq<Finding>>, rows: seq<Row>)
    requires |rows| == |reports| <= MAX_TARGETS
    requires forall i :: 0 <= i < |rows| ==> TopOf(reports[i], |reports[i]|, rows[i].top)
    ensures StatusCost(rows) <= |rows| * MAX_TOP_FINDINGS * (MAX_TITLE + 3 + MAX_REMEDIATION + 3)
    ensures StatusCost(rows) <= 8 * 20 * (515 + 1027)
  {
    if rows != [] {
      var n := |rows| - 1;
      StatusIsBounded(reports[..n], rows[..n]);
      assert TopOf(reports[n], |reports[n]|, rows[n].top);
    }
  }

  /* ---------- the targets ---------- */

  datatype Version = Version(major: nat, minor: nat)

  type Parse = string -> Option<Version>

  datatype TargetNote = Invalid(raw: string) | Duplicate(raw: string) | MoreSkipped(count: nat)
                      | Over(count: nat, first: string)

  /** The i-th entry is no target, or one an earlier entry named. */
  ghost predicate SkippedAt(parse: Parse, raws: seq<string>, i: nat)
    requires i < |raws|
  {
    parse(raws[i]).None? || exists j :: 0 <= j < i && parse(raws[j]) == parse(raws[i])
  }

  /** The first n entries told apart: the new targets and the entries skipped. */
  ghost predicate Sorts(parse: Parse, raws: seq<string>, n: nat, kept: seq<nat>, skips: seq<nat>)
    requires n <= |raws|
  {
    && Rises(kept) && Rises(skips) && |kept| + |skips| == n
    && (forall i :: i in kept <==> 0 <= i < n && !SkippedAt(parse, raws, i))
    && (forall i :: i in skips <==> 0 <= i < n && SkippedAt(parse, raws, i))
  }

  function AtMost(n: nat, max: nat): nat {
    if n < max then n else max
  }

  /** The first eight of the new targets. */
  ghost predicate Takes(parse: Parse, raws: seq<string>, kept: seq<nat>, targets: seq<Version>) {
    && |targets| == AtMost(|kept|, MAX_TARGETS)
    && (forall k :: 0 <= k < |targets| ==> kept[k] < |raws| && parse(raws[kept[k]]) == Some(targets[k]))
  }

  function NoteOf(parse: Parse, raw: string): TargetNote {
    if parse(raw).None? then Invalid(raw) else Duplicate(raw)
  }

  /** A note on each of the first eight skipped. */
  ghost predicate Notes(parse: Parse, raws: seq<string>, skips: seq<nat>, notes: seq<TargetNote>) {
    && |notes| == AtMost(|skips|, MAX_SKIP_NOTES)
    && (forall k :: 0 <= k < |notes| ==> skips[k] < |raws| && notes[k] == NoteOf(parse, raws[skips[k]]))
  }

  /** Every entry skipped is noted or counted; so are the targets past the eighth,
      the first of them by name. */
  ghost predicate Tells(parse: Parse, raws: seq<string>, kept: seq<nat>, skips: seq<nat>, notes: seq<TargetNote>) {
    var n := AtMost(|skips|, MAX_SKIP_NOTES);
    && |notes| == n + (if |skips| > MAX_SKIP_NOTES then 1 else 0) + (if |kept| > MAX_TARGETS then 1 else 0)
    && Notes(parse, raws, skips, notes[..n])
    && (|skips| > MAX_SKIP_NOTES ==> notes[n] == MoreSkipped(|skips| - MAX_SKIP_NOTES))
    && (|kept| > MAX_TARGETS ==>
          kept[MAX_TARGETS] < |raws| && notes[|notes| - 1] == Over(|kept| - MAX_TARGETS, raws[kept[MAX_TARGETS]]))
  }

  datatype Scan = Scan(targets: seq<Version>, notes: seq<TargetNote>, skipped: nat, over: nat, firstOver: string,
                       seen: set<Version>)

  /** A version is seen if an entry before the n-th names it. */
  ghost predicate SeenBy(parse: Parse, raws: seq<string>, n: nat, seen: set<Version>)
    requires n <= |raws|
  {
    forall v :: v in seen <==> exists j :: 0 <= j < n && parse(raws[j]) == Some(v)
  }

  /** What n entries leave. */
  ghost predicate Scanned(parse: Parse, raws: seq<string>, n: nat, kept: seq<nat>, skips: seq<nat>, scan: Scan)
    requires n <= |raws|
  {
    && Sorts(parse, raws, n, kept, skips) && SeenBy(parse, raws, n, scan.seen)
    && Takes(parse, raws, kept, scan.targets) && scan.over == |kept| - |scan.targets|
    && (scan.over > 0 ==> kept[MAX_TARGETS] < |raws| && scan.firstOver == raws[kept[MAX_TARGETS]])
    && Notes(parse, raws, skips, scan.notes) && scan.skipped == |skips|
  }

  lemma {:induction false} SortsNext(parse: Parse, raws: seq<string>, n: nat, kept: seq<nat>, skips: seq<nat>)
    requires n < |raws| && Sorts(parse, raws, n, kept, skips)
    ensures SkippedAt(parse, raws, n) ==> Sorts(parse, raws, n + 1, kept, skips + [n])
    ensures !SkippedAt(parse, raws, n) ==> Sorts(parse, raws, n + 1, kept + [n], skips)
  {
    RisesNext(kept, n);
    RisesNext(skips, n);
  }

  method AddTarget(parse: Parse, raws: seq<string>, n: nat, scan: Scan, ghost kept: seq<nat>, ghost skips: seq<nat>)
    returns (r: Scan)
    requires n < |raws| && Scanned(parse, raws, n, kept, skips, scan) && !SkippedAt(parse, raws, n)
    ensures Scanned(parse, raws, n + 1, kept + [n], skips, r)
  {
    var v := parse(raws[n]).value;
    SortsNext(parse, raws, n, kept, skips);
    r := scan.(seen := scan.seen + {v});
    if |r.targets| == MAX_TARGETS {
      r := r.(over := r.over + 1, firstOver := if r.over == 0 then raws[n] else r.firstOver);
    } else {
      r := r.(targets := r.targets + [v]);
    }
  }

  method SkipTarget(parse: Parse, raws: seq<string>, n: nat, scan: Scan, ghost kept: seq<nat>, ghost skips: seq<nat>)
    returns (r: Scan)
    requires n < |raws| && Scanned(parse, raws, n, kept, skips, scan) && SkippedAt(parse, raws, n)
    ensures Scanned(parse, raws, n + 1, kept, skips + [n], r)
  {
    SortsNext(parse, raws, n, kept, skips);
    r := scan.(skipped := scan.skipped + 1);
    if scan.skipped < MAX_SKIP_NOTES {
      r := r.(notes := r.notes + [NoteOf(parse, raws[n])]);
    }
  }

  /** The loop over spec.targets. */
  method ScanSpec(parse: Parse, raws: seq<string>) returns (scan: Scan, ghost kept: seq<nat>, ghost skips: seq<nat>)
    ensures Scanned(parse, raws, |raws|, kept, skips, scan)
  {
    scan, kept, skips := Scan([], [], 0, 0, "", {}), [], [];
    for i := 0 to |raws|
      invariant Scanned(parse, raws, i, kept, skips, scan)
    {
      var v := parse(raws[i]);
      if v.None? || v.value in scan.seen {
        scan := SkipTarget(parse, raws, i, scan, kept, skips);
        skips := skips + [i];
      } else {
        scan := AddTarget(parse, raws, i, scan, kept, skips);
        kept := kept + [i];
      }
    }
  }

  function NextMinor(v: Version): Version {
    Version(v.major, v.minor + 1)
  }

  /** The notes of a scan. */
  method ScanNotes(parse: Parse, raws: seq<string>, scan: Scan, ghost kept: seq<nat>, ghost skips: seq<nat>)
    returns (notes: seq<TargetNote>)
    requires Scanned(parse, raws, |raws|, kept, skips, scan)
    ensures Tells(parse, raws, kept, skips, notes)
  {
    notes := scan.notes;
    if scan.skipped > MAX_SKIP_NOTES {
      notes := notes + [MoreSkipped(scan.skipped - MAX_SKIP_NOTES)];
    }
    if scan.over > 0 {
      notes := notes + [Over(scan.over, scan.firstOver)];
    }
    assert notes[..|scan.notes|] == scan.notes;
  }

  /** The spec's targets where it has any, else the minor after the server's where
      the server's version can be read. */
  ghost predicate Resolves(parse: Parse, parseServer: Parse, raws: seq<string>, server: string, kept: seq<nat>,
                           targets: seq<Version>, failed: bool) {
    && |targets| <= MAX_TARGETS && (failed ==> targets == [])
    && (kept != [] ==> !failed && Takes(parse, raws, kept, targets))
    && (kept == [] ==> failed == (server == "" || parseServer(server).None?))
    && (kept == [] && !failed ==> targets == [NextMinor(parseServer(server).value)])
  }

  /** resolveTargets: the targets to evaluate, and what is said of the others. */
  method ResolveTargets(parse: Parse, parseServer: Parse, raws: seq<string>, server: string)
    returns (targets: seq<Version>, notes: seq<TargetNote>, failed: bool, ghost kept: seq<nat>, ghost skips: seq<nat>)
    ensures Sorts(parse, raws, |raws|, kept, skips) && Tells(parse, raws, kept, skips, notes)
    ensures Resolves(parse, parseServer, raws, server, kept, targets, failed)
  {
    var scan;
    scan, kept, skips := ScanSpec(parse, raws);
    notes := ScanNotes(parse, raws, scan, kept, skips);
    targets, failed := scan.targets, false;
    if |targets| > 0 {
      return;
    }
    if server == "" || parseServer(server).None? {
      failed := true;
    } else {
      targets := [NextMinor(parseServer(server).value)];
    }
  }

  /** No target is evaluated twice. */
  lemma {:induction false} TargetsDistinct(parse: Parse, raws: seq<string>, kept: seq<nat>, skips: seq<nat>, targets: seq<Version>)
    requires Sorts(parse, raws, |raws|, kept, skips) && Takes(parse, raws, kept, targets)
    ensures forall i, j :: 0 <= i < j < |targets| ==> targets[i] != targets[j]
  {
    forall i, j | 0 <= i < j < |targets|
      ensures targets[i] != targets[j]
    {
      assert kept[j] in kept && kept[i] < kept[j];
    }
  }
}
