/**
 The upgrade plan: the minors a control plane passes through (HopTargets), and
 what each hop adds to the findings before it (PlanReports).
 */
module UpgradePlan {
  datatype Version = Version(major: nat, minor: nat)

  predicate Below(a: Version, b: Version) {
    a.major < b.major || (a.major == b.major && a.minor < b.minor)
  }

  predicate AtMost(a: Version, b: Version) {
    !Below(b, a)
  }

  function NextMinor(v: Version): Version {
    Version(v.major, v.minor + 1)
  }

  /** A supported upgrade of more than one minor. */
  datatype Step = Step(from: Version, to: Version)

  /** next is the minor after at, or the farthest listed step from it that does
      not pass to. */
  ghost predicate BestStep(steps: seq<Step>, at: Version, to: Version, next: Version) {
    && (next == NextMinor(at) || Step(at, next) in steps)
    && AtMost(NextMinor(at), next) && AtMost(next, to)
    && (forall s :: s in steps && s.from == at && AtMost(s.to, to) ==> AtMost(s.to, next))
  }

  /** The versions, after from, of a walk to to. */
  ghost predicate Walk(steps: seq<Step>, from: Version, to: Version, targets: seq<Version>) {
    forall i :: 0 <= i < |targets| ==> StepAt(steps, from, to, targets, i)
  }

  ghost predicate StepAt(steps: seq<Step>, from: Version, to: Version, targets: seq<Version>, i: nat)
    requires i < |targets|
  {
    BestStep(steps, Reached(from, targets, i), to, targets[i])
  }

  /** Where the walk is before its i-th step. */
  function Reached(from: Version, targets: seq<Version>, i: nat): Version
    requires i <= |targets|
  {
    if i == 0 then from else targets[i - 1]
  }

  lemma {:induction false} WalkOn(steps: seq<Step>, from: Version, to: Version, targets: seq<Version>, next: Version)
    requires Walk(steps, from, to, targets) && BestStep(steps, Reached(from, targets, |targets|), to, next)
    ensures Walk(steps, from, to, targets + [next])
  {
    forall i | 0 <= i < |targets| + 1
      ensures StepAt(steps, from, to, targets + [next], i)
    {
      assert i < |targets| ==> StepAt(steps, from, to, targets, i);
      assert Reached(from, targets + [next], i) == Reached(from, targets, i);
    }
  }

  /** Ends, at to exactly, by best steps; empty when to is not an upgrade. */
  method HopTargets(steps: seq<Step>, from: Version, to: Version) returns (targets: seq<Version>)
    ensures !(from.major == to.major && Below(from, to)) ==> targets == []
    ensures from.major == to.major && Below(from, to) ==> targets != [] && targets[|targets| - 1] == to
    ensures Walk(steps, from, to, targets)
  {
    targets := [];
    if from.major != to.major {
      return;
    }
    var at := from;
    while Below(at, to)
      invariant at == Reached(from, targets, |targets|) && at.major == to.major
      invariant targets != [] ==> Below(from, to) && AtMost(at, to)
      invariant Walk(steps, from, to, targets)
      decreases (to.minor - at.minor)
    {
      var next := Farthest(steps, at, to);
      WalkOn(steps, from, to, targets, next);
      targets := targets + [next];
      at := next;
    }
  }

  method Farthest(steps: seq<Step>, at: Version, to: Version) returns (next: Version)
    requires at.major == to.major && Below(at, to)
    ensures BestStep(steps, at, to, next)
  {
    next := NextMinor(at);
    for i := 0 to |steps|
      invariant next == NextMinor(at) || Step(at, next) in steps
      invariant AtMost(NextMinor(at), next) && AtMost(next, to)
      invariant forall j :: 0 <= j < i && steps[j].from == at && AtMost(steps[j].to, to) ==> AtMost(steps[j].to, next)
    {
      var s := steps[i];
      if s.from == at && Below(next, s.to) && AtMost(s.to, to) {
        next := s.to;
        assert s == Step(at, next);
      }
    }
  }

  /** Each hop is a real upgrade: the walk only goes up. */
  lemma {:induction false} WalkGoesUp(steps: seq<Step>, from: Version, to: Version, targets: seq<Version>, i: nat, j: nat)
    requires Walk(steps, from, to, targets) && i < j < |targets|
    ensures Below(targets[i], targets[j]) && Below(from, targets[i])
    decreases i + j
  {
    assert StepAt(steps, from, to, targets, j) && StepAt(steps, from, to, targets, i);
    if i < j - 1 {
      WalkGoesUp(steps, from, to, targets, i, j - 1);
    }
    if 0 < i {
      WalkGoesUp(steps, from, to, targets, i - 1, i);
    }
  }

  /* ---------- hops ---------- */

  datatype Severity = Blocker | Warning | Info

  datatype Finding = Finding(key: string, category: string, title: string, severity: Severity)

  datatype Report = Report(target: Version, score: int, verdict: string, findings: seq<Finding>, notAssessed: seq<string>)

  datatype Was = Unset | Had(sev: Severity)

  datatype FindingRef = FindingRef(key: string, severity: Severity, was: Was, title: string, since: Version)

  datatype Hop = Hop(from: Version, to: Version, score: int, verdict: string, findings: seq<Finding>,
                     changed: seq<FindingRef>, carried: seq<FindingRef>, notAssessed: seq<string>)

  const UPGRADE_PATH := "version-skew/upgrade-path"

  function KeyOf(f: Finding): string {
    if f.key != "" then f.key else f.category + "\0" + f.title
  }

  datatype Seen = Seen(since: Version, sev: Severity)

  type Listed = map<string, Seen>

  datatype Acc = Acc(hop: Hop, listed: Listed)

  /** What the loop body does with one finding. */
  function AddFinding(acc: Acc, f: Finding): Acc {
    var (h, listed, key) := (acc.hop, acc.listed, KeyOf(f));
    if key == UPGRADE_PATH then acc
    else if key !in listed then
      Acc(h.(findings := h.findings + [f]), listed[key := Seen(h.to, f.severity)])
    else
      var prev := listed[key];
      var hop := if prev.sev != f.severity
                 then h.(changed := h.changed + [FindingRef(key, f.severity, Had(prev.sev), f.title, prev.since)])
                 else h.(carried := h.carried + [FindingRef(key, f.severity, Unset, f.title, prev.since)]);
      Acc(hop, listed[key := Seen(prev.since, f.severity)])
  }

  function AddFindings(acc: Acc, fs: seq<Finding>, n: nat): Acc
    requires n <= |fs|
  {
    if n == 0 then acc else AddFinding(AddFindings(acc, fs, n - 1), fs[n - 1])
  }

  function NewHop(from: Version, r: Report): Hop {
    Hop(from, r.target, r.score, r.verdict, [], [], [], r.notAssessed)
  }

  function HopFrom(from: Version, reports: seq<Report>, n: nat): Version
    requires n <= |reports|
  {
    if n == 0 then from else reports[n - 1].target
  }

  /** The hop of the n-th report, and what is listed after it. */
  function HopAt(from: Version, reports: seq<Report>, n: nat): Acc
    requires n < |reports|
    decreases n, 1
  {
    AddFindings(Acc(NewHop(HopFrom(from, reports, n), reports[n]), ListedAt(from, reports, n)),
                reports[n].findings, |reports[n].findings|)
  }

  function ListedAt(from: Version, reports: seq<Report>, n: nat): Listed
    requires n <= |reports|
    decreases n, 0
  {
    if n == 0 then map[] else HopAt(from, reports, n - 1).listed
  }

  /** Each hop is its report's, from where the one before it ended. */
  ghost predicate Chained(from: Version, reports: seq<Report>, hops: seq<Hop>) {
    && |hops| == |reports|
    && forall i :: 0 <= i < |hops| ==>
         && hops[i].from == (if i == 0 then from else hops[i - 1].to) && hops[i].to == reports[i].target
         && hops[i].score == reports[i].score && hops[i].verdict == reports[i].verdict
         && hops[i].notAssessed == reports[i].notAssessed
  }

  lemma {:induction false} HopsChained(from: Version, reports: seq<Report>, hops: seq<Hop>)
    requires |hops| == |reports| && forall i :: 0 <= i < |reports| ==> hops[i] == HopAt(from, reports, i).hop
    ensures Chained(from, reports, hops)
  {
    forall i | 0 <= i < |hops|
      ensures hops[i].from == HopFrom(from, reports, i) && hops[i].to == reports[i].target
      ensures hops[i].score == reports[i].score && hops[i].verdict == reports[i].verdict
      ensures hops[i].notAssessed == reports[i].notAssessed
    {
      var start := Acc(NewHop(HopFrom(from, reports, i), reports[i]), ListedAt(from, reports, i));
      SameHeader(start, reports[i].findings, |reports[i].findings|);
    }
  }

  method PlanReports(from: Version, reports: seq<Report>) returns (hops: seq<Hop>)
    ensures Chained(from, reports, hops)
    ensures forall i :: 0 <= i < |reports| ==> hops[i] == HopAt(from, reports, i).hop
    ensures AllUnique(reports) ==> forall i :: 0 <= i < |reports| ==> hops[i] == HopOf(from, reports, i)
    ensures AllUnique(reports) ==> forall i :: 0 <= i < |reports| ==> PartsRight(reports, i, hops[i])
    ensures AllUnique(reports) ==>
              forall i, key :: 0 <= i < |reports| ==> (Lists(hops[i], key) <==> i == First(reports, |reports|, key))
  {
    hops := [];
    var listed: Listed := map[];
    var at := from;
    for i := 0 to |reports|
      invariant |hops| == i && at == HopFrom(from, reports, i) && listed == ListedAt(from, reports, i)
      invariant forall j :: 0 <= j < i ==> hops[j] == HopAt(from, reports, j).hop
    {
      var r := reports[i];
      var h := NewHop(at, r);
      ghost var start := Acc(h, listed);
      for j := 0 to |r.findings|
        invariant Acc(h, listed) == AddFindings(start, r.findings, j) && h.to == r.target
      {
        var f := r.findings[j];
        var key := KeyOf(f);
        if key == UPGRADE_PATH {
          continue;
        }
        if key !in listed {
          h := h.(findings := h.findings + [f]);
          listed := listed[key := Seen(r.target, f.severity)];
        } else {
          var prev := listed[key];
          if prev.sev != f.severity {
            h := h.(changed := h.changed + [FindingRef(key, f.severity, Had(prev.sev), f.title, prev.since)]);
          } else {
            h := h.(carried := h.carried + [FindingRef(key, f.severity, Unset, f.title, prev.since)]);
          }
          listed := listed[key := Seen(prev.since, f.severity)];
        }
      }
      hops := hops + [h];
      at := r.target;
    }
    HopsChained(from, reports, hops);
    if AllUnique(reports) {
      forall i | 0 <= i < |reports|
        ensures hops[i] == HopOf(from, reports, i) && PartsRight(reports, i, hops[i])
      {
        HopReadsReports(from, reports, i);
        HopPartsRight(from, reports, i);
      }
      forall i, key | 0 <= i < |reports|
        ensures Lists(hops[i], key) <==> i == First(reports, |reports|, key)
      {
        ListedExactlyOnce(from, reports, i, key);
      }
    }
  }

  /* ---------- what the hops say of the reports ---------- */

  /** A key, other than the upgrade path's own, of one of the report's findings. */
  predicate Has(r: Report, key: string) {
    key != UPGRADE_PATH && exists i :: 0 <= i < |r.findings| && KeyOf(r.findings[i]) == key
  }

  ghost predicate UniqueKeys(fs: seq<Finding>) {
    forall i, j :: 0 <= i < j < |fs| ==> KeyOf(fs[i]) != KeyOf(fs[j])
  }

  ghost function SeverityIn(r: Report, key: string): Severity
    requires Has(r, key)
  {
    var i :| 0 <= i < |r.findings| && KeyOf(r.findings[i]) == key;
    r.findings[i].severity
  }

  /** The first report with the key, before the n-th; n for none. */
  function First(reports: seq<Report>, n: nat, key: string): (i: nat)
    requires n <= |reports|
    ensures i <= n
  {
    if n == 0 then 0
    else
      var i := First(reports, n - 1, key);
      if i < n - 1 || Has(reports[n - 1], key) then i else n
  }

  lemma {:induction false} FirstIs(reports: seq<Report>, n: nat, key: string)
    requires n <= |reports|
    ensures First(reports, n, key) < n ==> Has(reports[First(reports, n, key)], key)
    ensures forall j :: 0 <= j < First(reports, n, key) ==> !Has(reports[j], key)
  {
    if n != 0 {
      FirstIs(reports, n - 1, key);
    }
  }

  predicate NoneFrom(reports: seq<Report>, i: nat, n: nat, key: string)
    requires n <= |reports|
  {
    forall j :: i <= j < n ==> !Has(reports[j], key)
  }

  /** The last one, plus one; 0 for none. */
  function Last(reports: seq<Report>, n: nat, key: string): (i: nat)
    requires n <= |reports|
    ensures i <= n && (i > 0 ==> Has(reports[i - 1], key)) && (i > 0 <==> First(reports, n, key) < n)
    ensures NoneFrom(reports, i, n, key)
  {
    if n == 0 then 0 else if Has(reports[n - 1], key) then n else Last(reports, n - 1, key)
  }

  /** The reports, not the loop, say what was seen of a key before the n-th. */
  ghost function Before(reports: seq<Report>, n: nat, key: string): Seen
    requires n <= |reports| && Last(reports, n, key) > 0
  {
    Seen(reports[First(reports, n, key)].target, SeverityIn(reports[Last(reports, n, key) - 1], key))
  }

  /** What a finding is to a hop: the upgrade path's own, new, of another severity
      than it last had, or as it was. */
  datatype Mark = Path | New | Moved(prev: Seen) | Same(prev: Seen)

  /** The mark the earlier reports give it. */
  ghost function MarkOf(reports: seq<Report>, n: nat, f: Finding): Mark
    requires n <= |reports|
  {
    var key := KeyOf(f);
    if key == UPGRADE_PATH then Path
    else if Last(reports, n, key) == 0 then New
    else
      var prev := Before(reports, n, key);
      if prev.sev != f.severity then Moved(prev) else Same(prev)
  }

  ghost function ByReports(reports: seq<Report>, n: nat): Finding -> Mark
    requires n <= |reports|
  {
    f => MarkOf(reports, n, f)
  }

  /** The mark the listed map gives it. */
  function MarkIn(listed: Listed, f: Finding): Mark {
    var key := KeyOf(f);
    if key == UPGRADE_PATH then Path
    else if key !in listed then New
    else if listed[key].sev != f.severity then Moved(listed[key]) else Same(listed[key])
  }

  /** The new ones among the first m findings. */
  function NewOf(mark: Finding -> Mark, fs: seq<Finding>, m: nat): seq<Finding>
    requires m <= |fs|
  {
    if m == 0 then [] else NewOf(mark, fs, m - 1) + (if mark(fs[m - 1]).New? then [fs[m - 1]] else [])
  }

  function ChangedRef(f: Finding, prev: Seen): FindingRef {
    FindingRef(KeyOf(f), f.severity, Had(prev.sev), f.title, prev.since)
  }

  function CarriedRef(f: Finding, prev: Seen): FindingRef {
    FindingRef(KeyOf(f), f.severity, Unset, f.title, prev.since)
  }

  /** References to those whose severity moved, with the one they had. */
  function ChangedOf(mark: Finding -> Mark, fs: seq<Finding>, m: nat): seq<FindingRef>
    requires m <= |fs|
  {
    if m == 0 then []
    else
      ChangedOf(mark, fs, m - 1) +
      (if mark(fs[m - 1]).Moved? then [ChangedRef(fs[m - 1], mark(fs[m - 1]).prev)] else [])
  }

  /** References to the others. */
  function CarriedOf(mark: Finding -> Mark, fs: seq<Finding>, m: nat): seq<FindingRef>
    requires m <= |fs|
  {
    if m == 0 then []
    else
      CarriedOf(mark, fs, m - 1) +
      (if mark(fs[m - 1]).Same? then [CarriedRef(fs[m - 1], mark(fs[m - 1]).prev)] else [])
  }

  /** What is listed matches the reports read so far. */
  ghost predicate Tracks(listed: Listed, reports: seq<Report>, n: nat)
    requires n <= |reports|
  {
    forall key :: TracksKey(listed, reports, n, key)
  }

  ghost predicate TracksKey(listed: Listed, reports: seq<Report>, n: nat, key: string)
    requires n <= |reports|
  {
    (key in listed <==> Last(reports, n, key) > 0) && (key in listed ==> listed[key] == Before(reports, n, key))
  }

  /** A key none of the first m findings has stays listed as it was. */
  lemma {:induction false} Untouched(start: Acc, fs: seq<Finding>, m: nat, key: string)
    requires m <= |fs| && forall i :: 0 <= i < m ==> KeyOf(fs[i]) != key
    ensures var listed := AddFindings(start, fs, m).listed;
            (key in listed <==> key in start.listed) && (key in listed ==> listed[key] == start.listed[key])
  {
    if m != 0 {
      Untouched(start, fs, m - 1, key);
    }
  }

  lemma {:induction false} SameHeader(start: Acc, fs: seq<Finding>, m: nat)
    requires m <= |fs|
    ensures var h := AddFindings(start, fs, m).hop;
            h == start.hop.(findings := h.findings, changed := h.changed, carried := h.carried)
  {
    if m != 0 {
      SameHeader(start, fs, m - 1);
    }
  }

  lemma {:induction false} OneFinding(acc: Acc, f: Finding)
    ensures var (h, g, mark) := (acc.hop, AddFinding(acc, f).hop, MarkIn(acc.listed, f));
            && g.findings == h.findings + (if mark.New? then [f] else [])
            && g.changed == h.changed + (if mark.Moved? then [ChangedRef(f, mark.prev)] else [])
            && g.carried == h.carried + (if mark.Same? then [CarriedRef(f, mark.prev)] else [])
  {
  }

  /** What the findings before it list does not change a finding's mark. */
  lemma {:induction false} MarkStays(start: Acc, fs: seq<Finding>, m: nat)
    requires m < |fs| && UniqueKeys(fs)
    ensures MarkIn(AddFindings(start, fs, m).listed, fs[m]) == MarkIn(start.listed, fs[m])
  {
    Untouched(start, fs, m, KeyOf(fs[m]));
  }

  /** The parts of a hop are those of the first m findings. */
  ghost predicate SortedTo(h: Hop, mark: Finding -> Mark, fs: seq<Finding>, m: nat)
    requires m <= |fs|
  {
    h.findings == NewOf(mark, fs, m) && h.changed == ChangedOf(mark, fs, m) && h.carried == CarriedOf(mark, fs, m)
  }

  ghost predicate Marks(mark: Finding -> Mark, listed: Listed, fs: seq<Finding>) {
    forall i :: 0 <= i < |fs| ==> mark(fs[i]) == MarkIn(listed, fs[i])
  }

  lemma {:induction false} SortedNext(acc: Acc, mark: Finding -> Mark, fs: seq<Finding>, m: nat)
    requires m < |fs| && SortedTo(acc.hop, mark, fs, m) && MarkIn(acc.listed, fs[m]) == mark(fs[m])
    ensures SortedTo(AddFinding(acc, fs[m]).hop, mark, fs, m + 1)
  {
    OneFinding(acc, fs[m]);
  }

  lemma {:induction false} HopNext(start: Acc, fs: seq<Finding>, m: nat, mark: Finding -> Mark)
    requires m < |fs| && UniqueKeys(fs) && Marks(mark, start.listed, fs)
    requires SortedTo(AddFindings(start, fs, m).hop, mark, fs, m)
    ensures SortedTo(AddFindings(start, fs, m + 1).hop, mark, fs, m + 1)
  {
    MarkStays(start, fs, m);
    SortedNext(AddFindings(start, fs, m), mark, fs, m);
  }

  /** The loop sorts a report's findings by what was listed before it. */
  lemma {:induction false} HopSoFar(start: Acc, fs: seq<Finding>, m: nat, mark: Finding -> Mark)
    requires m <= |fs| && UniqueKeys(fs)
    requires start.hop.findings == [] && start.hop.changed == [] && start.hop.carried == []
    requires Marks(mark, start.listed, fs)
    ensures SortedTo(AddFindings(start, fs, m).hop, mark, fs, m)
  {
    if m != 0 {
      HopSoFar(start, fs, m - 1, mark);
      HopNext(start, fs, m - 1, mark);
    }
  }

  /* ---------- over the whole plan ---------- */

  /** A finding of one key alone leaves that key listed as of this hop. */
  lemma {:induction false} Touched(start: Acc, fs: seq<Finding>, i: nat, m: nat)
    requires i < m <= |fs| && KeyOf(fs[i]) != UPGRADE_PATH
    requires forall j :: 0 <= j < |fs| && j != i ==> KeyOf(fs[j]) != KeyOf(fs[i])
    ensures var (key, listed) := (KeyOf(fs[i]), AddFindings(start, fs, m).listed);
            key in listed &&
            listed[key] == Seen(if key in start.listed then start.listed[key].since else start.hop.to, fs[i].severity)
  {
    if m == i + 1 {
      Untouched(start, fs, i, KeyOf(fs[i]));
      SameHeader(start, fs, i);
    } else {
      Touched(start, fs, i, m - 1);
    }
  }

  lemma {:induction false} TracksHere(reports: seq<Report>, n: nat, start: Acc, key: string)
    requires n < |reports| && UniqueKeys(reports[n].findings) && Has(reports[n], key)
    requires TracksKey(start.listed, reports, n, key) && start.hop.to == reports[n].target
    ensures TracksKey(AddFindings(start, reports[n].findings, |reports[n].findings|).listed, reports, n + 1, key)
  {
    var fs := reports[n].findings;
    var i :| 0 <= i < |fs| && KeyOf(fs[i]) == key;
    Touched(start, fs, i, |fs|);
    assert SeverityIn(reports[n], key) == fs[i].severity;
  }

  lemma {:induction false} TracksElsewhere(reports: seq<Report>, n: nat, start: Acc, key: string)
    requires n < |reports| && !Has(reports[n], key) && TracksKey(start.listed, reports, n, key)
    ensures TracksKey(AddFindings(start, reports[n].findings, |reports[n].findings|).listed, reports, n + 1, key)
  {
    if key == UPGRADE_PATH {
      NotListed(start, reports[n].findings, |reports[n].findings|);
    } else {
      Untouched(start, reports[n].findings, |reports[n].findings|, key);
    }
  }

  lemma {:induction false} NotListed(start: Acc, fs: seq<Finding>, m: nat)
    requires m <= |fs|
    ensures var listed := AddFindings(start, fs, m).listed;
            (UPGRADE_PATH in listed <==> UPGRADE_PATH in start.listed) &&
            (UPGRADE_PATH in listed ==> listed[UPGRADE_PATH] == start.listed[UPGRADE_PATH])
  {
    if m != 0 {
      NotListed(start, fs, m - 1);
    }
  }

  ghost predicate AllUnique(reports: seq<Report>) {
    forall r :: r in reports ==> UniqueKeys(r.findings)
  }

  lemma {:induction false} TracksNext(from: Version, reports: seq<Report>, n: nat, key: string)
    requires n < |reports| && UniqueKeys(reports[n].findings) && TracksKey(ListedAt(from, reports, n), reports, n, key)
    ensures TracksKey(ListedAt(from, reports, n + 1), reports, n + 1, key)
  {
    var start := Acc(NewHop(HopFrom(from, reports, n), reports[n]), ListedAt(from, reports, n));
    if Has(reports[n], key) {
      TracksHere(reports, n, start, key);
    } else {
      TracksElsewhere(reports, n, start, key);
    }
  }

  lemma {:induction false} ListedTracks(from: Version, reports: seq<Report>, n: nat)
    requires n <= |reports| && AllUnique(reports)
    ensures Tracks(ListedAt(from, reports, n), reports, n)
  {
    if n != 0 {
      ListedTracks(from, reports, n - 1);
      forall key
        ensures TracksKey(ListedAt(from, reports, n), reports, n, key)
      {
        assert TracksKey(ListedAt(from, reports, n - 1), reports, n - 1, key);
        TracksNext(from, reports, n - 1, key);
      }
    }
  }

  /** The n-th hop, from the reports alone: it lists what no earlier report has, and
      refers to the rest with the severity it last had and the hop that lists it. */
  ghost function HopOf(from: Version, reports: seq<Report>, n: nat): Hop
    requires n < |reports|
  {
    var (r, m, mark) := (reports[n], |reports[n].findings|, ByReports(reports, n));
    Hop(HopFrom(from, reports, n), r.target, r.score, r.verdict, NewOf(mark, r.findings, m),
        ChangedOf(mark, r.findings, m), CarriedOf(mark, r.findings, m), r.notAssessed)
  }

  /** Every hop the loop builds is the one the reports say. */
  lemma {:induction false} HopReadsReports(from: Version, reports: seq<Report>, n: nat)
    requires n < |reports| && AllUnique(reports)
    ensures HopAt(from, reports, n).hop == HopOf(from, reports, n)
  {
    ListedTracks(from, reports, n);
    var start := Acc(NewHop(HopFrom(from, reports, n), reports[n]), ListedAt(from, reports, n));
    var fs := reports[n].findings;
    forall i | 0 <= i < |fs|
      ensures ByReports(reports, n)(fs[i]) == MarkIn(start.listed, fs[i])
    {
      assert TracksKey(start.listed, reports, n, KeyOf(fs[i]));
    }
    HopSoFar(start, fs, |fs|, ByReports(reports, n));
    SameHeader(start, fs, |fs|);
  }

  lemma {:induction false} NewOfIs(mark: Finding -> Mark, fs: seq<Finding>, m: nat, f: Finding)
    requires m <= |fs|
    ensures f in NewOf(mark, fs, m) <==> mark(f).New? && exists i :: 0 <= i < m && fs[i] == f
  {
    if m != 0 {
      NewOfIs(mark, fs, m - 1, f);
    }
  }

  /** Two findings listed in full at one hop have different keys. */
  lemma {:induction false} NewOfUnique(mark: Finding -> Mark, fs: seq<Finding>, m: nat)
    requires m <= |fs| && UniqueKeys(fs)
    ensures UniqueKeys(NewOf(mark, fs, m))
  {
    if m != 0 {
      NewOfUnique(mark, fs, m - 1);
      var before := NewOf(mark, fs, m - 1);
      forall p | 0 <= p < |before|
        ensures KeyOf(before[p]) != KeyOf(fs[m - 1])
      {
        NewOfIs(mark, fs, m - 1, before[p]);
      }
    }
  }

  ghost predicate Lists(h: Hop, key: string) {
    exists p :: 0 <= p < |h.findings| && KeyOf(h.findings[p]) == key
  }

  /** Each finding is listed in full exactly once, at the first hop that has it:
      by one hop alone, and once by that one. */
  lemma {:induction false} ListedExactlyOnce(from: Version, reports: seq<Report>, n: nat, key: string)
    requires n < |reports| && AllUnique(reports)
    ensures Lists(HopAt(from, reports, n).hop, key) <==> n == First(reports, |reports|, key)
    ensures UniqueKeys(HopAt(from, reports, n).hop.findings)
  {
    var fs, mark := reports[n].findings, ByReports(reports, n);
    HopReadsReports(from, reports, n);
    NewOfUnique(mark, fs, |fs|);
    FirstStays(reports, n, key);
    var news := NewOf(mark, fs, |fs|);
    if p :| 0 <= p < |news| && KeyOf(news[p]) == key {
      NewOfIs(mark, fs, |fs|, news[p]);
    }
    if Has(reports[n], key) && Last(reports, n, key) == 0 {
      var i :| 0 <= i < |fs| && KeyOf(fs[i]) == key;
      NewOfIs(mark, fs, |fs|, fs[i]);
      assert fs[i] in news;
    }
  }

  /** n is the first report with the key exactly when it has it and none before does. */
  lemma {:induction false} FirstStays(reports: seq<Report>, n: nat, key: string)
    requires n < |reports|
    ensures n == First(reports, |reports|, key) <==> Has(reports[n], key) && Last(reports, n, key) == 0
  {
    FirstIs(reports, |reports|, key);
    FirstIs(reports, n, key);
  }

  /* ---------- a hop's severities ---------- */

  type Severities = map<string, Severity>

  function FromFindings(fs: seq<Finding>, n: nat): Severities
    requires n <= |fs|
  {
    if n == 0 then map[] else FromFindings(fs, n - 1)[KeyOf(fs[n - 1]) := fs[n - 1].severity]
  }

  function FromRefs(base: Severities, refs: seq<FindingRef>, n: nat): Severities
    requires n <= |refs|
  {
    if n == 0 then base else FromRefs(base, refs, n - 1)[refs[n - 1].key := refs[n - 1].severity]
  }

  function SeveritiesOf(h: Hop): Severities {
    FromRefs(FromRefs(FromFindings(h.findings, |h.findings|), h.changed, |h.changed|), h.carried, |h.carried|)
  }

  /** The severities of a report, key for key, but for the upgrade path. */
  ghost predicate Rebuilds(m: Severities, r: Report) {
    forall key :: RebuildsKey(m, r, key)
  }

  ghost predicate RebuildsKey(m: Severities, r: Report, key: string) {
    (key in m <==> Has(r, key)) && (key in m ==> m[key] == SeverityIn(r, key))
  }

  method CollectSeverities(h: Hop) returns (out: Severities)
    ensures out == SeveritiesOf(h)
    ensures forall from, reports, n: nat ::
              n < |reports| && AllUnique(reports) && h == HopAt(from, reports, n).hop ==> Rebuilds(out, reports[n])
  {
    out := map[];
    for i := 0 to |h.findings|
      invariant out == FromFindings(h.findings, i)
    {
      out := out[KeyOf(h.findings[i]) := h.findings[i].severity];
    }
    ghost var base := out;
    for i := 0 to |h.changed|
      invariant out == FromRefs(base, h.changed, i)
    {
      out := out[h.changed[i].key := h.changed[i].severity];
    }
    base := out;
    for i := 0 to |h.carried|
      invariant out == FromRefs(base, h.carried, i)
    {
      out := out[h.carried[i].key := h.carried[i].severity];
    }
    forall from, reports, n: nat | n < |reports| && AllUnique(reports) && h == HopAt(from, reports, n).hop
      ensures Rebuilds(out, reports[n])
    {
      forall key
        ensures RebuildsKey(out, reports[n], key)
      {
        SeveritiesRebuild(from, reports, n, key);
      }
    }
  }

  ghost predicate FindingOf(fs: seq<Finding>, key: string, sev: Severity) {
    exists f :: f in fs && KeyOf(f) == key && f.severity == sev
  }

  ghost predicate RefOf(refs: seq<FindingRef>, key: string, sev: Severity) {
    exists r :: r in refs && r.key == key && r.severity == sev
  }

  lemma {:induction false} FromFindingsIs(fs: seq<Finding>, n: nat, key: string, sev: Severity)
    requires n <= |fs|
    ensures var m := FromFindings(fs, n);
            (key in m ==> FindingOf(fs[..n], key, m[key])) && (key !in m ==> !FindingOf(fs[..n], key, sev))
  {
    if n != 0 {
      FromFindingsIs(fs, n - 1, key, sev);
      assert fs[..n] == fs[..n - 1] + [fs[n - 1]];
      SnocFinding(fs[..n - 1], fs[n - 1], key, sev);
      if key in FromFindings(fs, n) {
        SnocFinding(fs[..n - 1], fs[n - 1], key, FromFindings(fs, n)[key]);
      }
    }
  }

  lemma {:induction false} FromRefsIs(base: Severities, refs: seq<FindingRef>, n: nat, key: string, sev: Severity)
    requires n <= |refs|
    ensures var m := FromRefs(base, refs, n);
            && (key in m ==> RefOf(refs[..n], key, m[key]) || (key in base && m[key] == base[key]))
            && (key !in m ==> key !in base && !RefOf(refs[..n], key, sev))
  {
    if n != 0 {
      FromRefsIs(base, refs, n - 1, key, sev);
      assert refs[..n] == refs[..n - 1] + [refs[n - 1]];
      SnocRef(refs[..n - 1], refs[n - 1], key, sev);
      if key in FromRefs(base, refs, n) {
        SnocRef(refs[..n - 1], refs[n - 1], key, FromRefs(base, refs, n)[key]);
      }
    }
  }

  /** The hop has the finding, new or referenced, at this severity. */
  ghost predicate InHop(h: Hop, key: string, sev: Severity) {
    FindingOf(h.findings, key, sev) || RefOf(h.changed, key, sev) || RefOf(h.carried, key, sev)
  }

  lemma {:induction false} SeveritiesAre(h: Hop, key: string, sev: Severity)
    ensures var m := SeveritiesOf(h);
            (key in m ==> InHop(h, key, m[key])) && (key !in m ==> !InHop(h, key, sev))
  {
    var a := FromFindings(h.findings, |h.findings|);
    var b := FromRefs(a, h.changed, |h.changed|);
    FromFindingsIs(h.findings, |h.findings|, key, sev);
    FromRefsIs(a, h.changed, |h.changed|, key, sev);
    FromRefsIs(b, h.carried, |h.carried|, key, sev);
    assert h.findings[..|h.findings|] == h.findings && h.changed[..|h.changed|] == h.changed &&
           h.carried[..|h.carried|] == h.carried;
  }

  lemma {:induction false} SnocFinding(fs: seq<Finding>, f: Finding, key: string, sev: Severity)
    ensures FindingOf(fs + [f], key, sev) <==> FindingOf(fs, key, sev) || (KeyOf(f) == key && f.severity == sev)
  {
    if KeyOf(f) == key && f.severity == sev {
      assert f in fs + [f];
    }
  }

  lemma {:induction false} SnocRef(refs: seq<FindingRef>, r: FindingRef, key: string, sev: Severity)
    ensures RefOf(refs + [r], key, sev) <==> RefOf(refs, key, sev) || (r.key == key && r.severity == sev)
  {
    if r.key == key && r.severity == sev {
      assert r in refs + [r];
    }
  }

  ghost predicate IsAt(fs: seq<Finding>, i: nat, key: string, sev: Severity)
    requires i < |fs|
  {
    KeyOf(fs[i]) == key && fs[i].severity == sev
  }

  lemma {:induction false} NewHas(mark: Finding -> Mark, fs: seq<Finding>, m: nat, key: string, sev: Severity)
    requires m <= |fs|
    ensures FindingOf(NewOf(mark, fs, m), key, sev) <==> exists i :: 0 <= i < m && IsAt(fs, i, key, sev) && mark(fs[i]).New?
  {
    if m != 0 {
      NewHas(mark, fs, m - 1, key, sev);
      assert IsAt(fs, m - 1, key, sev) <==> KeyOf(fs[m - 1]) == key && fs[m - 1].severity == sev;
      if mark(fs[m - 1]).New? {
        SnocFinding(NewOf(mark, fs, m - 1), fs[m - 1], key, sev);
      }
    }
  }

  lemma {:induction false} ChangedHas(mark: Finding -> Mark, fs: seq<Finding>, m: nat, key: string, sev: Severity)
    requires m <= |fs|
    ensures RefOf(ChangedOf(mark, fs, m), key, sev) <==> exists i :: 0 <= i < m && IsAt(fs, i, key, sev) && mark(fs[i]).Moved?
  {
    if m != 0 {
      ChangedHas(mark, fs, m - 1, key, sev);
      assert IsAt(fs, m - 1, key, sev) <==> KeyOf(fs[m - 1]) == key && fs[m - 1].severity == sev;
      if mark(fs[m - 1]).Moved? {
        SnocRef(ChangedOf(mark, fs, m - 1), ChangedRef(fs[m - 1], mark(fs[m - 1]).prev), key, sev);
      }
    }
  }

  lemma {:induction false} CarriedHas(mark: Finding -> Mark, fs: seq<Finding>, m: nat, key: string, sev: Severity)
    requires m <= |fs|
    ensures RefOf(CarriedOf(mark, fs, m), key, sev) <==> exists i :: 0 <= i < m && IsAt(fs, i, key, sev) && mark(fs[i]).Same?
  {
    if m != 0 {
      CarriedHas(mark, fs, m - 1, key, sev);
      assert IsAt(fs, m - 1, key, sev) <==> KeyOf(fs[m - 1]) == key && fs[m - 1].severity == sev;
      if mark(fs[m - 1]).Same? {
        SnocRef(CarriedOf(mark, fs, m - 1), CarriedRef(fs[m - 1], mark(fs[m - 1]).prev), key, sev);
      }
    }
  }

  ghost predicate Unmarked(mark: Finding -> Mark, fs: seq<Finding>, key: string, sev: Severity) {
    exists i :: 0 <= i < |fs| && IsAt(fs, i, key, sev) && !mark(fs[i]).Path?
  }

  /** Every finding of a report, but the upgrade path's, is in a part of its hop. */
  lemma {:induction false} PartsAreReport(h: Hop, mark: Finding -> Mark, fs: seq<Finding>, key: string, sev: Severity)
    requires h.findings == NewOf(mark, fs, |fs|)
    requires h.changed == ChangedOf(mark, fs, |fs|) && h.carried == CarriedOf(mark, fs, |fs|)
    ensures InHop(h, key, sev) <==> Unmarked(mark, fs, key, sev)
  {
    NewHas(mark, fs, |fs|, key, sev);
    ChangedHas(mark, fs, |fs|, key, sev);
    CarriedHas(mark, fs, |fs|, key, sev);
    if i :| 0 <= i < |fs| && IsAt(fs, i, key, sev) && !mark(fs[i]).Path? {
      assert mark(fs[i]).New? || mark(fs[i]).Moved? || mark(fs[i]).Same?;
    }
  }

  lemma {:induction false} UnmarkedIs(reports: seq<Report>, n: nat, fs: seq<Finding>, key: string, sev: Severity)
    requires n <= |reports|
    ensures Unmarked(ByReports(reports, n), fs, key, sev) <==>
            key != UPGRADE_PATH && exists i :: 0 <= i < |fs| && IsAt(fs, i, key, sev)
  {
  }

  lemma {:induction false} HopIsReport(from: Version, reports: seq<Report>, n: nat, key: string, sev: Severity)
    requires n < |reports| && AllUnique(reports)
    ensures InHop(HopAt(from, reports, n).hop, key, sev) <==>
            key != UPGRADE_PATH && exists i :: 0 <= i < |reports[n].findings| && IsAt(reports[n].findings, i, key, sev)
  {
    HopReadsReports(from, reports, n);
    PartsAreReport(HopAt(from, reports, n).hop, ByReports(reports, n), reports[n].findings, key, sev);
    UnmarkedIs(reports, n, reports[n].findings, key, sev);
  }

  lemma {:induction false} OneSeverity(r: Report, key: string, sev: Severity)
    requires UniqueKeys(r.findings) && key != UPGRADE_PATH
    requires exists i :: 0 <= i < |r.findings| && IsAt(r.findings, i, key, sev)
    ensures Has(r, key) && SeverityIn(r, key) == sev
  {
    var i :| 0 <= i < |r.findings| && IsAt(r.findings, i, key, sev);
    assert KeyOf(r.findings[i]) == key;
  }

  /** The severities of each hop rebuild its report's, but for the upgrade path. */
  lemma {:induction false} SeveritiesRebuild(from: Version, reports: seq<Report>, n: nat, key: string)
    requires n < |reports| && AllUnique(reports)
    ensures RebuildsKey(SeveritiesOf(HopAt(from, reports, n).hop), reports[n], key)
  {
    var r, h := reports[n], HopAt(from, reports, n).hop;
    var sev := if Has(r, key) then SeverityIn(r, key) else Info;
    SeveritiesAre(h, key, sev);
    HopIsReport(from, reports, n, key, sev);
    if key in SeveritiesOf(h) {
      HopIsReport(from, reports, n, key, SeveritiesOf(h)[key]);
      OneSeverity(r, key, SeveritiesOf(h)[key]);
    }
    if Has(r, key) {
      var i :| 0 <= i < |r.findings| && KeyOf(r.findings[i]) == key && r.findings[i].severity == sev;
      assert IsAt(r.findings, i, key, sev);
    }
  }

  /* ---------- what a hop's parts say ---------- */

  /** The first report with the key before the n-th is this target's, and the last one
      gives it this severity. */
  ghost predicate SeenBefore(reports: seq<Report>, n: nat, key: string, since: Version, sev: Severity)
    requires n <= |reports|
  {
    exists p: nat, q: nat ::
      && p <= q < n && Has(reports[p], key) && NoneFrom(reports, 0, p, key) && since == reports[p].target
      && FindingOf(reports[q].findings, key, sev) && NoneFrom(reports, q + 1, n, key)
  }

  /** A reference to a finding of the n-th report that last had this severity. */
  ghost predicate Refers(reports: seq<Report>, n: nat, r: FindingRef, had: Severity)
    requires n < |reports|
  {
    && r.key != UPGRADE_PATH && SeenBefore(reports, n, r.key, r.since, had)
    && exists f :: f in reports[n].findings && KeyOf(f) == r.key && f.severity == r.severity && f.title == r.title
  }

  /** A finding is listed in full if no earlier report has it, as changed if its
      severity is not the one it last had, else as carried; none is left out. */
  ghost predicate PartsRight(reports: seq<Report>, n: nat, h: Hop)
    requires n < |reports|
  {
    && (forall f :: f in h.findings ==>
          f in reports[n].findings && KeyOf(f) != UPGRADE_PATH && NoneFrom(reports, 0, n, KeyOf(f)))
    && (forall r :: r in h.changed ==> r.was.Had? && r.was.sev != r.severity && Refers(reports, n, r, r.was.sev))
    && (forall r :: r in h.carried ==> r.was.Unset? && Refers(reports, n, r, r.severity))
    && (forall f :: f in reports[n].findings && KeyOf(f) != UPGRADE_PATH ==> InHop(h, KeyOf(f), f.severity))
  }

  lemma {:induction false} ChangedFrom(mark: Finding -> Mark, fs: seq<Finding>, m: nat, r: FindingRef) returns (f: Finding)
    requires m <= |fs| && r in ChangedOf(mark, fs, m)
    ensures f in fs && mark(f).Moved? && r == ChangedRef(f, mark(f).prev)
  {
    if r in ChangedOf(mark, fs, m - 1) {
      f := ChangedFrom(mark, fs, m - 1, r);
    } else {
      f := fs[m - 1];
    }
  }

  lemma {:induction false} CarriedFrom(mark: Finding -> Mark, fs: seq<Finding>, m: nat, r: FindingRef) returns (f: Finding)
    requires m <= |fs| && r in CarriedOf(mark, fs, m)
    ensures f in fs && mark(f).Same? && r == CarriedRef(f, mark(f).prev)
  {
    if r in CarriedOf(mark, fs, m - 1) {
      f := CarriedFrom(mark, fs, m - 1, r);
    } else {
      f := fs[m - 1];
    }
  }

  lemma {:induction false} BeforeIs(reports: seq<Report>, n: nat, key: string)
    requires n <= |reports| && Last(reports, n, key) > 0
    ensures SeenBefore(reports, n, key, Before(reports, n, key).since, Before(reports, n, key).sev)
  {
    var p, q := First(reports, n, key), Last(reports, n, key) - 1;
    FirstIs(reports, n, key);
    assert Has(reports[q], key) && NoneFrom(reports, 0, p, key) && NoneFrom(reports, q + 1, n, key);
    var i :| 0 <= i < |reports[q].findings| && KeyOf(reports[q].findings[i]) == key
             && reports[q].findings[i].severity == SeverityIn(reports[q], key);
    assert reports[q].findings[i] in reports[q].findings;
  }

  lemma {:induction false} RefIsRight(reports: seq<Report>, n: nat, f: Finding, r: FindingRef)
    requires n < |reports| && f in reports[n].findings && KeyOf(f) != UPGRADE_PATH && Last(reports, n, KeyOf(f)) > 0
    requires r.key == KeyOf(f) && r.severity == f.severity && r.title == f.title
    requires r.since == Before(reports, n, KeyOf(f)).since
    ensures Refers(reports, n, r, Before(reports, n, KeyOf(f)).sev)
  {
    BeforeIs(reports, n, KeyOf(f));
  }

  lemma {:induction false} ChangedIsRight(reports: seq<Report>, n: nat, r: FindingRef)
    requires n < |reports| && r in ChangedOf(ByReports(reports, n), reports[n].findings, |reports[n].findings|)
    ensures r.was.Had? && r.was.sev != r.severity && Refers(reports, n, r, r.was.sev)
  {
    var f := ChangedFrom(ByReports(reports, n), reports[n].findings, |reports[n].findings|, r);
    RefIsRight(reports, n, f, r);
  }

  lemma {:induction false} CarriedIsRight(reports: seq<Report>, n: nat, r: FindingRef)
    requires n < |reports| && r in CarriedOf(ByReports(reports, n), reports[n].findings, |reports[n].findings|)
    ensures r.was.Unset? && Refers(reports, n, r, r.severity)
  {
    var f := CarriedFrom(ByReports(reports, n), reports[n].findings, |reports[n].findings|, r);
    RefIsRight(reports, n, f, r);
  }

  lemma {:induction false} NotLeftOut(from: Version, reports: seq<Report>, n: nat, f: Finding)
    requires n < |reports| && AllUnique(reports) && f in reports[n].findings && KeyOf(f) != UPGRADE_PATH
    ensures InHop(HopAt(from, reports, n).hop, KeyOf(f), f.severity)
  {
    HopIsReport(from, reports, n, KeyOf(f), f.severity);
    var i :| 0 <= i < |reports[n].findings| && reports[n].findings[i] == f;
    assert IsAt(reports[n].findings, i, KeyOf(f), f.severity);
  }

  /** What each part of a planned hop says of the reports. */
  lemma {:induction false} HopPartsRight(from: Version, reports: seq<Report>, n: nat)
    requires n < |reports| && AllUnique(reports)
    ensures PartsRight(reports, n, HopAt(from, reports, n).hop)
  {
    var h, fs := HopAt(from, reports, n).hop, reports[n].findings;
    HopReadsReports(from, reports, n);
    forall f | f in h.findings
      ensures f in fs && KeyOf(f) != UPGRADE_PATH && NoneFrom(reports, 0, n, KeyOf(f))
    {
      NewOfIs(ByReports(reports, n), fs, |fs|, f);
    }
    forall r | r in h.changed
      ensures r.was.Had? && r.was.sev != r.severity && Refers(reports, n, r, r.was.sev)
    {
      ChangedIsRight(reports, n, r);
    }
    forall r | r in h.carried
      ensures r.was.Unset? && Refers(reports, n, r, r.severity)
    {
      CarriedIsRight(reports, n, r);
    }
    forall f | f in fs && KeyOf(f) != UPGRADE_PATH
      ensures InHop(h, KeyOf(f), f.severity)
    {
      NotLeftOut(from, reports, n, f);
    }
  }
}
