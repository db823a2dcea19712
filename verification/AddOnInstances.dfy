/**
 What the instances of one install say of its evidence, whatever the order and the
 repeats it was read in.
 */
module AddOnInstances {
  import opened Repeats
  import opened AddOnMatch

  /* ---------- the oldest ---------- */

  /** v is one of the versions and none of them is older; "" where there is none. */
  ghost predicate OldestAmong(less: Less, vs: set<string>, v: string) {
    if vs == {} then v == "" else v in vs && forall w :: w in vs ==> !less(w, v)
  }

  ghost function Given<T(!new)>(version: T -> string, xs: seq<T>): set<string> {
    set x | x in xs && version(x) != "" :: version(x)
  }

  lemma {:induction false} OldestGiven<T(!new)>(less: Less, version: T -> string, xs: seq<T>)
    ensures var v := Oldest(less, version, xs); if Given(version, xs) == {} then v == "" else v in Given(version, xs)
  {
    if xs != [] {
      var init, last := xs[..|xs| - 1], xs[|xs| - 1];
      assert xs == init + [last];
      OldestGiven(less, version, init);
      assert Given(version, xs) == Given(version, init) + (if version(last) != "" then {version(last)} else {});
    }
  }

  lemma {:induction false} OldestIs<T(!new)>(less: Less, version: T -> string, xs: seq<T>, versions: set<string>)
    requires StrictOn(less, versions) && VersionsIn(version, xs, versions)
    ensures OldestAmong(less, Given(version, xs), Oldest(less, version, xs))
  {
    OldestGiven(less, version, xs);
    OldestAbsorbs(less, version, xs, versions);
    forall w | w in Given(version, xs)
      ensures !less(w, Oldest(less, version, xs))
    {
      var x :| x in xs && version(x) == w && w != "";
      assert Older(less, Oldest(less, version, xs), version(x)) == Oldest(less, version, xs);
    }
  }

  /* ---------- one instance ---------- */

  ghost predicate HasSource(evs: set<Ev>, s: Source) {
    exists e :: e in evs && e.source == s
  }

  /** A chart over an image over labels over a chart reference over an IngressClass. */
  ghost predicate StrongestOf(evs: set<Ev>, s: Source) {
    s == if HasSource(evs, ChartSource) then ChartSource
         else if HasSource(evs, ImageSource) then ImageSource
         else if HasSource(evs, LabelSource) then LabelSource
         else if HasSource(evs, GitOpsSource) then GitOpsSource
         else ClassSource
  }

  /** The versions the releases give, or the others. */
  ghost function VersionsFrom(evs: set<Ev>, release: bool): set<string> {
    set e | e in evs && e.source.ChartSource? == release && e.version != "" :: e.version
  }

  /** The chart versions the chart references give, or the others. */
  ghost function ChartsFrom(evs: set<Ev>, gitops: bool): set<string> {
    set e | e in evs && e.source.GitOpsSource? == gitops && e.chart != "" :: e.chart
  }

  ghost function FirstOr(vs: set<string>, ws: set<string>): set<string> {
    if vs != {} then vs else ws
  }

  /** The instance of an install with this evidence: a release's version is
      authoritative, else the oldest the pods give; a release's chart version over a
      chart reference's; no namespace exactly for an IngressClass alone. */
  ghost predicate IsInstance(rules: Rules, at: Install, evs: set<Ev>, inst: Instance) {
    && inst.id == at.id && StrongestOf(evs, inst.source)
    && inst.namespaces == (if forall e :: e in evs ==> e.source.ClassSource? then [] else [at.ns])
    && OldestAmong(rules.less, FirstOr(VersionsFrom(evs, true), VersionsFrom(evs, false)), inst.version)
    && OldestAmong(rules.less, FirstOr(ChartsFrom(evs, false), ChartsFrom(evs, true)), inst.chart)
  }

  ghost predicate FromSomewhere(evs: seq<Ev>) {
    forall e :: e in evs ==> !e.source.Nowhere?
  }

  ghost predicate AllKnown(evs: seq<Ev>, versions: set<string>) {
    forall e :: e in evs ==> KnownEv(e, versions)
  }

  ghost function SetOf(evs: seq<Ev>): set<Ev> {
    set e | e in evs
  }

  lemma {:induction false} StrongestRight(evs: seq<Ev>)
    requires evs != [] && FromSomewhere(evs)
    ensures StrongestOf(SetOf(evs), Strongest(evs))
    ensures Strongest(evs).ClassSource? <==> forall e :: e in SetOf(evs) ==> e.source.ClassSource?
  {
    StrongestIs(evs);
    assert evs[0] in evs;
    forall s | HasSource(SetOf(evs), s)
      ensures Strength(s) <= Strength(Strongest(evs))
    {
    }
  }

  lemma {:induction false} VersionRight(rules: Rules, evs: seq<Ev>, versions: set<string>)
    requires StrictOn(rules.less, versions) && AllKnown(evs, versions)
    ensures var v := Or(Oldest(rules.less, AppVersionOf, evs), Oldest(rules.less, PodVersionOf, evs));
            OldestAmong(rules.less, FirstOr(VersionsFrom(SetOf(evs), true), VersionsFrom(SetOf(evs), false)), v)
  {
    OldestIs(rules.less, AppVersionOf, evs, versions);
    OldestIs(rules.less, PodVersionOf, evs, versions);
    assert Given(AppVersionOf, evs) == VersionsFrom(SetOf(evs), true);
    assert Given(PodVersionOf, evs) == VersionsFrom(SetOf(evs), false);
  }

  lemma {:induction false} ChartRight(rules: Rules, evs: seq<Ev>, versions: set<string>)
    requires StrictOn(rules.less, versions) && AllKnown(evs, versions)
    ensures var v := Or(Oldest(rules.less, ReleaseChartOf, evs), Oldest(rules.less, GitOpsChartOf, evs));
            OldestAmong(rules.less, FirstOr(ChartsFrom(SetOf(evs), false), ChartsFrom(SetOf(evs), true)), v)
  {
    OldestIs(rules.less, ReleaseChartOf, evs, versions);
    OldestIs(rules.less, GitOpsChartOf, evs, versions);
    assert Given(ReleaseChartOf, evs) == ChartsFrom(SetOf(evs), false);
    assert Given(GitOpsChartOf, evs) == ChartsFrom(SetOf(evs), true);
  }

  /** versionLess is a strict order on the versions this evidence gives. */
  ghost predicate Comparable(rules: Rules, evs: seq<Ev>) {
    exists versions :: StrictOn(rules.less, versions) && AllKnown(evs, versions)
  }

  lemma {:induction false} InstanceIs(rules: Rules, at: Install, evs: seq<Ev>)
    requires evs != [] && FromSomewhere(evs) && Comparable(rules, evs)
    ensures IsInstance(rules, at, SetOf(evs), InstanceOf(rules, at, evs))
  {
    var versions :| StrictOn(rules.less, versions) && AllKnown(evs, versions);
    StrongestRight(evs);
    VersionRight(rules, evs, versions);
    ChartRight(rules, evs, versions);
  }

  /* ---------- the one or two of an install ---------- */

  /** A release that gives a version speaks for its release line. */
  ghost predicate Speaks(e: Ev) {
    e.source.ChartSource? && e.version != ""
  }

  /** A version no release's line covers, where some release speaks for one. */
  ghost predicate OffLine(rules: Rules, evs: set<Ev>, e: Ev) {
    && !e.source.ChartSource? && e.version != "" && (exists r :: r in evs && Speaks(r))
    && forall r :: r in evs && Speaks(r) ==> rules.line(r.version) != rules.line(e.version)
  }

  ghost function OffLines(rules: Rules, evs: set<Ev>): set<Ev> {
    set e | e in evs && OffLine(rules, evs, e)
  }

  /** None without evidence; else the instance of the evidence on the releases' lines,
      and a second of the evidence on none of them where there is any. */
  ghost predicate AreInstances(rules: Rules, at: Install, evs: set<Ev>, insts: seq<Instance>) {
    var off := OffLines(rules, evs);
    if evs == {} then insts == []
    else
      && |insts| == (if off == {} then 1 else 2)
      && IsInstance(rules, at, evs - off, insts[0])
      && (off != {} ==> IsInstance(rules, at, off, insts[1]))
  }

  lemma {:induction false} OffLineIs(rules: Rules, evs: seq<Ev>, e: Ev)
    ensures OtherLine(rules, Lines(rules, evs), e) <==> OffLine(rules, SetOf(evs), e)
  {
    var lines := Lines(rules, evs);
    if OffLine(rules, SetOf(evs), e) {
      var r :| r in SetOf(evs) && Speaks(r);
      assert rules.line(r.version) in lines;
      if rules.line(e.version) in lines {
        var s :| s in evs && s.source.ChartSource? && s.version != "" && rules.line(s.version) == rules.line(e.version);
        assert s in SetOf(evs) && Speaks(s);
      }
    }
    if OtherLine(rules, lines, e) {
      var l :| l in lines;
      var s :| s in evs && s.source.ChartSource? && s.version != "" && rules.line(s.version) == l;
      assert s in SetOf(evs) && Speaks(s);
      forall r | r in SetOf(evs) && Speaks(r)
        ensures rules.line(r.version) != rules.line(e.version)
      {
        assert rules.line(r.version) in lines;
      }
    }
  }

  /** What the split keeps on one side. */
  lemma {:induction false} PartIs(rules: Rules, evs: seq<Ev>, other: bool)
    ensures var part := FlatMap(Keep(rules, Lines(rules, evs), other), evs);
            var off := OffLines(rules, SetOf(evs));
            SetOf(part) == (if other then off else SetOf(evs) - off) && forall e :: e in part ==> e in evs
  {
    var keep := Keep(rules, Lines(rules, evs), other);
    var part := FlatMap(keep, evs);
    forall e
      ensures e in part <==> e in evs && OffLine(rules, SetOf(evs), e) == other
    {
      OffLineIs(rules, evs, e);
      if e in part {
        var x := FlatMapFrom(keep, evs, e);
      }
      if e in evs && OffLine(rules, SetOf(evs), e) == other {
        FlatMapHas(keep, evs, e);
        assert e in keep(e);
      }
    }
  }

  lemma {:induction false} OnLineIsLeft(rules: Rules, evs: set<Ev>)
    requires evs != {}
    ensures evs - OffLines(rules, evs) != {}
  {
    var e :| e in evs;
    if OffLine(rules, evs, e) {
      var r :| r in evs && Speaks(r);
      assert r in evs - OffLines(rules, evs);
    } else {
      assert e in evs - OffLines(rules, evs);
    }
  }

  ghost function SideOf(rules: Rules, evs: set<Ev>, other: bool): set<Ev> {
    if other then OffLines(rules, evs) else evs - OffLines(rules, evs)
  }

  lemma {:induction false} SideInstance(rules: Rules, at: Install, evs: seq<Ev>, other: bool)
    requires FromSomewhere(evs) && Comparable(rules, evs)
    ensures var part := FlatMap(Keep(rules, Lines(rules, evs), other), evs);
            var side := SideOf(rules, SetOf(evs), other);
            (part == [] <==> side == {}) && (part != [] ==> IsInstance(rules, at, side, InstanceOf(rules, at, part)))
  {
    var part := FlatMap(Keep(rules, Lines(rules, evs), other), evs);
    PartIs(rules, evs, other);
    if part != [] {
      assert part[0] in SetOf(part);
      var versions :| StrictOn(rules.less, versions) && AllKnown(evs, versions);
      assert AllKnown(part, versions);
      InstanceIs(rules, at, part);
    }
  }

  /** The instances found are those of the evidence. */
  lemma {:induction false} InstancesAre(rules: Rules, at: Install, evs: seq<Ev>)
    requires FromSomewhere(evs) && Comparable(rules, evs)
    ensures AreInstances(rules, at, SetOf(evs), InstancesOf(rules, at, evs))
  {
    if evs != [] {
      assert evs[0] in SetOf(evs);
      OnLineIsLeft(rules, SetOf(evs));
      SideInstance(rules, at, evs, false);
      SideInstance(rules, at, evs, true);
    }
  }
}
