/**
 matchAddOns as it runs: one pass over each evidence list into maps, with the
 claims of an image settled once.
 */
module AddOnPass {
  import opened Basics
  import opened Ordering
  import opened Repeats
  import opened AddOnMatch
  import opened AddOnInstances
  import opened AddOnEvidence

  function Listed<K, V>(m: map<K, seq<V>>, k: K): seq<V> {
    if k in m then m[k] else []
  }

  /** The map files each value of the log under its key, and no key is empty. */
  ghost predicate Files<K(!new), V>(m: map<K, seq<V>>, log: seq<(K, V)>) {
    forall k :: Listed(m, k) == Under(k, log) && (k in m ==> m[k] != [])
  }

  method Add<K(==, !new), V>(m: map<K, seq<V>>, k: K, v: V, ghost log: seq<(K, V)>) returns (r: map<K, seq<V>>)
    requires Files(m, log)
    ensures Files(r, log + [(k, v)])
  {
    r := m[k := Listed(m, k) + [v]];
    forall j
      ensures Listed(r, j) == Under(j, log + [(k, v)])
    {
      UnderSnoc(j, log, (k, v));
    }
  }

  function Text<K>(m: map<K, string>, k: K): string {
    if k in m then m[k] else ""
  }

  lemma {:induction false} Grown<A>(log: seq<A>, more: seq<A>, j: nat)
    requires j < |more|
    ensures log + more[..j + 1] == log + more[..j] + [more[j]]
  {
  }

  /* ---------- the label and release maps ---------- */

  /** The oldest version under each key and entry of a log of claims. */
  ghost predicate Ages(less: Less, oldest: map<(NsImage, string), string>, log: seq<(NsImage, Claim)>) {
    forall k, id :: Text(oldest, (k, id)) == Oldest(less, VersionFor(id), Under(k, log))
  }

  lemma {:induction false} AgesAt(less: Less, log: seq<(NsImage, Claim)>, x: (NsImage, Claim), k: NsImage, id: string)
    ensures Oldest(less, VersionFor(id), Under(k, log + [x])) ==
            if k == x.0 && id == x.1.id then Older(less, Oldest(less, VersionFor(id), Under(k, log)), x.1.version)
            else Oldest(less, VersionFor(id), Under(k, log))
  {
    UnderSnoc(k, log, x);
    if k == x.0 {
      assert (Under(k, log) + [x.1])[..|Under(k, log)|] == Under(k, log);
    } else {
      assert Under(k, log) + [] == Under(k, log);
    }
  }

  lemma {:induction false} AgesNext(less: Less, oldest: map<(NsImage, string), string>, log: seq<(NsImage, Claim)>, k: NsImage, c: Claim)
    requires Ages(less, oldest, log)
    ensures Ages(less, oldest[(k, c.id) := Older(less, Text(oldest, (k, c.id)), c.version)], log + [(k, c)])
  {
    forall j, id
      ensures Text(oldest[(k, c.id) := Older(less, Text(oldest, (k, c.id)), c.version)], (j, id)) ==
              Oldest(less, VersionFor(id), Under(j, log + [(k, c)]))
    {
      AgesAt(less, log, (k, c), j, id);
    }
  }

  method LabelMaps(rules: Rules, labelled: seq<Pod>)
    returns (named: map<NsImage, seq<Claim>>, oldest: map<(NsImage, string), string>)
    ensures Files(named, LabelLog(rules, labelled))
    ensures Ages(rules.less, oldest, LabelLog(rules, labelled))
  {
    named, oldest := map[], map[];
    for i := 0 to |labelled|
      invariant Files(named, LabelLog(rules, labelled[..i]))
      invariant Ages(rules.less, oldest, LabelLog(rules, labelled[..i]))
    {
      var p := labelled[i];
      var l := rules.labelAddOn(p.labels);
      ghost var log, more := LabelLog(rules, labelled[..i]), LabelEntriesOf(rules, p);
      FlatMapNext(LabelEntries(rules), labelled, i);
      if l.id != "" {
        assert log + more[..0] == log;
        for j := 0 to |p.images|
          invariant Files(named, log + more[..j])
          invariant Ages(rules.less, oldest, log + more[..j])
        {
          var k, c := NsImage(p.ns, p.images[j]), Claim(l.id, l.version, true);
          Grown(log, more, j);
          AgesNext(rules.less, oldest, log + more[..j], k, c);
          named := Add(named, k, c, log + more[..j]);
          oldest := oldest[(k, c.id) := Older(rules.less, Text(oldest, (k, c.id)), c.version)];
        }
        Whole(more);
      } else {
        assert log + more == log;
      }
    }
    Whole(labelled);
  }

  method ReleaseMap(rules: Rules, releases: seq<Release>) returns (named: map<string, seq<Claim>>)
    ensures Files(named, FlatMap(ReleaseEntries(rules), releases))
  {
    named := map[];
    for i := 0 to |releases|
      invariant Files(named, FlatMap(ReleaseEntries(rules), releases[..i]))
    {
      var r := releases[i];
      var ids := rules.chartEntries(r.chart);
      ghost var log, more := FlatMap(ReleaseEntries(rules), releases[..i]), ReleaseEntriesOf(rules, r);
      FlatMapNext(ReleaseEntries(rules), releases, i);
      assert log + more[..0] == log;
      for j := 0 to |ids|
        invariant Files(named, log + more[..j])
      {
        Grown(log, more, j);
        named := Add(named, r.ns, Claim(ids[j], "", true), log + more[..j]);
      }
      Whole(more);
    }
    Whole(releases);
  }

  /* ---------- the image pass ---------- */

  type Table = map<Install, seq<Ev>>

  method NameImage(rules: Rules, ghost ev: Evidence, k: NsImage, named: seq<Claim>, releases: seq<Claim>)
    returns (claims: seq<Claim>)
    requires named == LabelNamed(rules, ev.labelled, k) && releases == ReleaseNamed(rules, ev.releases, k.ns)
    ensures claims == Claimed(rules, ev.labelled, ev.releases, k)
  {
    claims := rules.claims(k.image);
    if rules.untagged(k.image) {
      var found := Find(Qualifying(rules, k.image), named + releases);
      if found.Some? {
        claims := [found.value];
      }
    }
  }

  method AgeClaims(rules: Rules, ghost labelled: seq<Pod>, k: NsImage, oldest: map<(NsImage, string), string>,
                   before: seq<Claim>) returns (claims: seq<Claim>)
    requires forall id :: Text(oldest, (k, id)) == LabelVersion(rules, labelled, k, id)
    ensures claims == WithVersions(rules, labelled, k, before)
  {
    claims := before;
    if rules.versionless(k.image) {
      for i := 0 to |claims|
        invariant |claims| == |before|
        invariant forall j :: 0 <= j < i ==> claims[j] == WithVersion(rules, labelled, k, before[j])
        invariant forall j :: i <= j < |claims| ==> claims[j] == before[j]
      {
        if claims[i].byTag {
          claims := claims[i := claims[i].(version := Text(oldest, (k, claims[i].id)))];
        }
      }
    }
  }

  /** The claims of an image from the maps. */
  method SettleImage(rules: Rules, ghost ev: Evidence, k: NsImage, named: map<NsImage, seq<Claim>>,
                     oldest: map<(NsImage, string), string>, releases: map<string, seq<Claim>>)
    returns (claims: seq<Claim>)
    requires Files(named, LabelLog(rules, ev.labelled)) && Ages(rules.less, oldest, LabelLog(rules, ev.labelled))
    requires Files(releases, FlatMap(ReleaseEntries(rules), ev.releases))
    ensures claims == Settled(rules, ev.labelled, ev.releases, k)
  {
    claims := NameImage(rules, ev, k, Listed(named, k), Listed(releases, k.ns));
    claims := AgeClaims(rules, ev.labelled, k, oldest, claims);
  }

  method AddAll(table: Table, more: seq<Filing>, ghost log: seq<Filing>) returns (r: Table)
    requires Files(table, log)
    ensures Files(r, log + more)
  {
    r := table;
    assert log + more[..0] == log;
    for j := 0 to |more|
      invariant Files(r, log + more[..j])
    {
      Grown(log, more, j);
      r := Add(r, more[j].0, more[j].1, log + more[..j]);
    }
    Whole(more);
  }

  lemma {:induction false} UnclaimedNext(rules: Rules, labelled: seq<Pod>, releases: seq<Release>, images: seq<NsImage>, i: nat)
    requires i < |images|
    ensures Unclaimed(rules, labelled, releases, images[..i + 1]) ==
            Unclaimed(rules, labelled, releases, images[..i])
            + (if Settled(rules, labelled, releases, images[i]) == [] then {rules.repo(images[i].image)} else {})
  {
    assert images[..i + 1] == images[..i] + [images[i]];
  }

  /** Every held entry is what its image's pods would settle. */
  ghost predicate Memo(rules: Rules, ev: Evidence, settled: map<NsImage, seq<Claim>>) {
    forall k :: k in settled ==> settled[k] == Settled(rules, ev.labelled, ev.releases, k)
  }

  /** The maps the image pass reads. */
  datatype Maps = Maps(
    named: map<NsImage, seq<Claim>>,
    oldest: map<(NsImage, string), string>,
    releases: map<string, seq<Claim>>)

  ghost predicate Built(rules: Rules, ev: Evidence, maps: Maps) {
    && Files(maps.named, LabelLog(rules, ev.labelled))
    && Ages(rules.less, maps.oldest, LabelLog(rules, ev.labelled))
    && Files(maps.releases, FlatMap(ReleaseEntries(rules), ev.releases))
  }

  method BuildMaps(rules: Rules, ev: Evidence) returns (maps: Maps)
    ensures Built(rules, ev, maps)
  {
    var named, oldest := LabelMaps(rules, ev.labelled);
    var releases := ReleaseMap(rules, ev.releases);
    maps := Maps(named, oldest, releases);
  }

  method Remember(rules: Rules, ghost ev: Evidence, img: NsImage, maps: Maps, settled: map<NsImage, seq<Claim>>)
    returns (r: map<NsImage, seq<Claim>>)
    requires Built(rules, ev, maps) && Memo(rules, ev, settled)
    ensures Memo(rules, ev, r) && img in r
  {
    r := settled;
    if img !in settled {
      var found := SettleImage(rules, ev, img, maps.named, maps.oldest, maps.releases);
      r := settled[img := found];
    }
  }

  method FileImage(rules: Rules, ghost ev: Evidence, img: NsImage, claims: seq<Claim>, table: Table, ghost log: seq<Filing>)
    returns (r: Table)
    requires Files(table, log) && claims == Settled(rules, ev.labelled, ev.releases, img)
    ensures Files(r, log + ImageFilingsOf(rules, ev.labelled, ev.releases, img))
  {
    r := AddAll(table, ClaimFilings(claims, img.ns), log);
  }

  lemma {:induction false} ImageLogNext(rules: Rules, labelled: seq<Pod>, releases: seq<Release>, images: seq<NsImage>, i: nat)
    requires i < |images|
    ensures ImageLog(rules, labelled, releases, images[..i + 1]) ==
            ImageLog(rules, labelled, releases, images[..i]) + ImageFilingsOf(rules, labelled, releases, images[i])
  {
    FlatMapNext(ImageFilings(rules, labelled, releases), images, i);
  }

  method ImagePass(rules: Rules, ev: Evidence) returns (table: Table, unrecognized: set<string>)
    ensures Files(table, ImageLog(rules, ev.labelled, ev.releases, ev.images))
    ensures unrecognized == Unrecognized(rules, ev)
  {
    var maps := BuildMaps(rules, ev);
    var settled: map<NsImage, seq<Claim>> := map[];
    table, unrecognized := map[], {};
    for i := 0 to |ev.images|
      invariant Memo(rules, ev, settled)
      invariant Files(table, ImageLog(rules, ev.labelled, ev.releases, ev.images[..i]))
      invariant unrecognized == Unclaimed(rules, ev.labelled, ev.releases, ev.images[..i])
    {
      var img := ev.images[i];
      settled := Remember(rules, ev, img, maps, settled);
      table := FileImage(rules, ev, img, settled[img], table,
                         ImageLog(rules, ev.labelled, ev.releases, ev.images[..i]));
      ImageLogNext(rules, ev.labelled, ev.releases, ev.images, i);
      UnclaimedNext(rules, ev.labelled, ev.releases, ev.images, i);
      if settled[img] == [] {
        unrecognized := unrecognized + {rules.repo(img.image)};
      }
    }
    Whole(ev.images);
  }

  /* ---------- labels, releases and chart references ---------- */

  method LabelsCounted(rules: Rules, p: Pod, id: string) returns (ok: bool)
    ensures ok <==> LabelsCount(rules, p, id)
  {
    var claimed, unclaimed, provider := false, false, false;
    for i := 0 to |p.images|
      invariant claimed <==> exists img, c :: img in p.images[..i] && c in rules.claims(img) &&
                                              (c.id == id || c.id in rules.vendors(id))
      invariant unclaimed <==> exists img :: img in p.images[..i] && rules.claims(img) == []
      invariant provider <==> exists img :: img in p.images[..i] && rules.provider(img)
    {
      var img := p.images[i];
      assert p.images[..i + 1] == p.images[..i] + [img];
      var claims := rules.claims(img);
      claimed := claimed || exists c :: c in claims && (c.id == id || c.id in rules.vendors(id));
      unclaimed := unclaimed || claims == [];
      provider := provider || rules.provider(img);
    }
    Whole(p.images);
    ok := !(claimed || !unclaimed || provider);
  }

  method LabelPass(rules: Rules, labelled: seq<Pod>, table: Table, ghost log: seq<Filing>) returns (r: Table)
    requires Files(table, log)
    ensures Files(r, log + FlatMap(LabelFilings(rules), labelled))
  {
    r := table;
    assert log + FlatMap(LabelFilings(rules), labelled[..0]) == log;
    for i := 0 to |labelled|
      invariant Files(r, log + FlatMap(LabelFilings(rules), labelled[..i]))
    {
      var p := labelled[i];
      var l := rules.labelAddOn(p.labels);
      ghost var so := FlatMap(LabelFilings(rules), labelled[..i]);
      FlatMapNext(LabelFilings(rules), labelled, i);
      assert log + (so + LabelFilingsOf(rules, p)) == log + so + LabelFilingsOf(rules, p);
      assert log + so + [] == log + so;
      if l.id != "" {
        var ok := LabelsCounted(rules, p, l.id);
        if ok {
          r := Add(r, Install(l.id, p.ns), Ev(LabelSource, l.version, ""), log + so);
        }
      }
    }
    Whole(labelled);
  }

  method InstallPass(rules: Rules, releases: seq<Release>, gitops: seq<ChartRef>, table: Table, ghost log: seq<Filing>)
    returns (r: Table)
    requires Files(table, log)
    ensures Files(r, log + InstallLog(rules, releases, gitops))
  {
    r := table;
    assert log + FlatMap(ChartFilings(rules), releases[..0]) == log;
    for i := 0 to |releases|
      invariant Files(r, log + FlatMap(ChartFilings(rules), releases[..i]))
    {
      var rel := releases[i];
      ghost var so := FlatMap(ChartFilings(rules), releases[..i]);
      var more := ForEach(rules.chartListings(rel.chart), rel.ns, ChartEv(rules, rel));
      FlatMapNext(ChartFilings(rules), releases, i);
      assert log + (so + more) == log + so + more;
      r := AddAll(r, more, log + so);
    }
    Whole(releases);
    r := GitOpsPass(rules, gitops, r, log + FlatMap(ChartFilings(rules), releases));
    assert log + InstallLog(rules, releases, gitops) ==
           log + FlatMap(ChartFilings(rules), releases) + FlatMap(GitOpsFilings(rules), gitops);
  }

  method GitOpsPass(rules: Rules, gitops: seq<ChartRef>, table: Table, ghost log: seq<Filing>) returns (r: Table)
    requires Files(table, log)
    ensures Files(r, log + FlatMap(GitOpsFilings(rules), gitops))
  {
    r := table;
    assert log + FlatMap(GitOpsFilings(rules), gitops[..0]) == log;
    for i := 0 to |gitops|
      invariant Files(r, log + FlatMap(GitOpsFilings(rules), gitops[..i]))
    {
      var g := gitops[i];
      ghost var so := FlatMap(GitOpsFilings(rules), gitops[..i]);
      var more := ForEach(rules.chartEntries(g.chart), g.target, GitOpsEv(rules, g));
      FlatMapNext(GitOpsFilings(rules), gitops, i);
      assert log + (so + more) == log + so + more;
      r := AddAll(r, more, log + so);
    }
    Whole(gitops);
  }

  lemma {:induction false} KeysAreIds(table: Table, log: seq<Filing>)
    requires Files(table, log)
    ensures (set at | at in table :: at.id) == Ids(log)
  {
    var keys := set at | at in table :: at.id;
    forall id | id in keys
      ensures id in Ids(log)
    {
      var at :| at in table && at.id == id;
      UnderFrom(at, log, table[at][0]);
      assert (at, table[at][0]) in log;
    }
    forall id | id in Ids(log)
      ensures id in keys
    {
      var x :| x in log && x.0.id == id;
      UnderFrom(x.0, log, x.1);
      assert x == (x.0, x.1) && x.0 in table;
    }
  }

  method ClassPass(rules: Rules, controllers: seq<string>, table: Table, ghost log: seq<Filing>) returns (r: Table)
    requires Files(table, log)
    ensures Files(r, log + FlatMap(ClassFilings(rules, Ids(log)), controllers))
  {
    var detected := set at | at in table :: at.id;
    KeysAreIds(table, log);
    r := table;
    assert log + FlatMap(ClassFilings(rules, detected), controllers[..0]) == log;
    for i := 0 to |controllers|
      invariant Files(r, log + FlatMap(ClassFilings(rules, detected), controllers[..i]))
    {
      ghost var so := FlatMap(ClassFilings(rules, detected), controllers[..i]);
      var more := ClassFilingsOf(rules, detected, controllers[i]);
      FlatMapNext(ClassFilings(rules, detected), controllers, i);
      assert log + (so + more) == log + so + more;
      r := AddAll(r, more, log + so);
    }
    Whole(controllers);
  }

  /* ---------- instances ---------- */

  lemma {:induction false} StrongestNext(evs: seq<Ev>, i: nat)
    requires i < |evs|
    ensures Strongest(evs[..i + 1]) ==
            if Strength(evs[i].source) > Strength(Strongest(evs[..i])) then evs[i].source else Strongest(evs[..i])
  {
    assert evs[..i + 1][..i] == evs[..i];
  }

  lemma {:induction false} OldestNext<T>(less: Less, version: T -> string, xs: seq<T>, i: nat)
    requires i < |xs|
    ensures Oldest(less, version, xs[..i + 1]) == Older(less, Oldest(less, version, xs[..i]), version(xs[i]))
  {
    assert xs[..i + 1][..i] == xs[..i];
  }

  /** One pass over an install's evidence folds its source and four versions. */
  method FoldInstance(rules: Rules, at: Install, evs: seq<Ev>) returns (inst: Instance)
    ensures inst == InstanceOf(rules, at, evs)
    ensures evs != [] && FromSomewhere(evs) && Comparable(rules, evs) ==> IsInstance(rules, at, SetOf(evs), inst)
  {
    var source := Nowhere;
    var podVersion, appVersion, releaseChart, gitopsChart := "", "", "", "";
    for i := 0 to |evs|
      invariant source == Strongest(evs[..i])
      invariant appVersion == Oldest(rules.less, AppVersionOf, evs[..i])
      invariant podVersion == Oldest(rules.less, PodVersionOf, evs[..i])
      invariant releaseChart == Oldest(rules.less, ReleaseChartOf, evs[..i])
      invariant gitopsChart == Oldest(rules.less, GitOpsChartOf, evs[..i])
    {
      var e := evs[i];
      StrongestNext(evs, i);
      OldestNext(rules.less, AppVersionOf, evs, i);
      OldestNext(rules.less, PodVersionOf, evs, i);
      OldestNext(rules.less, ReleaseChartOf, evs, i);
      OldestNext(rules.less, GitOpsChartOf, evs, i);
      if Strength(e.source) > Strength(source) {
        source := e.source;
      }
      if e.source.ChartSource? {
        appVersion := Older(rules.less, appVersion, e.version);
      } else {
        podVersion := Older(rules.less, podVersion, e.version);
      }
      if e.source.GitOpsSource? {
        gitopsChart := Older(rules.less, gitopsChart, e.chart);
      } else {
        releaseChart := Older(rules.less, releaseChart, e.chart);
      }
    }
    Whole(evs);
    inst := Instance(at.id, source, if source.ClassSource? then [] else [at.ns],
                     Or(appVersion, podVersion), Or(releaseChart, gitopsChart));
    if evs != [] && FromSomewhere(evs) && Comparable(rules, evs) {
      InstanceIs(rules, at, evs);
    }
  }

  method ReleaseLines(rules: Rules, evs: seq<Ev>) returns (lines: set<string>)
    ensures lines == Lines(rules, evs)
  {
    lines := {};
    for i := 0 to |evs|
      invariant lines == Lines(rules, evs[..i])
    {
      assert evs[..i + 1] == evs[..i] + [evs[i]];
      if evs[i].source.ChartSource? && evs[i].version != "" {
        lines := lines + {rules.line(evs[i].version)};
      }
    }
    Whole(evs);
  }

  /** Splits an install's evidence by release line and folds each part. */
  method SplitInstall(rules: Rules, at: Install, evs: seq<Ev>) returns (out: seq<Instance>)
    requires evs != []
    ensures out == InstancesOf(rules, at, evs)
    ensures FromSomewhere(evs) && Comparable(rules, evs) ==> AreInstances(rules, at, SetOf(evs), out)
  {
    var lines := ReleaseLines(rules, evs);
    var agree, other := [], [];
    for i := 0 to |evs|
      invariant agree == FlatMap(Keep(rules, lines, false), evs[..i])
      invariant other == FlatMap(Keep(rules, lines, true), evs[..i])
    {
      FlatMapNext(Keep(rules, lines, false), evs, i);
      FlatMapNext(Keep(rules, lines, true), evs, i);
      if OtherLine(rules, lines, evs[i]) {
        other := other + [evs[i]];
      } else {
        agree := agree + [evs[i]];
      }
    }
    Whole(evs);
    var inst := FoldInstance(rules, at, agree);
    out := [inst];
    if |other| > 0 {
      inst := FoldInstance(rules, at, other);
      out := out + [inst];
    }
    if FromSomewhere(evs) && Comparable(rules, evs) {
      InstancesAre(rules, at, evs);
    }
  }

  method BaseTable(rules: Rules, ev: Evidence) returns (table: Table, unrecognized: set<string>)
    ensures Files(table, BaseLog(rules, ev))
    ensures unrecognized == Unrecognized(rules, ev)
  {
    table, unrecognized := ImagePass(rules, ev);
    ghost var images := ImageLog(rules, ev.labelled, ev.releases, ev.images);
    table := LabelPass(rules, ev.labelled, table, images);
    ghost var labels := FlatMap(LabelFilings(rules), ev.labelled);
    table := InstallPass(rules, ev.releases, ev.gitops, table, images + labels);
    Regroup(images, [], labels, InstallLog(rules, ev.releases, ev.gitops));
  }

  /* ---------- the rows, in order ---------- */

  function SourceName(s: Source): string {
    match s
    case Nowhere => ""
    case ClassSource => "ingressclass"
    case GitOpsSource => "gitops"
    case LabelSource => "labels"
    case ImageSource => "image"
    case ChartSource => "chart"
  }

  /** By id, namespaces, version and source. */
  function RowOrder(): Le<Instance> {
    Then(By((x: Instance) => x.id, Strings()),
         Then(By((x: Instance) => x.namespaces, LexOf(Strings())),
              Then(By((x: Instance) => x.version, Strings()), By((x: Instance) => SourceName(x.source), Strings()))))
  }

  lemma {:induction false} RowsCompare()
    ensures TotalOrder(RowOrder())
  {
    StringsTotal();
    LexTotal(Strings());
    var id, ns := By((x: Instance) => x.id, Strings()), By((x: Instance) => x.namespaces, LexOf(Strings()));
    var version, source := By((x: Instance) => x.version, Strings()), By((x: Instance) => SourceName(x.source), Strings());
    ByTotal((x: Instance) => x.id, Strings());
    ByTotal((x: Instance) => x.namespaces, LexOf(Strings()));
    ByTotal((x: Instance) => x.version, Strings());
    ByTotal((x: Instance) => SourceName(x.source), Strings());
    ThenTotal(version, source);
    ThenTotal(ns, Then(version, source));
    ThenTotal(id, Then(ns, Then(version, source)));
  }

  /** The first of id, namespaces, version and source that differs decides. */
  lemma {:induction false} RowOrderIs(x: Instance, y: Instance)
    ensures RowOrder()(x, y) <==>
            if x.id != y.id then Strings()(x.id, y.id)
            else if x.namespaces != y.namespaces then Lex(Strings(), x.namespaces, y.namespaces)
            else if x.version != y.version then Strings()(x.version, y.version)
            else Strings()(SourceName(x.source), SourceName(y.source))
  {
    StringsTotal();
    LexTotal(Strings());
    LexAntisymmetric(Strings());
    assert LexOf(Strings())(x.namespaces, y.namespaces) || LexOf(Strings())(y.namespaces, x.namespaces);
  }

  /** The names of a set, in order. */
  method Listing(names: set<string>) returns (r: seq<string>)
    ensures Rising(Strings(), r) && forall x :: x in r <==> x in names
  {
    var all: seq<string> := [];
    var todo := names;
    while todo != {}
      invariant todo <= names && forall x :: multiset(all)[x] == if x in names - todo then 1 else 0
      decreases todo
    {
      var x :| x in todo;
      all := all + [x];
      todo := todo - {x};
    }
    StringsTotal();
    SortedIs(Strings(), all);
    SortedHas(Strings(), all);
    r := Sorted(Strings(), all);
    OnceRises(Strings(), r);
    forall x
      ensures x in r <==> x in names
    {
      assert x in all <==> multiset(all)[x] > 0;
    }
  }

  function FoundBy(rules: Rules, ev: Evidence): Install -> seq<Instance> {
    at => Found(rules, ev, at)
  }

  function InstancesBy(rules: Rules, table: Table): Install -> seq<Instance> {
    at => InstancesOf(rules, at, Listed(table, at))
  }

  /** The installs of the table, each once. */
  ghost predicate Visits(table: Table, todo: set<Install>, installs: seq<Install>) {
    forall at :: multiset(installs)[at] == if at in table && at !in todo then 1 else 0
  }

  /** The instances of every install, install by install. */
  method GatherRows(rules: Rules, table: Table) returns (rows: seq<Instance>, ghost installs: seq<Install>)
    requires forall at :: at in table ==> table[at] != []
    ensures Visits(table, {}, installs) && rows == FlatMap(InstancesBy(rules, table), installs)
  {
    rows, installs := [], [];
    var todo := table.Keys;
    while todo != {}
      invariant todo <= table.Keys && Visits(table, todo, installs)
      invariant rows == FlatMap(InstancesBy(rules, table), installs)
      decreases todo
    {
      var at :| at in todo;
      var insts := SplitInstall(rules, at, table[at]);
      FlatMapSnoc(InstancesBy(rules, table), installs, at);
      rows, installs := rows + insts, installs + [at];
      todo := todo - {at};
    }
  }

  /** Each install that something says is there, once. */
  ghost predicate Installs(rules: Rules, ev: Evidence, installs: seq<Install>) {
    forall at :: multiset(installs)[at] == if HasEvidence(rules, ev, at) then 1 else 0
  }

  /** What is found of each install, and what each image is settled as. */
  ghost predicate Matched(rules: Rules, ev: Evidence) {
    && (forall at :: FoundRight(rules, ev, at, Found(rules, ev, at)))
    && (forall k :: ClaimsRight(rules, ev, k, Settled(rules, ev.labelled, ev.releases, k)))
  }

  lemma {:induction false} MatchIsRight(rules: Rules, ev: Evidence)
    requires Orderly(rules, ev)
    ensures Matched(rules, ev)
  {
    forall at
      ensures FoundRight(rules, ev, at, Found(rules, ev, at))
    {
      FoundIsRight(rules, ev, at);
    }
    forall k
      ensures ClaimsRight(rules, ev, k, Settled(rules, ev.labelled, ev.releases, k))
    {
      SettledRight(rules, ev, k);
    }
  }

  lemma {:induction false} InstallsAre(rules: Rules, ev: Evidence, table: Table, installs: seq<Install>)
    requires Files(table, Log(rules, ev)) && Visits(table, {}, installs)
    ensures Installs(rules, ev, installs)
  {
    forall at
      ensures multiset(installs)[at] == if HasEvidence(rules, ev, at) then 1 else 0
    {
      FoundWithEvidence(rules, ev, at);
    }
  }

  /** The instances of every install, before they are put in order. */
  method FindRows(rules: Rules, ev: Evidence)
    returns (found: seq<Instance>, repos: set<string>, ghost installs: seq<Install>)
    ensures Installs(rules, ev, installs) && found == FlatMap(FoundBy(rules, ev), installs)
    ensures repos == Unrecognized(rules, ev)
  {
    var table;
    table, repos := BaseTable(rules, ev);
    table := ClassPass(rules, ev.controllers, table, BaseLog(rules, ev));
    found, installs := GatherRows(rules, table);
    FlatMapSame(InstancesBy(rules, table), FoundBy(rules, ev), installs);
    InstallsAre(rules, ev, table, installs);
  }

  /** matchAddOns: the instances of every install that has evidence, each install
      once, in the order of the rows, and the repositories of the images no entry
      claims, in order. */
  method MatchAddOns(rules: Rules, ev: Evidence)
    returns (rows: seq<Instance>, unrecognized: seq<string>, ghost installs: seq<Install>)
    ensures Installs(rules, ev, installs) && (Orderly(rules, ev) ==> Matched(rules, ev))
    ensures multiset(rows) == multiset(FlatMap(FoundBy(rules, ev), installs)) && InOrder(RowOrder(), rows)
    ensures Rising(Strings(), unrecognized) && forall x :: x in unrecognized <==> x in Unrecognized(rules, ev)
  {
    var found, repos;
    found, repos, installs := FindRows(rules, ev);
    if Orderly(rules, ev) {
      MatchIsRight(rules, ev);
    }
    RowsCompare();
    SortedIs(RowOrder(), found);
    rows := Sorted(RowOrder(), found);
    unrecognized := Listing(repos);
  }
}
