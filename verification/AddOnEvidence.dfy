/**
 What evidence an install has: the claims settled for each image, and which image,
 labels, release, chart reference or IngressClass gives each piece.
 */
module AddOnEvidence {
  import opened Basics
  import opened Repeats
  import opened AddOnMatch
  import opened AddOnInstances

  /* ---------- the first that is wanted ---------- */

  ghost predicate FirstAt<T>(want: T -> bool, xs: seq<T>, i: nat) {
    i < |xs| && want(xs[i]) && forall j :: 0 <= j < i ==> !want(xs[j])
  }

  lemma {:induction false} FindFirst<T>(want: T -> bool, xs: seq<T>) returns (i: nat)
    requires Find(want, xs).Some?
    ensures FirstAt(want, xs, i) && Find(want, xs) == Some(xs[i])
  {
    var init, last := xs[..|xs| - 1], xs[|xs| - 1];
    assert xs == init + [last];
    if Find(want, init).Some? {
      i := FindFirst(want, init);
    } else {
      FindFails(want, init);
      i := |init|;
    }
  }

  ghost predicate NoneWanted<T>(want: T -> bool, xs: seq<T>) {
    forall x :: x in xs ==> !want(x)
  }

  /** Found in a list of lists: in the first that holds one. */
  lemma {:induction false} FindFlat<A, B>(want: B -> bool, f: A -> seq<B>, xs: seq<A>) returns (j: nat)
    requires Find(want, FlatMap(f, xs)).Some?
    ensures j < |xs| && Find(want, f(xs[j])) == Find(want, FlatMap(f, xs))
    ensures forall i :: 0 <= i < j ==> NoneWanted(want, f(xs[i]))
  {
    var init, last := xs[..|xs| - 1], xs[|xs| - 1];
    FindConcat(want, FlatMap(f, init), f(last));
    if Find(want, FlatMap(f, init)).Some? {
      j := FindFlat(want, f, init);
    } else {
      j := |init|;
      FindFails(want, FlatMap(f, init));
      forall i | 0 <= i < j
        ensures NoneWanted(want, f(xs[i]))
      {
        FlatMapHas(f, init, init[i]);
      }
    }
  }

  ghost function UnderEach<A, K, V>(k: K, f: A -> seq<(K, V)>): A -> seq<V> {
    x => Under(k, f(x))
  }

  lemma {:induction false} UnderFlat<A, K(!new), V>(k: K, f: A -> seq<(K, V)>, xs: seq<A>)
    ensures Under(k, FlatMap(f, xs)) == FlatMap(UnderEach(k, f), xs)
  {
    if xs != [] {
      UnderFlat(k, f, xs[..|xs| - 1]);
      FlatMapConcat(Pick<K, V>(k), FlatMap(f, xs[..|xs| - 1]), f(xs[|xs| - 1]));
    }
  }

  lemma {:induction false} UnderSame<K, V>(k: K, log: seq<(K, V)>)
    requires forall x :: x in log ==> x.0 == k
    ensures |Under(k, log)| == |log| && forall i :: 0 <= i < |log| ==> Under(k, log)[i] == log[i].1
  {
    if log != [] {
      UnderSame(k, log[..|log| - 1]);
      assert log[|log| - 1] in log;
    }
  }

  /* ---------- what names an image ---------- */

  /** The pod runs the image and its labels name this entry. */
  ghost predicate PodNames(rules: Rules, p: Pod, k: NsImage, c: Claim) {
    var l := rules.labelAddOn(p.labels);
    p.ns == k.ns && k.image in p.images && l.id != "" && c == Claim(l.id, l.version, true)
  }

  ghost predicate PodQualifies(rules: Rules, p: Pod, k: NsImage) {
    exists c :: PodNames(rules, p, k, c) && rules.qualifies(k.image, c.id)
  }

  ghost predicate ReleaseQualifies(rules: Rules, r: Release, k: NsImage) {
    r.ns == k.ns && exists id :: id in rules.chartEntries(r.chart) && rules.qualifies(k.image, id)
  }

  ghost predicate PodFirst(rules: Rules, labelled: seq<Pod>, k: NsImage, c: Claim, j: nat) {
    && j < |labelled| && PodNames(rules, labelled[j], k, c) && rules.qualifies(k.image, c.id)
    && forall i :: 0 <= i < j ==> !PodQualifies(rules, labelled[i], k)
  }

  ghost predicate EntryFirst(rules: Rules, ids: seq<string>, k: NsImage, id: string, n: nat) {
    && n < |ids| && ids[n] == id && rules.qualifies(k.image, id)
    && forall m :: 0 <= m < n ==> !rules.qualifies(k.image, ids[m])
  }

  ghost predicate ReleaseFirst(rules: Rules, releases: seq<Release>, k: NsImage, c: Claim, j: nat, n: nat) {
    && j < |releases| && releases[j].ns == k.ns && c.version == "" && c.byTag
    && EntryFirst(rules, rules.chartEntries(releases[j].chart), k, c.id, n)
    && forall i :: 0 <= i < j ==> !ReleaseQualifies(rules, releases[i], k)
  }

  /** c is what first names the image among the entries that tell its repository apart
      by tag: the labels of its pods in order, then the releases of its namespace. */
  ghost predicate NamedFirst(rules: Rules, ev: Evidence, k: NsImage, c: Claim) {
    || (exists j: nat :: PodFirst(rules, ev.labelled, k, c, j))
    || ((forall p :: p in ev.labelled ==> !PodQualifies(rules, p, k))
        && exists j: nat, n: nat :: ReleaseFirst(rules, ev.releases, k, c, j, n))
  }

  ghost predicate NothingNames(rules: Rules, ev: Evidence, k: NsImage) {
    && (forall p :: p in ev.labelled ==> !PodQualifies(rules, p, k))
    && (forall r :: r in ev.releases ==> !ReleaseQualifies(rules, r, k))
  }

  lemma {:induction false} PodUnder(rules: Rules, p: Pod, k: NsImage, c: Claim)
    ensures c in Under(k, LabelEntriesOf(rules, p)) <==> PodNames(rules, p, k, c)
  {
    UnderFrom(k, LabelEntriesOf(rules, p), c);
    if PodNames(rules, p, k, c) {
      var i :| 0 <= i < |p.images| && p.images[i] == k.image;
      assert LabelEntriesOf(rules, p)[i] == (k, c);
    }
  }

  lemma {:induction false} ReleaseUnder(rules: Rules, r: Release, ns: string)
    ensures var us := Under(ns, ReleaseEntriesOf(rules, r));
            if r.ns == ns then |us| == |rules.chartEntries(r.chart)| && forall i :: 0 <= i < |us| ==> us[i] == Claim(rules.chartEntries(r.chart)[i], "", true)
            else us == []
  {
    if r.ns == ns {
      UnderSame(ns, ReleaseEntriesOf(rules, r));
    } else if Under(ns, ReleaseEntriesOf(rules, r)) != [] {
      var v := Under(ns, ReleaseEntriesOf(rules, r))[0];
      UnderFrom(ns, ReleaseEntriesOf(rules, r), v);
    }
  }

  lemma {:induction false} PodWanted(rules: Rules, p: Pod, k: NsImage)
    ensures NoneWanted(Qualifying(rules, k.image), Under(k, LabelEntriesOf(rules, p))) <==> !PodQualifies(rules, p, k)
  {
    if PodQualifies(rules, p, k) {
      var c :| PodNames(rules, p, k, c) && rules.qualifies(k.image, c.id);
      PodUnder(rules, p, k, c);
      assert Qualifying(rules, k.image)(c);
    }
    if !NoneWanted(Qualifying(rules, k.image), Under(k, LabelEntriesOf(rules, p))) {
      var c :| c in Under(k, LabelEntriesOf(rules, p)) && Qualifying(rules, k.image)(c);
      PodUnder(rules, p, k, c);
    }
  }

  lemma {:induction false} ReleaseWanted(rules: Rules, r: Release, k: NsImage)
    ensures NoneWanted(Qualifying(rules, k.image), Under(k.ns, ReleaseEntriesOf(rules, r))) <==> !ReleaseQualifies(rules, r, k)
  {
    ReleaseUnder(rules, r, k.ns);
    var us := Under(k.ns, ReleaseEntriesOf(rules, r));
    if ReleaseQualifies(rules, r, k) {
      var i :| 0 <= i < |us| && rules.qualifies(k.image, rules.chartEntries(r.chart)[i]);
      assert us[i] in us && Qualifying(rules, k.image)(us[i]);
    }
  }

  lemma {:induction false} FoundByPods(rules: Rules, ev: Evidence, k: NsImage)
    ensures var r := Find(Qualifying(rules, k.image), LabelNamed(rules, ev.labelled, k));
            && (r.Some? ==> exists j: nat :: PodFirst(rules, ev.labelled, k, r.value, j))
            && (r.None? ==> forall p :: p in ev.labelled ==> !PodQualifies(rules, p, k))
  {
    var want, f := Qualifying(rules, k.image), UnderEach(k, LabelEntries(rules));
    UnderFlat(k, LabelEntries(rules), ev.labelled);
    forall p
      ensures f(p) == Under(k, LabelEntriesOf(rules, p))
      ensures NoneWanted(want, f(p)) <==> !PodQualifies(rules, p, k)
    {
      PodWanted(rules, p, k);
    }
    var r := Find(want, FlatMap(f, ev.labelled));
    if r.Some? {
      var j := FindFlat(want, f, ev.labelled);
      var i := FindFirst(want, f(ev.labelled[j]));
      PodUnder(rules, ev.labelled[j], k, r.value);
      assert PodFirst(rules, ev.labelled, k, r.value, j);
    } else {
      FindFails(want, FlatMap(f, ev.labelled));
      forall p | p in ev.labelled
        ensures !PodQualifies(rules, p, k)
      {
        FlatMapHas(f, ev.labelled, p);
      }
    }
  }

  lemma {:induction false} FoundByReleases(rules: Rules, ev: Evidence, k: NsImage)
    ensures var r := Find(Qualifying(rules, k.image), ReleaseNamed(rules, ev.releases, k.ns));
            && (r.Some? ==> exists j: nat, n: nat :: ReleaseFirst(rules, ev.releases, k, r.value, j, n))
            && (r.None? ==> forall p :: p in ev.releases ==> !ReleaseQualifies(rules, p, k))
  {
    var want, f := Qualifying(rules, k.image), UnderEach(k.ns, ReleaseEntries(rules));
    UnderFlat(k.ns, ReleaseEntries(rules), ev.releases);
    forall p
      ensures f(p) == Under(k.ns, ReleaseEntriesOf(rules, p))
      ensures NoneWanted(want, f(p)) <==> !ReleaseQualifies(rules, p, k)
    {
      ReleaseWanted(rules, p, k);
    }
    var r := Find(want, FlatMap(f, ev.releases));
    if r.Some? {
      var j := FindFlat(want, f, ev.releases);
      var n := FindFirst(want, f(ev.releases[j]));
      ReleaseUnder(rules, ev.releases[j], k.ns);
      assert ReleaseFirst(rules, ev.releases, k, r.value, j, n);
    } else {
      FindFails(want, FlatMap(f, ev.releases));
      forall p | p in ev.releases
        ensures !ReleaseQualifies(rules, p, k)
      {
        FlatMapHas(f, ev.releases, p);
      }
    }
  }

  lemma {:induction false} FoundIsFirst(rules: Rules, ev: Evidence, k: NsImage)
    ensures var r := Find(Qualifying(rules, k.image), LabelNamed(rules, ev.labelled, k) + ReleaseNamed(rules, ev.releases, k.ns));
            if r.Some? then NamedFirst(rules, ev, k, r.value) else NothingNames(rules, ev, k)
  {
    FindConcat(Qualifying(rules, k.image), LabelNamed(rules, ev.labelled, k), ReleaseNamed(rules, ev.releases, k.ns));
    FoundByPods(rules, ev, k);
    FoundByReleases(rules, ev, k);
  }

  /* ---------- the claims settled for an image ---------- */

  /** The versions the labels of its pods give the image as this entry. */
  ghost function LabelVersions(rules: Rules, labelled: seq<Pod>, k: NsImage, id: string): set<string> {
    set p | p in labelled && PodNames(rules, p, k, Claim(id, rules.labelAddOn(p.labels).version, true))
            && rules.labelAddOn(p.labels).version != "" :: rules.labelAddOn(p.labels).version
  }

  /** A claim an image without a version makes takes the oldest its labels give. */
  ghost predicate Versioned(rules: Rules, labelled: seq<Pod>, k: NsImage, b: Claim, c: Claim) {
    && c.id == b.id && c.byTag == b.byTag
    && if rules.versionless(k.image) && b.byTag then OldestAmong(rules.less, LabelVersions(rules, labelled, k, b.id), c.version)
       else c.version == b.version
  }

  /** An untagged image some name qualifies is what first names it; any other is what
      its matchers claim. */
  ghost predicate ClaimsRight(rules: Rules, ev: Evidence, k: NsImage, cs: seq<Claim>) {
    if rules.untagged(k.image) && !NothingNames(rules, ev, k)
    then |cs| == 1 && exists b :: NamedFirst(rules, ev, k, b) && Versioned(rules, ev.labelled, k, b, cs[0])
    else |cs| == |rules.claims(k.image)| && forall i :: 0 <= i < |cs| ==> Versioned(rules, ev.labelled, k, rules.claims(k.image)[i], cs[i])
  }

  lemma {:induction false} LabelVersionsGiven(rules: Rules, labelled: seq<Pod>, k: NsImage, id: string)
    ensures Given(VersionFor(id), LabelNamed(rules, labelled, k)) == LabelVersions(rules, labelled, k, id)
  {
    forall v
      ensures v in Given(VersionFor(id), LabelNamed(rules, labelled, k)) <==> v in LabelVersions(rules, labelled, k, id)
    {
      if v in Given(VersionFor(id), LabelNamed(rules, labelled, k)) {
        var c :| c in LabelNamed(rules, labelled, k) && VersionFor(id)(c) == v && v != "";
        UnderFrom(k, LabelLog(rules, labelled), c);
        var p := FlatMapFrom(LabelEntries(rules), labelled, (k, c));
        UnderFrom(k, LabelEntriesOf(rules, p), c);
        PodUnder(rules, p, k, c);
      }
      if v in LabelVersions(rules, labelled, k, id) {
        var p :| p in labelled && PodNames(rules, p, k, Claim(id, v, true)) && rules.labelAddOn(p.labels).version == v && v != "";
        PodUnder(rules, p, k, Claim(id, v, true));
        UnderFrom(k, LabelEntriesOf(rules, p), Claim(id, v, true));
        FlatMapHas(LabelEntries(rules), labelled, p);
        UnderFrom(k, LabelLog(rules, labelled), Claim(id, v, true));
        assert VersionFor(id)(Claim(id, v, true)) == v;
      }
    }
  }

  /** versionLess is a strict order on the versions the evidence can give. */
  ghost predicate Orderly(rules: Rules, ev: Evidence) {
    exists versions :: StrictOn(rules.less, versions) && Versions(rules, ev, versions)
  }

  lemma {:induction false} VersionedRight(rules: Rules, ev: Evidence, k: NsImage, b: Claim)
    requires Orderly(rules, ev)
    ensures Versioned(rules, ev.labelled, k, b, WithVersion(rules, ev.labelled, k, b))
  {
    var versions :| StrictOn(rules.less, versions) && Versions(rules, ev, versions);
    LabelNamedKnown(rules, ev.labelled, k, versions);
    OldestIs(rules.less, VersionFor(b.id), LabelNamed(rules, ev.labelled, k), versions);
    LabelVersionsGiven(rules, ev.labelled, k, b.id);
  }

  lemma {:induction false} NotNothing(rules: Rules, ev: Evidence, k: NsImage, c: Claim)
    requires NamedFirst(rules, ev, k, c)
    ensures !NothingNames(rules, ev, k)
  {
    if j: nat :| PodFirst(rules, ev.labelled, k, c, j) {
      assert PodQualifies(rules, ev.labelled[j], k);
    } else {
      var j: nat, n: nat :| ReleaseFirst(rules, ev.releases, k, c, j, n);
      assert ReleaseQualifies(rules, ev.releases[j], k);
    }
  }

  /** What each image is settled as. */
  lemma {:induction false} SettledRight(rules: Rules, ev: Evidence, k: NsImage)
    requires Orderly(rules, ev)
    ensures ClaimsRight(rules, ev, k, Settled(rules, ev.labelled, ev.releases, k))
  {
    var claims := Claimed(rules, ev.labelled, ev.releases, k);
    forall i | 0 <= i < |claims|
      ensures Versioned(rules, ev.labelled, k, claims[i], Settled(rules, ev.labelled, ev.releases, k)[i])
    {
      VersionedRight(rules, ev, k, claims[i]);
    }
    FoundIsFirst(rules, ev, k);
    var named := Find(Qualifying(rules, k.image), LabelNamed(rules, ev.labelled, k) + ReleaseNamed(rules, ev.releases, k.ns));
    if named.Some? {
      NotNothing(rules, ev, k, named.value);
    }
  }

  /* ---------- the evidence of an install ---------- */

  ghost predicate ImageGives(rules: Rules, ev: Evidence, img: NsImage, at: Install, e: Ev) {
    exists c :: c in Settled(rules, ev.labelled, ev.releases, img) && at == Install(c.id, img.ns) && e == Ev(ImageSource, c.version, "")
  }

  ghost predicate LabelsGive(rules: Rules, p: Pod, at: Install, e: Ev) {
    && at.id != "" && rules.labelAddOn(p.labels) == LabelledAs(at.id, e.version) && at.ns == p.ns
    && LabelsCount(rules, p, at.id) && e == Ev(LabelSource, e.version, "")
  }

  ghost predicate ReleaseGives(rules: Rules, r: Release, at: Install, e: Ev) {
    && at.ns == r.ns && at.id in rules.chartListings(r.chart)
    && e == Ev(ChartSource, rules.appVersion(r.appVersion), rules.plainChart(r.chartVersion))
  }

  ghost predicate ChartRefGives(rules: Rules, g: ChartRef, at: Install, e: Ev) {
    at.ns == g.target && at.id in rules.chartEntries(g.chart) && e == Ev(GitOpsSource, "", rules.exactChart(g.version))
  }

  /** A pod's image or labels, a release or a chart reference says so. */
  ghost predicate Detects(rules: Rules, ev: Evidence, at: Install, e: Ev) {
    || (exists img :: img in ev.images && ImageGives(rules, ev, img, at, e))
    || (exists p :: p in ev.labelled && LabelsGive(rules, p, at, e))
    || (exists r :: r in ev.releases && ReleaseGives(rules, r, at, e))
    || (exists g :: g in ev.gitops && ChartRefGives(rules, g, at, e))
  }

  ghost predicate Detected(rules: Rules, ev: Evidence, id: string) {
    exists at, e :: Detects(rules, ev, at, e) && at.id == id
  }

  /** An IngressClass says so, none of the entries that could serve it being detected. */
  ghost predicate ClassGives(rules: Rules, ev: Evidence, controller: string, at: Install, e: Ev) {
    var ids := rules.classEntries(controller);
    && ids != [] && at == Install(ids[0], "") && rules.known(ids[0]) && e == Ev(ClassSource, "", "")
    && forall id :: id in ids ==> !Detected(rules, ev, id)
  }

  ghost predicate IsEvidence(rules: Rules, ev: Evidence, at: Install, e: Ev) {
    Detects(rules, ev, at, e) || exists c :: c in ev.controllers && ClassGives(rules, ev, c, at, e)
  }

  lemma {:induction false} ImageGivesIs(rules: Rules, ev: Evidence, img: NsImage, at: Install, e: Ev)
    ensures (at, e) in ImageFilingsOf(rules, ev.labelled, ev.releases, img) <==> ImageGives(rules, ev, img, at, e)
  {
    var cs := Settled(rules, ev.labelled, ev.releases, img);
    if c :| c in cs && at == Install(c.id, img.ns) && e == Ev(ImageSource, c.version, "") {
      var i :| 0 <= i < |cs| && cs[i] == c;
      assert ClaimFilings(cs, img.ns)[i] == (at, e);
    }
    if (at, e) in ClaimFilings(cs, img.ns) {
      var i :| 0 <= i < |cs| && ClaimFilings(cs, img.ns)[i] == (at, e);
      assert cs[i] in cs;
    }
  }

  lemma {:induction false} ForEachHas(ids: seq<string>, ns: string, e: Ev, at: Install, f: Ev)
    ensures (at, f) in ForEach(ids, ns, e) <==> at.id in ids && at.ns == ns && f == e
  {
    if at.id in ids && at.ns == ns && f == e {
      var i :| 0 <= i < |ids| && ids[i] == at.id;
      assert ForEach(ids, ns, e)[i] == (at, f);
    }
  }

  lemma {:induction false} InFlatMap<A, B>(f: A -> seq<B>, xs: seq<A>, b: B)
    ensures b in FlatMap(f, xs) <==> exists x :: x in xs && b in f(x)
  {
    if b in FlatMap(f, xs) {
      var x := FlatMapFrom(f, xs, b);
    }
    if x :| x in xs && b in f(x) {
      FlatMapHas(f, xs, x);
    }
  }

  lemma {:induction false} ImagesLogged(rules: Rules, ev: Evidence, at: Install, e: Ev)
    ensures (at, e) in ImageLog(rules, ev.labelled, ev.releases, ev.images) <==>
            exists img :: img in ev.images && ImageGives(rules, ev, img, at, e)
  {
    var f := ImageFilings(rules, ev.labelled, ev.releases);
    InFlatMap(f, ev.images, (at, e));
    forall img
      ensures (at, e) in f(img) <==> ImageGives(rules, ev, img, at, e)
    {
      ImageGivesIs(rules, ev, img, at, e);
    }
  }

  lemma {:induction false} LabelsLogged(rules: Rules, ev: Evidence, at: Install, e: Ev)
    ensures (at, e) in FlatMap(LabelFilings(rules), ev.labelled) <==> exists p :: p in ev.labelled && LabelsGive(rules, p, at, e)
  {
    InFlatMap(LabelFilings(rules), ev.labelled, (at, e));
  }

  lemma {:induction false} ReleasesLogged(rules: Rules, ev: Evidence, at: Install, e: Ev)
    ensures (at, e) in FlatMap(ChartFilings(rules), ev.releases) <==> exists r :: r in ev.releases && ReleaseGives(rules, r, at, e)
  {
    InFlatMap(ChartFilings(rules), ev.releases, (at, e));
    forall r: Release
      ensures (at, e) in ChartFilings(rules)(r) <==> ReleaseGives(rules, r, at, e)
    {
      ForEachHas(rules.chartListings(r.chart), r.ns, ChartEv(rules, r), at, e);
    }
  }

  lemma {:induction false} ChartRefsLogged(rules: Rules, ev: Evidence, at: Install, e: Ev)
    ensures (at, e) in FlatMap(GitOpsFilings(rules), ev.gitops) <==> exists g :: g in ev.gitops && ChartRefGives(rules, g, at, e)
  {
    InFlatMap(GitOpsFilings(rules), ev.gitops, (at, e));
    forall g: ChartRef
      ensures (at, e) in GitOpsFilings(rules)(g) <==> ChartRefGives(rules, g, at, e)
    {
      ForEachHas(rules.chartEntries(g.chart), g.target, GitOpsEv(rules, g), at, e);
    }
  }

  lemma {:induction false} BaseLogIs(rules: Rules, ev: Evidence, at: Install, e: Ev)
    ensures (at, e) in BaseLog(rules, ev) <==> Detects(rules, ev, at, e)
  {
    ImagesLogged(rules, ev, at, e);
    LabelsLogged(rules, ev, at, e);
    ReleasesLogged(rules, ev, at, e);
    ChartRefsLogged(rules, ev, at, e);
  }

  lemma {:induction false} IdsDetected(rules: Rules, ev: Evidence, id: string)
    ensures id in Ids(BaseLog(rules, ev)) <==> Detected(rules, ev, id)
  {
    if id in Ids(BaseLog(rules, ev)) {
      var x :| x in BaseLog(rules, ev) && x.0.id == id;
      BaseLogIs(rules, ev, x.0, x.1);
      assert Detects(rules, ev, x.0, x.1);
    }
    if Detected(rules, ev, id) {
      var at, e :| Detects(rules, ev, at, e) && at.id == id;
      BaseLogIs(rules, ev, at, e);
      assert (at, e).0.id == id;
    }
  }

  lemma {:induction false} ClassesLogged(rules: Rules, ev: Evidence, at: Install, e: Ev)
    ensures (at, e) in FlatMap(ClassFilings(rules, Ids(BaseLog(rules, ev))), ev.controllers) <==>
            exists c :: c in ev.controllers && ClassGives(rules, ev, c, at, e)
  {
    var f := ClassFilings(rules, Ids(BaseLog(rules, ev)));
    InFlatMap(f, ev.controllers, (at, e));
    forall id
      ensures id in Ids(BaseLog(rules, ev)) <==> Detected(rules, ev, id)
    {
      IdsDetected(rules, ev, id);
    }
    assert forall c :: (at, e) in f(c) <==> ClassGives(rules, ev, c, at, e);
  }

  /** The evidence filed under an install is exactly what says so. */
  lemma {:induction false} EvidenceIs(rules: Rules, ev: Evidence, at: Install, e: Ev)
    ensures e in Under(at, Log(rules, ev)) <==> IsEvidence(rules, ev, at, e)
  {
    UnderFrom(at, Log(rules, ev), e);
    BaseLogIs(rules, ev, at, e);
    ClassesLogged(rules, ev, at, e);
  }

  lemma {:induction false} HasASource(rules: Rules, ev: Evidence, at: Install, e: Ev)
    requires IsEvidence(rules, ev, at, e)
    ensures !e.source.Nowhere?
  {
    assert Detects(rules, ev, at, e) || exists c :: c in ev.controllers && ClassGives(rules, ev, c, at, e);
  }

  lemma {:induction false} FromSources(rules: Rules, ev: Evidence, at: Install)
    ensures FromSomewhere(Under(at, Log(rules, ev)))
  {
    forall e | e in Under(at, Log(rules, ev))
      ensures !e.source.Nowhere?
    {
      EvidenceIs(rules, ev, at, e);
      HasASource(rules, ev, at, e);
    }
  }

  lemma {:induction false} EvidenceKnown(rules: Rules, ev: Evidence, at: Install)
    requires Orderly(rules, ev)
    ensures Comparable(rules, Under(at, Log(rules, ev)))
  {
    var versions :| StrictOn(rules.less, versions) && Versions(rules, ev, versions);
    forall e | e in Under(at, Log(rules, ev))
      ensures KnownEv(e, versions)
    {
      EvidenceIs(rules, ev, at, e);
      BaseLogIs(rules, ev, at, e);
      if Detects(rules, ev, at, e) {
        BaseLogKnown(rules, ev, (at, e), versions);
      }
    }
    assert AllKnown(Under(at, Log(rules, ev)), versions);
  }

  /** What is found of an install, from what says so alone. */
  ghost predicate FoundRight(rules: Rules, ev: Evidence, at: Install, insts: seq<Instance>) {
    exists evs :: (forall e :: e in evs <==> IsEvidence(rules, ev, at, e)) && AreInstances(rules, at, evs, insts)
  }

  lemma {:induction false} FoundIsRight(rules: Rules, ev: Evidence, at: Install)
    requires Orderly(rules, ev)
    ensures FoundRight(rules, ev, at, Found(rules, ev, at))
  {
    var evs := Under(at, Log(rules, ev));
    FromSources(rules, ev, at);
    EvidenceKnown(rules, ev, at);
    InstancesAre(rules, at, evs);
    forall e
      ensures e in SetOf(evs) <==> IsEvidence(rules, ev, at, e)
    {
      EvidenceIs(rules, ev, at, e);
    }
  }

  ghost predicate HasEvidence(rules: Rules, ev: Evidence, at: Install) {
    exists e :: IsEvidence(rules, ev, at, e)
  }

  /** An install is found exactly when something says so. */
  lemma {:induction false} FoundWithEvidence(rules: Rules, ev: Evidence, at: Install)
    ensures Found(rules, ev, at) != [] <==> HasEvidence(rules, ev, at)
  {
    var evs := Under(at, Log(rules, ev));
    if evs != [] {
      EvidenceIs(rules, ev, at, evs[0]);
    }
    if e :| IsEvidence(rules, ev, at, e) {
      EvidenceIs(rules, ev, at, e);
    }
  }
}
