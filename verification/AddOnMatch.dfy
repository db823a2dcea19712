/**
 What add-on detection (matchAddOns) makes of the pods, releases and charts of
 a cluster, as a function of the evidence lists.
 */
module AddOnMatch {
  import opened Basics
  import opened Repeats

  datatype NsImage = NsImage(ns: string, image: string)

  datatype Labels = Labels(chart: string, name: string, version: string, partOf: string)

  datatype Pod = Pod(ns: string, labels: Labels, images: seq<string>)

  datatype Release = Release(ns: string, chart: string, appVersion: string, chartVersion: string)

  datatype ChartRef = ChartRef(target: string, chart: string, version: string)

  datatype Evidence = Evidence(
    images: seq<NsImage>,
    labelled: seq<Pod>,
    releases: seq<Release>,
    gitops: seq<ChartRef>,
    controllers: seq<string>)

  datatype Claim = Claim(id: string, version: string, byTag: bool)

  datatype LabelledAs = LabelledAs(id: string, version: string)

  /** The registry, as detection reads it: each field is a pure function of one
      image, label set, chart or version. */
  datatype Rules = Rules(
    claims: string -> seq<Claim>,            // imageClaims of a parsed image
    untagged: string -> bool,                // the image has no tag
    versionless: string -> bool,             // its tag names no version
    repo: string -> string,                  // its host and path
    provider: string -> bool,                // a provider's own build
    qualifies: (string, string) -> bool,     // the image is of a repository the entry tells apart by tag
    labelAddOn: Labels -> LabelledAs,        // the entry labels name, id "" for none
    vendors: string -> seq<string>,          // the vendor builds of an entry
    chartEntries: string -> seq<string>,     // the entries of a chart
    chartListings: string -> seq<string>,    // the same, once per listing
    appVersion: string -> string,            // versionFromTag
    plainChart: string -> string,            // a release's chart version
    exactChart: string -> string,            // a chart reference's, when it is one version
    classEntries: string -> seq<string>,     // the entries of an IngressClass controller
    known: string -> bool,                   // the registry has an entry of this id
    line: string -> string,                  // releaseLine
    less: Less)                              // versionLess

  /* ---------- the claims of one image in one namespace ---------- */

  function LabelEntriesOf(rules: Rules, p: Pod): seq<(NsImage, Claim)> {
    var l := rules.labelAddOn(p.labels);
    if l.id == "" then []
    else
      seq(|p.images|, i requires 0 <= i < |p.images| => (NsImage(p.ns, p.images[i]), Claim(l.id, l.version, true)))
  }

  function LabelEntries(rules: Rules): Pod -> seq<(NsImage, Claim)> {
    p => LabelEntriesOf(rules, p)
  }

  function LabelLog(rules: Rules, labelled: seq<Pod>): seq<(NsImage, Claim)> {
    FlatMap(LabelEntries(rules), labelled)
  }

  /** What the labels of its pods name the image. */
  function LabelNamed(rules: Rules, labelled: seq<Pod>, k: NsImage): seq<Claim> {
    Under(k, LabelLog(rules, labelled))
  }

  function VersionFor(id: string): Claim -> string {
    (c: Claim) => if c.id == id then c.version else ""
  }

  /** The oldest version those labels give an entry. */
  function LabelVersion(rules: Rules, labelled: seq<Pod>, k: NsImage, id: string): string {
    Oldest(rules.less, VersionFor(id), LabelNamed(rules, labelled, k))
  }

  function ReleaseEntriesOf(rules: Rules, r: Release): seq<(string, Claim)> {
    var ids := rules.chartEntries(r.chart);
    seq(|ids|, i requires 0 <= i < |ids| => (r.ns, Claim(ids[i], "", true)))
  }

  function ReleaseEntries(rules: Rules): Release -> seq<(string, Claim)> {
    r => ReleaseEntriesOf(rules, r)
  }

  /** What the Helm releases of a namespace name. */
  function ReleaseNamed(rules: Rules, releases: seq<Release>, ns: string): seq<Claim> {
    Under(ns, FlatMap(ReleaseEntries(rules), releases))
  }

  function Qualifying(rules: Rules, image: string): Claim -> bool {
    (c: Claim) => rules.qualifies(image, c.id)
  }

  /** The claims before label versions: an untagged image's first qualifying
      name, else what its matchers say. */
  function Claimed(rules: Rules, labelled: seq<Pod>, releases: seq<Release>, k: NsImage): seq<Claim> {
    var named := Find(Qualifying(rules, k.image),
                      LabelNamed(rules, labelled, k) + ReleaseNamed(rules, releases, k.ns));
    if rules.untagged(k.image) && named.Some? then [named.value] else rules.claims(k.image)
  }

  function WithVersion(rules: Rules, labelled: seq<Pod>, k: NsImage, c: Claim): Claim {
    if rules.versionless(k.image) && c.byTag then c.(version := LabelVersion(rules, labelled, k, c.id)) else c
  }

  function Settled(rules: Rules, labelled: seq<Pod>, releases: seq<Release>, k: NsImage): seq<Claim> {
    WithVersions(rules, labelled, k, Claimed(rules, labelled, releases, k))
  }

  function WithVersions(rules: Rules, labelled: seq<Pod>, k: NsImage, claims: seq<Claim>): seq<Claim> {
    seq(|claims|, i requires 0 <= i < |claims| => WithVersion(rules, labelled, k, claims[i]))
  }

  /* ---------- the evidence for one install ---------- */

  datatype Source = Nowhere | ClassSource | GitOpsSource | LabelSource | ImageSource | ChartSource

  function Strength(s: Source): nat {
    match s
    case Nowhere => 0
    case ClassSource => 1
    case GitOpsSource => 2
    case LabelSource => 3
    case ImageSource => 4
    case ChartSource => 5
  }

  datatype Ev = Ev(source: Source, version: string, chart: string)

  datatype Install = Install(id: string, ns: string)

  type Filing = (Install, Ev)

  function ClaimFilings(claims: seq<Claim>, ns: string): seq<Filing> {
    seq(|claims|, i requires 0 <= i < |claims| => (Install(claims[i].id, ns), Ev(ImageSource, claims[i].version, "")))
  }

  function ImageFilingsOf(rules: Rules, labelled: seq<Pod>, releases: seq<Release>, img: NsImage): seq<Filing> {
    ClaimFilings(Settled(rules, labelled, releases, img), img.ns)
  }

  function ImageFilings(rules: Rules, labelled: seq<Pod>, releases: seq<Release>): NsImage -> seq<Filing> {
    img => ImageFilingsOf(rules, labelled, releases, img)
  }

  /** Labels count only for a pod with an image of no entry, none of the labelled
      entry or its vendor builds, and none of a provider. */
  predicate LabelsCount(rules: Rules, p: Pod, id: string) {
    && (exists img :: img in p.images && rules.claims(img) == [])
    && (forall img, c :: img in p.images && c in rules.claims(img) ==> c.id != id && c.id !in rules.vendors(id))
    && (forall img :: img in p.images ==> !rules.provider(img))
  }

  function LabelFilingsOf(rules: Rules, p: Pod): seq<Filing> {
    var l := rules.labelAddOn(p.labels);
    if l.id != "" && LabelsCount(rules, p, l.id) then [(Install(l.id, p.ns), Ev(LabelSource, l.version, ""))] else []
  }

  function LabelFilings(rules: Rules): Pod -> seq<Filing> {
    p => LabelFilingsOf(rules, p)
  }

  function ForEach(ids: seq<string>, ns: string, e: Ev): seq<Filing> {
    seq(|ids|, i requires 0 <= i < |ids| => (Install(ids[i], ns), e))
  }

  function ChartEv(rules: Rules, r: Release): Ev {
    Ev(ChartSource, rules.appVersion(r.appVersion), rules.plainChart(r.chartVersion))
  }

  function ChartFilings(rules: Rules): Release -> seq<Filing> {
    (r: Release) => ForEach(rules.chartListings(r.chart), r.ns, ChartEv(rules, r))
  }

  function GitOpsEv(rules: Rules, g: ChartRef): Ev {
    Ev(GitOpsSource, "", rules.exactChart(g.version))
  }

  function GitOpsFilings(rules: Rules): ChartRef -> seq<Filing> {
    (g: ChartRef) => ForEach(rules.chartEntries(g.chart), g.target, GitOpsEv(rules, g))
  }

  function InstallLog(rules: Rules, releases: seq<Release>, gitops: seq<ChartRef>): seq<Filing> {
    FlatMap(ChartFilings(rules), releases) + FlatMap(GitOpsFilings(rules), gitops)
  }

  function ImageLog(rules: Rules, labelled: seq<Pod>, releases: seq<Release>, images: seq<NsImage>): seq<Filing> {
    FlatMap(ImageFilings(rules, labelled, releases), images)
  }

  /** The evidence of pods, releases and chart references, in reading order. */
  function BaseLog(rules: Rules, ev: Evidence): seq<Filing> {
    ImageLog(rules, ev.labelled, ev.releases, ev.images)
    + (FlatMap(LabelFilings(rules), ev.labelled) + InstallLog(rules, ev.releases, ev.gitops))
  }

  function Ids(log: seq<Filing>): set<string> {
    set x | x in log :: x.0.id
  }

  /** An IngressClass names its first entry when none of its entries is found. */
  function ClassFilingsOf(rules: Rules, detected: set<string>, controller: string): seq<Filing> {
    var ids := rules.classEntries(controller);
    if ids != [] && rules.known(ids[0]) && (forall id :: id in ids ==> id !in detected)
    then [(Install(ids[0], ""), Ev(ClassSource, "", ""))] else []
  }

  function ClassFilings(rules: Rules, detected: set<string>): string -> seq<Filing> {
    c => ClassFilingsOf(rules, detected, c)
  }

  function Log(rules: Rules, ev: Evidence): seq<Filing> {
    var base := BaseLog(rules, ev);
    base + FlatMap(ClassFilings(rules, Ids(base)), ev.controllers)
  }

  /* ---------- the instances of one install ---------- */

  datatype Instance = Instance(id: string, source: Source, namespaces: seq<string>, version: string, chart: string)

  function AppVersionOf(e: Ev): string {
    if e.source.ChartSource? then e.version else ""
  }

  function PodVersionOf(e: Ev): string {
    if e.source.ChartSource? then "" else e.version
  }

  function ReleaseChartOf(e: Ev): string {
    if e.source.GitOpsSource? then "" else e.chart
  }

  function GitOpsChartOf(e: Ev): string {
    if e.source.GitOpsSource? then e.chart else ""
  }

  function Strongest(evs: seq<Ev>): Source {
    if evs == [] then Nowhere
    else
      var (s, e) := (Strongest(evs[..|evs| - 1]), evs[|evs| - 1]);
      if Strength(e.source) > Strength(s) then e.source else s
  }

  function Or(a: string, b: string): string {
    if a != "" then a else b
  }

  function InstanceOf(rules: Rules, at: Install, evs: seq<Ev>): Instance {
    var source := Strongest(evs);
    Instance(
      at.id, source, if source.ClassSource? then [] else [at.ns],
      Or(Oldest(rules.less, AppVersionOf, evs), Oldest(rules.less, PodVersionOf, evs)),
      Or(Oldest(rules.less, ReleaseChartOf, evs), Oldest(rules.less, GitOpsChartOf, evs)))
  }

  /** The release lines the install's Helm releases speak for. */
  function Lines(rules: Rules, evs: seq<Ev>): set<string> {
    set e | e in evs && e.source.ChartSource? && e.version != "" :: rules.line(e.version)
  }

  predicate OtherLine(rules: Rules, lines: set<string>, e: Ev) {
    lines != {} && !e.source.ChartSource? && e.version != "" && rules.line(e.version) !in lines
  }

  function Keep(rules: Rules, lines: set<string>, other: bool): Ev -> seq<Ev> {
    e => if OtherLine(rules, lines, e) == other then [e] else []
  }

  function InstancesOf(rules: Rules, at: Install, evs: seq<Ev>): seq<Instance> {
    if evs == [] then []
    else
      var lines := Lines(rules, evs);
      var others := FlatMap(Keep(rules, lines, true), evs);
      [InstanceOf(rules, at, FlatMap(Keep(rules, lines, false), evs))]
      + (if others == [] then [] else [InstanceOf(rules, at, others)])
  }

  function Found(rules: Rules, ev: Evidence, at: Install): seq<Instance> {
    InstancesOf(rules, at, Under(at, Log(rules, ev)))
  }

  function Unclaimed(rules: Rules, labelled: seq<Pod>, releases: seq<Release>, images: seq<NsImage>): set<string> {
    set img | img in images && Settled(rules, labelled, releases, img) == [] :: rules.repo(img.image)
  }

  function Unrecognized(rules: Rules, ev: Evidence): set<string> {
    Unclaimed(rules, ev.labelled, ev.releases, ev.images)
  }

  /** The same add-on instances in every install, the same unrecognized images. */
  ghost predicate SameOutcome(rules: Rules, a: Evidence, b: Evidence) {
    && (forall at :: Found(rules, a, at) == Found(rules, b, at))
    && Unrecognized(rules, a) == Unrecognized(rules, b)
  }

  /* ---------- versions that occur ---------- */

  ghost predicate Known(v: string, versions: set<string>) {
    v == "" || v in versions
  }

  /** Every version the evidence can give is one of the set. */
  ghost predicate Versions(rules: Rules, ev: Evidence, versions: set<string>) {
    && (forall p :: p in ev.labelled ==> Known(rules.labelAddOn(p.labels).version, versions))
    && (forall img, c :: img in ev.images && c in rules.claims(img.image) ==> Known(c.version, versions))
    && (forall r :: r in ev.releases ==>
          Known(rules.appVersion(r.appVersion), versions) && Known(rules.plainChart(r.chartVersion), versions))
    && (forall g :: g in ev.gitops ==> Known(rules.exactChart(g.version), versions))
  }

  ghost predicate KnownEv(e: Ev, versions: set<string>) {
    Known(e.version, versions) && Known(e.chart, versions)
  }

  lemma {:induction false} LabelNamedKnown(rules: Rules, labelled: seq<Pod>, k: NsImage, versions: set<string>)
    requires forall p :: p in labelled ==> Known(rules.labelAddOn(p.labels).version, versions)
    ensures forall c :: c in LabelNamed(rules, labelled, k) ==> Known(c.version, versions)
  {
    forall c | c in LabelNamed(rules, labelled, k)
      ensures Known(c.version, versions)
    {
      UnderFrom(k, LabelLog(rules, labelled), c);
      var p := FlatMapFrom(LabelEntries(rules), labelled, (k, c));
    }
  }

  lemma {:induction false} LabelVersionKnown(rules: Rules, labelled: seq<Pod>, k: NsImage, id: string, versions: set<string>)
    requires StrictOn(rules.less, versions)
    requires forall p :: p in labelled ==> Known(rules.labelAddOn(p.labels).version, versions)
    ensures Known(LabelVersion(rules, labelled, k, id), versions)
  {
    LabelNamedKnown(rules, labelled, k, versions);
    OldestAbsorbs(rules.less, VersionFor(id), LabelNamed(rules, labelled, k), versions);
  }

  lemma {:induction false} FindIsIn<T>(want: T -> bool, xs: seq<T>)
    ensures Find(want, xs).Some? ==> Find(want, xs).value in xs
  {
    if xs != [] {
      FindIsIn(want, xs[..|xs| - 1]);
    }
  }

  lemma {:induction false} ReleaseNamedKnown(rules: Rules, releases: seq<Release>, ns: string)
    ensures forall c :: c in ReleaseNamed(rules, releases, ns) ==> c.version == ""
  {
    forall c | c in ReleaseNamed(rules, releases, ns)
      ensures c.version == ""
    {
      UnderFrom(ns, FlatMap(ReleaseEntries(rules), releases), c);
      var r := FlatMapFrom(ReleaseEntries(rules), releases, (ns, c));
    }
  }

  lemma {:induction false} SettledKnown(rules: Rules, ev: Evidence, img: NsImage, versions: set<string>)
    requires StrictOn(rules.less, versions) && Versions(rules, ev, versions) && img in ev.images
    ensures forall c :: c in Settled(rules, ev.labelled, ev.releases, img) ==> Known(c.version, versions)
  {
    var claims := Claimed(rules, ev.labelled, ev.releases, img);
    LabelNamedKnown(rules, ev.labelled, img, versions);
    ReleaseNamedKnown(rules, ev.releases, img.ns);
    FindIsIn(Qualifying(rules, img.image),
             LabelNamed(rules, ev.labelled, img) + ReleaseNamed(rules, ev.releases, img.ns));
    forall i | 0 <= i < |claims|
      ensures Known(Settled(rules, ev.labelled, ev.releases, img)[i].version, versions)
    {
      assert Known(claims[i].version, versions);
      LabelVersionKnown(rules, ev.labelled, img, claims[i].id, versions);
    }
  }

  lemma {:induction false} ImageFilingsKnown(rules: Rules, ev: Evidence, img: NsImage, x: Filing, versions: set<string>)
    requires StrictOn(rules.less, versions) && Versions(rules, ev, versions) && img in ev.images
    requires x in ImageFilingsOf(rules, ev.labelled, ev.releases, img)
    ensures KnownEv(x.1, versions)
  {
    SettledKnown(rules, ev, img, versions);
    var claims := Settled(rules, ev.labelled, ev.releases, img);
    var i :| 0 <= i < |claims| && x == (Install(claims[i].id, img.ns), Ev(ImageSource, claims[i].version, ""));
    assert claims[i] in claims;
  }

  lemma {:induction false} ForEachIs(ids: seq<string>, ns: string, e: Ev, x: Filing)
    requires x in ForEach(ids, ns, e)
    ensures x.1 == e
  {
  }

  lemma {:induction false} InstallLogKnown(rules: Rules, ev: Evidence, x: Filing, versions: set<string>)
    requires Versions(rules, ev, versions) && x in InstallLog(rules, ev.releases, ev.gitops)
    ensures KnownEv(x.1, versions)
  {
    if x in FlatMap(ChartFilings(rules), ev.releases) {
      var r := FlatMapFrom(ChartFilings(rules), ev.releases, x);
      ForEachIs(rules.chartListings(r.chart), r.ns, ChartEv(rules, r), x);
    } else {
      var g := FlatMapFrom(GitOpsFilings(rules), ev.gitops, x);
      ForEachIs(rules.chartEntries(g.chart), g.target, GitOpsEv(rules, g), x);
    }
  }

  lemma {:induction false} BaseLogKnown(rules: Rules, ev: Evidence, x: Filing, versions: set<string>)
    requires StrictOn(rules.less, versions) && Versions(rules, ev, versions) && x in BaseLog(rules, ev)
    ensures KnownEv(x.1, versions)
  {
    if x in FlatMap(ImageFilings(rules, ev.labelled, ev.releases), ev.images) {
      var img := FlatMapFrom(ImageFilings(rules, ev.labelled, ev.releases), ev.images, x);
      ImageFilingsKnown(rules, ev, img, x, versions);
    } else if x in FlatMap(LabelFilings(rules), ev.labelled) {
      var p := FlatMapFrom(LabelFilings(rules), ev.labelled, x);
    } else {
      InstallLogKnown(rules, ev, x, versions);
    }
  }

  lemma {:induction false} EvsKnown(rules: Rules, ev: Evidence, part: seq<Filing>, at: Install, versions: set<string>)
    requires StrictOn(rules.less, versions) && Versions(rules, ev, versions)
    requires forall x :: x in part ==> x in BaseLog(rules, ev)
    ensures forall e :: e in Under(at, part) ==> KnownEv(e, versions)
  {
    forall e | e in Under(at, part)
      ensures KnownEv(e, versions)
    {
      UnderFrom(at, part, e);
      BaseLogKnown(rules, ev, (at, e), versions);
    }
  }

  /* ---------- repeated evidence gives the same instances ---------- */

  lemma {:induction false} StrongestIs(evs: seq<Ev>)
    ensures forall e :: e in evs ==> Strength(e.source) <= Strength(Strongest(evs))
    ensures Strongest(evs) == Nowhere || exists e :: e in evs && e.source == Strongest(evs)
  {
    if evs != [] {
      var init, last := evs[..|evs| - 1], evs[|evs| - 1];
      assert evs == init + [last];
      StrongestIs(init);
    }
  }

  lemma {:induction false} SameElements<T>(us: seq<T>, mid: seq<T>, vs: seq<T>)
    requires Covered(us, mid)
    ensures forall x :: x in us + mid + vs <==> x in us + vs
    ensures us + mid + vs == [] <==> us + vs == []
  {
    if mid != [] {
      assert mid[0] in us;
    }
  }

  lemma {:induction false} StrongestBlock(us: seq<Ev>, mid: seq<Ev>, vs: seq<Ev>)
    requires Covered(us, mid)
    ensures Strongest(us + mid + vs) == Strongest(us + vs)
  {
    SameElements(us, mid, vs);
    StrongestIs(us + mid + vs);
    StrongestIs(us + vs);
  }

  lemma {:induction false} InstanceBlock(rules: Rules, at: Install, us: seq<Ev>, mid: seq<Ev>, vs: seq<Ev>, versions: set<string>)
    requires Covered(us, mid) && StrictOn(rules.less, versions)
    requires forall e :: e in us ==> KnownEv(e, versions)
    ensures InstanceOf(rules, at, us + mid + vs) == InstanceOf(rules, at, us + vs)
  {
    StrongestBlock(us, mid, vs);
    OldestBlock(rules.less, AppVersionOf, us, mid, vs, versions);
    OldestBlock(rules.less, PodVersionOf, us, mid, vs, versions);
    OldestBlock(rules.less, ReleaseChartOf, us, mid, vs, versions);
    OldestBlock(rules.less, GitOpsChartOf, us, mid, vs, versions);
  }

  lemma {:induction false} PartBlock(rules: Rules, at: Install, lines: set<string>, other: bool,
                  us: seq<Ev>, mid: seq<Ev>, vs: seq<Ev>, versions: set<string>)
    requires Covered(us, mid) && StrictOn(rules.less, versions)
    requires forall e :: e in us ==> KnownEv(e, versions)
    ensures InstanceOf(rules, at, FlatMap(Keep(rules, lines, other), us + mid + vs)) ==
            InstanceOf(rules, at, FlatMap(Keep(rules, lines, other), us + vs))
    ensures FlatMap(Keep(rules, lines, other), us + mid + vs) == [] <==>
            FlatMap(Keep(rules, lines, other), us + vs) == []
  {
    var keep := Keep(rules, lines, other);
    FlatMapBlock(keep, us, mid, vs);
    SameElements(FlatMap(keep, us), FlatMap(keep, mid), FlatMap(keep, vs));
    forall e | e in FlatMap(keep, us)
      ensures KnownEv(e, versions)
    {
      var x := FlatMapFrom(keep, us, e);
    }
    InstanceBlock(rules, at, FlatMap(keep, us), FlatMap(keep, mid), FlatMap(keep, vs), versions);
  }

  lemma {:induction false} InstancesBlock(rules: Rules, at: Install, us: seq<Ev>, mid: seq<Ev>, vs: seq<Ev>, versions: set<string>)
    requires Covered(us, mid) && StrictOn(rules.less, versions)
    requires forall e :: e in us ==> KnownEv(e, versions)
    ensures InstancesOf(rules, at, us + mid + vs) == InstancesOf(rules, at, us + vs)
  {
    SameElements(us, mid, vs);
    var lines := Lines(rules, us + mid + vs);
    assert lines == Lines(rules, us + vs);
    PartBlock(rules, at, lines, true, us, mid, vs, versions);
    PartBlock(rules, at, lines, false, us, mid, vs, versions);
  }

  /** Evidence that differs by a covered block of filings is one outcome. */
  lemma {:induction false} BlockedOutcome(rules: Rules, a: Evidence, b: Evidence, us: seq<Filing>, mid: seq<Filing>, vs: seq<Filing>,
                       versions: set<string>)
    requires StrictOn(rules.less, versions) && Versions(rules, a, versions)
    requires a.controllers == b.controllers
    requires BaseLog(rules, a) == us + mid + vs && BaseLog(rules, b) == us + vs && Covered(us, mid)
    ensures forall at :: Found(rules, a, at) == Found(rules, b, at)
  {
    SameElements(us, mid, vs);
    assert Ids(us + mid + vs) == Ids(us + vs);
    var rest := FlatMap(ClassFilings(rules, Ids(us + vs)), a.controllers);
    Regroup(us, mid, vs, rest);
    forall at
      ensures Found(rules, a, at) == Found(rules, b, at)
    {
      UnderBlock(at, us, mid, vs + rest);
      EvsKnown(rules, a, us, at, versions);
      InstancesBlock(rules, at, Under(at, us), Under(at, mid), Under(at, vs + rest), versions);
    }
  }

  /* ---------- dropping repeated images ---------- */

  /** What is filed, with a covered block of images and without it. */
  lemma {:induction false} ImageLogBlock(rules: Rules, ev: Evidence, us: seq<NsImage>, mid: seq<NsImage>, vs: seq<NsImage>)
    returns (u: seq<Filing>, m: seq<Filing>, v: seq<Filing>)
    requires Covered(us, mid)
    ensures BaseLog(rules, ev.(images := us + mid + vs)) == u + m + v
    ensures BaseLog(rules, ev.(images := us + vs)) == u + v && Covered(u, m)
  {
    var f := ImageFilings(rules, ev.labelled, ev.releases);
    var rest := FlatMap(LabelFilings(rules), ev.labelled) + InstallLog(rules, ev.releases, ev.gitops);
    FlatMapBlock(f, us, mid, vs);
    Regroup(FlatMap(f, us), FlatMap(f, mid), FlatMap(f, vs), rest);
    u, m, v := FlatMap(f, us), FlatMap(f, mid), FlatMap(f, vs) + rest;
  }

  lemma {:induction false} SameUnclaimed(rules: Rules, ev: Evidence, us: seq<NsImage>, mid: seq<NsImage>, vs: seq<NsImage>)
    requires Covered(us, mid)
    ensures Unrecognized(rules, ev.(images := us + mid + vs)) == Unrecognized(rules, ev.(images := us + vs))
  {
    SameElements(us, mid, vs);
  }

  lemma {:induction false} RepeatedImages(rules: Rules, ev: Evidence, us: seq<NsImage>, mid: seq<NsImage>, vs: seq<NsImage>,
                       versions: set<string>)
    requires Covered(us, mid) && StrictOn(rules.less, versions)
    requires Versions(rules, ev.(images := us + mid + vs), versions)
    ensures SameOutcome(rules, ev.(images := us + mid + vs), ev.(images := us + vs))
  {
    var u, m, v := ImageLogBlock(rules, ev, us, mid, vs);
    BlockedOutcome(rules, ev.(images := us + mid + vs), ev.(images := us + vs), u, m, v, versions);
    SameUnclaimed(rules, ev, us, mid, vs);
  }

  /* ---------- dropping repeated labelled pods ---------- */

  /** What labels name an image, with a covered block of pods and without it. */
  lemma {:induction false} NamedBlock(rules: Rules, us: seq<Pod>, mid: seq<Pod>, vs: seq<Pod>, k: NsImage)
    returns (u: seq<Claim>, m: seq<Claim>, v: seq<Claim>)
    requires Covered(us, mid)
    ensures LabelNamed(rules, us + mid + vs, k) == u + m + v
    ensures LabelNamed(rules, us + vs, k) == u + v
    ensures u == LabelNamed(rules, us, k) && Covered(u, m)
  {
    var f := LabelEntries(rules);
    FlatMapBlock(f, us, mid, vs);
    UnderBlock(k, FlatMap(f, us), FlatMap(f, mid), FlatMap(f, vs));
    u, m, v := Under(k, FlatMap(f, us)), Under(k, FlatMap(f, mid)), Under(k, FlatMap(f, vs));
  }

  lemma {:induction false} ClaimedBlock(rules: Rules, releases: seq<Release>, us: seq<Pod>, mid: seq<Pod>, vs: seq<Pod>, k: NsImage)
    requires Covered(us, mid)
    ensures Claimed(rules, us + mid + vs, releases, k) == Claimed(rules, us + vs, releases, k)
  {
    var u, m, v := NamedBlock(rules, us, mid, vs, k);
    var named := ReleaseNamed(rules, releases, k.ns);
    Regroup(u, m, v, named);
    FindBlock(Qualifying(rules, k.image), u, m, v + named);
  }

  lemma {:induction false} LabelVersionBlock(rules: Rules, us: seq<Pod>, mid: seq<Pod>, vs: seq<Pod>, k: NsImage, id: string,
                          versions: set<string>)
    requires Covered(us, mid) && StrictOn(rules.less, versions)
    requires forall p :: p in us ==> Known(rules.labelAddOn(p.labels).version, versions)
    ensures LabelVersion(rules, us + mid + vs, k, id) == LabelVersion(rules, us + vs, k, id)
  {
    var u, m, v := NamedBlock(rules, us, mid, vs, k);
    LabelNamedKnown(rules, us, k, versions);
    OldestBlock(rules.less, VersionFor(id), u, m, v, versions);
  }

  lemma {:induction false} SettledBlock(rules: Rules, releases: seq<Release>, us: seq<Pod>, mid: seq<Pod>, vs: seq<Pod>, k: NsImage,
                     versions: set<string>)
    requires Covered(us, mid) && StrictOn(rules.less, versions)
    requires forall p :: p in us ==> Known(rules.labelAddOn(p.labels).version, versions)
    ensures Settled(rules, us + mid + vs, releases, k) == Settled(rules, us + vs, releases, k)
  {
    ClaimedBlock(rules, releases, us, mid, vs, k);
    forall id
      ensures LabelVersion(rules, us + mid + vs, k, id) == LabelVersion(rules, us + vs, k, id)
    {
      LabelVersionBlock(rules, us, mid, vs, k, id, versions);
    }
  }

  lemma {:induction false} RepeatedPods(rules: Rules, ev: Evidence, us: seq<Pod>, mid: seq<Pod>, vs: seq<Pod>, versions: set<string>)
    requires Covered(us, mid) && StrictOn(rules.less, versions)
    requires Versions(rules, ev.(labelled := us + mid + vs), versions)
    ensures SameOutcome(rules, ev.(labelled := us + mid + vs), ev.(labelled := us + vs))
  {
    var a, b := ev.(labelled := us + mid + vs), ev.(labelled := us + vs);
    forall k
      ensures Settled(rules, a.labelled, a.releases, k) == Settled(rules, b.labelled, b.releases, k)
    {
      SettledBlock(rules, ev.releases, us, mid, vs, k, versions);
    }
    var g, h := ImageFilings(rules, a.labelled, a.releases), ImageFilings(rules, b.labelled, b.releases);
    FlatMapSame(g, h, ev.images);
    var first := FlatMap(h, ev.images);
    var f := LabelFilings(rules);
    var rest := InstallLog(rules, ev.releases, ev.gitops);
    FlatMapBlock(f, us, mid, vs);
    RegroupAfter(first, FlatMap(f, us), FlatMap(f, mid), FlatMap(f, vs), rest);
    BlockedOutcome(rules, a, b, first + FlatMap(f, us), FlatMap(f, mid), FlatMap(f, vs) + rest, versions);
  }

  /* ---------- the whole list without repeats ---------- */

  lemma {:induction false} MoveLast<T>(before: seq<T>, xs: seq<T>, after: seq<T>)
    requires xs != []
    ensures before + xs + after == before + xs[..|xs| - 1] + ([xs[|xs| - 1]] + after)
  {
    assert xs == xs[..|xs| - 1] + [xs[|xs| - 1]];
  }

  lemma {:induction false} TakeIn<T>(before: seq<T>, xs: seq<T>, last: T, after: seq<T>)
    ensures before + xs + ([last] + after) == before + xs + [last] + after
    ensures before + xs + ([last] + after) == before + (xs + [last]) + after
  {
  }

  lemma {:induction false} FirstsOfLast<T(!new)>(xs: seq<T>)
    requires xs != [] && xs[|xs| - 1] !in xs[..|xs| - 1]
    ensures Firsts(xs) == Firsts(xs[..|xs| - 1]) + [xs[|xs| - 1]]
  {
  }

  /** What is left after the first of each of all but the last element. */
  lemma {:induction false} FirstsThenLast<T(!new)>(before: seq<T>, xs: seq<T>, after: seq<T>)
    requires xs != []
    ensures var (init, last) := (xs[..|xs| - 1], xs[|xs| - 1]);
            before + Firsts(init) + ([last] + after) ==
            if last in init then before + Firsts(init) + [last] + after else before + Firsts(xs) + after
  {
    var init, last := xs[..|xs| - 1], xs[|xs| - 1];
    TakeIn(before, Firsts(init), last, after);
    if last !in init {
      FirstsOfLast(xs);
    }
  }

  /** Keeping the first of each image changes nothing that is found. */
  lemma {:induction false} FirstImages(rules: Rules, ev: Evidence, before: seq<NsImage>, xs: seq<NsImage>,
                                      after: seq<NsImage>, versions: set<string>)
    requires StrictOn(rules.less, versions) && Versions(rules, ev.(images := before + xs + after), versions)
    ensures SameOutcome(rules, ev.(images := before + xs + after), ev.(images := before + Firsts(xs) + after))
  {
    if xs != [] {
      var init, last := xs[..|xs| - 1], xs[|xs| - 1];
      MoveLast(before, xs, after);
      FirstImages(rules, ev, before, init, [last] + after, versions);
      FirstsThenLast(before, xs, after);
      if last in init {
        RepeatedImages(rules, ev, before + Firsts(init), [last], after, versions);
      }
    }
  }

  lemma {:induction false} FirstPods(rules: Rules, ev: Evidence, before: seq<Pod>, xs: seq<Pod>, after: seq<Pod>,
                                    versions: set<string>)
    requires StrictOn(rules.less, versions) && Versions(rules, ev.(labelled := before + xs + after), versions)
    ensures SameOutcome(rules, ev.(labelled := before + xs + after), ev.(labelled := before + Firsts(xs) + after))
  {
    if xs != [] {
      var init, last := xs[..|xs| - 1], xs[|xs| - 1];
      MoveLast(before, xs, after);
      FirstPods(rules, ev, before, init, [last] + after, versions);
      FirstsThenLast(before, xs, after);
      if last in init {
        RepeatedPods(rules, ev, before + Firsts(init), [last], after, versions);
      }
    }
  }
}
