/**
 The pod pass: the pods outside kube-system are listed only every few
 collections, and what a pass found is reused in between (PodPassCache and the
 pod-list part of collectAddOnsFrom).
 */
module PodPass {
  import opened Repeats
  import opened AddOnMatch
  import opened Picking
  import VolumeTally

  const SYSTEM := "kube-system"
  const MAX_INT64 := 0x7fff_ffff_ffff_ffff
  const SECOND := 1_000_000_000

  /** A pod as the list gives it, with the in-tree volume plugins it uses. */
  datatype PodRead = PodRead(ns: string, labels: Labels, images: seq<string>, plugins: seq<string>)

  const NO_LABELS := Labels("", "", "", "")

  /** What a pass keeps of pods; uses has one (plugin, namespace) per pod and plugin. */
  datatype PodEvidence = PodEvidence(images: seq<NsImage>, labelled: seq<Pod>, uses: seq<(string, string)>)

  const NOTHING := PodEvidence([], [], [])

  function ImagesOf(p: PodRead): seq<NsImage> {
    seq(|p.images|, i requires 0 <= i < |p.images| => NsImage(p.ns, p.images[i]))
  }

  function LabelledOf(p: PodRead): seq<Pod> {
    if p.labels == NO_LABELS then [] else [Pod(p.ns, p.labels, p.images)]
  }

  function UsesOf(p: PodRead): seq<(string, string)> {
    VolumeTally.PodUses(p.plugins, p.ns)
  }

  function EvidenceOf(pods: seq<PodRead>): PodEvidence {
    PodEvidence(FlatMap(ImagesOf, pods), FlatMap(LabelledOf, pods), FlatMap(UsesOf, pods))
  }

  /* ---------- what pods are evidence of ---------- */

  ghost predicate RunsImage(p: PodRead, x: NsImage) {
    p.ns == x.ns && x.image in p.images
  }

  ghost predicate IsLabelled(p: PodRead, q: Pod) {
    p.labels != NO_LABELS && q == Pod(p.ns, p.labels, p.images)
  }

  function UsesPlugin(plugin: string, ns: string): PodRead -> bool {
    (p: PodRead) => p.ns == ns && plugin in p.plugins
  }

  /** No plugin twice, as a pod's volumes are read. */
  ghost predicate OnePerPlugin(p: PodRead) {
    forall i, j :: 0 <= i < j < |p.plugins| ==> p.plugins[i] != p.plugins[j]
  }

  ghost predicate AllOnce(pods: seq<PodRead>) {
    forall p :: p in pods ==> OnePerPlugin(p)
  }

  /** Every image of every pod is evidence, so is every labelled pod, and each plugin is
      counted once for each pod of the namespace that uses it. */
  ghost predicate IsEvidenceOf(pods: seq<PodRead>, ev: PodEvidence) {
    && (forall x :: x in ev.images <==> exists p :: p in pods && RunsImage(p, x))
    && (forall q :: q in ev.labelled <==> exists p :: p in pods && IsLabelled(p, q))
    && (AllOnce(pods) ==>
          forall plugin, ns :: multiset(ev.uses)[(plugin, ns)] == |Places(UsesPlugin(plugin, ns), pods, |pods|)|)
  }

  lemma {:induction false} ImagesAre(pods: seq<PodRead>, x: NsImage)
    ensures x in EvidenceOf(pods).images <==> exists p :: p in pods && RunsImage(p, x)
  {
    if x in EvidenceOf(pods).images {
      var p := FlatMapFrom(ImagesOf, pods, x);
      assert RunsImage(p, x);
    }
    if p :| p in pods && RunsImage(p, x) {
      FlatMapHas(ImagesOf, pods, p);
      var i :| 0 <= i < |p.images| && p.images[i] == x.image;
      assert ImagesOf(p)[i] == x;
    }
  }

  lemma {:induction false} LabelledAre(pods: seq<PodRead>, q: Pod)
    ensures q in EvidenceOf(pods).labelled <==> exists p :: p in pods && IsLabelled(p, q)
  {
    if q in EvidenceOf(pods).labelled {
      var p := FlatMapFrom(LabelledOf, pods, q);
      assert IsLabelled(p, q);
    }
    if p :| p in pods && IsLabelled(p, q) {
      FlatMapHas(LabelledOf, pods, p);
      assert LabelledOf(p) == [q];
    }
  }

  lemma {:induction false} UsesOnce(us: seq<(string, string)>, x: (string, string))
    requires forall i, j :: 0 <= i < j < |us| ==> us[i] != us[j]
    ensures multiset(us)[x] == if x in us then 1 else 0
  {
    if us != [] {
      var init, last := us[..|us| - 1], us[|us| - 1];
      assert us == init + [last];
      UsesOnce(init, x);
    }
  }

  lemma {:induction false} UsesOfOne(p: PodRead, plugin: string, ns: string)
    requires OnePerPlugin(p)
    ensures multiset(UsesOf(p))[(plugin, ns)] == if UsesPlugin(plugin, ns)(p) then 1 else 0
  {
    var us := UsesOf(p);
    forall i, j | 0 <= i < j < |us|
      ensures us[i] != us[j]
    {
      assert us[i].0 == p.plugins[i] && us[j].0 == p.plugins[j];
    }
    UsesOnce(us, (plugin, ns));
    if UsesPlugin(plugin, ns)(p) {
      var i :| 0 <= i < |p.plugins| && p.plugins[i] == plugin;
      assert us[i] == (plugin, ns);
    }
  }

  lemma {:induction false} CountConcat<T>(a: seq<T>, b: seq<T>, x: T)
    ensures multiset(a + b)[x] == multiset(a)[x] + multiset(b)[x]
  {
  }

  lemma {:induction false} UsesCount(pods: seq<PodRead>, n: nat, plugin: string, ns: string)
    requires n <= |pods| && AllOnce(pods)
    ensures multiset(FlatMap(UsesOf, pods[..n]))[(plugin, ns)] == |Places(UsesPlugin(plugin, ns), pods, n)|
  {
    if n == 0 {
      NoPlaces(UsesPlugin(plugin, ns), pods);
    } else {
      UsesCount(pods, n - 1, plugin, ns);
      FlatMapNext(UsesOf, pods, n - 1);
      PlacesNext(UsesPlugin(plugin, ns), pods, n - 1);
      UsesOfOne(pods[n - 1], plugin, ns);
      CountConcat(FlatMap(UsesOf, pods[..n - 1]), UsesOf(pods[n - 1]), (plugin, ns));
    }
  }

  lemma {:induction false} EvidenceIs(pods: seq<PodRead>)
    ensures IsEvidenceOf(pods, EvidenceOf(pods))
  {
    forall x
      ensures x in EvidenceOf(pods).images <==> exists p :: p in pods && RunsImage(p, x)
    {
      ImagesAre(pods, x);
    }
    forall q
      ensures q in EvidenceOf(pods).labelled <==> exists p :: p in pods && IsLabelled(p, q)
    {
      LabelledAre(pods, q);
    }
    if AllOnce(pods) {
      forall plugin, ns
        ensures multiset(EvidenceOf(pods).uses)[(plugin, ns)] == |Places(UsesPlugin(plugin, ns), pods, |pods|)|
      {
        UsesCount(pods, |pods|, plugin, ns);
        assert pods[..|pods|] == pods;
      }
    }
  }

  function Join(a: PodEvidence, b: PodEvidence): PodEvidence {
    PodEvidence(a.images + b.images, a.labelled + b.labelled, a.uses + b.uses)
  }

  /* ---------- leaving kube-system out ---------- */

  function Outside<T>(ns: T -> string): T -> seq<T> {
    (x: T) => if ns(x) == SYSTEM then [] else [x]
  }

  function ReadNs(p: PodRead): string {
    p.ns
  }

  function ImageNs(i: NsImage): string {
    i.ns
  }

  function PodNs(p: Pod): string {
    p.ns
  }

  function UseNs(u: (string, string)): string {
    u.1
  }

  function OutsidePods(pods: seq<PodRead>): seq<PodRead> {
    FlatMap(Outside(ReadNs), pods)
  }

  function OutsideEvidence(ev: PodEvidence): PodEvidence {
    PodEvidence(FlatMap(Outside(ImageNs), ev.images), FlatMap(Outside(PodNs), ev.labelled),
                FlatMap(Outside(UseNs), ev.uses))
  }

  lemma {:induction false} OutsideNext<T>(ns: T -> string, xs: seq<T>, i: nat)
    requires i < |xs|
    ensures FlatMap(Outside(ns), xs[..i + 1]) ==
            if ns(xs[i]) == SYSTEM then FlatMap(Outside(ns), xs[..i]) else FlatMap(Outside(ns), xs[..i]) + [xs[i]]
  {
    assert xs[..i + 1] == xs[..i] + [xs[i]];
    FlatMapSnoc(Outside(ns), xs[..i], xs[i]);
  }

  lemma {:induction false} AllSystem<T>(ns: T -> string, xs: seq<T>)
    requires forall x :: x in xs ==> ns(x) == SYSTEM
    ensures FlatMap(Outside(ns), xs) == []
  {
    if xs != [] {
      AllSystem(ns, xs[..|xs| - 1]);
    }
  }

  lemma {:induction false} NoSystem<T>(ns: T -> string, xs: seq<T>)
    requires forall x :: x in xs ==> ns(x) != SYSTEM
    ensures FlatMap(Outside(ns), xs) == xs
  {
    if xs != [] {
      var init, last := xs[..|xs| - 1], xs[|xs| - 1];
      assert xs == init + [last];
      NoSystem(ns, init);
      FlatMapSnoc(Outside(ns), init, last);
    }
  }

  /** Leaving namespaces out of what pods give is leaving out the pods. */
  lemma {:induction false} OutsideFirst<T>(give: PodRead -> seq<T>, ns: T -> string, pods: seq<PodRead>)
    requires forall p, x :: p in pods && x in give(p) ==> ns(x) == p.ns
    ensures FlatMap(Outside(ns), FlatMap(give, pods)) == FlatMap(give, OutsidePods(pods))
  {
    if pods != [] {
      var init, p := pods[..|pods| - 1], pods[|pods| - 1];
      assert pods == init + [p];
      OutsideFirst(give, ns, init);
      FlatMapConcat(Outside(ns), FlatMap(give, init), give(p));
      FlatMapSnoc(Outside(ReadNs), init, p);
      if p.ns == SYSTEM {
        AllSystem(ns, give(p));
        assert OutsidePods(init) + [] == OutsidePods(init);
      } else {
        NoSystem(ns, give(p));
        FlatMapSnoc(give, OutsidePods(init), p);
      }
    }
  }

  lemma {:induction false} OutsideEvidenceOf(pods: seq<PodRead>)
    ensures OutsideEvidence(EvidenceOf(pods)) == EvidenceOf(OutsidePods(pods))
  {
    OutsideFirst(ImagesOf, ImageNs, pods);
    OutsideFirst(LabelledOf, PodNs, pods);
    OutsideFirst(UsesOf, UseNs, pods);
  }

  /* ---------- the labelled pods' key ---------- */

  /** The strings joined with a NUL between them. */
  function Joined(parts: seq<string>): string {
    if parts == [] then "" else if |parts| == 1 then parts[0] else parts[0] + "\0" + Joined(parts[1..])
  }

  function Parts(p: Pod): seq<string> {
    [p.ns, p.labels.chart, p.labels.name, p.labels.version, p.labels.partOf] + p.images
  }

  function Key(p: Pod): string {
    Joined(Parts(p))
  }

  ghost predicate NulFree(parts: seq<string>) {
    forall s :: s in parts ==> '\0' !in s
  }

  lemma {:induction false} NulMeansMore(a: seq<string>)
    requires a != [] && NulFree(a)
    ensures '\0' in Joined(a) <==> |a| > 1
    ensures |a| > 1 ==> |a[0]| < |Joined(a)| && Joined(a)[..|a[0]|] == a[0] && Joined(a)[|a[0]|] == '\0'
    ensures |a| > 1 ==> Joined(a)[|a[0]| + 1..] == Joined(a[1..])
  {
    assert a[0] in a;
  }

  lemma {:induction false} FirstNul(s: string, i: nat, j: nat)
    requires i < |s| && j < |s| && s[i] == '\0' && s[j] == '\0' && '\0' !in s[..i] && '\0' !in s[..j]
    ensures i == j
  {
  }

  lemma {:induction false} JoinedInjective(a: seq<string>, b: seq<string>)
    requires a != [] && b != [] && NulFree(a) && NulFree(b) && Joined(a) == Joined(b)
    ensures a == b
  {
    NulMeansMore(a);
    NulMeansMore(b);
    if |a| > 1 {
      assert a[0] in a && b[0] in b;
      FirstNul(Joined(a), |a[0]|, |b[0]|);
      JoinedInjective(a[1..], b[1..]);
      assert a == [a[0]] + a[1..] && b == [b[0]] + b[1..];
    }
  }

  /** pods without the later ones of an equal key. */
  function FirstsBy(key: Pod -> string, pods: seq<Pod>): seq<Pod> {
    if pods == [] then []
    else
      var (init, last) := (pods[..|pods| - 1], pods[|pods| - 1]);
      if key(last) in Keys(key, init) then FirstsBy(key, init) else FirstsBy(key, init) + [last]
  }

  function Keys(key: Pod -> string, pods: seq<Pod>): set<string> {
    set p | p in pods :: key(p)
  }

  ghost predicate NulFreePods(pods: seq<Pod>) {
    forall p :: p in pods ==> NulFree(Parts(p))
  }

  lemma {:induction false} KeyInjective(p: Pod, q: Pod)
    requires NulFree(Parts(p)) && NulFree(Parts(q)) && Key(p) == Key(q)
    ensures p == q
  {
    JoinedInjective(Parts(p), Parts(q));
    var a, b := Parts(p), Parts(q);
    assert a[0] == b[0] && a[1] == b[1] && a[2] == b[2] && a[3] == b[3] && a[4] == b[4];
    assert p.images == a[5..] && q.images == b[5..];
  }

  /** Without a NUL in a pod's strings, equal keys are equal pods. */
  lemma {:induction false} KeysTellPods(pods: seq<Pod>)
    requires NulFreePods(pods)
    ensures FirstsBy(Key, pods) == Firsts(pods)
  {
    if pods != [] {
      var init, last := pods[..|pods| - 1], pods[|pods| - 1];
      assert pods == init + [last];
      KeysTellPods(init);
      if p :| p in init && Key(p) == Key(last) {
        KeyInjective(p, last);
      }
    }
  }

  lemma {:induction false} SplitCollides(front: seq<string>, u: string, v: string)
    ensures Joined(front + [u + "\0" + v]) == Joined(front + [u, v])
  {
    if front == [] {
      assert [u, v][1..] == [v];
      assert front + [u + "\0" + v] == [u + "\0" + v] && front + [u, v] == [u, v];
    } else {
      SplitCollides(front[1..], u, v);
      assert (front + [u + "\0" + v])[1..] == front[1..] + [u + "\0" + v];
      assert (front + [u, v])[1..] == front[1..] + [u, v];
    }
  }

  /** With one they need not be: the key does not say where a string ends. */
  lemma {:induction false} KeysCollide(ns: string, labels: Labels, u: string, v: string)
    ensures var p, q := Pod(ns, labels, [u + "\0" + v]), Pod(ns, labels, [u, v]);
            p != q && FirstsBy(Key, [p] + [q]) == [p] && Firsts([p] + [q]) == [p] + [q]
  {
    var p, q := Pod(ns, labels, [u + "\0" + v]), Pod(ns, labels, [u, v]);
    assert p.images != q.images;
    SplitCollides([ns, labels.chart, labels.name, labels.version, labels.partOf], u, v);
    SecondIsLost(Key, p, q);
  }

  /** Of two pods of one key the second is not kept. */
  lemma {:induction false} SecondIsLost(key: Pod -> string, p: Pod, q: Pod)
    requires p != q && key(p) == key(q)
    ensures FirstsBy(key, [p] + [q]) == [p] && Firsts([p] + [q]) == [p] + [q]
  {
    FirstsBySnoc(key, [], p);
    FirstsBySnoc(key, [p], q);
    FirstsSnoc([], p);
    FirstsSnoc([p], q);
    assert [] + [p] == [p];
  }

  lemma {:induction false} FirstsBySnoc(key: Pod -> string, init: seq<Pod>, last: Pod)
    ensures FirstsBy(key, init + [last]) ==
            if key(last) in Keys(key, init) then FirstsBy(key, init) else FirstsBy(key, init) + [last]
    ensures Keys(key, init + [last]) == Keys(key, init) + {key(last)}
  {
    assert (init + [last])[..|init|] == init;
  }

  /* ---------- collections, one after another ---------- */

  datatype Config = Config(every: int, maxAge: int)

  /** What a pass holds of the evidence it read (record). */
  function Kept(ev: PodEvidence): PodEvidence {
    var out := OutsideEvidence(ev);
    PodEvidence(Firsts(out.images), FirstsBy(Key, out.labelled), out.uses)
  }

  datatype Held = NoPass | Pass(at: int, since: nat, sig: string, ev: PodEvidence)

  /** One collection: the clock at the reuse check and at the start of a list,
      the signature of its releases and charts, its own list of the kube-system
      pods, and what a list of every pod would give. */
  datatype Tick = Tick(now: int, start: int, sig: string, sysRead: bool, sys: PodEvidence,
                       pods: seq<PodRead>, anyPage: bool, complete: bool)

  /** time.Time.Sub: saturates at the ends of int64. */
  function Since(now: int, at: int): int {
    if now - at > MAX_INT64 then MAX_INT64 else if now - at < -MAX_INT64 - 1 then -MAX_INT64 - 1 else now - at
  }

  predicate CanReuse(cfg: Config, held: Held, now: int, sig: string) {
    && cfg.every > 1 && held.Pass? && sig == held.sig
    && held.since + 1 < cfg.every && !(cfg.maxAge > 0 && Since(now, held.at) >= cfg.maxAge)
  }

  predicate Reuses(cfg: Config, held: Held, t: Tick) {
    t.sysRead && CanReuse(cfg, held, t.now, t.sig)
  }

  /** The evidence of a collection that lists the pods. */
  function Fresh(t: Tick): PodEvidence {
    if !t.complete && !t.anyPage then NOTHING
    else if t.sysRead then Join(t.sys, EvidenceOf(OutsidePods(t.pods)))
    else EvidenceOf(t.pods)
  }

  function Read(cfg: Config, held: Held, t: Tick): PodEvidence {
    if Reuses(cfg, held, t) then Join(t.sys, held.ev) else Fresh(t)
  }

  function Next(cfg: Config, held: Held, t: Tick): Held {
    if Reuses(cfg, held, t) then held.(since := held.since + 1)
    else if t.complete && cfg.every > 1 then Pass(t.start, 0, t.sig, Kept(Fresh(t)))
    else NoPass
  }

  /** What is held before collection n of a run. */
  function Run(cfg: Config, ticks: seq<Tick>, n: nat): Held
    requires n <= |ticks|
  {
    if n == 0 then NoPass else Next(cfg, Run(cfg, ticks, n - 1), ticks[n - 1])
  }

  predicate Reused(cfg: Config, ticks: seq<Tick>, n: nat)
    requires n < |ticks|
  {
    Reuses(cfg, Run(cfg, ticks, n), ticks[n])
  }

  /** Collection i listed every pod, and every later one before n reused that pass. */
  ghost predicate PassSince(cfg: Config, ticks: seq<Tick>, i: nat, n: nat)
    requires i < n <= |ticks|
  {
    && !Reused(cfg, ticks, i) && ticks[i].complete
    && (forall k :: i < k < n ==> Reused(cfg, ticks, k))
  }

  lemma {:induction false} ListHolds(cfg: Config, held: Held, t: Tick)
    requires !Reuses(cfg, held, t) && t.complete && cfg.every > 1
    ensures Next(cfg, held, t) == Pass(t.start, 0, t.sig, Kept(Fresh(t)))
  {
  }

  lemma {:induction false} ReuseCounts(cfg: Config, held: Held, t: Tick)
    requires Reuses(cfg, held, t)
    ensures Next(cfg, held, t) == Pass(held.at, held.since + 1, held.sig, held.ev)
  {
  }

  /** What is held is the last pass, whole, with the collections since counted. */
  lemma {:induction false} HeldIsLastPass(cfg: Config, ticks: seq<Tick>, i: nat, n: nat)
    requires i < n <= |ticks| && PassSince(cfg, ticks, i, n) && cfg.every > 1
    ensures Run(cfg, ticks, n) == Pass(ticks[i].start, n - i - 1, ticks[i].sig, Kept(Fresh(ticks[i])))
  {
    if n == i + 1 {
      ListHolds(cfg, Run(cfg, ticks, i), ticks[i]);
    } else {
      HeldIsLastPass(cfg, ticks, i, n - 1);
      assert Reused(cfg, ticks, n - 1);
      ReuseCounts(cfg, Run(cfg, ticks, n - 1), ticks[n - 1]);
    }
  }

  lemma {:induction false} HeldHasPass(cfg: Config, ticks: seq<Tick>, n: nat) returns (i: nat)
    requires n <= |ticks| && Run(cfg, ticks, n).Pass?
    ensures i < n && PassSince(cfg, ticks, i, n) && cfg.every > 1
  {
    var held := Run(cfg, ticks, n - 1);
    if Reuses(cfg, held, ticks[n - 1]) {
      i := HeldHasPass(cfg, ticks, n - 1);
      assert Reused(cfg, ticks, n - 1);
    } else {
      i := n - 1;
      assert Next(cfg, held, ticks[i]).Pass? && !Reused(cfg, ticks, i);
    }
  }

  /** Over every run, a collection reuses a pass if and only if kube-system was
      read, and the last collection that listed the pods completed, fewer than
      every collections ago, under the same signature, and began less than maxAge
      ago when there is a limit. */
  lemma {:induction false} ReusedExactly(cfg: Config, ticks: seq<Tick>, n: nat)
    requires n < |ticks| && cfg.maxAge <= MAX_INT64
    ensures Reused(cfg, ticks, n) <==>
            ticks[n].sysRead &&
            exists i :: 0 <= i < n && PassSince(cfg, ticks, i, n) && n - i < cfg.every && ticks[n].sig == ticks[i].sig
                        && (cfg.maxAge > 0 ==> ticks[n].now - ticks[i].start < cfg.maxAge)
  {
    if Reused(cfg, ticks, n) {
      var i := HeldHasPass(cfg, ticks, n);
      HeldIsLastPass(cfg, ticks, i, n);
    }
    if i :| 0 <= i < n && PassSince(cfg, ticks, i, n) && n - i < cfg.every && ticks[n].sig == ticks[i].sig
            && (cfg.maxAge > 0 ==> ticks[n].now - ticks[i].start < cfg.maxAge) {
      HeldIsLastPass(cfg, ticks, i, n);
    }
  }

  /* ---------- what is reused is what a list would find ---------- */

  /** The kube-system list holds kube-system pods only. */
  ghost predicate SysOnly(ev: PodEvidence) {
    && (forall x :: x in ev.images ==> x.ns == SYSTEM)
    && (forall p :: p in ev.labelled ==> p.ns == SYSTEM)
    && (forall u :: u in ev.uses ==> u.1 == SYSTEM)
  }

  lemma {:induction false} OutsideJoin(sys: PodEvidence, ev: PodEvidence)
    requires SysOnly(sys)
    ensures OutsideEvidence(Join(sys, ev)) == OutsideEvidence(ev)
  {
    AllSystem(ImageNs, sys.images);
    AllSystem(PodNs, sys.labelled);
    AllSystem(UseNs, sys.uses);
    FlatMapConcat(Outside(ImageNs), sys.images, ev.images);
    FlatMapConcat(Outside(PodNs), sys.labelled, ev.labelled);
    FlatMapConcat(Outside(UseNs), sys.uses, ev.uses);
  }

  lemma {:induction false} OutsideTwice(pods: seq<PodRead>)
    ensures OutsidePods(OutsidePods(pods)) == OutsidePods(pods)
  {
    forall p | p in OutsidePods(pods)
      ensures p.ns != SYSTEM
    {
      var q := FlatMapFrom(Outside(ReadNs), pods, p);
      assert p == q && ReadNs(q) != SYSTEM;
    }
    NoSystem(ReadNs, OutsidePods(pods));
  }

  lemma {:induction false} KeptOfFresh(t: Tick)
    requires t.complete && SysOnly(t.sys)
    ensures OutsideEvidence(Fresh(t)) == EvidenceOf(OutsidePods(t.pods))
  {
    OutsideEvidenceOf(t.pods);
    if t.sysRead {
      OutsideJoin(t.sys, EvidenceOf(OutsidePods(t.pods)));
      OutsideTwice(t.pods);
      OutsideEvidenceOf(OutsidePods(t.pods));
    }
  }

  lemma {:induction false} OutsideHas(pods: seq<PodRead>, p: PodRead)
    ensures p in OutsidePods(pods) <==> p in pods && p.ns != SYSTEM
  {
    if p in OutsidePods(pods) {
      var q := FlatMapFrom(Outside(ReadNs), pods, p);
      assert ReadNs(q) != SYSTEM;
    }
    if p in pods && p.ns != SYSTEM {
      FlatMapHas(Outside(ReadNs), pods, p);
      assert Outside(ReadNs)(p) == [p];
    }
  }

  /** Where a collection's evidence of a namespace comes from: kube-system's own list
      where it was read, else the pods of the list it rests on. */
  ghost predicate Sees(t: Tick, pods: seq<PodRead>, ev: PodEvidence) {
    && (forall x :: x in ev.images <==>
          if t.sysRead && x.ns == SYSTEM then x in t.sys.images else exists p :: p in pods && RunsImage(p, x))
    && (forall q :: q in ev.labelled <==>
          if t.sysRead && q.ns == SYSTEM then q in t.sys.labelled else exists p :: p in pods && IsLabelled(p, q))
  }

  lemma {:induction false} OutsideAre(pods: seq<PodRead>)
    ensures forall x :: x in EvidenceOf(OutsidePods(pods)).images <==> x.ns != SYSTEM && exists p :: p in pods && RunsImage(p, x)
    ensures forall q :: q in EvidenceOf(OutsidePods(pods)).labelled <==> q.ns != SYSTEM && exists p :: p in pods && IsLabelled(p, q)
  {
    forall p
      ensures p in OutsidePods(pods) <==> p in pods && p.ns != SYSTEM
    {
      OutsideHas(pods, p);
    }
    EvidenceIs(OutsidePods(pods));
  }

  lemma {:induction false} JoinSees(t: Tick, pods: seq<PodRead>, out: PodEvidence)
    requires t.sysRead && SysOnly(t.sys)
    requires forall x :: x in out.images <==> x in EvidenceOf(OutsidePods(pods)).images
    requires forall q :: q in out.labelled <==> q in EvidenceOf(OutsidePods(pods)).labelled
    ensures Sees(t, pods, Join(t.sys, out))
  {
    OutsideAre(pods);
  }

  lemma {:induction false} FreshSees(t: Tick)
    requires SysOnly(t.sys) && (t.complete || t.anyPage)
    ensures Sees(t, t.pods, Fresh(t))
  {
    if t.sysRead {
      JoinSees(t, t.pods, EvidenceOf(OutsidePods(t.pods)));
    } else {
      EvidenceIs(t.pods);
    }
  }

  lemma {:induction false} KeptHas(t: Tick)
    requires t.complete && SysOnly(t.sys) && NulFreePods(EvidenceOf(OutsidePods(t.pods)).labelled)
    ensures forall x :: x in Kept(Fresh(t)).images <==> x in EvidenceOf(OutsidePods(t.pods)).images
    ensures forall q :: q in Kept(Fresh(t)).labelled <==> q in EvidenceOf(OutsidePods(t.pods)).labelled
  {
    KeptOfFresh(t);
    KeysTellPods(EvidenceOf(OutsidePods(t.pods)).labelled);
  }

  /** Over every run, a collection that reuses a pass sees kube-system as it is and the
      rest as the pods of the last list that completed. */
  lemma {:induction false} ReuseSees(cfg: Config, ticks: seq<Tick>, i: nat, n: nat)
    requires i < n < |ticks| && PassSince(cfg, ticks, i, n) && Reused(cfg, ticks, n)
    requires SysOnly(ticks[i].sys) && SysOnly(ticks[n].sys) && NulFreePods(EvidenceOf(OutsidePods(ticks[i].pods)).labelled)
    ensures Sees(ticks[n], ticks[i].pods, Read(cfg, Run(cfg, ticks, n), ticks[n]))
  {
    HeldIsLastPass(cfg, ticks, i, n);
    KeptHas(ticks[i]);
    JoinSees(ticks[n], ticks[i].pods, Kept(Fresh(ticks[i])));
  }

  /** The cluster's other evidence joined with the pods'. */
  function Whole(pods: PodEvidence, rest: Evidence): Evidence {
    rest.(images := pods.images, labelled := pods.labelled)
  }

  lemma {:induction false} KeptFindsTheSame(rules: Rules, rest: Evidence, sys: PodEvidence, out: PodEvidence, versions: set<string>)
    requires StrictOn(rules.less, versions) && Versions(rules, Whole(Join(sys, out), rest), versions)
    ensures SameOutcome(rules, Whole(Join(sys, out), rest),
                        Whole(Join(sys, PodEvidence(Firsts(out.images), Firsts(out.labelled), out.uses)), rest))
  {
    var a := Whole(Join(sys, out), rest);
    var b := a.(images := sys.images + Firsts(out.images));
    var c := b.(labelled := sys.labelled + Firsts(out.labelled));
    assert sys.images + out.images + [] == sys.images + out.images;
    assert sys.images + Firsts(out.images) + [] == sys.images + Firsts(out.images);
    assert sys.labelled + out.labelled + [] == sys.labelled + out.labelled;
    assert sys.labelled + Firsts(out.labelled) + [] == sys.labelled + Firsts(out.labelled);
    FirstImages(rules, a, sys.images, out.images, [], versions);
    FirstPods(rules, b, sys.labelled, out.labelled, [], versions);
  }

  /** Over every run: while the pods outside kube-system are those of the last
      pass, a collection that reuses it finds what listing every pod would: the
      same add-ons, the same unrecognized images, the same volume uses. */
  lemma {:induction false} ReuseFindsTheSame(cfg: Config, ticks: seq<Tick>, i: nat, n: nat, rules: Rules, rest: Evidence,
                          versions: set<string>)
    requires i < n < |ticks| && PassSince(cfg, ticks, i, n) && Reused(cfg, ticks, n)
    requires ticks[n].complete && OutsidePods(ticks[n].pods) == OutsidePods(ticks[i].pods)
    requires SysOnly(ticks[i].sys) && NulFreePods(EvidenceOf(OutsidePods(ticks[n].pods)).labelled)
    requires StrictOn(rules.less, versions) && Versions(rules, Whole(Fresh(ticks[n]), rest), versions)
    ensures var reused := Read(cfg, Run(cfg, ticks, n), ticks[n]);
            SameOutcome(rules, Whole(Fresh(ticks[n]), rest), Whole(reused, rest)) && reused.uses == Fresh(ticks[n]).uses
  {
    HeldIsLastPass(cfg, ticks, i, n);
    KeptOfFresh(ticks[i]);
    var out := EvidenceOf(OutsidePods(ticks[n].pods));
    KeysTellPods(out.labelled);
    KeptFindsTheSame(rules, rest, ticks[n].sys, out, versions);
  }
}
