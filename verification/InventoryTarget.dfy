/**
 What Conform makes of the lists, apart from its records: the targeted repairs,
 and the fallback that drops what the check still names.
 */
module InventoryTarget {
  import opened Basics
  import opened Repeats
  import opened Picking
  import opened InventoryShape
  import opened InventoryAccounts

  /* ---------- one pass over a list ---------- */

  /** The element itself is accepted: its uses are not read for that. */
  predicate Accepts(rules: Rules, l: ListId, e: Element) {
    rules.elementOk(l, e.(usages := []))
  }

  predicate Drops(rules: Rules, l: ListId, drops: bool, e: Element) {
    drops && !Accepts(rules, l, e)
  }

  /** One pass over a list: refused elements left out, the uses of the others conformed. */
  function PassOf(rules: Rules, l: ListId, drops: bool): Element -> seq<Element> {
    (e: Element) => if Drops(rules, l, drops, e) then [] else [ConformedElement(rules, e)]
  }

  /* ---------- the targeted repairs ---------- */

  function Passed(rules: Rules, lists: Lists, l: ListId, drops: bool): Lists {
    lists[l := FlatMap(PassOf(rules, l, drops), ListAt(lists, l))]
  }

  function CappedList(lists: Lists, l: ListId, max: nat): Lists {
    lists[l := Short(ListAt(lists, l), max)]
  }

  /** The releases, API usages and CRDs. */
  function UsesTargeted(rules: Rules, lists: Lists): Lists {
    var helm := Passed(rules, lists, HelmReleases, true);
    var usage := Passed(rules, Passed(rules, helm, APIUsages, false), AuthorshipUnknown, false);
    Passed(rules, usage, Crds, false)
  }

  /** The add-ons, images and volume plugins. */
  function RestTargeted(rules: Rules, lists: Lists): Lists {
    var addOns := Passed(rules, lists, AddOns, true);
    var images := CappedList(Passed(rules, addOns, UnrecognizedImages, true), UnrecognizedImages, MAX_UNRECOGNIZED_IMAGES);
    CappedList(Passed(rules, images, VolumePlugins, false), VolumePlugins, MAX_VOLUME_PLUGINS)
  }

  function Targeted(rules: Rules, lists: Lists): Lists {
    RestTargeted(rules, UsesTargeted(rules, lists))
  }

  /* ---------- what they leave ---------- */

  /** An element of the list stays, so far as the targeted repairs go. */
  ghost function Stays(rules: Rules, l: ListId): Element -> bool {
    e => l in {HelmReleases, AddOns, UnrecognizedImages} ==> Accepts(rules, l, e)
  }

  ghost function ConformsTo(rules: Rules): (Element, Element) -> bool {
    (d, e) => ElementConformed(rules, d, e)
  }

  ghost function CapFor(l: ListId): Option<nat> {
    if l.UnrecognizedImages? then Some(MAX_UNRECOGNIZED_IMAGES)
    else if l.VolumePlugins? then Some(MAX_VOLUME_PLUGINS)
    else None
  }

  /** The releases, API usages, CRDs, add-ons, images and volume plugins: what is
      left has no use that would be refused, and of releases, add-ons and images
      none is refused; each is an element that was there, in order, with its uses
      conformed; one is left out only if it was refused or is beyond the list's cap. */
  ghost predicate ListRepaired(rules: Rules, l: ListId, was: seq<Element>, now: seq<Element>) {
    && Picks(Stays(rules, l), ConformsTo(rules), CapFor(l), was, now)
    && (forall e :: e in now ==> UsesOk(rules, e) && Stays(rules, l)(e))
  }

  /** Every list is repaired so, or, where no targeted repair is of it, as it was. */
  ghost predicate ListsRepaired(rules: Rules, was: Lists, now: Lists) {
    forall l :: ListLeft(rules, l, ListAt(was, l), ListAt(now, l))
  }

  ghost predicate ListLeft(rules: Rules, l: ListId, was: seq<Element>, now: seq<Element>) {
    if l in {GitOpsCharts, DeprecatedCalls, Nodes, ControlPlane, Namespaces} then now == was
    else ListRepaired(rules, l, was, now)
  }

  ghost predicate DropsFrom(l: ListId, drops: bool) {
    drops <==> l in {HelmReleases, AddOns, UnrecognizedImages}
  }

  lemma {:induction false} PassPicks(rules: Rules, l: ListId, drops: bool, es: seq<Element>) returns (at: seq<nat>)
    requires DropsFrom(l, drops)
    ensures PicksAt(Stays(rules, l), ConformsTo(rules), None, es, FlatMap(PassOf(rules, l, drops), es), at)
  {
    var ok, rel, pass := Stays(rules, l), ConformsTo(rules), PassOf(rules, l, drops);
    if es == [] {
      at := [];
    } else {
      var init, last := es[..|es| - 1], es[|es| - 1];
      assert es == init + [last];
      at := PassPicks(rules, l, drops, init);
      FlatMapSnoc(pass, init, last);
      if ok(last) {
        ConformedElementIs(rules, last);
        PicksNext(ok, rel, init, FlatMap(pass, init), at, last, ConformedElement(rules, last));
        at := at + [|init|];
      } else {
        PicksMissing(ok, rel, init, FlatMap(pass, init), at, last);
        assert FlatMap(pass, es) == FlatMap(pass, init) + [];
      }
    }
  }

  lemma {:induction false} PassLeaves(rules: Rules, l: ListId, drops: bool, es: seq<Element>, e: Element)
    requires DropsFrom(l, drops) && e in FlatMap(PassOf(rules, l, drops), es)
    ensures UsesOk(rules, e) && Stays(rules, l)(e)
  {
    var d := FlatMapFrom(PassOf(rules, l, drops), es, e);
    ConformedElementIs(rules, d);
    assert d.(usages := []) == e.(usages := []);
  }

  /** A pass, and the cut at the list's cap where it has one. */
  lemma {:induction false} PassRepairs(rules: Rules, l: ListId, drops: bool, es: seq<Element>)
    requires DropsFrom(l, drops)
    ensures var passed := FlatMap(PassOf(rules, l, drops), es);
            ListRepaired(rules, l, es, if CapFor(l).Some? then Short(passed, CapFor(l).value) else passed)
  {
    var passed := FlatMap(PassOf(rules, l, drops), es);
    var at := PassPicks(rules, l, drops, es);
    if CapFor(l).Some? {
      PicksShort(Stays(rules, l), ConformsTo(rules), CapFor(l).value, es, passed, at);
    }
    forall e | e in passed
      ensures UsesOk(rules, e) && Stays(rules, l)(e)
    {
      PassLeaves(rules, l, drops, es, e);
    }
  }

  /** What the targeted repairs make of one list. */
  function TargetOf(rules: Rules, l: ListId, es: seq<Element>): seq<Element> {
    match l
    case HelmReleases => FlatMap(PassOf(rules, l, true), es)
    case APIUsages => FlatMap(PassOf(rules, l, false), es)
    case AuthorshipUnknown => FlatMap(PassOf(rules, l, false), es)
    case Crds => FlatMap(PassOf(rules, l, false), es)
    case AddOns => FlatMap(PassOf(rules, l, true), es)
    case UnrecognizedImages => Short(FlatMap(PassOf(rules, l, true), es), MAX_UNRECOGNIZED_IMAGES)
    case VolumePlugins => Short(FlatMap(PassOf(rules, l, false), es), MAX_VOLUME_PLUGINS)
    case _ => es
  }

  lemma {:induction false} PassedAt(rules: Rules, lists: Lists, k: ListId, drops: bool, l: ListId)
    ensures ListAt(Passed(rules, lists, k, drops), l) ==
            if l == k then FlatMap(PassOf(rules, k, drops), ListAt(lists, k)) else ListAt(lists, l)
  {
  }

  lemma {:induction false} CappedAt(lists: Lists, k: ListId, max: nat, l: ListId)
    ensures ListAt(CappedList(lists, k, max), l) == if l == k then Short(ListAt(lists, k), max) else ListAt(lists, l)
  {
  }

  lemma {:induction false} UsesTargetedAt(rules: Rules, was: Lists, l: ListId)
    ensures ListAt(UsesTargeted(rules, was), l) ==
            if l in {HelmReleases, APIUsages, AuthorshipUnknown, Crds} then TargetOf(rules, l, ListAt(was, l)) else ListAt(was, l)
  {
    var a := Passed(rules, was, HelmReleases, true);
    var b := Passed(rules, a, APIUsages, false);
    var c := Passed(rules, b, AuthorshipUnknown, false);
    PassedAt(rules, was, HelmReleases, true, l);
    PassedAt(rules, a, APIUsages, false, l);
    PassedAt(rules, b, AuthorshipUnknown, false, l);
    PassedAt(rules, c, Crds, false, l);
  }

  lemma {:induction false} RestTargetedAt(rules: Rules, was: Lists, l: ListId)
    ensures ListAt(RestTargeted(rules, was), l) ==
            if l in {AddOns, UnrecognizedImages, VolumePlugins} then TargetOf(rules, l, ListAt(was, l)) else ListAt(was, l)
  {
    var a := Passed(rules, was, AddOns, true);
    var b := Passed(rules, a, UnrecognizedImages, true);
    var c := CappedList(b, UnrecognizedImages, MAX_UNRECOGNIZED_IMAGES);
    var d := Passed(rules, c, VolumePlugins, false);
    PassedAt(rules, was, AddOns, true, l);
    PassedAt(rules, a, UnrecognizedImages, true, l);
    CappedAt(b, UnrecognizedImages, MAX_UNRECOGNIZED_IMAGES, l);
    PassedAt(rules, c, VolumePlugins, false, l);
    CappedAt(d, VolumePlugins, MAX_VOLUME_PLUGINS, l);
  }

  lemma {:induction false} TargetOfLeaves(rules: Rules, l: ListId, es: seq<Element>)
    ensures ListLeft(rules, l, es, TargetOf(rules, l, es))
  {
    match l
    case HelmReleases => PassRepairs(rules, l, true, es);
    case APIUsages => PassRepairs(rules, l, false, es);
    case AuthorshipUnknown => PassRepairs(rules, l, false, es);
    case Crds => PassRepairs(rules, l, false, es);
    case AddOns => PassRepairs(rules, l, true, es);
    case UnrecognizedImages => PassRepairs(rules, l, true, es);
    case VolumePlugins => PassRepairs(rules, l, false, es);
    case _ =>
  }

  lemma {:induction false} TargetedAt(rules: Rules, was: Lists, l: ListId)
    ensures ListAt(Targeted(rules, was), l) == TargetOf(rules, l, ListAt(was, l))
  {
    UsesTargetedAt(rules, was, l);
    RestTargetedAt(rules, UsesTargeted(rules, was), l);
  }

  /** The targeted repairs leave every list so. */
  lemma {:induction false} TargetedRepairs(rules: Rules, was: Lists)
    ensures ListsRepaired(rules, was, Targeted(rules, was))
  {
    forall l
      ensures ListLeft(rules, l, ListAt(was, l), ListAt(Targeted(rules, was), l))
    {
      TargetedAt(rules, was, l);
      TargetOfLeaves(rules, l, ListAt(was, l));
    }
  }

  /* ---------- the fallback ---------- */

  predicate CanDrop(inv: Inventory, f: Fault) {
    f.Provider? || (f.At? && f.i < |ListAt(inv.lists, f.list)|)
  }

  /** The inventory without what the fault names. */
  function Dropped(inv: Inventory, f: Fault): Inventory
    requires CanDrop(inv, f)
  {
    if f.Provider? then inv.(provider := "")
    else
      inv.(lists := inv.lists[f.list := Removed(ListAt(inv.lists, f.list), f.i)],
           imagesOmitted := inv.imagesOmitted + (if f.list.UnrecognizedImages? then 1 else 0))
  }

  /** Drops what the check names, n times at most. */
  function FallenBack(rules: Rules, inv: Inventory, n: nat): Inventory
    decreases n
  {
    var f := CheckAdmissible(rules, inv);
    if f.None? || n == 0 || !CanDrop(inv, f.value) then inv else FallenBack(rules, Dropped(inv, f.value), n - 1)
  }

  /** b is a without the one thing the check names in a. */
  ghost predicate DropOne(rules: Rules, a: Inventory, b: Inventory) {
    var f := CheckAdmissible(rules, a);
    f.Some? && if f.value.Provider? then b == a.(provider := "") else f.value.At? && WithoutAt(a, b, f.value.list, f.value.i)
  }

  /** b is a without the i-th element of list l, an image counted. */
  ghost predicate WithoutAt(a: Inventory, b: Inventory, l: ListId, i: nat) {
    var es, fs := ListAt(a.lists, l), ListAt(b.lists, l);
    && b == a.(lists := b.lists, imagesOmitted := b.imagesOmitted)
    && b.imagesOmitted - a.imagesOmitted == (if l.UnrecognizedImages? then 1 else 0)
    && i < |es| == |fs| + 1 && fs[..i] == es[..i] && fs[i..] == es[i + 1..]
    && forall k :: k != l ==> ListAt(b.lists, k) == ListAt(a.lists, k)
  }

  lemma {:induction false} DroppedAt(inv: Inventory, l: ListId, i: nat)
    requires i < |ListAt(inv.lists, l)|
    ensures WithoutAt(inv, Dropped(inv, At(l, i)), l, i)
  {
  }

  /** The fallback's run: one drop after another, n at most, until the check passes
      or names what cannot be dropped. */
  ghost predicate FallbackRun(rules: Rules, first: Inventory, n: nat, trace: seq<Inventory>) {
    && 0 < |trace| <= n + 1 && trace[0] == first
    && (forall k :: 0 <= k < |trace| - 1 ==> DropOne(rules, trace[k], trace[k + 1]))
    && var last := trace[|trace| - 1];
       var f := CheckAdmissible(rules, last);
       f.None? || !CanDrop(last, f.value) || |trace| == n + 1
  }

  lemma {:induction false} DroppedIsOne(rules: Rules, inv: Inventory)
    requires CheckAdmissible(rules, inv).Some? && CanDrop(inv, CheckAdmissible(rules, inv).value)
    ensures DropOne(rules, inv, Dropped(inv, CheckAdmissible(rules, inv).value))
  {
  }

  lemma {:induction false} FallbackEnds(rules: Rules, inv: Inventory, n: nat) returns (trace: seq<Inventory>)
    ensures FallbackRun(rules, inv, n, trace) && trace[|trace| - 1] == FallenBack(rules, inv, n)
    decreases n
  {
    var f := CheckAdmissible(rules, inv);
    trace := [inv];
    if f.Some? && n != 0 && CanDrop(inv, f.value) {
      var rest := FallbackEnds(rules, Dropped(inv, f.value), n - 1);
      DroppedIsOne(rules, inv);
      trace := [inv] + rest;
      assert forall k :: 0 <= k < |rest| - 1 ==> DropOne(rules, rest[k], rest[k + 1]);
      assert forall k :: 0 < k < |trace| - 1 ==> trace[k] == rest[k - 1] && trace[k + 1] == rest[k];
    }
  }
}
