/**
 The inventory as Conform and Admit read it: its lists and capabilities, the free
 text CutFreeText cuts, and what conformRefs makes of one use.
 */
module InventoryShape {
  import opened Basics
  import opened Repeats
  import opened FreeText
  import opened Picking

  const MAX_OBJECT_REFS := 100
  const MAX_UNRECOGNIZED_IMAGES := 200
  const MAX_VOLUME_PLUGINS := 64
  const MAX_FALLBACK_DROPS := 256
  const MAX_NAMED_SKIPS := 20

  datatype Cap = CapHelm | CapAPIUsage | CapCRDs | CapAddOns | CapVolumes | CapVersions | CapDeprecatedCalls

  /** The lists a collector fills from objects. */
  datatype ListId =
    | HelmReleases | GitOpsCharts | AddOns | APIUsages | AuthorshipUnknown | Crds | DeprecatedCalls
    | Nodes | ControlPlane | Namespaces | VolumePlugins | UnrecognizedImages

  function CapOf(l: ListId): Cap {
    match l
    case HelmReleases => CapHelm
    case GitOpsCharts => CapHelm
    case AddOns => CapAddOns
    case APIUsages => CapAPIUsage
    case AuthorshipUnknown => CapAPIUsage
    case Crds => CapCRDs
    case DeprecatedCalls => CapDeprecatedCalls
    case Nodes => CapVersions
    case ControlPlane => CapVersions
    case Namespaces => CapVersions
    case VolumePlugins => CapVolumes
    case UnrecognizedImages => CapAddOns
  }

  /** A reference to an object, its free text apart. */
  datatype Ref = Ref(id: string, ignore: Text, ignoreReason: Text, renderedFrom: Text)

  /** A use of an API or a volume plugin: counts by namespace, the objects listed,
      and how many more there are. */
  datatype Usage = Usage(kind: string, counts: map<string, int>, objects: seq<Ref>, omitted: int)

  /** An element of a list: what Skipped names it by ("" for nothing), its uses (an
      API usage entry is one), its free text, and the rest of it. */
  datatype Element = Element(name: string, usages: seq<Usage>, free: seq<Text>, rest: string)

  datatype Status = Status(available: bool, partial: bool, reason: Text, skipped: seq<Text>)

  type Lists = map<ListId, seq<Element>>
  type Caps = map<Cap, Status>

  /** header stands for the schema and server versions. */
  datatype Inventory = Inventory(lists: Lists, caps: Caps, imagesOmitted: int, provider: string, header: string)

  function ListAt(lists: Lists, l: ListId): seq<Element> {
    if l in lists then lists[l] else []
  }

  lemma {:induction false} EachTwice<A>(f: A -> A, xs: seq<A>)
    requires forall x :: f(f(x)) == f(x)
    ensures Each(f, Each(f, xs)) == Each(f, xs)
  {
  }

  lemma {:induction false} EachFixed<A>(f: A -> A, xs: seq<A>)
    requires forall x :: x in xs ==> f(x) == x
    ensures Each(f, xs) == xs
  {
  }

  /* ---------- CutFreeText ---------- */

  function CutString(t: Text): Text {
    Cut(t, MAX_STRING_BYTES)
  }

  function CutRef(o: Ref): Ref {
    Ref(o.id, CutTokens(o.ignore, MAX_STRING_BYTES), CutString(o.ignoreReason), CutString(o.renderedFrom))
  }

  function CutUsage(u: Usage): Usage {
    u.(objects := Each(CutRef, u.objects))
  }

  function CutElement(e: Element): Element {
    e.(usages := Each(CutUsage, e.usages), free := Each(CutString, e.free))
  }

  function CutStatus(st: Status): Status {
    st.(reason := Cut(st.reason, MAX_REASON_BYTES), skipped := Each(CutString, st.skipped))
  }

  function CutLists(lists: Lists): Lists {
    map l | l in lists :: Each(CutElement, lists[l])
  }

  function CutCaps(caps: Caps): Caps {
    map c | c in caps :: CutStatus(caps[c])
  }

  function CutFreeText(inv: Inventory): Inventory {
    inv.(lists := CutLists(inv.lists), caps := CutCaps(inv.caps))
  }

  lemma {:induction false} CutUsageTwice(u: Usage)
    ensures CutUsage(CutUsage(u)) == CutUsage(u)
  {
    EachTwice(CutRef, u.objects);
  }

  lemma {:induction false} CutElementTwice(e: Element)
    ensures CutElement(CutElement(e)) == CutElement(e)
  {
    forall u: Usage
      ensures CutUsage(CutUsage(u)) == CutUsage(u)
    {
      CutUsageTwice(u);
    }
    EachTwice(CutUsage, e.usages);
    EachTwice(CutString, e.free);
  }

  lemma {:induction false} CutStatusTwice(st: Status)
    ensures CutStatus(CutStatus(st)) == CutStatus(st)
  {
    EachTwice(CutString, st.skipped);
  }

  lemma {:induction false} CutListsTwice(lists: Lists)
    ensures CutLists(CutLists(lists)) == CutLists(lists)
  {
    forall e: Element
      ensures CutElement(CutElement(e)) == CutElement(e)
    {
      CutElementTwice(e);
    }
    forall l | l in lists
      ensures Each(CutElement, Each(CutElement, lists[l])) == Each(CutElement, lists[l])
    {
      EachTwice(CutElement, lists[l]);
    }
  }

  /** Cutting an inventory that was cut changes nothing. */
  lemma {:induction false} CutFreeTextTwice(inv: Inventory)
    ensures CutFreeText(CutFreeText(inv)) == CutFreeText(inv)
  {
    CutListsTwice(inv.lists);
    forall c | c in inv.caps
      ensures CutStatus(CutStatus(inv.caps[c])) == CutStatus(inv.caps[c])
    {
      CutStatusTwice(inv.caps[c]);
    }
  }

  /* ---------- what cutting does ---------- */

  ghost predicate RefCut(o: Ref, p: Ref) {
    && p.id == o.id && IsTokenCut(o.ignore, MAX_STRING_BYTES, p.ignore)
    && IsCut(o.ignoreReason, MAX_STRING_BYTES, p.ignoreReason) && IsCut(o.renderedFrom, MAX_STRING_BYTES, p.renderedFrom)
  }

  ghost predicate UsageCut(u: Usage, v: Usage) {
    && v == u.(objects := v.objects) && |v.objects| == |u.objects|
    && forall i :: 0 <= i < |u.objects| ==> RefCut(u.objects[i], v.objects[i])
  }

  ghost predicate TextsCut(ts: seq<Text>, us: seq<Text>) {
    |us| == |ts| && forall i :: 0 <= i < |ts| ==> IsCut(ts[i], MAX_STRING_BYTES, us[i])
  }

  ghost predicate ElementCut(e: Element, f: Element) {
    && f.name == e.name && f.rest == e.rest && TextsCut(e.free, f.free) && |f.usages| == |e.usages|
    && forall i :: 0 <= i < |e.usages| ==> UsageCut(e.usages[i], f.usages[i])
  }

  ghost predicate StatusCut(st: Status, r: Status) {
    && r.available == st.available && r.partial == st.partial
    && IsCut(st.reason, MAX_REASON_BYTES, r.reason) && TextsCut(st.skipped, r.skipped)
  }

  ghost predicate ListCut(es: seq<Element>, fs: seq<Element>) {
    |fs| == |es| && forall i :: 0 <= i < |es| ==> ElementCut(es[i], fs[i])
  }

  lemma {:induction false} RefIsCut(o: Ref)
    ensures RefCut(o, CutRef(o))
  {
    TokensWhole(o.ignore, MAX_STRING_BYTES);
    CutIs(o.ignoreReason, MAX_STRING_BYTES);
    CutIs(o.renderedFrom, MAX_STRING_BYTES);
  }

  lemma {:induction false} UsageIsCut(u: Usage)
    ensures UsageCut(u, CutUsage(u))
  {
    forall i | 0 <= i < |u.objects|
      ensures RefCut(u.objects[i], CutUsage(u).objects[i])
    {
      RefIsCut(u.objects[i]);
    }
  }

  lemma {:induction false} TextsAreCut(ts: seq<Text>)
    ensures TextsCut(ts, Each(CutString, ts))
  {
    forall i | 0 <= i < |ts|
      ensures IsCut(ts[i], MAX_STRING_BYTES, Each(CutString, ts)[i])
    {
      CutIs(ts[i], MAX_STRING_BYTES);
    }
  }

  lemma {:induction false} ElementIsCut(e: Element)
    ensures ElementCut(e, CutElement(e))
  {
    TextsAreCut(e.free);
    forall i | 0 <= i < |e.usages|
      ensures UsageCut(e.usages[i], CutElement(e).usages[i])
    {
      UsageIsCut(e.usages[i]);
    }
  }

  lemma {:induction false} StatusIsCut(st: Status)
    ensures StatusCut(st, CutStatus(st))
  {
    CutIs(st.reason, MAX_REASON_BYTES);
    TextsAreCut(st.skipped);
  }

  /** CutFreeText: every reason is cut to its limit and every other free text to its
      own, at a whole character and marked, a token list at a whole token; what fits,
      and all else, is as it was. */
  lemma {:induction false} CutsFreeText(inv: Inventory)
    ensures var r := CutFreeText(inv);
            && r == inv.(lists := r.lists, caps := r.caps)
            && r.lists.Keys == inv.lists.Keys && r.caps.Keys == inv.caps.Keys
            && (forall l :: l in inv.lists ==> ListCut(inv.lists[l], r.lists[l]))
            && (forall c :: c in inv.caps ==> StatusCut(inv.caps[c], r.caps[c]))
  {
    forall l, i | l in inv.lists && 0 <= i < |inv.lists[l]|
      ensures ElementCut(inv.lists[l][i], CutLists(inv.lists)[l][i])
    {
      ElementIsCut(inv.lists[l][i]);
    }
    forall c | c in inv.caps
      ensures StatusCut(inv.caps[c], CutCaps(inv.caps)[c])
    {
      StatusIsCut(inv.caps[c]);
    }
  }

  /* ---------- what Admit refuses ---------- */

  /** Where a value is refused, as the error's field names it. */
  datatype Fault = Provider | At(list: ListId, i: nat) | Elsewhere

  /** The checks outside the model. */
  datatype Rules = Rules(
    nsOk: string -> bool,
    refOk: Ref -> bool,
    elementOk: (ListId, Element) -> bool,
    identifiers: Inventory -> Option<Fault>,
    limits: Inventory -> Option<Fault>,
    versionsOk: string -> bool,
    say: Repaired -> Text,
    asText: string -> Text)

  /** What was repaired of one capability: how often, the kinds of repair in the
      order first made, and what its Skipped is to name. */
  datatype Repaired = Repaired(total: nat, notes: seq<string>, skipped: seq<string>)

  function CheckAdmissible(rules: Rules, inv: Inventory): Option<Fault> {
    if rules.identifiers(inv).Some? then rules.identifiers(inv) else rules.limits(inv)
  }

  /** Admit: the versions, the identifiers, and the limits once free text is cut. */
  function Admit(rules: Rules, inv: Inventory): Option<Fault> {
    if !rules.versionsOk(inv.header) then Some(Elsewhere)
    else if rules.identifiers(inv).Some? then rules.identifiers(inv)
    else rules.limits(CutFreeText(inv))
  }

  /** A cut inventory that passes the check is admitted, versions allowing. */
  lemma {:induction false} CutThenAdmitted(rules: Rules, inv: Inventory)
    requires rules.versionsOk(inv.header) && CheckAdmissible(rules, CutFreeText(inv)).None?
    ensures Admit(rules, CutFreeText(inv)).None?
  {
    CutFreeTextTwice(inv);
  }

  /* ---------- one use: conformRefs ---------- */

  function OkRefs(rules: Rules): Ref -> seq<Ref> {
    (o: Ref) => if rules.refOk(o) then [o] else []
  }

  function Kept(rules: Rules, objs: seq<Ref>): (r: seq<Ref>)
    ensures |r| <= |objs|
  {
    KeptShorter(rules, objs);
    FlatMap(OkRefs(rules), objs)
  }

  lemma {:induction false} KeptShorter(rules: Rules, objs: seq<Ref>)
    ensures |FlatMap(OkRefs(rules), objs)| <= |objs|
  {
    if objs != [] {
      KeptShorter(rules, objs[..|objs| - 1]);
    }
  }

  function Capped(objs: seq<Ref>): seq<Ref> {
    Short(objs, MAX_OBJECT_REFS)
  }

  function NsCounts(rules: Rules, counts: map<string, int>): map<string, int> {
    map ns | ns in counts && rules.nsOk(ns) :: counts[ns]
  }

  function Conformed(rules: Rules, u: Usage): Usage {
    var objs := Capped(Kept(rules, u.objects));
    Usage(u.kind, NsCounts(rules, u.counts), objs, u.omitted + |u.objects| - |objs|)
  }

  lemma {:induction false} KeptIs(rules: Rules, objs: seq<Ref>)
    ensures forall o :: o in Kept(rules, objs) <==> o in objs && rules.refOk(o)
    ensures |Kept(rules, objs)| == |objs| ==> Kept(rules, objs) == objs
  {
    if objs != [] {
      var init, last := objs[..|objs| - 1], objs[|objs| - 1];
      assert objs == init + [last];
      KeptIs(rules, init);
    }
  }

  /** The objects listed and the objects counted as omitted stay the same in all,
      every object still listed is admissible, and so is every namespace key. */
  lemma {:induction false} RefsConserved(rules: Rules, u: Usage)
    ensures var v := Conformed(rules, u);
            && |v.objects| + v.omitted == |u.objects| + u.omitted
            && |v.objects| <= MAX_OBJECT_REFS
            && (forall o :: o in v.objects ==> o in u.objects && rules.refOk(o))
            && (|Kept(rules, u.objects)| <= MAX_OBJECT_REFS ==> forall o :: o in u.objects && rules.refOk(o) ==> o in v.objects)
            && (forall ns :: ns in v.counts <==> ns in u.counts && rules.nsOk(ns))
  {
    KeptIs(rules, u.objects);
  }

  ghost function SameRef(): (Ref, Ref) -> bool {
    (o, p) => o == p
  }

  lemma {:induction false} KeptPicks(rules: Rules, objs: seq<Ref>) returns (at: seq<nat>)
    ensures PicksAt(rules.refOk, SameRef(), None, objs, Kept(rules, objs), at)
  {
    if objs == [] {
      at := [];
    } else {
      var init, last := objs[..|objs| - 1], objs[|objs| - 1];
      assert objs == init + [last];
      at := KeptPicks(rules, init);
      if rules.refOk(last) {
        PicksNext(rules.refOk, SameRef(), init, Kept(rules, init), at, last, last);
        at := at + [|init|];
      } else {
        PicksMissing(rules.refOk, SameRef(), init, Kept(rules, init), at, last);
        assert Kept(rules, objs) == Kept(rules, init) + [];
      }
    }
  }

  /** v is u as conformRefs leaves it: the namespace keys that are names, with their
      counts, and of the objects that are accepted the first hundred, in order; the
      others are counted. */
  ghost predicate UseConformed(rules: Rules, u: Usage, v: Usage) {
    && v.kind == u.kind && |v.objects| + v.omitted == |u.objects| + u.omitted
    && (forall ns :: ns in v.counts <==> ns in u.counts && rules.nsOk(ns))
    && (forall ns :: ns in v.counts ==> v.counts[ns] == u.counts[ns])
    && Picks(rules.refOk, SameRef(), Some(MAX_OBJECT_REFS), u.objects, v.objects)
  }

  lemma {:induction false} ConformedIs(rules: Rules, u: Usage)
    ensures UseConformed(rules, u, Conformed(rules, u))
  {
    var at := KeptPicks(rules, u.objects);
    PicksShort(rules.refOk, SameRef(), MAX_OBJECT_REFS, u.objects, Kept(rules, u.objects), at);
  }

  /** Nothing of the use is refused: its objects, their number and its keys. */
  ghost predicate UseOk(rules: Rules, u: Usage) {
    && |u.objects| <= MAX_OBJECT_REFS && (forall o :: o in u.objects ==> rules.refOk(o))
    && (forall ns :: ns in u.counts ==> rules.nsOk(ns))
  }

  /** Its free text stays cut. */
  lemma {:induction false} ConformedIsCut(rules: Rules, u: Usage)
    requires CutUsage(u) == u
    ensures CutUsage(Conformed(rules, u)) == Conformed(rules, u)
  {
    RefsConserved(rules, u);
    var objs := Conformed(rules, u).objects;
    forall o | o in objs
      ensures CutRef(o) == o
    {
      assert o in u.objects;
      var i :| 0 <= i < |u.objects| && u.objects[i] == o;
      assert Each(CutRef, u.objects)[i] == u.objects[i];
    }
    EachFixed(CutRef, objs);
  }

  function ConformedBy(rules: Rules): Usage -> Usage {
    u => Conformed(rules, u)
  }

  function ConformedElement(rules: Rules, e: Element): Element {
    e.(usages := Each(ConformedBy(rules), e.usages))
  }

  /** e is d with each of its uses conformed. */
  ghost predicate ElementConformed(rules: Rules, d: Element, e: Element) {
    && e == d.(usages := e.usages) && |e.usages| == |d.usages|
    && forall i :: 0 <= i < |d.usages| ==> UseConformed(rules, d.usages[i], e.usages[i])
  }

  ghost predicate UsesOk(rules: Rules, e: Element) {
    forall i :: 0 <= i < |e.usages| ==> UseOk(rules, e.usages[i])
  }

  lemma {:induction false} ConformedElementIs(rules: Rules, e: Element)
    ensures ElementConformed(rules, e, ConformedElement(rules, e)) && UsesOk(rules, ConformedElement(rules, e))
  {
    forall i | 0 <= i < |e.usages|
      ensures UseConformed(rules, e.usages[i], ConformedElement(rules, e).usages[i])
      ensures UseOk(rules, ConformedElement(rules, e).usages[i])
    {
      ConformedIs(rules, e.usages[i]);
      RefsConserved(rules, e.usages[i]);
    }
  }

  lemma {:induction false} ConformedElementIsCut(rules: Rules, e: Element)
    requires CutElement(e) == e
    ensures CutElement(ConformedElement(rules, e)) == ConformedElement(rules, e)
  {
    var us := ConformedElement(rules, e).usages;
    forall u | u in us
      ensures CutUsage(u) == u
    {
      var i :| 0 <= i < |us| && us[i] == u;
      assert Each(CutUsage, e.usages)[i] == e.usages[i];
      ConformedIsCut(rules, e.usages[i]);
    }
    EachFixed(CutUsage, us);
  }

  /* ---------- repairing twice ---------- */

  lemma {:induction false} KeptWhole(rules: Rules, objs: seq<Ref>)
    requires forall o :: o in objs ==> rules.refOk(o)
    ensures Kept(rules, objs) == objs
  {
    if objs != [] {
      var init, last := objs[..|objs| - 1], objs[|objs| - 1];
      assert objs == init + [last];
      KeptWhole(rules, init);
    }
  }

  /** A conformed use needs no repair. */
  lemma {:induction false} ConformedTwice(rules: Rules, u: Usage)
    ensures Conformed(rules, Conformed(rules, u)) == Conformed(rules, u)
  {
    var v := Conformed(rules, u);
    RefsConserved(rules, u);
    KeptWhole(rules, v.objects);
    assert NsCounts(rules, v.counts) == v.counts;
  }

  lemma {:induction false} ConformedElementTwice(rules: Rules, e: Element)
    ensures ConformedElement(rules, ConformedElement(rules, e)) == ConformedElement(rules, e)
  {
    forall u: Usage
      ensures ConformedBy(rules)(ConformedBy(rules)(u)) == ConformedBy(rules)(u)
    {
      ConformedTwice(rules, u);
    }
    EachTwice(ConformedBy(rules), e.usages);
  }
}
