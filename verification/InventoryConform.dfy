/**
 Conform: an inventory is repaired until the server would admit it, and every
 repair is recorded in the capability it cost data.
 */
module InventoryConform {
  import opened Basics
  import opened Repeats
  import opened FreeText
  import opened Picking
  import opened Ordering
  import opened InventoryShape
  import opened InventoryAccounts
  import opened InventoryTarget

  /* ---------- what the repairs of one use cost ---------- */

  /** Each namespace key and object dropped for itself, and one for all the
      objects beyond the cap. */
  ghost function Cost(rules: Rules, u: Usage): nat {
    |u.counts.Keys - NsCounts(rules, u.counts).Keys| + (|u.objects| - |Kept(rules, u.objects)|)
    + (if |Kept(rules, u.objects)| > MAX_OBJECT_REFS then 1 else 0)
  }

  /** A use no repair was made of is as it was. */
  lemma {:induction false} FreeIsSame(rules: Rules, u: Usage)
    requires Cost(rules, u) == 0
    ensures Conformed(rules, u) == u
  {
    KeptIs(rules, u.objects);
    assert u.counts.Keys - NsCounts(rules, u.counts).Keys == {};
    forall ns | ns in u.counts
      ensures ns in NsCounts(rules, u.counts)
    {
      assert ns !in u.counts.Keys - NsCounts(rules, u.counts).Keys;
    }
    assert NsCounts(rules, u.counts) == u.counts;
  }

  ghost function BadKeys(rules: Rules, keys: set<string>): set<string> {
    set ns | ns in keys && !rules.nsOk(ns)
  }

  lemma {:induction false} BadNext(rules: Rules, counts: map<string, int>, done: set<string>, ns: string)
    requires ns !in done
    ensures var bad := BadKeys(rules, done);
            && BadKeys(rules, done + {ns}) == (if rules.nsOk(ns) then bad else bad + {ns})
            && |bad + {ns}| == |bad| + 1
            && counts - (bad + {ns}) == counts - bad - {ns}
  {
  }

  ghost predicate Splits(all: set<string>, done: set<string>, todo: set<string>) {
    done !! todo && done + todo == all
  }

  lemma {:induction false} SplitsOn(all: set<string>, done: set<string>, todo: set<string>, x: string)
    requires Splits(all, done, todo) && x in todo
    ensures x !in done && Splits(all, done + {x}, todo - {x})
  {
  }

  lemma {:induction false} DroppedKeys(rules: Rules, counts: map<string, int>)
    ensures counts - BadKeys(rules, counts.Keys) == NsCounts(rules, counts)
    ensures counts.Keys - NsCounts(rules, counts).Keys == BadKeys(rules, counts.Keys)
  {
  }

  /* ---------- what a pass over a list costs ---------- */

  /** The sum of a measure over the first n elements. */
  function Sum<T>(measure: T -> nat, xs: seq<T>, n: nat): nat
    requires n <= |xs|
  {
    if n == 0 then 0 else Sum(measure, xs, n - 1) + measure(xs[n - 1])
  }

  lemma {:induction false} FreeAreSame<T(!new)>(f: T -> T, measure: T -> nat, xs: seq<T>, n: nat)
    requires n <= |xs| && Sum(measure, xs, n) == 0
    requires forall x :: measure(x) == 0 ==> f(x) == x
    ensures forall j :: 0 <= j < n ==> f(xs[j]) == xs[j]
  {
    if n != 0 {
      FreeAreSame(f, measure, xs, n - 1);
    }
  }

  lemma {:induction false} EachNext<A, B>(f: A -> B, xs: seq<A>, i: nat)
    requires i < |xs|
    ensures Each(f, xs[..i + 1]) == Each(f, xs[..i]) + [f(xs[i])]
  {
  }

  ghost function CostBy(rules: Rules): Usage -> nat {
    u => Cost(rules, u)
  }

  /** The repairs of an element's uses. */
  ghost function UsesCost(rules: Rules, us: seq<Usage>): nat {
    Sum(CostBy(rules), us, |us|)
  }

  /** One repair for an element left out, else those of its uses. */
  ghost function ElementCost(rules: Rules, l: ListId, drops: bool, e: Element): nat {
    if Drops(rules, l, drops, e) then 1 else UsesCost(rules, e.usages)
  }

  ghost function ElementCostBy(rules: Rules, l: ListId, drops: bool): Element -> nat {
    e => ElementCost(rules, l, drops, e)
  }

  ghost function PassCost(rules: Rules, l: ListId, drops: bool, es: seq<Element>): nat {
    Sum(ElementCostBy(rules, l, drops), es, |es|)
  }

  lemma {:induction false} FreeElementSame(rules: Rules, e: Element)
    requires UsesCost(rules, e.usages) == 0
    ensures ConformedElement(rules, e) == e
  {
    forall u: Usage | CostBy(rules)(u) == 0
      ensures ConformedBy(rules)(u) == u
    {
      FreeIsSame(rules, u);
    }
    FreeAreSame(ConformedBy(rules), CostBy(rules), e.usages, |e.usages|);
    assert Each(ConformedBy(rules), e.usages) == e.usages;
  }

  lemma {:induction false} PassIsCut(rules: Rules, l: ListId, drops: bool, es: seq<Element>)
    requires AllCut(es)
    ensures AllCut(FlatMap(PassOf(rules, l, drops), es))
  {
    forall e | e in FlatMap(PassOf(rules, l, drops), es)
      ensures CutElement(e) == e
    {
      var d := FlatMapFrom(PassOf(rules, l, drops), es, e);
      ConformedElementIsCut(rules, d);
    }
  }

  /** One repair for all the images beyond a cap, else one for each element. */
  function CapCost(l: ListId, es: seq<Element>, max: nat): nat {
    if |es| <= max then 0 else if l.UnrecognizedImages? then 1 else |es| - max
  }

  /* ---------- the capabilities ---------- */

  /** The names of a capability's repairs that are kept: the first twenty in order. */
  function NamedOf(cr: Repaired): (r: seq<string>)
    ensures r <= Sorted(Strings(), cr.skipped) && (|r| == MAX_NAMED_SKIPS || r == Sorted(Strings(), cr.skipped))
    ensures |r| <= MAX_NAMED_SKIPS
  {
    var all := Sorted(Strings(), cr.skipped);
    if |all| > MAX_NAMED_SKIPS then all[..MAX_NAMED_SKIPS] else all
  }

  /** Twenty names or fewer are all kept, and of more no name left out comes
      before one kept. */
  lemma {:induction false} NamedAre(cr: Repaired)
    ensures |cr.skipped| <= MAX_NAMED_SKIPS ==> multiset(NamedOf(cr)) == multiset(cr.skipped)
    ensures var all := Sorted(Strings(), cr.skipped);
            && multiset(all) == multiset(cr.skipped)
            && forall i, j :: 0 <= i < |NamedOf(cr)| <= j < |all| ==> Strings()(all[i], all[j])
  {
    StringsTotal();
    SortedIs(Strings(), cr.skipped);
    SortedHas(Strings(), cr.skipped);
    OrderedPairs(Strings(), Sorted(Strings(), cr.skipped));
  }

  /** The order of texts, byte by byte. */
  function Texts(): Le<Text> {
    LexOf((x: byte, y: byte) => x <= y)
  }

  lemma {:induction false} TextsTotal()
    ensures TotalOrder(Texts()) && Antisymmetric(Texts())
  {
    var bytes: Le<byte> := (x: byte, y: byte) => x <= y;
    LexTotal(bytes);
    LexAntisymmetric(bytes);
  }

  /** What Skipped names: what it did and what is named now, each once, in order. */
  function NamesAdded(skipped: seq<Text>, named: seq<Text>): (r: seq<Text>)
    ensures Rising(Texts(), r) && |r| <= |skipped| + |named| && forall x :: x in r <==> x in skipped || x in named
  {
    TextsTotal();
    Merged(Texts(), skipped + named);
    Compact(Sorted(Texts(), skipped + named))
  }

  /** How a repaired capability that was reported available reads: partial, what
      was repaired said after its reason and named in its skipped. */
  function Marked(rules: Rules, st: Status, cr: Repaired): (r: Status)
    ensures r.partial && r.available == st.available && r.reason == WithNote(st.reason, rules.say(cr))
    ensures Rising(Texts(), r.skipped) && |r.skipped| <= |st.skipped| + MAX_NAMED_SKIPS
    ensures forall x :: x in r.skipped <==> x in st.skipped || x in Each(rules.asText, NamedOf(cr))
  {
    st.(partial := true,
        reason := WithNote(st.reason, rules.say(cr)),
        skipped := NamesAdded(st.skipped, Each(rules.asText, NamedOf(cr))))
  }

  function Applied(rules: Rules, caps: Caps, repairs: Repairs): Caps {
    map c | c in caps :: if c in repairs && caps[c].available then Marked(rules, caps[c], repairs[c]) else caps[c]
  }

  /** An available capability that was repaired is partial, names what it did and
      the first twenty names of what was left out and nothing else, and its reason
      ends with what was repaired exactly when that fits after it; the others are
      cut and else as they were, and none is added. */
  ghost predicate Says(rules: Rules, was: Caps, now: Caps, repairs: Repairs) {
    && now.Keys == was.Keys
    && (forall c :: c in was ==> if was[c].available && c in repairs then Tells(rules, was[c], now[c], repairs[c])
                                 else now[c] == CutStatus(was[c]))
  }

  ghost predicate Tells(rules: Rules, was: Status, now: Status, cr: Repaired) {
    now.available && now.partial && Names(rules, was, now, cr) && Ends(rules, was, now, cr)
  }

  ghost predicate Names(rules: Rules, was: Status, now: Status, cr: Repaired) {
    && (forall x :: x in was.skipped ==> CutString(x) in now.skipped)
    && (forall i :: 0 <= i < |NamedOf(cr)| ==> CutString(rules.asText(NamedOf(cr)[i])) in now.skipped)
    && (forall y :: y in now.skipped ==> NamedBefore(was.skipped, y) || NamedNow(rules, cr, y))
  }

  ghost predicate NamedBefore(skipped: seq<Text>, y: Text) {
    exists x :: x in skipped && y == CutString(x)
  }

  ghost predicate NamedNow(rules: Rules, cr: Repaired, y: Text) {
    exists i :: 0 <= i < |NamedOf(cr)| && y == CutString(rules.asText(NamedOf(cr)[i]))
  }

  ghost predicate Ends(rules: Rules, was: Status, now: Status, cr: Repaired) {
    PlainNote(rules.say(cr)) ==> (EndsWith(now.reason, rules.say(cr)) <==> NoteFits(CutStatus(was).reason, rules.say(cr)))
  }

  lemma {:induction false} CutHas(xs: seq<Text>, x: Text)
    requires x in xs
    ensures CutString(x) in Each(CutString, xs)
  {
    var k :| 0 <= k < |xs| && xs[k] == x;
    assert Each(CutString, xs)[k] == CutString(x);
  }

  lemma {:induction false} CutNames(rules: Rules, st: Status, cr: Repaired)
    ensures Names(rules, st, CutStatus(Marked(rules, CutStatus(st), cr)), cr)
  {
    var m := Marked(rules, CutStatus(st), cr);
    forall x | x in st.skipped
      ensures CutString(x) in CutStatus(m).skipped
    {
      CutHas(st.skipped, x);
      CutHas(m.skipped, CutString(x));
    }
    forall i | 0 <= i < |NamedOf(cr)|
      ensures CutString(rules.asText(NamedOf(cr)[i])) in CutStatus(m).skipped
    {
      assert Each(rules.asText, NamedOf(cr))[i] == rules.asText(NamedOf(cr)[i]);
      CutHas(m.skipped, rules.asText(NamedOf(cr)[i]));
    }
    forall y | y in CutStatus(m).skipped
      ensures NamedBefore(st.skipped, y) || NamedNow(rules, cr, y)
    {
      CutFrom(rules, st, cr, y);
    }
  }

  lemma {:induction false} CutFrom(rules: Rules, st: Status, cr: Repaired, y: Text)
    requires y in CutStatus(Marked(rules, CutStatus(st), cr)).skipped
    ensures NamedBefore(st.skipped, y) || NamedNow(rules, cr, y)
  {
    var m := Marked(rules, CutStatus(st), cr);
    var k :| 0 <= k < |m.skipped| && y == CutString(m.skipped[k]);
    if m.skipped[k] in CutStatus(st).skipped {
      var j :| 0 <= j < |st.skipped| && m.skipped[k] == CutString(st.skipped[j]);
      assert y == CutString(st.skipped[j]);
    } else {
      var j :| 0 <= j < |NamedOf(cr)| && m.skipped[k] == rules.asText(NamedOf(cr)[j]);
    }
  }

  lemma {:induction false} CutEnds(rules: Rules, st: Status, cr: Repaired)
    ensures Ends(rules, st, CutStatus(Marked(rules, CutStatus(st), cr)), cr)
  {
    if PlainNote(rules.say(cr)) {
      NoteSurvives(CutStatus(st).reason, rules.say(cr));
    }
  }

  lemma {:induction false} AppliedTells(rules: Rules, was: Caps, repairs: Repairs)
    ensures Says(rules, was, CutCaps(Applied(rules, CutCaps(was), repairs)), repairs)
  {
    var now := CutCaps(Applied(rules, CutCaps(was), repairs));
    forall c | c in was
      ensures if was[c].available && c in repairs then Tells(rules, was[c], now[c], repairs[c]) else now[c] == CutStatus(was[c])
    {
      if was[c].available && c in repairs {
        CutNames(rules, was[c], repairs[c]);
        CutEnds(rules, was[c], repairs[c]);
      } else {
        CutStatusTwice(was[c]);
      }
    }
  }

  lemma {:induction false} CutListsAllCut(lists: Lists)
    ensures forall l :: AllCut(ListAt(CutLists(lists), l))
  {
    forall l, e | e in ListAt(CutLists(lists), l)
      ensures CutElement(e) == e
    {
      var i :| 0 <= i < |lists[l]| && e == CutElement(lists[l][i]);
      CutElementTwice(lists[l][i]);
    }
  }

  lemma {:induction false} AccountedCut(rules: Rules, was: Lists, wasOmitted: int, now: Lists, omitted: int, repairs: Repairs, l: ListId)
    requires Accounted(rules, was, wasOmitted, now, omitted, repairs)
    ensures AllCut(ListAt(now, l))
  {
    assert ListAccounted(rules, l, ListAt(was, l), ListAt(now, l), RepairedAt(repairs, CapOf(l)));
  }

  lemma {:induction false} AccountedIsCut(rules: Rules, was: Lists, wasOmitted: int, now: Lists, omitted: int, repairs: Repairs)
    requires Accounted(rules, was, wasOmitted, now, omitted, repairs)
    ensures CutLists(now) == now
  {
    forall l | l in now
      ensures Each(CutElement, now[l]) == now[l]
    {
      assert ListAccounted(rules, l, ListAt(was, l), ListAt(now, l), RepairedAt(repairs, CapOf(l)));
      EachFixed(CutElement, now[l]);
    }
  }

  /* ---------- the repairs of one inventory ---------- */

  class Conformer {
    const rules: Rules
    const header: string
    var lists: Lists
    var caps: Caps
    var imagesOmitted: int
    var provider: string
    var repairs: Repairs

    function Value(): Inventory
      reads this
    {
      Inventory(lists, caps, imagesOmitted, provider, header)
    }

    /** Nothing was lost in silence since these lists and this count. */
    ghost predicate Accounts(was: Lists, wasOmitted: int)
      reads this
    {
      Accounted(rules, was, wasOmitted, lists, imagesOmitted, repairs)
    }

    constructor (rules: Rules, inv: Inventory)
      ensures this.rules == rules && Value() == inv && repairs == map[]
    {
      this.rules, header := rules, inv.header;
      lists, caps, imagesOmitted, provider, repairs := inv.lists, inv.caps, inv.imagesOmitted, inv.provider, map[];
    }

    method Add(c: Cap, note: string, what: string)
      modifies this`repairs
      ensures repairs == AddRepair(old(repairs), c, note, what)
      ensures Grew(old(repairs), repairs, c, 1) && (what != "" ==> what in SkippedAt(repairs, c))
    {
      AddGrew(repairs, c, note, what);
      repairs := AddRepair(repairs, c, note, what);
    }

    method DropKey(counts: map<string, int>, ghost done: set<string>, before: map<string, int>, ns: string, c: Cap)
      returns (kept: map<string, int>, ghost n: nat)
      requires ns !in done && before == counts - BadKeys(rules, done)
      modifies this`repairs
      ensures kept == counts - BadKeys(rules, done + {ns}) && Grew(old(repairs), repairs, c, n)
      ensures n == |BadKeys(rules, done + {ns})| - |BadKeys(rules, done)|
    {
      kept, n := before, 0;
      BadNext(rules, counts, done, ns);
      if !rules.nsOk(ns) {
        kept, n := kept - {ns}, 1;
        Add(c, "namespace key(s) dropped", "");
      }
    }

    method DropKeys(counts: map<string, int>, c: Cap) returns (kept: map<string, int>)
      modifies this`repairs
      ensures kept == NsCounts(rules, counts) && Grew(old(repairs), repairs, c, |counts.Keys - kept.Keys|)
    {
      kept := counts;
      var todo := counts.Keys;
      ghost var done: set<string> := {};
      while todo != {}
        invariant Splits(counts.Keys, done, todo)
        invariant kept == counts - BadKeys(rules, done)
        invariant Grew(old(repairs), repairs, c, |BadKeys(rules, done)|)
        decreases todo
      {
        var ns :| ns in todo;
        ghost var before := repairs;
        SplitsOn(counts.Keys, done, todo, ns);
        ghost var n;
        kept, n := DropKey(counts, done, kept, ns, c);
        GrewOn(old(repairs), before, repairs, c, |BadKeys(rules, done)|, n);
        todo, done := todo - {ns}, done + {ns};
      }
      DroppedKeys(rules, counts);
    }

    method DropObjects(objs: seq<Ref>, c: Cap) returns (kept: seq<Ref>)
      modifies this`repairs
      ensures kept == Kept(rules, objs) && |kept| <= |objs| && Grew(old(repairs), repairs, c, |objs| - |kept|)
    {
      kept := [];
      for i := 0 to |objs|
        invariant kept == Kept(rules, objs[..i]) && |kept| <= i && Grew(old(repairs), repairs, c, i - |kept|)
      {
        assert objs[..i + 1] == objs[..i] + [objs[i]];
        FlatMapSnoc(OkRefs(rules), objs[..i], objs[i]);
        if rules.refOk(objs[i]) {
          kept := kept + [objs[i]];
        } else {
          ghost var before := repairs;
          Add(c, "object(s) dropped", "");
          GrewOn(old(repairs), before, repairs, c, i - |kept|, 1);
        }
      }
      assert objs[..|objs|] == objs;
    }

    method CapObjects(kept: seq<Ref>, c: Cap) returns (listed: seq<Ref>)
      modifies this`repairs
      ensures listed == if |kept| > MAX_OBJECT_REFS then kept[..MAX_OBJECT_REFS] else kept
      ensures Grew(old(repairs), repairs, c, if |kept| > MAX_OBJECT_REFS then 1 else 0)
    {
      listed := kept;
      if |kept| > MAX_OBJECT_REFS {
        listed := kept[..MAX_OBJECT_REFS];
        Add(c, "object(s) beyond the cap counted, not listed", "");
      }
    }

    /** conformRefs: each drop is a repair, and what is no longer listed is counted. */
    method ConformUsage(u: Usage, f: Usage -> Usage, ghost cost: Usage -> nat, c: Cap) returns (v: Usage)
      requires f == ConformedBy(rules) && cost == CostBy(rules)
      modifies this`repairs
      ensures v == f(u) && Grew(old(repairs), repairs, c, cost(u))
    {
      var counts := DropKeys(u.counts, c);
      ghost var first := repairs;
      var kept := DropObjects(u.objects, c);
      ghost var second := repairs;
      ghost var keys, objs := |u.counts.Keys - counts.Keys|, |u.objects| - |kept|;
      GrewOn(old(repairs), first, second, c, keys, objs);
      var listed := CapObjects(kept, c);
      GrewOn(old(repairs), second, repairs, c, keys + objs, if |kept| > MAX_OBJECT_REFS then 1 else 0);
      v := Usage(u.kind, counts, listed, u.omitted + (|u.objects| - |kept|) + (|kept| - |listed|));
    }

    /** conformUsages: the uses of one element, each in its place. */
    method ConformUses(us: seq<Usage>, f: Usage -> Usage, ghost cost: Usage -> nat, c: Cap) returns (vs: seq<Usage>)
      requires f == ConformedBy(rules) && cost == CostBy(rules)
      modifies this`repairs
      ensures vs == Each(f, us) && Grew(old(repairs), repairs, c, Sum(cost, us, |us|))
    {
      vs := [];
      for i := 0 to |us|
        invariant vs == Each(f, us[..i]) && Grew(old(repairs), repairs, c, Sum(cost, us, i))
      {
        ghost var before := repairs;
        var v := ConformUsage(us[i], f, cost, c);
        GrewOn(old(repairs), before, repairs, c, Sum(cost, us, i), cost(us[i]));
        EachNext(f, us, i);
        vs := vs + [v];
      }
      Whole(us);
    }

    /** One element of a pass: left out, recorded and named, or kept with its uses
        conformed, each repair recorded. */
    method ConformOne(l: ListId, drops: bool, e: Element) returns (kept: seq<Element>)
      modifies this`repairs
      ensures kept == PassOf(rules, l, drops)(e)
      ensures Grew(old(repairs), repairs, CapOf(l), ElementCost(rules, l, drops, e))
      ensures kept == [] && !l.UnrecognizedImages? ==> e.name == "" || e.name in SkippedAt(repairs, CapOf(l))
      ensures l.HelmReleases? && kept != [] && Total(repairs, CapHelm) > Total(old(repairs), CapHelm) ==>
                e.name in SkippedAt(repairs, CapHelm)
    {
      var c := CapOf(l);
      if Drops(rules, l, drops, e) {
        Add(c, "dropped", if l.UnrecognizedImages? then "" else e.name);
        return [];
      }
      var before := Total(repairs, c);
      var us := ConformUses(e.usages, ConformedBy(rules), CostBy(rules), c);
      if l.HelmReleases? && Total(repairs, c) != before {
        SkipGrew(repairs, c, e.name);
        GrewOn(old(repairs), repairs, AddSkip(repairs, c, e.name), c, UsesCost(rules, e.usages), 0);
        repairs := AddSkip(repairs, c, e.name);
      }
      return [e.(usages := us)];
    }

    /** A pass over a list, every element left out recorded and named. */
    method PassList(l: ListId, drops: bool, es: seq<Element>) returns (kept: seq<Element>)
      modifies this`repairs
      ensures kept == FlatMap(PassOf(rules, l, drops), es) && PassedSo(l, drops, es, |es|, kept, old(repairs))
    {
      kept := [];
      for i := 0 to |es|
        invariant kept == FlatMap(PassOf(rules, l, drops), es[..i]) && PassedSo(l, drops, es, i, kept, old(repairs))
      {
        ghost var before := repairs;
        var one := ConformOne(l, drops, es[i]);
        PassOn(rules, l, drops, es, i, kept, old(repairs), before, repairs);
        SliceNext(es, i);
        FlatMapSnoc(PassOf(rules, l, drops), es[..i], es[i]);
        kept := kept + one;
      }
      Whole(es);
    }

    /** The pass is a step of the account. */
    method PassOver(l: ListId, drops: bool, es: seq<Element>, ghost cost: nat) returns (kept: seq<Element>)
      requires AllCut(es) && cost == PassCost(rules, l, drops, es)
      modifies this`repairs
      ensures kept == FlatMap(PassOf(rules, l, drops), es)
      ensures Step(rules, l, es, kept, old(repairs), repairs, cost)
    {
      kept := PassList(l, drops, es);
      PassStep(rules, l, drops, es, kept, old(repairs), repairs);
    }

    ghost predicate PassedSo(l: ListId, drops: bool, es: seq<Element>, i: nat, kept: seq<Element>, before: Repairs)
      requires i <= |es|
      reads this
    {
      SoFar(rules, l, drops, es, i, kept, before, repairs)
    }

    /** Puts a repaired list in place of the old one. */
    method Replace(l: ListId, next: seq<Element>, ghost before: Repairs, ghost n: nat, ghost was: Lists, ghost wasOmitted: int)
      requires Accounted(rules, was, wasOmitted, lists, imagesOmitted, before)
      requires Step(rules, l, ListAt(lists, l), next, before, repairs, n)
      modifies this`lists, this`imagesOmitted
      ensures Accounts(was, wasOmitted) && lists == old(lists)[l := next]
      ensures imagesOmitted == old(imagesOmitted) + (if l.UnrecognizedImages? then |ListAt(old(lists), l)| - |next| else 0)
    {
      var more := if l.UnrecognizedImages? then |ListAt(lists, l)| - |next| else 0;
      AccountedOn(rules, was, wasOmitted, lists, imagesOmitted, before, l, next, more, repairs, n);
      lists, imagesOmitted := lists[l := next], imagesOmitted + more;
    }

    /** conformHelm, conformUsages, conformAddOns and conformImages' first half:
        what is refused is left out, recorded and named, the images counted. */
    method ConformList(l: ListId, drops: bool, ghost was: Lists, ghost wasOmitted: int)
      requires Accounts(was, wasOmitted)
      modifies this`lists, this`repairs, this`imagesOmitted
      ensures Accounts(was, wasOmitted) && lists == Passed(rules, old(lists), l, drops)
      ensures Grew(old(repairs), repairs, CapOf(l),
                   PassCost(rules, l, drops, ListAt(old(lists), l)))
    {
      ghost var before := repairs;
      var es := ListAt(lists, l);
      AccountedCut(rules, was, wasOmitted, lists, imagesOmitted, repairs, l);
      ghost var cost := PassCost(rules, l, drops, es);
      var kept := PassOver(l, drops, es, cost);
      Replace(l, kept, before, cost, was, wasOmitted);
    }

    /** Elements beyond a list's cap: images are counted, one repair for all of
        them; other elements are a repair each, and named. */
    method CapList(l: ListId, max: nat, ghost was: Lists, ghost wasOmitted: int)
      requires Accounts(was, wasOmitted)
      modifies this`lists, this`repairs, this`imagesOmitted
      ensures Accounts(was, wasOmitted) && lists == CappedList(old(lists), l, max)
      ensures Grew(old(repairs), repairs, CapOf(l), CapCost(l, ListAt(old(lists), l), max))
    {
      ghost var before := repairs;
      var es := ListAt(lists, l);
      AccountedCut(rules, was, wasOmitted, lists, imagesOmitted, repairs, l);
      NameRest(l, es, max);
      CapStep(rules, l, es, max, before, repairs);
      Replace(l, Short(es, max), before, CapCost(l, es, max), was, wasOmitted);
    }

    /** Records what is beyond the cap. */
    method NameRest(l: ListId, es: seq<Element>, max: nat)
      modifies this`repairs
      ensures Grew(old(repairs), repairs, CapOf(l), CapCost(l, es, max))
      ensures !l.UnrecognizedImages? ==>
                forall i :: max <= i < |es| ==> es[i].name == "" || es[i].name in SkippedAt(repairs, CapOf(l))
    {
      if |es| <= max {
        return;
      }
      if l.UnrecognizedImages? {
        Add(CapOf(l), "beyond the cap counted, not listed", "");
        return;
      }
      for i := max to |es|
        invariant Grew(old(repairs), repairs, CapOf(l), i - max)
        invariant forall j :: max <= j < i ==> es[j].name == "" || es[j].name in SkippedAt(repairs, CapOf(l))
      {
        ghost var before := repairs;
        Add(CapOf(l), "beyond the cap dropped", es[i].name);
        GrewOn(old(repairs), before, repairs, CapOf(l), i - max, 1);
      }
    }

    /** dropElement: drops exactly what the fault names, records it and names it. */
    method DropElement(f: Fault, ghost was: Lists, ghost wasOmitted: int) returns (ok: bool)
      requires Accounts(was, wasOmitted)
      modifies this
      ensures Accounts(was, wasOmitted) && (ok <==> CanDrop(old(Value()), f))
      ensures !ok ==> Value() == old(Value()) && repairs == old(repairs)
      ensures ok ==> Value() == Dropped(old(Value()), f)
      ensures ok && f.At? ==> WithoutAt(old(Value()), Value(), f.list, f.i)
      ensures ok && f.Provider? ==> Value() == old(Value()).(provider := "")
      ensures ok && f.At? ==> Grew(old(repairs), repairs, CapOf(f.list), 1)
      ensures ok && f.At? && !f.list.UnrecognizedImages? ==>
                var name := ListAt(old(lists), f.list)[f.i].name;
                name == "" || name in SkippedAt(repairs, CapOf(f.list))
      ensures ok && f.Provider? ==> Grew(old(repairs), repairs, CapVersions, 1)
    {
      match f
      case Provider =>
        DropProvider(was, wasOmitted);
        return true;
      case Elsewhere => return false;
      case At(l, i) =>
        ghost var before := Value();
        ok := DropAt(l, i, was, wasOmitted);
        if ok {
          DroppedAt(before, l, i);
        }
    }

    method DropProvider(ghost was: Lists, ghost wasOmitted: int)
      requires Accounts(was, wasOmitted)
      modifies this`provider, this`repairs
      ensures Accounts(was, wasOmitted) && provider == "" && Grew(old(repairs), repairs, CapVersions, 1)
    {
      ghost var before := repairs;
      provider := "";
      Add(CapVersions, "provider name dropped", "");
      AccountedRepair(rules, was, wasOmitted, lists, imagesOmitted, before, CapVersions, repairs, 1);
    }

    method DropAt(l: ListId, i: nat, ghost was: Lists, ghost wasOmitted: int) returns (ok: bool)
      requires Accounts(was, wasOmitted)
      modifies this`lists, this`repairs, this`imagesOmitted
      ensures Accounts(was, wasOmitted) && (ok <==> CanDrop(old(Value()), At(l, i)))
      ensures !ok ==> Value() == old(Value()) && repairs == old(repairs)
      ensures ok ==> Value() == Dropped(old(Value()), At(l, i)) && Grew(old(repairs), repairs, CapOf(l), 1)
      ensures ok && !l.UnrecognizedImages? ==>
                var name := ListAt(old(lists), l)[i].name; name == "" || name in SkippedAt(repairs, CapOf(l))
    {
      ok := i < |ListAt(lists, l)|;
      if ok {
        TakeOut(l, i, was, wasOmitted);
      }
    }

    method TakeOut(l: ListId, i: nat, ghost was: Lists, ghost wasOmitted: int)
      requires Accounts(was, wasOmitted) && i < |ListAt(lists, l)|
      modifies this`lists, this`repairs, this`imagesOmitted
      ensures Accounts(was, wasOmitted) && Grew(old(repairs), repairs, CapOf(l), 1)
      ensures lists == old(lists)[l := Removed(ListAt(old(lists), l), i)]
      ensures imagesOmitted == old(imagesOmitted) + (if l.UnrecognizedImages? then 1 else 0)
      ensures !l.UnrecognizedImages? ==>
                var name := ListAt(old(lists), l)[i].name; name == "" || name in SkippedAt(repairs, CapOf(l))
    {
      var es := ListAt(lists, l);
      ghost var before := repairs;
      AccountedCut(rules, was, wasOmitted, lists, imagesOmitted, repairs, l);
      Add(CapOf(l), "dropped for a value Admit refuses", if l.UnrecognizedImages? then "" else es[i].name);
      RemoveStep(rules, l, es, i, before, repairs);
      Replace(l, Removed(es, i), before, 1, was, wasOmitted);
    }

    /** One turn of the fallback, with n drops left. */
    method FallOnce(n: nat, ghost was: Lists, ghost wasOmitted: int) returns (err: Option<Fault>, dropped: bool)
      requires Accounts(was, wasOmitted)
      modifies this
      ensures Accounts(was, wasOmitted) && (dropped ==> n > 0)
      ensures FallenBack(rules, old(Value()), n) == if dropped then FallenBack(rules, Value(), n - 1) else Value()
      ensures !dropped ==> err == CheckAdmissible(rules, Value())
    {
      err, dropped := CheckAdmissible(rules, Value()), false;
      if err.Some? && n != 0 {
        dropped := DropElement(err.value, was, wasOmitted);
      }
    }

    /** The net under the targeted repairs: at most so many drops, each of what the
        check names, until it passes or names what cannot be dropped. */
    method Fallback(max: nat, ghost was: Lists, ghost wasOmitted: int) returns (err: Option<Fault>, ghost trace: seq<Inventory>)
      requires Accounts(was, wasOmitted)
      modifies this
      ensures Accounts(was, wasOmitted) && Value() == FallenBack(rules, old(Value()), max)
      ensures FallbackRun(rules, old(Value()), max, trace) && trace[|trace| - 1] == Value() && caps == old(caps)
      ensures err == CheckAdmissible(rules, Value())
    {
      trace := FallbackEnds(rules, Value(), max);
      FallbackKeeps(rules, Value(), max);
      var drops := 0;
      while true
        invariant Accounts(was, wasOmitted) && drops <= max
        invariant FallenBack(rules, old(Value()), max) == FallenBack(rules, Value(), max - drops)
        decreases max - drops
      {
        var dropped;
        err, dropped := FallOnce(max - drops, was, wasOmitted);
        if !dropped {
          return;
        }
        drops := drops + 1;
      }
    }

    /** The targeted repairs, in order. */
    method Target(ghost was: Lists, ghost wasOmitted: int)
      requires Accounts(was, wasOmitted)
      modifies this`lists, this`repairs, this`imagesOmitted
      ensures Accounts(was, wasOmitted) && lists == Targeted(rules, old(lists))
      ensures ListsRepaired(rules, old(lists), lists)
    {
      TargetedRepairs(rules, lists);
      ConformList(HelmReleases, true, was, wasOmitted);
      ConformList(APIUsages, false, was, wasOmitted);
      ConformList(AuthorshipUnknown, false, was, wasOmitted);
      ConformList(Crds, false, was, wasOmitted);
      ConformList(AddOns, true, was, wasOmitted);
      ConformList(UnrecognizedImages, true, was, wasOmitted);
      CapList(UnrecognizedImages, MAX_UNRECOGNIZED_IMAGES, was, wasOmitted);
      ConformList(VolumePlugins, false, was, wasOmitted);
      CapList(VolumePlugins, MAX_VOLUME_PLUGINS, was, wasOmitted);
    }

    /** Conform. An inventory it returns no error for passes Admit when its versions
        do. What it took out, beyond cutting free text, is accounted for: every
        element left out is a repair of its capability and named there, images and
        objects no longer listed are counted, and a capability reported available
        says so. */
    method Conform() returns (err: Option<Fault>, ghost trace: seq<Inventory>)
      requires repairs == map[]
      modifies this
      ensures err.None? && rules.versionsOk(header) ==> Admit(rules, Value()).None?
      ensures Accounts(CutLists(old(lists)), old(imagesOmitted))
      ensures caps == CutCaps(Applied(rules, CutCaps(old(caps)), repairs))
      ensures Says(rules, old(caps), caps, repairs)
      ensures forall l :: CapOf(l) in old(caps) && old(caps)[CapOf(l)].available &&
                          ListAt(lists, l) != ListAt(CutLists(old(lists)), l) ==>
                            CapOf(l) in caps && caps[CapOf(l)].partial
      ensures RepairRun(rules, CutLists(old(lists)), old(imagesOmitted), CutCaps(old(caps)), old(provider), header, trace)
      ensures var r := trace[|trace| - 1];
              var first := CheckAdmissible(rules, r);
              && lists == r.lists && imagesOmitted == r.imagesOmitted && provider == r.provider
              && err == if first.Some? then first else CheckAdmissible(rules, Value())
    {
      ghost var was, wasOmitted := CutLists(lists), imagesOmitted;
      var first;
      first, trace := Repair(was, wasOmitted);
      err := Finish(first, was, wasOmitted);
      AppliedTells(rules, old(caps), repairs);
      ChangedIsRepaired(rules, was, wasOmitted, lists, imagesOmitted, repairs);
    }

    /** The first half: cut, repair, and drop what the check still names. */
    method Repair(ghost was: Lists, ghost wasOmitted: int) returns (err: Option<Fault>, ghost trace: seq<Inventory>)
      requires repairs == map[] && was == CutLists(lists) && wasOmitted == imagesOmitted
      modifies this
      ensures Accounts(was, wasOmitted) && caps == CutCaps(old(caps))
      ensures err == CheckAdmissible(rules, Value())
      ensures RepairRun(rules, was, wasOmitted, caps, old(provider), header, trace) && trace[|trace| - 1] == Value()
    {
      Prepare(was, wasOmitted);
      err, trace := Fallback(MAX_FALLBACK_DROPS, was, wasOmitted);
    }

    /** Cuts the free text and makes the targeted repairs. */
    method Prepare(ghost was: Lists, ghost wasOmitted: int)
      requires repairs == map[] && was == CutLists(lists) && wasOmitted == imagesOmitted
      modifies this`lists, this`caps, this`repairs, this`imagesOmitted
      ensures Accounts(was, wasOmitted) && caps == CutCaps(old(caps)) && ListsRepaired(rules, was, lists)
      ensures |ListAt(lists, UnrecognizedImages)| + imagesOmitted == |ListAt(was, UnrecognizedImages)| + wasOmitted
    {
      CutListsAllCut(lists);
      AccountedAtFirst(rules, was, wasOmitted);
      lists, caps := CutLists(lists), CutCaps(caps);
      Target(was, wasOmitted);
    }

    /** The second half: the repairs are written into the statuses, which are cut
        again, and the whole is checked. */
    method Finish(first: Option<Fault>, ghost was: Lists, ghost wasOmitted: int) returns (err: Option<Fault>)
      requires Accounts(was, wasOmitted)
      modifies this`caps, this`lists
      ensures lists == old(lists) && caps == CutCaps(Applied(rules, old(caps), repairs))
      ensures err.None? && rules.versionsOk(header) ==> Admit(rules, Value()).None?
      ensures err == if first.Some? then first else CheckAdmissible(rules, Value())
    {
      caps := Applied(rules, caps, repairs);
      AccountedIsCut(rules, was, wasOmitted, lists, imagesOmitted, repairs);
      ghost var last := Value();
      lists, caps := CutLists(lists), CutCaps(caps);
      assert Value() == CutFreeText(last);
      err := first;
      if err.None? {
        err := CheckAdmissible(rules, Value());
        if err.None? && rules.versionsOk(header) {
          CutThenAdmitted(rules, last);
        }
      }
    }
  }

  /** From the lists that were, the targeted repairs and then the fallback's drops:
      each state of the inventory, the first with every list repaired, no image
      uncounted and the provider as it was. */
  ghost predicate RepairRun(rules: Rules, was: Lists, wasOmitted: int, caps: Caps, provider: string, header: string,
                            trace: seq<Inventory>)
  {
    && 0 < |trace| && trace[0] == Inventory(trace[0].lists, caps, trace[0].imagesOmitted, provider, header)
    && ListsRepaired(rules, was, trace[0].lists)
    && |ListAt(trace[0].lists, UnrecognizedImages)| + trace[0].imagesOmitted == |ListAt(was, UnrecognizedImages)| + wasOmitted
    && FallbackRun(rules, trace[0], MAX_FALLBACK_DROPS, trace)
  }

  lemma {:induction false} FallbackKeeps(rules: Rules, inv: Inventory, n: nat)
    ensures FallenBack(rules, inv, n).caps == inv.caps && FallenBack(rules, inv, n).header == inv.header
    decreases n
  {
    var f := CheckAdmissible(rules, inv);
    if f.Some? && n != 0 && CanDrop(inv, f.value) {
      FallbackKeeps(rules, Dropped(inv, f.value), n - 1);
    }
  }

  lemma {:induction false} ChangedIsRepaired(rules: Rules, was: Lists, wasOmitted: int, now: Lists, omitted: int, repairs: Repairs)
    requires Accounted(rules, was, wasOmitted, now, omitted, repairs)
    ensures forall l :: ListAt(now, l) != ListAt(was, l) ==> CapOf(l) in repairs
  {
    forall l | ListAt(now, l) != ListAt(was, l)
      ensures CapOf(l) in repairs
    {
      assert ListAccounted(rules, l, ListAt(was, l), ListAt(now, l), RepairedAt(repairs, CapOf(l)));
    }
  }

  /* ---------- the steps of a pass ---------- */

  /** The first i elements of a pass over es: each repair recorded, */
  ghost predicate SoFar(rules: Rules, l: ListId, drops: bool, es: seq<Element>, i: nat, kept: seq<Element>,
                        before: Repairs, after: Repairs)
    requires i <= |es|
  {
    && Grew(before, after, CapOf(l), Sum(ElementCostBy(rules, l, drops), es, i))
    && Charged(es[..i], kept, Sum(ElementCostBy(rules, l, drops), es, i))
    && Described(rules, l, es[..i], kept, SkippedAt(after, CapOf(l)))
  }

  /** every change and every element left out paid for by a repair, */
  ghost predicate Charged(es: seq<Element>, kept: seq<Element>, cost: nat) {
    (kept == es || cost > 0) && |es| - |kept| <= cost
  }

  /** and what is left out named. */
  ghost predicate Described(rules: Rules, l: ListId, es: seq<Element>, kept: seq<Element>, skipped: seq<string>) {
    Derived(rules, es, kept) && (l.UnrecognizedImages? || Told(es, kept, skipped))
  }

  lemma {:induction false} ChargedOn(rules: Rules, l: ListId, drops: bool, es: seq<Element>, so: seq<Element>, m: nat, e: Element)
    requires Charged(es, so, m)
    ensures Charged(es + [e], so + PassOf(rules, l, drops)(e), m + ElementCost(rules, l, drops, e))
  {
    if ElementCost(rules, l, drops, e) == 0 {
      FreeElementSame(rules, e);
    }
  }

  lemma {:induction false} DescribedOn(rules: Rules, l: ListId, drops: bool, es: seq<Element>, so: seq<Element>, e: Element,
                    before: seq<string>, after: seq<string>)
    requires Described(rules, l, es, so, before) && before <= after
    requires Drops(rules, l, drops, e) && !l.UnrecognizedImages? ==> e.name == "" || e.name in after
    ensures Described(rules, l, es + [e], so + PassOf(rules, l, drops)(e), after)
  {
    DerivedSnoc(rules, es, so, e, PassOf(rules, l, drops)(e));
    if !l.UnrecognizedImages? {
      ToldSnoc(es, so, e, PassOf(rules, l, drops)(e), before, after);
    }
  }

  lemma {:induction false} ChargedNext(rules: Rules, l: ListId, drops: bool, es: seq<Element>, i: nat, so: seq<Element>, m: nat)
    requires i < |es| && Charged(es[..i], so, m)
    ensures Charged(es[..i + 1], so + PassOf(rules, l, drops)(es[i]), m + ElementCost(rules, l, drops, es[i]))
  {
    SliceNext(es, i);
    ChargedOn(rules, l, drops, es[..i], so, m, es[i]);
  }

  lemma {:induction false} DescribedNext(rules: Rules, l: ListId, drops: bool, es: seq<Element>, i: nat, so: seq<Element>,
                      before: seq<string>, after: seq<string>)
    requires i < |es| && Described(rules, l, es[..i], so, before) && before <= after
    requires Drops(rules, l, drops, es[i]) && !l.UnrecognizedImages? ==> es[i].name == "" || es[i].name in after
    ensures Described(rules, l, es[..i + 1], so + PassOf(rules, l, drops)(es[i]), after)
  {
    SliceNext(es, i);
    DescribedOn(rules, l, drops, es[..i], so, es[i], before, after);
  }

  lemma {:induction false} PassOn(rules: Rules, l: ListId, drops: bool, es: seq<Element>, i: nat, so: seq<Element>, first: Repairs,
               before: Repairs, after: Repairs)
    requires i < |es| && SoFar(rules, l, drops, es, i, so, first, before)
    requires Grew(before, after, CapOf(l), ElementCost(rules, l, drops, es[i]))
    requires Drops(rules, l, drops, es[i]) && !l.UnrecognizedImages? ==>
               es[i].name == "" || es[i].name in SkippedAt(after, CapOf(l))
    ensures SoFar(rules, l, drops, es, i + 1, so + PassOf(rules, l, drops)(es[i]), first, after)
  {
    var m := Sum(ElementCostBy(rules, l, drops), es, i);
    GrewOn(first, before, after, CapOf(l), m, ElementCost(rules, l, drops, es[i]));
    ChargedNext(rules, l, drops, es, i, so, m);
    DescribedNext(rules, l, drops, es, i, so, SkippedAt(before, CapOf(l)), SkippedAt(after, CapOf(l)));
  }

  lemma {:induction false} PassStep(rules: Rules, l: ListId, drops: bool, es: seq<Element>, kept: seq<Element>, before: Repairs, after: Repairs)
    requires SoFar(rules, l, drops, es, |es|, kept, before, after) && kept == FlatMap(PassOf(rules, l, drops), es)
    requires AllCut(es)
    ensures Step(rules, l, es, kept, before, after, PassCost(rules, l, drops, es))
  {
    Whole(es);
    PassIsCut(rules, l, drops, es);
  }

  lemma {:induction false} CapStep(rules: Rules, l: ListId, es: seq<Element>, max: nat, before: Repairs, after: Repairs)
    requires Grew(before, after, CapOf(l), CapCost(l, es, max)) && AllCut(es)
    requires !l.UnrecognizedImages? ==>
               forall i :: max <= i < |es| ==> es[i].name == "" || es[i].name in SkippedAt(after, CapOf(l))
    ensures Step(rules, l, es, Short(es, max), before, after, CapCost(l, es, max))
  {
    if |es| <= max {
      DerivedSelf(rules, es);
      ToldSelf(es, SkippedAt(after, CapOf(l)));
    } else {
      DerivedTake(rules, es, max);
      if !l.UnrecognizedImages? {
        ToldTake(es, max, SkippedAt(after, CapOf(l)));
      }
    }
  }

  lemma {:induction false} RemoveStep(rules: Rules, l: ListId, es: seq<Element>, i: nat, before: Repairs, after: Repairs)
    requires i < |es| && Grew(before, after, CapOf(l), 1) && AllCut(es)
    requires l.UnrecognizedImages? || es[i].name == "" || es[i].name in SkippedAt(after, CapOf(l))
    ensures Step(rules, l, es, Removed(es, i), before, after, 1)
  {
    DerivedRemove(rules, es, i);
    if !l.UnrecognizedImages? {
      ToldRemove(es, i, SkippedAt(after, CapOf(l)));
    }
  }
}
