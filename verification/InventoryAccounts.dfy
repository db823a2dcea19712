/**
 The account of a repair: what a list may have become, and what the repairs
 recorded must say of it.
 */
module InventoryAccounts {
  import opened FreeText
  import opened InventoryShape

  /* ---------- repairs ---------- */

  type Repairs = map<Cap, Repaired>

  function RepairedAt(r: Repairs, c: Cap): Repaired {
    if c in r then r[c] else Repaired(0, [], [])
  }

  function Total(r: Repairs, c: Cap): nat {
    RepairedAt(r, c).total
  }

  function SkippedAt(r: Repairs, c: Cap): seq<string> {
    RepairedAt(r, c).skipped
  }

  function AddDistinct(xs: seq<string>, x: string): seq<string> {
    if x in xs then xs else xs + [x]
  }

  function AddRepair(r: Repairs, c: Cap, note: string, what: string): Repairs {
    var cr := RepairedAt(r, c);
    r[c := Repaired(cr.total + 1, AddDistinct(cr.notes, note), if what == "" then cr.skipped else AddDistinct(cr.skipped, what))]
  }

  function AddSkip(r: Repairs, c: Cap, what: string): Repairs {
    var cr := RepairedAt(r, c);
    r[c := cr.(skipped := AddDistinct(cr.skipped, what))]
  }

  /** n repairs were added to c; what was named stays named, and the other
      capabilities' repairs are as they were. */
  ghost predicate Grew(before: Repairs, after: Repairs, c: Cap, n: nat) {
    && Total(after, c) == Total(before, c) + n
    && SkippedAt(before, c) <= SkippedAt(after, c)
    && OthersSame(before, after, c)
  }

  ghost predicate OthersSame(before: Repairs, after: Repairs, c: Cap) {
    forall d :: d != c ==> RepairedAt(after, d) == RepairedAt(before, d)
  }

  lemma {:induction false} GrewOn(a: Repairs, b: Repairs, d: Repairs, c: Cap, m: nat, n: nat)
    requires Grew(a, b, c, m) && Grew(b, d, c, n)
    ensures Grew(a, d, c, m + n)
  {
  }

  lemma {:induction false} AddGrew(r: Repairs, c: Cap, note: string, what: string)
    ensures Grew(r, AddRepair(r, c, note, what), c, 1)
    ensures what != "" ==> what in SkippedAt(AddRepair(r, c, note, what), c)
  {
  }

  lemma {:induction false} SkipGrew(r: Repairs, c: Cap, what: string)
    ensures Grew(r, AddSkip(r, c, what), c, 0) && what in SkippedAt(AddSkip(r, c, what), c)
  {
  }

  /* ---------- where the elements of a list came from ---------- */

  /** e is d, or d with its uses conformed. */
  ghost predicate From(rules: Rules, d: Element, e: Element) {
    e == d || e == ConformedElement(rules, d)
  }

  /** The uses kept of an element list and omit, together, what they did. */
  ghost predicate UsesConserved(d: Element, e: Element) {
    && |d.usages| == |e.usages| && d.name == e.name && d.free == e.free && d.rest == e.rest
    && (forall i :: 0 <= i < |d.usages| ==>
          |e.usages[i].objects| + e.usages[i].omitted == |d.usages[i].objects| + d.usages[i].omitted)
  }

  lemma {:induction false} FromConserves(rules: Rules, d: Element, e: Element)
    requires From(rules, d, e)
    ensures UsesConserved(d, e)
  {
    forall i | 0 <= i < |d.usages|
      ensures |e.usages[i].objects| + e.usages[i].omitted == |d.usages[i].objects| + d.usages[i].omitted
    {
      RefsConserved(rules, d.usages[i]);
    }
  }

  lemma {:induction false} FromOn(rules: Rules, d: Element, e: Element, f: Element)
    requires From(rules, d, e) && From(rules, e, f)
    ensures From(rules, d, f)
  {
    ConformedElementTwice(rules, d);
  }

  /** now is what is left of was, in order: elements left out, others as they were
      or with their uses conformed. */
  ghost predicate Derived(rules: Rules, was: seq<Element>, now: seq<Element>)
    decreases |was|
  {
    now == [] ||
    (was != [] &&
     ((From(rules, was[|was| - 1], now[|now| - 1]) && Derived(rules, was[..|was| - 1], now[..|now| - 1]))
      || Derived(rules, was[..|was| - 1], now)))
  }

  lemma {:induction false} DerivedOn(rules: Rules, a: seq<Element>, b: seq<Element>, c: seq<Element>)
    requires Derived(rules, a, b) && Derived(rules, b, c)
    ensures Derived(rules, a, c)
    decreases |a|
  {
    if c != [] {
      var a' := a[..|a| - 1];
      if Derived(rules, a', b) {
        DerivedOn(rules, a', b, c);
      } else {
        var b' := b[..|b| - 1];
        if From(rules, b[|b| - 1], c[|c| - 1]) && Derived(rules, b', c[..|c| - 1]) {
          FromOn(rules, a[|a| - 1], b[|b| - 1], c[|c| - 1]);
          DerivedOn(rules, a', b', c[..|c| - 1]);
        } else {
          DerivedOn(rules, a', b', c);
        }
      }
    }
  }

  lemma {:induction false} DerivedSelf(rules: Rules, es: seq<Element>)
    ensures Derived(rules, es, es)
    decreases |es|
  {
    if es != [] {
      DerivedSelf(rules, es[..|es| - 1]);
    }
  }

  lemma {:induction false} DerivedSnoc(rules: Rules, was: seq<Element>, now: seq<Element>, d: Element, kept: seq<Element>)
    requires Derived(rules, was, now)
    requires kept == [] || (|kept| == 1 && From(rules, d, kept[0]))
    ensures Derived(rules, was + [d], now + kept)
  {
    InitLast(was, d);
    if kept == [] {
      assert now + kept == now;
    } else {
      assert kept == [kept[0]];
      InitLast(now, kept[0]);
    }
  }

  lemma {:induction false} InitLast<T>(xs: seq<T>, x: T)
    ensures (xs + [x])[..|xs + [x]| - 1] == xs && (xs + [x])[|xs + [x]| - 1] == x
  {
  }

  /** Cutting a list short, or one element out of it, derives from it. */
  lemma {:induction false} DerivedTake(rules: Rules, es: seq<Element>, n: nat)
    requires n <= |es|
    ensures Derived(rules, es, es[..n])
    decreases |es|
  {
    if n == |es| {
      assert es[..n] == es;
      DerivedSelf(rules, es);
    } else {
      DerivedTake(rules, es[..|es| - 1], n);
      assert es[..|es| - 1][..n] == es[..n];
    }
  }

  function Removed(es: seq<Element>, i: nat): seq<Element>
    requires i < |es|
  {
    es[..i] + es[i + 1..]
  }

  lemma {:induction false} DerivedRemove(rules: Rules, es: seq<Element>, i: nat)
    requires i < |es|
    ensures Derived(rules, es, Removed(es, i))
    decreases |es|
  {
    var init, last := es[..|es| - 1], es[|es| - 1];
    assert es == init + [last];
    if i == |es| - 1 {
      assert Removed(es, i) == init + [];
      DerivedSelf(rules, init);
      DerivedSnoc(rules, init, init, last, []);
    } else {
      assert Removed(es, i) == Removed(init, i) + [last];
      DerivedRemove(rules, init, i);
      DerivedSnoc(rules, init, Removed(init, i), last, [last]);
    }
  }

  /** Everything still listed came from an element of the list, its uses conserved. */
  lemma {:induction false} DerivedConserves(rules: Rules, was: seq<Element>, now: seq<Element>, e: Element) returns (d: Element)
    requires Derived(rules, was, now) && e in now
    ensures d in was && UsesConserved(d, e)
    decreases |was|
  {
    var init := was[..|was| - 1];
    if Derived(rules, init, now) {
      d := DerivedConserves(rules, init, now, e);
    } else if e == now[|now| - 1] {
      d := was[|was| - 1];
      FromConserves(rules, d, e);
    } else {
      assert now == now[..|now| - 1] + [now[|now| - 1]];
      d := DerivedConserves(rules, init, now[..|now| - 1], e);
    }
  }

  /* ---------- what was left out is named ---------- */

  /** How many elements carry the name. */
  function Named(es: seq<Element>, name: string): nat {
    if es == [] then 0 else Named(es[..|es| - 1], name) + (if es[|es| - 1].name == name then 1 else 0)
  }

  lemma {:induction false} NamedSnoc(es: seq<Element>, e: Element, name: string)
    ensures Named(es + [e], name) == Named(es, name) + (if e.name == name then 1 else 0)
  {
    assert (es + [e])[..|es|] == es;
  }

  lemma {:induction false} NamedConcat(a: seq<Element>, b: seq<Element>, name: string)
    ensures Named(a + b, name) == Named(a, name) + Named(b, name)
  {
    if b == [] {
      assert a + b == a;
    } else {
      NamedConcat(a, b[..|b| - 1], name);
      NamedSnoc(a + b[..|b| - 1], b[|b| - 1], name);
      assert a + b == a + b[..|b| - 1] + [b[|b| - 1]];
    }
  }

  /** A name of which there are fewer elements is named as skipped. */
  ghost predicate Told(was: seq<Element>, now: seq<Element>, skipped: seq<string>) {
    forall name :: ToldOf(was, now, skipped, name)
  }

  ghost predicate ToldOf(was: seq<Element>, now: seq<Element>, skipped: seq<string>, name: string) {
    Named(was, name) > Named(now, name) && name != "" ==> name in skipped
  }

  lemma {:induction false} ToldOn(a: seq<Element>, b: seq<Element>, c: seq<Element>, before: seq<string>, after: seq<string>)
    requires Told(a, b, before) && Told(b, c, after) && before <= after
    ensures Told(a, c, after)
  {
    forall name
      ensures ToldOf(a, c, after, name)
    {
      assert ToldOf(a, b, before, name) && ToldOf(b, c, after, name);
    }
  }

  lemma {:induction false} ToldSelf(es: seq<Element>, skipped: seq<string>)
    ensures Told(es, es, skipped)
  {
  }

  lemma {:induction false} ToldSnoc(was: seq<Element>, now: seq<Element>, d: Element, kept: seq<Element>, before: seq<string>, after: seq<string>)
    requires Told(was, now, before) && before <= after
    requires (kept == [] && (d.name == "" || d.name in after)) || (|kept| == 1 && kept[0].name == d.name)
    ensures Told(was + [d], now + kept, after)
  {
    forall name
      ensures ToldOf(was + [d], now + kept, after, name)
    {
      assert ToldOf(was, now, before, name);
      NamedSnoc(was, d, name);
      if kept == [] {
        assert now + kept == now;
      } else {
        assert now + kept == now + [kept[0]];
        NamedSnoc(now, kept[0], name);
      }
    }
  }

  lemma {:induction false} ToldTake(es: seq<Element>, n: nat, skipped: seq<string>)
    requires n <= |es| && forall i :: n <= i < |es| ==> es[i].name == "" || es[i].name in skipped
    ensures Told(es, es[..n], skipped)
  {
    forall name
      ensures ToldOf(es, es[..n], skipped, name)
    {
      assert es == es[..n] + es[n..];
      NamedConcat(es[..n], es[n..], name);
      NamedOnly(es[n..], name);
    }
  }

  lemma {:induction false} NamedOnly(es: seq<Element>, name: string)
    ensures Named(es, name) > 0 ==> exists i :: 0 <= i < |es| && es[i].name == name
  {
    if es != [] {
      NamedOnly(es[..|es| - 1], name);
    }
  }

  lemma {:induction false} ToldRemove(es: seq<Element>, i: nat, skipped: seq<string>)
    requires i < |es| && (es[i].name == "" || es[i].name in skipped)
    ensures Told(es, Removed(es, i), skipped)
  {
    forall name
      ensures ToldOf(es, Removed(es, i), skipped, name)
    {
      assert es == es[..i] + ([es[i]] + es[i + 1..]);
      NamedConcat(es[..i], [es[i]] + es[i + 1..], name);
      NamedConcat([es[i]], es[i + 1..], name);
      NamedConcat(es[..i], es[i + 1..], name);
      NamedSnoc([], es[i], name);
      assert [] + [es[i]] == [es[i]];
    }
  }

  /* ---------- the account ---------- */

  /** The elements a list of the capability lost, images apart: those are counted. */
  function Lost(was: Lists, now: Lists, c: Cap): int {
    match c
    case CapHelm => Gone(was, now, HelmReleases) + Gone(was, now, GitOpsCharts)
    case CapAPIUsage => Gone(was, now, APIUsages) + Gone(was, now, AuthorshipUnknown)
    case CapCRDs => Gone(was, now, Crds)
    case CapAddOns => Gone(was, now, AddOns)
    case CapVolumes => Gone(was, now, VolumePlugins)
    case CapVersions => Gone(was, now, Nodes) + Gone(was, now, ControlPlane) + Gone(was, now, Namespaces)
    case CapDeprecatedCalls => Gone(was, now, DeprecatedCalls)
  }

  function Gone(was: Lists, now: Lists, l: ListId): int {
    |ListAt(was, l)| - |ListAt(now, l)|
  }

  /** No element has free text that cutting would change. */
  ghost predicate AllCut(es: seq<Element>) {
    forall e :: e in es ==> CutElement(e) == e
  }

  /** What one list may have become, given its capability's repairs. */
  ghost predicate ListAccounted(rules: Rules, l: ListId, was: seq<Element>, now: seq<Element>, cr: Repaired) {
    && Derived(rules, was, now)
    && (now == was || cr.total > 0)
    && (l.UnrecognizedImages? || Told(was, now, cr.skipped))
    && AllCut(now)
  }

  /** Nothing was lost in silence: every list came from what it was, every element
      left out is a repair of its capability and named there, and the images left
      out are counted. */
  ghost predicate Accounted(rules: Rules, was: Lists, wasOmitted: int, now: Lists, omitted: int, repairs: Repairs) {
    && (forall l :: ListAccounted(rules, l, ListAt(was, l), ListAt(now, l), RepairedAt(repairs, CapOf(l))))
    && (forall c :: Lost(was, now, c) <= Total(repairs, c))
    && |ListAt(now, UnrecognizedImages)| + omitted == |ListAt(was, UnrecognizedImages)| + wasOmitted
  }

  /** One list changed, its elements dropped each recorded. */
  ghost predicate Step(rules: Rules, l: ListId, now: seq<Element>, next: seq<Element>, before: Repairs, after: Repairs, n: nat) {
    && Grew(before, after, CapOf(l), n)
    && (next == now || n > 0)
    && Derived(rules, now, next)
    && (l.UnrecognizedImages? || (Told(now, next, SkippedAt(after, CapOf(l))) && |now| - |next| <= n))
    && AllCut(next)
  }

  lemma {:induction false} ListStep(rules: Rules, l: ListId, was: seq<Element>, now: seq<Element>, next: seq<Element>, before: Repairs,
                 after: Repairs, n: nat)
    requires ListAccounted(rules, l, was, now, RepairedAt(before, CapOf(l))) && Step(rules, l, now, next, before, after, n)
    ensures ListAccounted(rules, l, was, next, RepairedAt(after, CapOf(l)))
  {
    DerivedOn(rules, was, now, next);
    if !l.UnrecognizedImages? {
      ToldOn(was, now, next, SkippedAt(before, CapOf(l)), SkippedAt(after, CapOf(l)));
    }
  }

  lemma {:induction false} OtherList(rules: Rules, k: ListId, c: Cap, was: seq<Element>, now: seq<Element>, before: Repairs, after: Repairs, n: nat)
    requires ListAccounted(rules, k, was, now, RepairedAt(before, CapOf(k))) && Grew(before, after, c, n)
    ensures ListAccounted(rules, k, was, now, RepairedAt(after, CapOf(k)))
  {
    if CapOf(k) == c && !k.UnrecognizedImages? {
      ToldSelf(now, SkippedAt(after, c));
      ToldOn(was, now, now, SkippedAt(before, c), SkippedAt(after, c));
    }
  }

  lemma {:induction false} LostElsewhere(was: Lists, now: Lists, l: ListId, next: seq<Element>, c: Cap)
    requires c != CapOf(l)
    ensures Lost(was, now[l := next], c) == Lost(was, now, c)
  {
  }

  lemma {:induction false} LostHere(was: Lists, now: Lists, l: ListId, next: seq<Element>)
    ensures Lost(was, now[l := next], CapOf(l)) ==
            Lost(was, now, CapOf(l)) + (if l.UnrecognizedImages? then 0 else |ListAt(now, l)| - |next|)
  {
  }

  lemma {:induction false} LostStep(was: Lists, now: Lists, l: ListId, next: seq<Element>, before: Repairs, after: Repairs, n: nat, c: Cap)
    requires Lost(was, now, c) <= Total(before, c) && Grew(before, after, CapOf(l), n)
    requires l.UnrecognizedImages? || |ListAt(now, l)| - |next| <= n
    ensures Lost(was, now[l := next], c) <= Total(after, c)
  {
    if c == CapOf(l) {
      LostHere(was, now, l, next);
    } else {
      LostElsewhere(was, now, l, next, c);
      assert RepairedAt(after, c) == RepairedAt(before, c);
    }
  }

  /** A step on one list keeps the account. */
  lemma {:induction false} AccountedOn(rules: Rules, was: Lists, wasOmitted: int, now: Lists, omitted: int, before: Repairs,
                    l: ListId, next: seq<Element>, more: int, after: Repairs, n: nat)
    requires Accounted(rules, was, wasOmitted, now, omitted, before)
    requires Step(rules, l, ListAt(now, l), next, before, after, n)
    requires more == if l.UnrecognizedImages? then |ListAt(now, l)| - |next| else 0
    ensures Accounted(rules, was, wasOmitted, now[l := next], omitted + more, after)
  {
    forall k
      ensures ListAccounted(rules, k, ListAt(was, k), ListAt(now[l := next], k), RepairedAt(after, CapOf(k)))
    {
      assert ListAccounted(rules, k, ListAt(was, k), ListAt(now, k), RepairedAt(before, CapOf(k)));
      if k == l {
        ListStep(rules, l, ListAt(was, l), ListAt(now, l), next, before, after, n);
      } else {
        OtherList(rules, k, CapOf(l), ListAt(was, k), ListAt(now, k), before, after, n);
      }
    }
    forall c
      ensures Lost(was, now[l := next], c) <= Total(after, c)
    {
      LostStep(was, now, l, next, before, after, n, c);
    }
  }

  /** So does a repair that touches no list. */
  lemma {:induction false} AccountedRepair(rules: Rules, was: Lists, wasOmitted: int, now: Lists, omitted: int, before: Repairs,
                        c: Cap, after: Repairs, n: nat)
    requires Accounted(rules, was, wasOmitted, now, omitted, before) && Grew(before, after, c, n)
    ensures Accounted(rules, was, wasOmitted, now, omitted, after)
  {
    forall k
      ensures ListAccounted(rules, k, ListAt(was, k), ListAt(now, k), RepairedAt(after, CapOf(k)))
    {
      assert ListAccounted(rules, k, ListAt(was, k), ListAt(now, k), RepairedAt(before, CapOf(k)));
      OtherList(rules, k, c, ListAt(was, k), ListAt(now, k), before, after, n);
    }
    forall d
      ensures Lost(was, now, d) <= Total(after, d)
    {
      assert Lost(was, now, d) <= Total(before, d);
      assert d != c ==> RepairedAt(after, d) == RepairedAt(before, d);
    }
  }

  lemma {:induction false} AccountedAtFirst(rules: Rules, lists: Lists, omitted: int)
    requires forall l :: AllCut(ListAt(lists, l))
    ensures Accounted(rules, lists, omitted, lists, omitted, map[])
  {
    forall l
      ensures ListAccounted(rules, l, ListAt(lists, l), ListAt(lists, l), RepairedAt(map[], CapOf(l)))
    {
      DerivedSelf(rules, ListAt(lists, l));
      ToldSelf(ListAt(lists, l), []);
    }
  }
}
