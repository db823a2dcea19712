/**
 What a manifest document counts: the YAML walk checked against kubectl's own
 decoder, so that nothing kubectl would send goes unseen (settle and gvkDiff).
 */
module StreamSettle {
  import opened Basics
  import opened Repeats

  datatype Gvk = Gvk(group: string, version: string, kind: string)

  /** An object with where it was read; rest is everything else it carries. */
  datatype Object = Object(gvk: Gvk, line: int, renderedFrom: string, rest: string)

  /** An error or a warning; unassessed is the text of a document not assessed,
      with the kinds kubectl's decoder found in it. */
  datatype DocError = DocError(line: int, message: string, unassessed: Option<string>, named: seq<Gvk>,
                               lists: seq<Gvk>)

  function Kinds(objs: seq<Object>): seq<Gvk> {
    seq(|objs|, i requires 0 <= i < |objs| => objs[i].gvk)
  }

  lemma {:induction false} KindsConcat(a: seq<Object>, b: seq<Object>)
    ensures Kinds(a + b) == Kinds(a) + Kinds(b)
  {
  }

  /* ---------- gvkDiff ---------- */

  type Counts = map<Gvk, int>

  function Count(n: Counts, g: Gvk): int {
    if g in n then n[g] else 0
  }

  /** How many times g occurs. */
  function Times(gs: seq<Gvk>, g: Gvk): int {
    multiset(gs)[g]
  }

  lemma {:induction false} TimesConcat(a: seq<Gvk>, b: seq<Gvk>, g: Gvk)
    ensures Times(a + b, g) == Times(a, g) + Times(b, g)
  {
  }

  lemma {:induction false} TimesNext(gs: seq<Gvk>, i: nat, g: Gvk)
    requires i < |gs|
    ensures Times(gs[..i + 1], g) == Times(gs[..i], g) + (if gs[i] == g then 1 else 0)
  {
    assert gs[..i + 1] == gs[..i] + [gs[i]];
  }

  /** Bumping the i-th kind's count follows one more element of the list. */
  lemma {:induction false} Bump(n: Counts, gs: seq<Gvk>, i: nat, sign: int, g: Gvk)
    requires i < |gs|
    ensures Count(n[gs[i] := Count(n, gs[i]) + sign], g) - sign * Times(gs[..i + 1], g) ==
            Count(n, g) - sign * Times(gs[..i], g)
  {
    TimesNext(gs, i, g);
  }

  /** Counts up one list and down the other. */
  method Tally(kubectl: seq<Gvk>, counted: seq<Gvk>) returns (n: Counts)
    ensures forall g :: Count(n, g) == Times(kubectl, g) - Times(counted, g)
  {
    n := map[];
    for i := 0 to |kubectl|
      invariant forall g :: Count(n, g) == Times(kubectl[..i], g)
    {
      var m := n[kubectl[i] := Count(n, kubectl[i]) + 1];
      forall g
        ensures Count(m, g) == Times(kubectl[..i + 1], g)
      {
        Bump(n, kubectl, i, 1, g);
      }
      n := m;
    }
    assert kubectl[..|kubectl|] == kubectl;
    for i := 0 to |counted|
      invariant forall g :: Count(n, g) == Times(kubectl, g) - Times(counted[..i], g)
    {
      var m := n[counted[i] := Count(n, counted[i]) - 1];
      forall g
        ensures Count(m, g) == Times(kubectl, g) - Times(counted[..i + 1], g)
      {
        Bump(n, counted, i, -1, g);
      }
      n := m;
    }
    assert counted[..|counted|] == counted;
  }

  function Above(x: int): int {
    if x > 0 then x else 0
  }

  method Repeat(g: Gvk, times: int) returns (gs: seq<Gvk>)
    ensures forall x :: Times(gs, x) == if x == g then Above(times) else 0
  {
    gs := [];
    for i := 0 to Above(times)
      invariant forall x :: Times(gs, x) == if x == g then i else 0
    {
      forall x
        ensures Times(gs + [g], x) == Times(gs, x) + (if x == g then 1 else 0)
      {
        TimesConcat(gs, [g], x);
      }
      gs := gs + [g];
    }
  }

  /** The positive counts of the keys done. */
  ghost predicate Lists(gs: seq<Gvk>, n: Counts, done: set<Gvk>, sign: int) {
    forall g :: Times(gs, g) == if g in done then Above(sign * Count(n, g)) else 0
  }

  method ListMore(gs: seq<Gvk>, n: Counts, g: Gvk, sign: int, ghost done: set<Gvk>) returns (r: seq<Gvk>)
    requires Lists(gs, n, done, sign) && g !in done
    ensures Lists(r, n, done + {g}, sign)
  {
    var more := Repeat(g, sign * Count(n, g));
    r := gs + more;
    forall x
      ensures Times(r, x) == if x in done + {g} then Above(sign * Count(n, x)) else 0
    {
      TimesConcat(gs, more, x);
    }
  }

  /** gvkDiff: exactly the two differences of what kubectl sends and what was
      counted, repeats included. */
  method GvkDiff(kubectl: seq<Gvk>, counted: seq<Gvk>) returns (missing: seq<Gvk>, extra: seq<Gvk>)
    ensures multiset(missing) == multiset(kubectl) - multiset(counted)
    ensures multiset(extra) == multiset(counted) - multiset(kubectl)
  {
    var n := Tally(kubectl, counted);
    missing, extra := [], [];
    var todo := n.Keys;
    ghost var done: set<Gvk> := {};
    while todo != {}
      invariant done == n.Keys - todo && todo <= n.Keys
      invariant Lists(missing, n, done, 1) && Lists(extra, n, done, -1)
      decreases todo
    {
      var g :| g in todo;
      missing := ListMore(missing, n, g, 1, done);
      extra := ListMore(extra, n, g, -1, done);
      todo, done := todo - {g}, done + {g};
    }
    DiffsAre(kubectl, counted, n, missing, extra);
  }

  lemma {:induction false} DiffsAre(kubectl: seq<Gvk>, counted: seq<Gvk>, n: Counts, missing: seq<Gvk>, extra: seq<Gvk>)
    requires forall g :: Count(n, g) == Times(kubectl, g) - Times(counted, g)
    requires Lists(missing, n, n.Keys, 1) && Lists(extra, n, n.Keys, -1)
    ensures multiset(missing) == multiset(kubectl) - multiset(counted)
    ensures multiset(extra) == multiset(counted) - multiset(kubectl)
  {
    forall g
      ensures multiset(missing)[g] == (multiset(kubectl) - multiset(counted))[g]
      ensures multiset(extra)[g] == (multiset(counted) - multiset(kubectl))[g]
    {
      assert Times(missing, g) == Above(Count(n, g)) && Times(extra, g) == Above(-Count(n, g));
    }
  }

  /* ---------- settle ---------- */

  /** The YAML walk of a document: its objects and warnings, or its refusal. */
  datatype Walked = Walked(objs: seq<Object>, warnings: seq<DocError>, refusal: Option<string>)

  /** One document: the walk, when yaml.v3 read it, or what stopped it; and what
      kubectl's decoder found, or why it could not read it. */
  datatype Doc = Doc(root: Option<Walked>, yamlErr: string, text: string, first: int, renderedFrom: string,
                     kubectl: seq<Object>, kubectlErr: Option<string>)

  /** A decoder that fails gives no objects. */
  ghost predicate Decoded(d: Doc) {
    d.kubectlErr.Some? ==> d.kubectl == []
  }

  /** kubectl's objects, placed at the document's first line. */
  function AtFirst(d: Doc): seq<Object> {
    seq(|d.kubectl|, i requires 0 <= i < |d.kubectl| => d.kubectl[i].(line := d.first, renderedFrom := d.renderedFrom))
  }

  ghost predicate Covers(kinds: seq<Gvk>, sent: seq<Gvk>) {
    multiset(sent) <= multiset(kinds)
  }

  /** The walk read the document, and all that kubectl sends of it. */
  ghost predicate WalkStands(d: Doc) {
    d.root.Some? && d.root.value.refusal.None? && Covers(Kinds(d.root.value.objs), Kinds(d.kubectl))
  }

  /** Only kubectl's decoder read all of it. */
  ghost predicate KubectlStands(d: Doc) {
    && d.kubectlErr.None?
    && (d.root.None? || (d.root.value.refusal.None? && !Covers(Kinds(d.root.value.objs), Kinds(d.kubectl))))
  }

  /** What the document adds: counted objects, the add-on evidence of what kubectl sends
      of them, and errors or warnings. */
  datatype Ruling = Ruling(objs: seq<Object>, evidence: seq<Object>, bad: seq<DocError>)

  /** The walk and kubectl's decoder do not read the same of the document. */
  ghost predicate Doubtful(d: Doc) {
    || d.root.None? || d.root.value.refusal.Some?
    || (d.kubectlErr.Some? && d.root.value.objs != [])
    || (d.kubectlErr.None? && multiset(Kinds(d.root.value.objs)) != multiset(Kinds(d.kubectl)))
  }

  /** What is said of a doubtful document, at its first line: its text when it is not
      assessed, with the kinds kubectl finds in it; else the kinds the walk missed, or
      those it counts beyond what kubectl sends. */
  ghost predicate SaidOf(d: Doc, e: DocError) {
    && e.line == d.first
    && e.unassessed == (if WalkStands(d) || KubectlStands(d) then None else Some(d.text))
    && e.named == (if WalkStands(d) || KubectlStands(d) then [] else Kinds(d.kubectl))
    && (d.root.None? ==> e.message == d.yamlErr && e.lists == [])
    && (d.root.Some? && d.root.value.refusal.Some? ==> e.message == d.root.value.refusal.value && e.lists == [])
    && (WalkStands(d) && d.kubectlErr.Some? ==> e.message == d.kubectlErr.value && e.lists == [])
    && (WalkStands(d) && d.kubectlErr.None? ==>
          e.message == EXTRA && multiset(e.lists) == multiset(Kinds(d.root.value.objs)) - multiset(Kinds(d.kubectl)))
    && (d.root.Some? && KubectlStands(d) ==>
          e.message == MISSED && multiset(e.lists) == multiset(Kinds(d.kubectl)) - multiset(Kinds(d.root.value.objs)))
  }

  /** The walk's warnings, kept unless kubectl's reading is counted in its place. */
  ghost function Kept(d: Doc): seq<DocError> {
    if d.root.None? || KubectlStands(d) then [] else d.root.value.warnings
  }

  /** A doubtful document is said to be, once; the walk's warnings follow, or lead where
      it refuses the document. */
  ghost predicate BadOf(d: Doc, bad: seq<DocError>) {
    if !Doubtful(d) then bad == Kept(d)
    else exists e :: SaidOf(d, e) && bad == if WalkStands(d) then [e] + Kept(d) else Kept(d) + [e]
  }

  /** The walk's objects are counted where they stand for all kubectl sends, else
      kubectl's where it reads them, else none; evidence is kubectl's, of what is counted. */
  ghost predicate Rules(d: Doc, r: Ruling) {
    && r.objs == (if WalkStands(d) then d.root.value.objs else if KubectlStands(d) then AtFirst(d) else [])
    && r.evidence == (if WalkStands(d) || KubectlStands(d) then d.kubectl else [])
    && BadOf(d, r.bad)
  }

  const MISSED := "which reading the YAML did not find"
  const EXTRA := "which kubectl's decoder does not send"

  lemma {:induction false} NoneMissing(a: multiset<Gvk>, b: multiset<Gvk>, missing: seq<Gvk>)
    requires multiset(missing) == a - b
    ensures |missing| == 0 <==> a <= b
  {
    if a <= b {
      assert a - b == multiset{};
      assert |multiset(missing)| == 0;
    } else {
      var g :| a[g] > b[g];
      assert multiset(missing)[g] > 0;
    }
  }

  lemma {:induction false} SameBothWays(a: multiset<Gvk>, b: multiset<Gvk>)
    ensures a == b <==> a <= b && b <= a
  {
    if a <= b && b <= a {
      forall g
        ensures a[g] == b[g]
      {
      }
    }
  }

  /** A document both read: the walk's objects, unless kubectl sends more. */
  method Compare(d: Doc) returns (r: Ruling)
    requires d.root.Some? && d.root.value.refusal.None? && d.kubectlErr.None?
    ensures Rules(d, r)
  {
    var walk := d.root.value;
    var missing, extra := GvkDiff(Kinds(d.kubectl), Kinds(walk.objs));
    NoneMissing(multiset(Kinds(d.kubectl)), multiset(Kinds(walk.objs)), missing);
    NoneMissing(multiset(Kinds(walk.objs)), multiset(Kinds(d.kubectl)), extra);
    SameBothWays(multiset(Kinds(walk.objs)), multiset(Kinds(d.kubectl)));
    if |missing| > 0 {
      var e := DocError(d.first, MISSED, None, [], missing);
      assert SaidOf(d, e) && Kept(d) + [e] == [e];
      return Ruling(AtFirst(d), d.kubectl, [e]);
    }
    if |extra| > 0 {
      var e := DocError(d.first, EXTRA, None, [], extra);
      assert SaidOf(d, e);
      return Ruling(walk.objs, d.kubectl, [e] + walk.warnings);
    }
    return Ruling(walk.objs, d.kubectl, walk.warnings);
  }

  /** settle, on one document. */
  method Judge(d: Doc) returns (r: Ruling)
    requires Decoded(d)
    ensures Rules(d, r)
  {
    if d.root.None? {
      var e := DocError(d.first, d.yamlErr, if d.kubectlErr.Some? then Some(d.text) else None, [], []);
      assert SaidOf(d, e) && Kept(d) + [e] == [e];
      return Ruling(if d.kubectlErr.Some? then [] else AtFirst(d), d.kubectl, [e]);
    }
    var walk := d.root.value;
    if walk.refusal.Some? {
      var e := DocError(d.first, walk.refusal.value, Some(d.text), Kinds(d.kubectl), []);
      assert SaidOf(d, e);
      return Ruling([], [], walk.warnings + [e]);
    }
    if d.kubectlErr.Some? {
      var e := DocError(d.first, d.kubectlErr.value, None, [], []);
      assert SaidOf(d, e);
      return Ruling(walk.objs, [], (if |walk.objs| > 0 then [e] else []) + walk.warnings);
    }
    r := Compare(d);
  }

  /** The kinds named with unassessed text. */
  function NamedKinds(bad: seq<DocError>): seq<Gvk> {
    FlatMap(NamedBy, bad)
  }

  function NamedBy(e: DocError): seq<Gvk> {
    if e.unassessed.Some? then e.named else []
  }

  lemma {:induction false} NamedHas(bad: seq<DocError>, e: DocError)
    requires e in bad
    ensures multiset(NamedBy(e)) <= multiset(NamedKinds(bad))
  {
    if e != bad[|bad| - 1] {
      NamedHas(bad[..|bad| - 1], e);
    }
  }

  /** The kinds that are counted or named. */
  function Shown(objs: seq<Object>, bad: seq<DocError>): multiset<Gvk> {
    multiset(Kinds(objs)) + multiset(NamedKinds(bad))
  }

  /** Everything kubectl sends of a document is counted, or named with its text. */
  lemma {:induction false} NothingUnseen(d: Doc, r: Ruling)
    requires Decoded(d) && Rules(d, r)
    ensures multiset(Kinds(d.kubectl)) <= Shown(r.objs, r.bad)
  {
    if !WalkStands(d) && KubectlStands(d) {
      assert Kinds(AtFirst(d)) == Kinds(d.kubectl);
    } else if !WalkStands(d) {
      var e :| SaidOf(d, e) && r.bad == Kept(d) + [e];
      NamedHas(r.bad, e);
    }
  }

  function SentBy(d: Doc): seq<Gvk> {
    Kinds(d.kubectl)
  }

  /** Everything kubectl sends of some documents. */
  function Sent(docs: seq<Doc>): multiset<Gvk> {
    multiset(FlatMap(SentBy, docs))
  }

  function ObjsOf(r: Ruling): seq<Object> {
    r.objs
  }

  function EvidenceOf(r: Ruling): seq<Object> {
    r.evidence
  }

  function BadFrom(r: Ruling): seq<DocError> {
    r.bad
  }

  ghost predicate RulesAll(docs: seq<Doc>, rulings: seq<Ruling>) {
    |rulings| == |docs| && forall i :: 0 <= i < |docs| ==> Rules(docs[i], rulings[i])
  }

  lemma {:induction false} RulesSnoc(docs: seq<Doc>, rulings: seq<Ruling>, d: Doc, r: Ruling)
    requires RulesAll(docs, rulings) && Rules(d, r)
    ensures RulesAll(docs + [d], rulings + [r])
  {
    forall i | 0 <= i < |docs + [d]|
      ensures Rules((docs + [d])[i], (rulings + [r])[i])
    {
      assert i < |docs| ==> Rules(docs[i], rulings[i]);
    }
  }

  lemma {:induction false} RulesInit(docs: seq<Doc>, rulings: seq<Ruling>)
    requires RulesAll(docs, rulings) && docs != []
    ensures RulesAll(docs[..|docs| - 1], rulings[..|docs| - 1]) && Rules(docs[|docs| - 1], rulings[|docs| - 1])
  {
    var some, those := docs[..|docs| - 1], rulings[..|docs| - 1];
    forall i | 0 <= i < |some|
      ensures Rules(some[i], those[i])
    {
      assert Rules(docs[i], rulings[i]);
    }
  }

  lemma {:induction false} ShownConcat(objs: seq<Object>, bad: seq<DocError>, r: Ruling)
    ensures Shown(objs + r.objs, bad + r.bad) == Shown(objs, bad) + Shown(r.objs, r.bad)
  {
    KindsConcat(objs, r.objs);
    FlatMapConcat(NamedBy, bad, r.bad);
  }

  lemma {:induction false} Within(a: multiset<Gvk>, b: multiset<Gvk>, c: multiset<Gvk>, d: multiset<Gvk>)
    requires a <= b && c <= d
    ensures a + c <= b + d
  {
  }

  /** Everything kubectl would send, repeats included, is among the kinds counted and the
      kinds named as unassessed. */
  lemma {:induction false} NothingUnseenInAll(docs: seq<Doc>, rulings: seq<Ruling>)
    requires RulesAll(docs, rulings) && forall d :: d in docs ==> Decoded(d)
    ensures Sent(docs) <= Shown(FlatMap(ObjsOf, rulings), FlatMap(BadFrom, rulings))
  {
    if docs != [] {
      var n := |docs| - 1;
      RulesInit(docs, rulings);
      NothingUnseenInAll(docs[..n], rulings[..n]);
      NothingUnseen(docs[n], rulings[n]);
      ShownConcat(FlatMap(ObjsOf, rulings[..n]), FlatMap(BadFrom, rulings[..n]), rulings[n]);
      Within(Sent(docs[..n]), Shown(FlatMap(ObjsOf, rulings[..n]), FlatMap(BadFrom, rulings[..n])),
             multiset(Kinds(docs[n].kubectl)), Shown(rulings[n].objs, rulings[n].bad));
    }
  }

  class Parser {
    var objs: seq<Object>
    var evidence: seq<Object>
    var bad: seq<DocError>
    ghost var docs: seq<Doc>
    ghost var rulings: seq<Ruling>

    /** What the stream adds up to is what its documents add, in order. */
    ghost predicate Valid()
      reads this
    {
      && RulesAll(docs, rulings) && (forall d :: d in docs ==> Decoded(d))
      && objs == FlatMap(ObjsOf, rulings) && evidence == FlatMap(EvidenceOf, rulings) && bad == FlatMap(BadFrom, rulings)
    }

    constructor ()
      ensures Valid() && docs == []
    {
      objs, evidence, bad, docs, rulings := [], [], [], [], [];
    }

    /** settle: what one document adds to the stream's. */
    method Settle(d: Doc)
      requires Valid() && Decoded(d)
      modifies this
      ensures Valid() && docs == old(docs) + [d] && |rulings| > 0 && rulings[..|rulings| - 1] == old(rulings)
    {
      var r := Judge(d);
      FlatMapSnoc(ObjsOf, rulings, r);
      FlatMapSnoc(EvidenceOf, rulings, r);
      FlatMapSnoc(BadFrom, rulings, r);
      RulesSnoc(docs, rulings, d, r);
      objs, evidence, bad := objs + r.objs, evidence + r.evidence, bad + r.bad;
      docs, rulings := docs + [d], rulings + [r];
    }
  }

  /** A whole stream: what each document adds, in order. */
  method SettleAll(docs: seq<Doc>)
    returns (objs: seq<Object>, evidence: seq<Object>, bad: seq<DocError>, ghost rulings: seq<Ruling>)
    requires forall d :: d in docs ==> Decoded(d)
    ensures RulesAll(docs, rulings)
    ensures objs == FlatMap(ObjsOf, rulings) && evidence == FlatMap(EvidenceOf, rulings) && bad == FlatMap(BadFrom, rulings)
    ensures Sent(docs) <= Shown(objs, bad)
  {
    var p := new Parser();
    for i := 0 to |docs|
      invariant p.Valid() && p.docs == docs[..i]
    {
      SliceNext(docs, i);
      p.Settle(docs[i]);
    }
    Whole(docs);
    NothingUnseenInAll(docs, p.rulings);
    return p.objs, p.evidence, p.bad, p.rulings;
  }
}
