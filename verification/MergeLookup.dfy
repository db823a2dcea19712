/**
 Looking a key up in a YAML mapping through merge keys (objectReader.lookup and
 merge).  The reader memoises what merged nodes hold, marking a node before it
 is read so that a merge cycle ends; the rule it stands for has no memo.
 */
module YamlGraph {

  /** A YAML node graph: nodes refer to each other by index, through aliases too. */
  datatype Node =
    | Scalar(tag: string, value: string)
    | Mapping(entries: seq<(nat, nat)>)
    | Sequence(items: seq<nat>)
    | Alias(target: nat)
    | Other

  datatype Graph = Graph(nodes: seq<Node>, base64: string -> string) {
    /** References stay in the graph, and an alias names an anchored node, never an alias. */
    ghost predicate Valid() {
      forall v :: 0 <= v < |nodes| ==>
        match nodes[v]
        case Mapping(es) => forall i :: 0 <= i < |es| ==> es[i].0 < |nodes| && es[i].1 < |nodes|
        case Sequence(xs) => forall i :: 0 <= i < |xs| ==> xs[i] < |nodes|
        case Alias(t) => t < |nodes| && !nodes[t].Alias?
        case _ => true
    }

    function Deref(v: nat): (r: nat)
      requires Valid() && v < |nodes|
      ensures r < |nodes| && !nodes[r].Alias?
    {
      if nodes[v].Alias? then nodes[v].target else v
    }

    /** A non-null scalar's value, through an alias, a binary one decoded; anything else is "". */
    function ScalarText(v: nat): string
      requires Valid() && v < |nodes|
    {
      match nodes[Deref(v)]
      case Scalar(tag, value) => if tag == "!!null" then "" else if tag == "!!binary" then base64(value) else value
      case _ => ""
    }

    /** A plain "<<", not an alias of one. */
    predicate IsMergeKey(v: nat)
      requires v < |nodes|
    {
      nodes[v] == Scalar("!!merge", "<<")
    }
  }

  /** A mapping entry found, or none. */
  datatype Hit = NoHit | Hit(key: nat, value: nat, merged: bool)

  datatype Result = Found(hit: Hit) | NotMappings | NotMergeable

  /** What merged nodes hold for a name, once read; marked with no hit while being read. */
  type Memo = map<(nat, string), Hit>
}

/**
 What a memoised lookup reaches: every node merged, directly or not, is read
 once, cycles or not.
 */
module MergeReach {
  import opened YamlGraph

  /** Reading v reads w: an entry of mapping v merges it, or it is a mapping of sequence v. */
  ghost predicate ReadsAt(g: Graph, v: nat, i: nat, w: nat)
    requires g.Valid()
  {
    v < |g.nodes| &&
    match g.nodes[v]
    case Mapping(es) => i < |es| && g.IsMergeKey(es[i].0) && g.Deref(es[i].1) == w
    case Sequence(xs) => i < |xs| && g.Deref(xs[i]) == w && g.nodes[w].Mapping?
    case _ => false
  }

  ghost predicate ClosedSet(g: Graph, s: set<nat>)
    requires g.Valid()
  {
    forall v: nat, i: nat, w: nat :: v in s && ReadsAt(g, v, i, w) ==> w in s
  }

  /** u is in every set of nodes that holds v and whatever its nodes read. */
  ghost predicate Reaches(g: Graph, v: nat, u: nat)
    requires g.Valid()
  {
    forall s: set<nat> :: v in s && ClosedSet(g, s) ==> u in s
  }

  lemma {:induction false} ReachesOn(g: Graph, v: nat, i: nat, w: nat, u: nat)
    requires g.Valid() && ReadsAt(g, v, i, w) && Reaches(g, w, u)
    ensures Reaches(g, v, u)
  {
    forall s: set<nat> | v in s && ClosedSet(g, s)
      ensures u in s
    {
      assert w in s;
    }
  }

  /** The i-th entry of mapping u is name's, not merged. */
  ghost predicate EntryAt(g: Graph, u: nat, i: nat, name: string)
    requires g.Valid()
  {
    && u < |g.nodes| && g.nodes[u].Mapping? && i < |g.nodes[u].entries|
    && !g.IsMergeKey(g.nodes[u].entries[i].0) && g.ScalarText(g.nodes[u].entries[i].0) == name
  }

  ghost predicate Owns(g: Graph, u: nat, name: string)
    requires g.Valid()
  {
    exists i: nat :: EntryAt(g, u, i, name)
  }

  /** Something is merged that cannot be: neither a mapping nor a sequence, or a
      sequence of something else than mappings. */
  ghost predicate Faulty(g: Graph, v: nat)
    requires g.Valid() && v < |g.nodes|
  {
    match g.nodes[v]
    case Mapping(_) => false
    case Sequence(xs) => exists i :: 0 <= i < |xs| && !g.nodes[g.Deref(xs[i])].Mapping?
    case _ => true
  }

  ghost predicate FaultBelow(g: Graph, v: nat)
    requires g.Valid()
  {
    exists u: nat :: u < |g.nodes| && Faulty(g, u) && Reaches(g, v, u)
  }

  /** The error says what was merged: a sequence of something else than mappings, or
      neither a mapping nor a sequence. */
  ghost predicate ErrorBelow(g: Graph, v: nat, r: Result)
    requires g.Valid()
  {
    exists u: nat ::
      && u < |g.nodes| && Faulty(g, u) && Reaches(g, v, u)
      && r == if g.nodes[u].Sequence? then NotMappings else NotMergeable
  }

  ghost predicate OwnerBelow(g: Graph, v: nat, name: string)
    requires g.Valid()
  {
    exists u: nat :: Owns(g, u, name) && Reaches(g, v, u)
  }

  /** The entry found is name's own in a mapping v reaches. */
  ghost predicate FromBelow(g: Graph, v: nat, name: string, h: Hit)
    requires g.Valid() && h.Hit?
  {
    exists u: nat, i: nat :: Reaches(g, v, u) && EntryAt(g, u, i, name) && g.nodes[u].entries[i] == (h.key, h.value)
  }

  lemma {:induction false} FromOwn(g: Graph, v: nat, i: nat, name: string, h: Hit)
    requires g.Valid() && EntryAt(g, v, i, name) && h.Hit? && g.nodes[v].entries[i] == (h.key, h.value)
    ensures FromBelow(g, v, name, h)
  {
    assert Reaches(g, v, v);
  }

  lemma {:induction false} FromOn(g: Graph, v: nat, i: nat, w: nat, name: string, h: Hit, h': Hit)
    requires g.Valid() && ReadsAt(g, v, i, w) && h.Hit? && FromBelow(g, w, name, h)
    requires h'.Hit? && h'.key == h.key && h'.value == h.value
    ensures FromBelow(g, v, name, h')
  {
    var u: nat, j: nat :| Reaches(g, w, u) && EntryAt(g, u, j, name) && g.nodes[u].entries[j] == (h.key, h.value);
    ReachesOn(g, v, i, w, u);
  }

  lemma {:induction false} ErrorOn(g: Graph, v: nat, i: nat, w: nat, r: Result)
    requires g.Valid() && ReadsAt(g, v, i, w) && ErrorBelow(g, w, r)
    ensures ErrorBelow(g, v, r)
  {
    var u: nat :| u < |g.nodes| && Faulty(g, u) && Reaches(g, w, u) && r == if g.nodes[u].Sequence? then NotMappings else NotMergeable;
    ReachesOn(g, v, i, w, u);
  }

  lemma {:induction false} ErrorHere(g: Graph, v: nat)
    requires g.Valid() && v < |g.nodes| && Faulty(g, v)
    ensures ErrorBelow(g, v, if g.nodes[v].Sequence? then NotMappings else NotMergeable)
  {
    assert Reaches(g, v, v);
  }

  /** What is found of mapping m is marked as merged exactly when an entry of m merges
      it; else it is an entry of m itself. */
  ghost predicate Placed(g: Graph, m: nat, name: string, h: Hit)
    requires g.Valid()
  {
    if h.NoHit? then true
    else if h.merged then exists i: nat, w: nat :: ReadsAt(g, m, i, w) && FromBelow(g, w, name, h)
    else exists i: nat :: EntryAt(g, m, i, name) && g.nodes[m].entries[i] == (h.key, h.value)
  }

  lemma {:induction false} PlacedOwn(g: Graph, m: nat, i: nat, name: string, h: Hit)
    requires g.Valid() && EntryAt(g, m, i, name) && h.Hit? && !h.merged && g.nodes[m].entries[i] == (h.key, h.value)
    ensures Placed(g, m, name, h)
  {
  }

  lemma {:induction false} PlacedMerge(g: Graph, m: nat, i: nat, w: nat, name: string, mh: Hit)
    requires g.Valid() && ReadsAt(g, m, i, w) && mh.Hit? && FromBelow(g, w, name, mh)
    ensures Placed(g, m, name, Hit(mh.key, mh.value, true))
  {
    assert FromBelow(g, w, name, Hit(mh.key, mh.value, true));
  }

  /* ---------- what is in the memo ---------- */

  ghost predicate Extends(a: Memo, b: Memo) {
    forall k :: k in a ==> k in b
  }

  /** None of the nodes read between two states of the memo has the name. */
  ghost predicate Quiet(g: Graph, a: Memo, b: Memo, name: string)
    requires g.Valid()
  {
    forall v: nat :: (v, name) in b && (v, name) !in a ==> !Owns(g, v, name)
  }

  /** Everything v reads was read, and could be. */
  ghost predicate AllRead(g: Graph, memo: Memo, v: nat, name: string)
    requires g.Valid()
  {
    v < |g.nodes| && !Faulty(g, v) && forall i: nat, w: nat :: ReadsAt(g, v, i, w) ==> (w, name) in memo
  }

  /** A node that is read, and no longer being read, has had all it reads read. */
  ghost predicate Tidy(g: Graph, memo: Memo, busy: set<nat>, name: string)
    requires g.Valid()
  {
    && (forall k :: k in memo && !(k.1 == name && k.0 in busy) ==> AllRead(g, memo, k.0, k.1))
    && (forall k :: k in memo && memo[k].Hit? ==> FromBelow(g, k.0, k.1, memo[k]))
  }

  /** Positions lo to hi of v are read, with h found so far. */
  ghost predicate SoFar(g: Graph, a: Memo, b: Memo, v: nat, lo: nat, hi: nat, name: string, h: Hit)
    requires g.Valid()
  {
    && Extends(a, b)
    && (forall i: nat, w: nat :: lo <= i < hi && ReadsAt(g, v, i, w) ==> (w, name) in b)
    && (h.Hit? ==> FromBelow(g, v, name, h))
    && (h.NoHit? ==> Quiet(g, a, b, name) && forall i: nat :: lo <= i < hi ==> !EntryAt(g, v, i, name))
  }

  /** The mapping or sequence v is read. */
  ghost predicate ReadWhole(g: Graph, a: Memo, b: Memo, v: nat, name: string, h: Hit)
    requires g.Valid()
  {
    && Extends(a, b) && AllRead(g, b, v, name)
    && (h.Hit? ==> FromBelow(g, v, name, h))
    && (h.NoHit? ==> Quiet(g, a, b, name) && !Owns(g, v, name))
  }

  /** Node v is merged. */
  ghost predicate MergedNode(g: Graph, a: Memo, b: Memo, v: nat, name: string, h: Hit)
    requires g.Valid()
  {
    && Extends(a, b) && (v, name) in b
    && (h.Hit? ==> FromBelow(g, v, name, h))
    && (h.NoHit? ==> Quiet(g, a, b, name))
  }

  lemma {:induction false} SoFarStart(g: Graph, a: Memo, v: nat, lo: nat, name: string)
    requires g.Valid()
    ensures SoFar(g, a, a, v, lo, lo, name, NoHit)
  {
  }

  lemma {:induction false} QuietOn(g: Graph, a: Memo, b: Memo, c: Memo, name: string)
    requires g.Valid() && Quiet(g, a, b, name) && Quiet(g, b, c, name)
    ensures Quiet(g, a, c, name)
  {
  }

  ghost predicate Next(lo: nat, hi: nat, i: nat, lo': nat, hi': nat) {
    (i == hi && lo' == lo && hi' == hi + 1) || (lo == i + 1 && lo' == i && hi' == hi)
  }

  /** One more position: what it reads is merged. */
  lemma {:induction false} SoFarMerge(g: Graph, a: Memo, b: Memo, c: Memo, v: nat, lo: nat, hi: nat, name: string, h: Hit,
                   i: nat, w: nat, mh: Hit, h': Hit, lo': nat, hi': nat)
    requires g.Valid() && SoFar(g, a, b, v, lo, hi, name, h) && ReadsAt(g, v, i, w) && MergedNode(g, b, c, w, name, mh)
    requires Next(lo, hi, i, lo', hi')
    requires if mh.Hit? then h'.Hit? && h'.key == mh.key && h'.value == mh.value else h' == h
    ensures SoFar(g, a, c, v, lo', hi', name, h')
  {
    if mh.Hit? {
      FromOn(g, v, i, w, name, mh, h');
    } else if h.NoHit? {
      QuietOn(g, a, b, c, name);
    }
  }

  /** One more position: an entry of its own. */
  lemma {:induction false} SoFarEntry(g: Graph, a: Memo, b: Memo, v: nat, i: nat, name: string, h: Hit, h': Hit)
    requires g.Valid() && SoFar(g, a, b, v, 0, i, name, h) && v < |g.nodes| && g.nodes[v].Mapping?
    requires i < |g.nodes[v].entries| && !g.IsMergeKey(g.nodes[v].entries[i].0)
    requires var e := g.nodes[v].entries[i]; h' == if g.ScalarText(e.0) == name then Hit(e.0, e.1, false) else h
    ensures SoFar(g, a, b, v, 0, i + 1, name, h')
  {
    if g.ScalarText(g.nodes[v].entries[i].0) == name {
      FromOwn(g, v, i, name, h');
    }
  }

  lemma {:induction false} MappingRead(g: Graph, a: Memo, b: Memo, v: nat, name: string, h: Hit)
    requires g.Valid() && v < |g.nodes| && g.nodes[v].Mapping?
    requires SoFar(g, a, b, v, 0, |g.nodes[v].entries|, name, h)
    ensures ReadWhole(g, a, b, v, name, h)
  {
  }

  /** The items of sequence v from n on are mappings. */
  ghost predicate MappingsFrom(g: Graph, v: nat, n: nat)
    requires g.Valid() && v < |g.nodes| && g.nodes[v].Sequence?
  {
    forall i :: n <= i < |g.nodes[v].items| ==> g.nodes[g.Deref(g.nodes[v].items[i])].Mapping?
  }

  lemma {:induction false} SequenceRead(g: Graph, a: Memo, b: Memo, v: nat, name: string, h: Hit)
    requires g.Valid() && v < |g.nodes| && g.nodes[v].Sequence? && MappingsFrom(g, v, 0)
    requires SoFar(g, a, b, v, 0, |g.nodes[v].items|, name, h)
    ensures ReadWhole(g, a, b, v, name, h)
  {
  }

  lemma {:induction false} TidyMark(g: Graph, memo: Memo, busy: set<nat>, name: string, v: nat)
    requires g.Valid() && Tidy(g, memo, busy, name) && (v, name) !in memo
    ensures Tidy(g, memo[(v, name) := NoHit], busy + {v}, name)
  {
    var marked := memo[(v, name) := NoHit];
    forall k | k in marked && !(k.1 == name && k.0 in busy + {v})
      ensures AllRead(g, marked, k.0, k.1)
    {
      assert AllRead(g, memo, k.0, k.1);
    }
  }

  lemma {:induction false} TidySettle(g: Graph, memo: Memo, busy: set<nat>, name: string, v: nat, h: Hit)
    requires g.Valid() && Tidy(g, memo, busy + {v}, name) && AllRead(g, memo, v, name)
    requires h.Hit? ==> FromBelow(g, v, name, h)
    ensures Tidy(g, memo[(v, name) := h], busy, name)
  {
    var settled := memo[(v, name) := h];
    forall k | k in settled && !(k.1 == name && k.0 in busy)
      ensures AllRead(g, settled, k.0, k.1)
    {
      assert k != (v, name) ==> AllRead(g, memo, k.0, k.1);
    }
  }

  lemma {:induction false} NodeMerged(g: Graph, a: Memo, b: Memo, v: nat, name: string, h: Hit)
    requires g.Valid() && (v, name) !in a && ReadWhole(g, a[(v, name) := NoHit], b, v, name, h)
    ensures MergedNode(g, a, b[(v, name) := h], v, name, h)
  {
    assert forall k :: k in a ==> k in a[(v, name) := NoHit];
  }

  /** Read from a memo without the name, what m reaches is what was read: it is
      found exactly when some mapping reached has it, and nothing is at fault. */
  lemma {:induction false} FreshRead(g: Graph, a: Memo, b: Memo, m: nat, name: string, h: Hit)
    requires g.Valid() && ReadWhole(g, a, b, m, name, h) && Tidy(g, b, {}, name)
    requires forall v: nat :: (v, name) !in a
    ensures !FaultBelow(g, m) && (h.Hit? <==> OwnerBelow(g, m, name))
  {
    var s := set v: nat | v < |g.nodes| && (v == m || (v, name) in b);
    forall v: nat | (v, name) in b
      ensures AllRead(g, b, v, name)
    {
      var k := (v, name);
      assert k in b && AllRead(g, b, k.0, k.1);
    }
    forall v: nat, i: nat, w: nat | v in s && ReadsAt(g, v, i, w)
      ensures w in s
    {
      assert AllRead(g, b, v, name);
      assert (w, name) in b;
    }
    assert ClosedSet(g, s) && m in s;
    assert forall u: nat :: Reaches(g, m, u) ==> u in s && AllRead(g, b, u, name);
    if h.Hit? {
      var u: nat, i: nat :| Reaches(g, m, u) && EntryAt(g, u, i, name) && g.nodes[u].entries[i] == (h.key, h.value);
      assert Owns(g, u, name);
    }
  }
}

module MergeLookup {
  import opened Basics
  import opened YamlGraph
  import opened MergeReach

  /* ---------- the rule without a memo, for runs of at most `fuel` nested merges ---------- */

  /** Entries apply in order, from the i-th on, h being what the earlier ones gave. */
  function PlainEntries(g: Graph, es: seq<(nat, nat)>, i: nat, h: Hit, name: string, fuel: nat): Option<Result>
    requires g.Valid() && i <= |es| && forall k :: 0 <= k < |es| ==> es[k].0 < |g.nodes| && es[k].1 < |g.nodes|
    decreases fuel, 1, |es| - i
  {
    if i == |es| then Some(Found(h))
    else if g.IsMergeKey(es[i].0) then
      match PlainMerge(g, g.Deref(es[i].1), name, fuel)
      case None => None
      case Some(Found(mh)) =>
        PlainEntries(g, es, i + 1, if mh.Hit? then Hit(mh.key, mh.value, true) else h, name, fuel)
      case Some(e) => Some(e)
    else
      PlainEntries(g, es, i + 1, if g.ScalarText(es[i].0) == name then Hit(es[i].0, es[i].1, false) else h, name, fuel)
  }

  /** What the mapping or sequence v of a merge key brings in for name. */
  function PlainMerge(g: Graph, v: nat, name: string, fuel: nat): Option<Result>
    requires g.Valid() && v < |g.nodes|
    decreases fuel, 0
  {
    if fuel == 0 then None
    else
      match g.nodes[v]
      case Mapping(es) => PlainEntries(g, es, 0, NoHit, name, fuel - 1)
      case Sequence(xs) => PlainItems(g, xs, |xs|, NoHit, name, fuel - 1)
      case _ => Some(NotMergeable)
  }

  /** The first n mappings of a merged sequence, read last to first. */
  function PlainItems(g: Graph, xs: seq<nat>, n: nat, h: Hit, name: string, fuel: nat): Option<Result>
    requires g.Valid() && n <= |xs| && forall k :: 0 <= k < |xs| ==> xs[k] < |g.nodes|
    decreases fuel, 1, n
  {
    if n == 0 then Some(Found(h))
    else if !g.nodes[g.Deref(xs[n - 1])].Mapping? then Some(NotMappings)
    else
      match PlainMerge(g, g.Deref(xs[n - 1]), name, fuel)
      case None => None
      case Some(Found(mh)) => PlainItems(g, xs, n - 1, if mh.Hit? then mh else h, name, fuel)
      case Some(e) => Some(e)
  }

  function PlainLookup(g: Graph, m: nat, name: string, fuel: nat): Option<Result>
    requires g.Valid() && m < |g.nodes| && g.nodes[m].Mapping?
  {
    PlainEntries(g, g.nodes[m].entries, 0, NoHit, name, fuel)
  }

  /* ---------- what the rule says ---------- */

  /** The entry es[k] brings in for name. */
  function Brought(g: Graph, es: seq<(nat, nat)>, k: nat, name: string, fuel: nat): Hit
    requires g.Valid() && k < |es| && forall j :: 0 <= j < |es| ==> es[j].0 < |g.nodes| && es[j].1 < |g.nodes|
  {
    if g.IsMergeKey(es[k].0) then
      match PlainMerge(g, g.Deref(es[k].1), name, fuel)
      case Some(Found(Hit(key, value, _))) => Hit(key, value, true)
      case _ => NoHit
    else if g.ScalarText(es[k].0) == name then Hit(es[k].0, es[k].1, false)
    else NoHit
  }

  /** A later entry of a mapping wins, merged keys included. */
  lemma {:induction false} LaterEntryWins(g: Graph, es: seq<(nat, nat)>, i: nat, h: Hit, name: string, fuel: nat, r: Hit)
    requires g.Valid() && i <= |es| && forall k :: 0 <= k < |es| ==> es[k].0 < |g.nodes| && es[k].1 < |g.nodes|
    requires PlainEntries(g, es, i, h, name, fuel) == Some(Found(r))
    ensures (r == h && forall k :: i <= k < |es| ==> Brought(g, es, k, name, fuel) == NoHit)
         || (exists k :: i <= k < |es| && r == Brought(g, es, k, name, fuel) && r != NoHit &&
                         forall j :: k < j < |es| ==> Brought(g, es, j, name, fuel) == NoHit)
    decreases |es| - i
  {
    if i < |es| {
      var b := Brought(g, es, i, name, fuel);
      LaterEntryWins(g, es, i + 1, if b.Hit? then b else h, name, fuel, r);
    }
  }

  /** Within a merged sequence the earlier mapping wins. */
  lemma {:induction false} EarlierMappingWins(g: Graph, xs: seq<nat>, n: nat, h: Hit, name: string, fuel: nat, r: Hit)
    requires g.Valid() && n <= |xs| && forall k :: 0 <= k < |xs| ==> xs[k] < |g.nodes|
    requires PlainItems(g, xs, n, h, name, fuel) == Some(Found(r))
    ensures forall k :: 0 <= k < n ==>
              exists mh :: PlainMerge(g, g.Deref(xs[k]), name, fuel) == Some(Found(mh))
    ensures (r == h && forall k :: 0 <= k < n ==> PlainMerge(g, g.Deref(xs[k]), name, fuel) == Some(Found(NoHit)))
         || (exists k :: 0 <= k < n && PlainMerge(g, g.Deref(xs[k]), name, fuel) == Some(Found(r)) && r != NoHit &&
                         forall j :: 0 <= j < k ==> PlainMerge(g, g.Deref(xs[j]), name, fuel) == Some(Found(NoHit)))
    decreases n
  {
    if n > 0 {
      var mh := PlainMerge(g, g.Deref(xs[n - 1]), name, fuel).value.hit;
      EarlierMappingWins(g, xs, n - 1, if mh.Hit? then mh else h, name, fuel, r);
    }
  }

  /* ---------- the memoised lookup ---------- */

  /** Whatever fuel the rule is given, if it ends for v it finds h. */
  ghost predicate Agrees(g: Graph, v: nat, name: string, h: Hit)
    requires g.Valid() && v < |g.nodes|
  {
    forall f: nat :: PlainMerge(g, v, name, f).Some? ==> PlainMerge(g, v, name, f) == Some(Found(h))
  }

  ghost predicate EndsBelow(g: Graph, v: nat, name: string, f: nat)
    requires g.Valid() && v < |g.nodes|
  {
    exists e: nat :: e < f && PlainMerge(g, v, name, e).Some?
  }

  /** Reading b reads v: where the rule ends for b, it ends for v, in fewer nested merges. */
  ghost predicate ReadBy(g: Graph, v: nat, b: nat, name: string)
    requires g.Valid() && v < |g.nodes| && b < |g.nodes|
  {
    forall f: nat :: PlainMerge(g, b, name, f).Some? ==> EndsBelow(g, v, name, f)
  }

  /** A node whose reading reads itself: the rule never ends for it. */
  lemma {:induction false} CycleNeverEnds(g: Graph, v: nat, name: string, f: nat)
    requires g.Valid() && v < |g.nodes| && ReadBy(g, v, v, name)
    ensures PlainMerge(g, v, name, f).None?
    decreases f
  {
    if PlainMerge(g, v, name, f).Some? {
      assert EndsBelow(g, v, name, f);
      var e: nat :| e < f && PlainMerge(g, v, name, e).Some?;
      CycleNeverEnds(g, v, name, e);
    }
  }

  /** Every memoised entry is what the rule finds, wherever the rule ends; the
      entries of name being read (busy) are not settled yet. */
  ghost predicate Sound(g: Graph, memo: Memo, busy: set<nat>, name: string)
    requires g.Valid()
  {
    forall k :: k in memo ==> k.0 < |g.nodes| && ((k.1 == name && k.0 in busy) || Agrees(g, k.0, k.1, memo[k]))
  }

  lemma {:induction false} MarkSound(g: Graph, memo: Memo, busy: set<nat>, name: string, v: nat)
    requires g.Valid() && v < |g.nodes| && Sound(g, memo, busy, name)
    ensures Sound(g, memo[(v, name) := NoHit], busy + {v}, name)
  {
  }

  lemma {:induction false} SettleSound(g: Graph, memo: Memo, busy: set<nat>, name: string, v: nat, h: Hit)
    requires g.Valid() && v < |g.nodes| && Sound(g, memo, busy + {v}, name) && Agrees(g, v, name, h)
    ensures Sound(g, memo[(v, name) := h], busy, name)
  {
  }

  /** A memoised answer is the rule's, even one still being read: that one is on
      a merge cycle, where the rule never ends. */
  lemma {:induction false} HitAgrees(g: Graph, memo: Memo, busy: set<nat>, name: string, v: nat)
    requires g.Valid() && v < |g.nodes| && Sound(g, memo, busy, name) && (v, name) in memo
    requires v in busy ==> ReadBy(g, v, v, name)
    ensures Agrees(g, v, name, memo[(v, name)])
  {
    if v in busy {
      forall f: nat {
        CycleNeverEnds(g, v, name, f);
      }
    }
  }

  class ObjectReader {
    const g: Graph
    var memo: Memo

    constructor (graph: Graph)
      requires graph.Valid()
      ensures g == graph && memo == map[] && MemoOk({}, "")
    {
      g, memo := graph, map[];
    }

    ghost predicate MemoOk(busy: set<nat>, name: string)
      reads this
    {
      g.Valid() && Sound(g, memo, busy, name) && Tidy(g, memo, busy, name)
    }

    ghost predicate Busy(busy: set<nat>) {
      g.Valid() && forall b :: b in busy ==> b < |g.nodes|
    }

    ghost function Todo(name: string): set<nat>
      reads this
    {
      set v: nat | v < |g.nodes| && (v, name) !in memo
    }

    /** The rule's reading of mapping m, or of the items of sequence m, ends in fewer than f nested merges. */
    ghost predicate ContentEndsBelow(m: nat, name: string, f: nat)
      requires g.Valid() && m < |g.nodes|
    {
      exists e: nat :: e <= f && PlainMerge(g, m, name, e).Some?
    }

    /** Every node being read reads the content of m. */
    ghost predicate ContentReadBy(m: nat, name: string, busy: set<nat>)
      requires Busy(busy) && m < |g.nodes|
    {
      forall b, f: nat :: b in busy && PlainMerge(g, b, name, f).Some? ==> ContentEndsBelow(m, name, f)
    }

    lemma {:induction false} MarkedContent(v: nat, name: string, busy: set<nat>)
      requires Busy(busy) && v < |g.nodes| && forall b :: b in busy ==> ReadBy(g, v, b, name)
      ensures ContentReadBy(v, name, busy + {v})
    {
      forall b, f: nat | b in busy + {v} && PlainMerge(g, b, name, f).Some?
        ensures ContentEndsBelow(v, name, f)
      {
        if b in busy {
          assert ReadBy(g, v, b, name) && EndsBelow(g, v, name, f);
          var e: nat :| e < f && PlainMerge(g, v, name, e).Some?;
        }
      }
    }

    /** What every node being read reads, so does what an entry of m merges. */
    lemma {:induction false} EntryReadBy(m: nat, i: nat, name: string, busy: set<nat>)
      requires Busy(busy) && m < |g.nodes| && g.nodes[m].Mapping? && ContentReadBy(m, name, busy)
      requires i < |g.nodes[m].entries| && g.IsMergeKey(g.nodes[m].entries[i].0)
      requires forall f: nat :: PlainLookup(g, m, name, f).Some? ==>
                 PlainMerge(g, g.Deref(g.nodes[m].entries[i].1), name, f).Some?
      ensures forall b :: b in busy ==> ReadBy(g, g.Deref(g.nodes[m].entries[i].1), b, name)
    {
      var w := g.Deref(g.nodes[m].entries[i].1);
      forall b, f: nat | b in busy && PlainMerge(g, b, name, f).Some?
        ensures EndsBelow(g, w, name, f)
      {
        assert ContentEndsBelow(m, name, f);
        var e: nat :| e <= f && PlainMerge(g, m, name, e).Some?;
        assert PlainLookup(g, m, name, e - 1).Some?;
        assert PlainMerge(g, w, name, e - 1).Some?;
      }
    }

    /** And so does an item of sequence v. */
    lemma {:induction false} ItemReadBy(v: nat, i: nat, h: Hit, name: string, busy: set<nat>)
      requires Busy(busy) && v < |g.nodes| && g.nodes[v].Sequence? && ContentReadBy(v, name, busy)
      requires i < |g.nodes[v].items| && g.nodes[g.Deref(g.nodes[v].items[i])].Mapping? && ItemsAgree(v, i + 1, h, name)
      ensures forall b :: b in busy ==> ReadBy(g, g.Deref(g.nodes[v].items[i]), b, name)
    {
      var xs := g.nodes[v].items;
      forall b, f: nat | b in busy && PlainMerge(g, b, name, f).Some?
        ensures EndsBelow(g, g.Deref(xs[i]), name, f)
      {
        assert ContentEndsBelow(v, name, f);
        var e: nat :| e <= f && PlainMerge(g, v, name, e).Some?;
        assert PlainItems(g, xs, |xs|, NoHit, name, e - 1).Some?;
        assert PlainMerge(g, g.Deref(xs[i]), name, e - 1).Some?;
      }
    }

    /** Finds name in mapping m.  It terminates on every graph, cyclic merges
        included, and wherever the unmemoised rule ends for m it returns what the
        rule does, whatever was looked up before. */
    method Lookup(m: nat, name: string, ghost busy: set<nat>) returns (r: Result)
      requires MemoOk(busy, name) && Busy(busy) && m < |g.nodes| && g.nodes[m].Mapping?
      requires ContentReadBy(m, name, busy)
      modifies this
      ensures r.Found? ==> MemoOk(busy, name) && ReadWhole(g, old(memo), memo, m, name, r.hit)
      ensures r.Found? ==> Placed(g, m, name, r.hit)
      ensures !r.Found? ==> ErrorBelow(g, m, r)
      ensures Todo(name) <= old(Todo(name))
      ensures forall f: nat :: PlainLookup(g, m, name, f).Some? ==> PlainLookup(g, m, name, f) == Some(r)
      decreases Todo(name), 2
    {
      var h := NoHit;
      SoFarStart(g, memo, m, 0, name);
      for i := 0 to |g.nodes[m].entries|
        invariant MemoOk(busy, name) && Todo(name) <= old(Todo(name))
        invariant SoFar(g, old(memo), memo, m, 0, i, name, h) && EntriesAgree(m, i, h, name)
        invariant Placed(g, m, name, h)
      {
        r := OneEntry(m, i, name, h, busy, old(memo));
        if !r.Found? {
          return;
        }
        h := r.hit;
      }
      MappingRead(g, old(memo), memo, m, name, h);
      r := Found(h);
    }

    /** The rule goes on from the i-th entry of m with h found so far. */
    ghost predicate EntriesAgree(m: nat, i: nat, h: Hit, name: string)
      requires g.Valid() && m < |g.nodes| && g.nodes[m].Mapping? && i <= |g.nodes[m].entries|
    {
      forall f: nat :: PlainLookup(g, m, name, f).Some? ==>
        PlainEntries(g, g.nodes[m].entries, i, h, name, f) == PlainLookup(g, m, name, f)
    }

    ghost predicate ErrorAgrees(m: nat, r: Result, name: string)
      requires g.Valid() && m < |g.nodes| && g.nodes[m].Mapping?
    {
      forall f: nat :: PlainLookup(g, m, name, f).Some? ==> PlainLookup(g, m, name, f) == Some(r)
    }

    /** The i-th entry of m, what is found so far being h. */
    method OneEntry(m: nat, i: nat, name: string, h: Hit, ghost busy: set<nat>, ghost first: Memo) returns (r: Result)
      requires MemoOk(busy, name) && Busy(busy) && m < |g.nodes| && g.nodes[m].Mapping? && i < |g.nodes[m].entries|
      requires ContentReadBy(m, name, busy)
      requires SoFar(g, first, memo, m, 0, i, name, h) && EntriesAgree(m, i, h, name) && Placed(g, m, name, h)
      modifies this
      ensures Todo(name) <= old(Todo(name))
      ensures r.Found? ==> MemoOk(busy, name) && SoFar(g, first, memo, m, 0, i + 1, name, r.hit)
      ensures r.Found? ==> EntriesAgree(m, i + 1, r.hit, name) && Placed(g, m, name, r.hit)
      ensures !r.Found? ==> ErrorBelow(g, m, r) && ErrorAgrees(m, r, name)
      decreases Todo(name), 1, 1
    {
      var k, v := g.nodes[m].entries[i].0, g.nodes[m].entries[i].1;
      if g.IsMergeKey(k) {
        r := MergeEntry(m, i, name, h, busy, first);
        return;
      }
      r := Found(if g.ScalarText(k) == name then Hit(k, v, false) else h);
      SoFarEntry(g, first, memo, m, i, name, h, r.hit);
      if g.ScalarText(k) == name {
        PlacedOwn(g, m, i, name, r.hit);
      }
    }

    /** The i-th entry of m merges something. */
    method MergeEntry(m: nat, i: nat, name: string, h: Hit, ghost busy: set<nat>, ghost first: Memo) returns (r: Result)
      requires MemoOk(busy, name) && Busy(busy) && m < |g.nodes| && g.nodes[m].Mapping? && i < |g.nodes[m].entries|
      requires ContentReadBy(m, name, busy) && g.IsMergeKey(g.nodes[m].entries[i].0)
      requires SoFar(g, first, memo, m, 0, i, name, h) && EntriesAgree(m, i, h, name) && Placed(g, m, name, h)
      modifies this
      ensures Todo(name) <= old(Todo(name))
      ensures r.Found? ==> MemoOk(busy, name) && SoFar(g, first, memo, m, 0, i + 1, name, r.hit)
      ensures r.Found? ==> EntriesAgree(m, i + 1, r.hit, name) && Placed(g, m, name, r.hit)
      ensures !r.Found? ==> ErrorBelow(g, m, r) && ErrorAgrees(m, r, name)
      decreases Todo(name), 1, 0
    {
      var v := g.nodes[m].entries[i].1;
      EntryReadBy(m, i, name, busy);
      assert ReadsAt(g, m, i, g.Deref(v));
      var mr := Merge(v, name, busy);
      if !mr.Found? {
        ErrorOn(g, m, i, g.Deref(v), mr);
        return mr;
      }
      r := Found(if mr.hit.Hit? then Hit(mr.hit.key, mr.hit.value, true) else h);
      SoFarMerge(g, first, old(memo), memo, m, 0, i, name, h, i, g.Deref(v), mr.hit, r.hit, 0, i + 1);
      if mr.hit.Hit? {
        PlacedMerge(g, m, i, g.Deref(v), name, mr.hit);
      }
    }

    /** What the value of a merge key brings in for name. */
    method Merge(value: nat, name: string, ghost busy: set<nat>) returns (r: Result)
      requires MemoOk(busy, name) && Busy(busy) && value < |g.nodes|
      requires forall b :: b in busy ==> ReadBy(g, g.Deref(value), b, name)
      modifies this
      ensures r.Found? ==> MemoOk(busy, name) && MergedNode(g, old(memo), memo, g.Deref(value), name, r.hit)
      ensures !r.Found? ==> ErrorBelow(g, g.Deref(value), r)
      ensures Todo(name) <= old(Todo(name))
      ensures forall f: nat :: PlainMerge(g, g.Deref(value), name, f).Some? ==>
                PlainMerge(g, g.Deref(value), name, f) == Some(r)
      decreases Todo(name), 0
    {
      var v := g.Deref(value);
      if (v, name) in memo {
        HitAgrees(g, memo, busy, name, v);
        return Found(memo[(v, name)]);
      }
      MarkedContent(v, name, busy);
      MarkSound(g, memo, busy, name, v);
      TidyMark(g, memo, busy, name, v);
      assert v in Todo(name);
      memo := memo[(v, name) := NoHit];
      assert v !in Todo(name);
      r := Content(v, name, busy + {v});
      if r.Found? {
        SettleSound(g, memo, busy, name, v, r.hit);
        TidySettle(g, memo, busy, name, v, r.hit);
        NodeMerged(g, old(memo), memo, v, name, r.hit);
        memo := memo[(v, name) := r.hit];
      }
    }

    /** Reads the mapping or sequence v, which is marked. */
    method Content(v: nat, name: string, ghost busy: set<nat>) returns (r: Result)
      requires MemoOk(busy, name) && Busy(busy) && v < |g.nodes| && ContentReadBy(v, name, busy)
      modifies this
      ensures r.Found? ==> MemoOk(busy, name) && ReadWhole(g, old(memo), memo, v, name, r.hit)
      ensures !r.Found? ==> ErrorBelow(g, v, r)
      ensures Todo(name) <= old(Todo(name))
      ensures forall f: nat :: PlainMerge(g, v, name, f).Some? ==> PlainMerge(g, v, name, f) == Some(r)
      decreases Todo(name), 3
    {
      match g.nodes[v]
      case Mapping(_) =>
        r := Lookup(v, name, busy);
        forall f: nat | PlainMerge(g, v, name, f).Some?
          ensures PlainMerge(g, v, name, f) == Some(r)
        {
          assert PlainMerge(g, v, name, f) == PlainLookup(g, v, name, f - 1);
        }
      case Sequence(xs) =>
        r := Items(v, name, busy);
        forall f: nat | PlainMerge(g, v, name, f).Some?
          ensures PlainMerge(g, v, name, f) == Some(r)
        {
          assert PlainMerge(g, v, name, f) == PlainItems(g, xs, |xs|, NoHit, name, f - 1);
        }
      case _ =>
        ErrorHere(g, v);
        r := NotMergeable;
    }

    /** The mappings of merged sequence v, read last to first. */
    method Items(v: nat, name: string, ghost busy: set<nat>) returns (r: Result)
      requires MemoOk(busy, name) && Busy(busy) && v < |g.nodes| && g.nodes[v].Sequence?
      requires ContentReadBy(v, name, busy)
      modifies this
      ensures r.Found? ==> MemoOk(busy, name) && ReadWhole(g, old(memo), memo, v, name, r.hit)
      ensures !r.Found? ==> ErrorBelow(g, v, r)
      ensures Todo(name) <= old(Todo(name))
      ensures ItemsEnd(v, r, name)
      decreases Todo(name), 2
    {
      var h := NoHit;
      var n := |g.nodes[v].items|;
      ItemsStart(v, name);
      while n > 0
        invariant 0 <= n <= |g.nodes[v].items| && MemoOk(busy, name) && Todo(name) <= old(Todo(name))
        invariant ItemsFrom(old(memo), v, n, name, h)
      {
        r := OneItem(v, n - 1, name, h, busy, old(memo));
        if !r.Found? {
          return;
        }
        h := r.hit;
        n := n - 1;
      }
      ItemsRead(old(memo), v, name, h);
      r := Found(h);
    }

    /** The items of v from n on are read, with h found so far. */
    ghost predicate ItemsFrom(first: Memo, v: nat, n: nat, name: string, h: Hit)
      requires g.Valid() && v < |g.nodes| && g.nodes[v].Sequence? && n <= |g.nodes[v].items|
      reads this
    {
      && SoFar(g, first, memo, v, n, |g.nodes[v].items|, name, h) && ItemsAgree(v, n, h, name)
      && MappingsFrom(g, v, n)
    }

    lemma {:induction false} ItemsStart(v: nat, name: string)
      requires g.Valid() && v < |g.nodes| && g.nodes[v].Sequence?
      ensures ItemsFrom(memo, v, |g.nodes[v].items|, name, NoHit)
    {
      SoFarStart(g, memo, v, |g.nodes[v].items|, name);
    }

    lemma {:induction false} ItemsRead(first: Memo, v: nat, name: string, h: Hit)
      requires g.Valid() && v < |g.nodes| && g.nodes[v].Sequence? && ItemsFrom(first, v, 0, name, h)
      ensures ReadWhole(g, first, memo, v, name, h) && ItemsEnd(v, Found(h), name)
    {
      SequenceRead(g, first, memo, v, name, h);
      ItemsDone(v, h, name);
    }

    /** The rule goes on with the first n items of v, h found so far. */
    ghost predicate ItemsAgree(v: nat, n: nat, h: Hit, name: string)
      requires g.Valid() && v < |g.nodes| && g.nodes[v].Sequence? && n <= |g.nodes[v].items|
    {
      var xs := g.nodes[v].items;
      forall f: nat :: PlainItems(g, xs, |xs|, NoHit, name, f).Some? ==>
        PlainItems(g, xs, n, h, name, f) == PlainItems(g, xs, |xs|, NoHit, name, f)
    }

    ghost predicate ItemsEnd(v: nat, r: Result, name: string)
      requires g.Valid() && v < |g.nodes| && g.nodes[v].Sequence?
    {
      var xs := g.nodes[v].items;
      forall f: nat :: PlainItems(g, xs, |xs|, NoHit, name, f).Some? ==>
        PlainItems(g, xs, |xs|, NoHit, name, f) == Some(r)
    }

    lemma {:induction false} ItemsDone(v: nat, h: Hit, name: string)
      requires g.Valid() && v < |g.nodes| && g.nodes[v].Sequence? && ItemsAgree(v, 0, h, name)
      ensures ItemsEnd(v, Found(h), name)
    {
    }

    lemma {:induction false} ItemRefused(v: nat, i: nat, h: Hit, name: string)
      requires g.Valid() && v < |g.nodes| && g.nodes[v].Sequence? && i < |g.nodes[v].items|
      requires ItemsAgree(v, i + 1, h, name) && !g.nodes[g.Deref(g.nodes[v].items[i])].Mapping?
      ensures ItemsEnd(v, NotMappings, name)
    {
    }

    lemma {:induction false} ItemStep(v: nat, i: nat, h: Hit, mr: Result, name: string)
      requires g.Valid() && v < |g.nodes| && g.nodes[v].Sequence? && i < |g.nodes[v].items|
      requires ItemsAgree(v, i + 1, h, name) && g.nodes[g.Deref(g.nodes[v].items[i])].Mapping?
      requires forall f: nat :: PlainMerge(g, g.Deref(g.nodes[v].items[i]), name, f).Some? ==>
                 PlainMerge(g, g.Deref(g.nodes[v].items[i]), name, f) == Some(mr)
      ensures mr.Found? ==> ItemsAgree(v, i, if mr.hit.Hit? then mr.hit else h, name)
      ensures !mr.Found? ==> ItemsEnd(v, mr, name)
    {
      var xs := g.nodes[v].items;
      forall f: nat | PlainItems(g, xs, |xs|, NoHit, name, f).Some?
        ensures PlainItems(g, xs, |xs|, NoHit, name, f) ==
                if mr.Found? then PlainItems(g, xs, i, if mr.hit.Hit? then mr.hit else h, name, f) else Some(mr)
      {
        assert PlainItems(g, xs, i + 1, h, name, f) == PlainItems(g, xs, |xs|, NoHit, name, f);
        assert PlainMerge(g, g.Deref(xs[i]), name, f) == Some(mr);
      }
    }

    /** Item i of v, those after it read. */
    method OneItem(v: nat, i: nat, name: string, h: Hit, ghost busy: set<nat>, ghost first: Memo) returns (r: Result)
      requires MemoOk(busy, name) && Busy(busy) && v < |g.nodes| && g.nodes[v].Sequence? && i < |g.nodes[v].items|
      requires ContentReadBy(v, name, busy)
      requires ItemsFrom(first, v, i + 1, name, h)
      modifies this
      ensures Todo(name) <= old(Todo(name))
      ensures r.Found? ==> MemoOk(busy, name) && ItemsFrom(first, v, i, name, r.hit)
      ensures !r.Found? ==> ErrorBelow(g, v, r) && ItemsEnd(v, r, name)
      decreases Todo(name), 1
    {
      var c := g.Deref(g.nodes[v].items[i]);
      if !g.nodes[c].Mapping? {
        ErrorHere(g, v);
        ItemRefused(v, i, h, name);
        return NotMappings;
      }
      ItemReadBy(v, i, h, name, busy);
      assert ReadsAt(g, v, i, c);
      var mr := Merge(g.nodes[v].items[i], name, busy);
      if !mr.Found? {
        ErrorOn(g, v, i, c, mr);
        ItemStep(v, i, h, mr, name);
        return mr;
      }
      r := Found(if mr.hit.Hit? then mr.hit else h);
      ItemStep(v, i, h, mr, name);
      SoFarMerge(g, first, old(memo), memo, v, i + 1, |g.nodes[v].items|, name, h, i, c, mr.hit, r.hit,
                 i, |g.nodes[v].items|);
    }
  }

  /* ---------- what a fresh lookup finds, cycles or not ---------- */

  /** Looks a name up for the first time.  Whether or not the unmemoised rule ends,
      there is an error exactly when something merged, directly or not, cannot be;
      else the name is found exactly when some mapping merged has it, and what is
      found is such a mapping's own entry. */
  method LookupFirst(d: ObjectReader, m: nat, name: string) returns (r: Result)
    requires d.MemoOk({}, name) && m < |d.g.nodes| && d.g.nodes[m].Mapping? && forall v: nat :: (v, name) !in d.memo
    modifies d
    ensures r.Found? <==> !FaultBelow(d.g, m)
    ensures r.Found? ==> (r.hit.Hit? <==> OwnerBelow(d.g, m, name))
    ensures r.Found? && r.hit.Hit? ==> FromBelow(d.g, m, name, r.hit) && Placed(d.g, m, name, r.hit)
    ensures !r.Found? ==> ErrorBelow(d.g, m, r)
    ensures r.Found? ==> d.MemoOk({}, name)
  {
    r := d.Lookup(m, name, {});
    if r.Found? {
      FreshRead(d.g, old(d.memo), d.memo, m, name, r.hit);
    }
  }

  /** {<<: *itself, k: v}: a mapping that merges itself. */
  function SelfMerge(base64: string -> string): (g: Graph)
    ensures g.Valid()
  {
    Graph([Mapping([(1, 0), (2, 3)]), Scalar("!!merge", "<<"), Scalar("!!str", "k"), Scalar("!!str", "v")], base64)
  }

  /** The rule never ends on it. */
  lemma {:induction false} SelfMergeNeverEnds(base64: string -> string, f: nat)
    ensures PlainLookup(SelfMerge(base64), 0, "k", f).None?
  {
    var g := SelfMerge(base64);
    assert g.IsMergeKey(g.nodes[0].entries[0].0) && g.Deref(g.nodes[0].entries[0].1) == 0;
    if f != 0 {
      SelfMergeNeverEnds(base64, f - 1);
    }
    assert PlainMerge(g, 0, "k", f).None?;
  }

  /** It reaches itself alone, and has one entry of its own. */
  lemma {:induction false} SelfMergeReaches(base64: string -> string, u: nat)
    ensures Reaches(SelfMerge(base64), 0, u) <==> u == 0
  {
    var g := SelfMerge(base64);
    assert g.IsMergeKey(1) && !g.IsMergeKey(2);
    assert ClosedSet(g, {0});
  }

  lemma {:induction false} SelfMergeHas(base64: string -> string)
    ensures OwnerBelow(SelfMerge(base64), 0, "k") && !FaultBelow(SelfMerge(base64), 0)
  {
    var g := SelfMerge(base64);
    assert EntryAt(g, 0, 1, "k");
    assert Owns(g, 0, "k");
    forall u: nat
      ensures Reaches(g, 0, u) <==> u == 0
    {
      SelfMergeReaches(base64, u);
    }
  }

  lemma {:induction false} SelfMergeOnly(base64: string -> string, h: Hit)
    requires h.Hit? && FromBelow(SelfMerge(base64), 0, "k", h)
    ensures h.key == 2 && h.value == 3
  {
    var g := SelfMerge(base64);
    var u: nat, i: nat :| Reaches(g, 0, u) && EntryAt(g, u, i, "k") && g.nodes[u].entries[i] == (h.key, h.value);
    SelfMergeReaches(base64, u);
    assert g.IsMergeKey(g.nodes[0].entries[0].0);
    assert i == 1;
  }

  /** The reader finds its own key. */
  method SelfMergeFinds(base64: string -> string) returns (r: Result)
    ensures r.Found? && r.hit.Hit? && r.hit.key == 2 && r.hit.value == 3
  {
    var d := new ObjectReader(SelfMerge(base64));
    r := LookupFirst(d, 0, "k");
    SelfMergeHas(base64);
    SelfMergeOnly(base64, r.hit);
  }

  /* ---------- where the rule ends ---------- */

  /** v is what the i-th entry of mapping m merges. */
  ghost predicate MergedBy(g: Graph, v: nat, m: nat, i: nat)
    requires g.Valid()
  {
    && m < |g.nodes| && g.nodes[m].Mapping? && i < |g.nodes[m].entries|
    && g.IsMergeKey(g.nodes[m].entries[i].0) && g.Deref(g.nodes[m].entries[i].1) == v
  }

  ghost predicate Merged(g: Graph, v: nat)
    requires g.Valid()
  {
    exists m: nat, i: nat :: MergedBy(g, v, m, i)
  }

  /** rank goes down along every merge, from a mapping to what it merges and from a
      merged sequence to its mappings: no merge cycle. */
  ghost predicate Acyclic(g: Graph, rank: nat -> nat)
    requires g.Valid()
  {
    && (forall v: nat, m: nat, i: nat :: MergedBy(g, v, m, i) ==> rank(v) < rank(m))
    && (forall v: nat :: v < |g.nodes| && g.nodes[v].Sequence? && Merged(g, v) ==> ItemsBelow(g, rank, v))
  }

  ghost predicate ItemsBelow(g: Graph, rank: nat -> nat, v: nat)
    requires g.Valid() && v < |g.nodes| && g.nodes[v].Sequence?
  {
    var xs := g.nodes[v].items;
    forall i :: 0 <= i < |xs| && g.nodes[g.Deref(xs[i])].Mapping? ==> rank(g.Deref(xs[i])) < rank(v)
  }

  lemma {:induction false} AcyclicEntriesEnd(g: Graph, rank: nat -> nat, v: nat, i: nat, h: Hit, name: string, fuel: nat)
    requires g.Valid() && Acyclic(g, rank) && v < |g.nodes| && g.nodes[v].Mapping? && i <= |g.nodes[v].entries|
    requires fuel >= rank(v)
    ensures PlainEntries(g, g.nodes[v].entries, i, h, name, fuel).Some?
    decreases rank(v), 1, |g.nodes[v].entries| - i
  {
    var es := g.nodes[v].entries;
    if i < |es| {
      if g.IsMergeKey(es[i].0) {
        assert MergedBy(g, g.Deref(es[i].1), v, i);
        AcyclicMergeEnds(g, rank, g.Deref(es[i].1), name, fuel);
        var mr := PlainMerge(g, g.Deref(es[i].1), name, fuel).value;
        if mr.Found? {
          AcyclicEntriesEnd(g, rank, v, i + 1, if mr.hit.Hit? then Hit(mr.hit.key, mr.hit.value, true) else h, name, fuel);
        }
      } else {
        AcyclicEntriesEnd(g, rank, v, i + 1,
                          if g.ScalarText(es[i].0) == name then Hit(es[i].0, es[i].1, false) else h, name, fuel);
      }
    }
  }

  lemma {:induction false} AcyclicItemsEnd(g: Graph, rank: nat -> nat, v: nat, n: nat, h: Hit, name: string, fuel: nat)
    requires g.Valid() && Acyclic(g, rank) && v < |g.nodes| && g.nodes[v].Sequence? && n <= |g.nodes[v].items|
    requires Merged(g, v) && fuel >= rank(v)
    ensures PlainItems(g, g.nodes[v].items, n, h, name, fuel).Some?
    decreases rank(v), 1, n
  {
    var xs := g.nodes[v].items;
    if n > 0 && g.nodes[g.Deref(xs[n - 1])].Mapping? {
      AcyclicMergeEnds(g, rank, g.Deref(xs[n - 1]), name, fuel);
      var mr := PlainMerge(g, g.Deref(xs[n - 1]), name, fuel).value;
      if mr.Found? {
        AcyclicItemsEnd(g, rank, v, n - 1, if mr.hit.Hit? then mr.hit else h, name, fuel);
      }
    }
  }

  lemma {:induction false} AcyclicMergeEnds(g: Graph, rank: nat -> nat, v: nat, name: string, fuel: nat)
    requires g.Valid() && Acyclic(g, rank) && v < |g.nodes| && fuel > rank(v)
    requires g.nodes[v].Sequence? ==> Merged(g, v)
    ensures PlainMerge(g, v, name, fuel).Some?
    decreases rank(v), 2
  {
    match g.nodes[v]
    case Mapping(es) => AcyclicEntriesEnd(g, rank, v, 0, NoHit, name, fuel - 1);
    case Sequence(xs) => AcyclicItemsEnd(g, rank, v, |xs|, NoHit, name, fuel - 1);
    case _ =>
  }

  /** On a graph without merge cycles every lookup returns what the unmemoised
      rule does, with as many nested merges as the mapping's rank. */
  method LookupAcyclic(d: ObjectReader, m: nat, name: string, ghost rank: nat -> nat) returns (r: Result)
    requires d.MemoOk({}, name) && Acyclic(d.g, rank) && m < |d.g.nodes| && d.g.nodes[m].Mapping?
    modifies d
    ensures Some(r) == PlainLookup(d.g, m, name, rank(m))
    ensures r.Found? ==> d.MemoOk({}, name)
  {
    AcyclicEntriesEnd(d.g, rank, m, 0, NoHit, name, rank(m));
    r := d.Lookup(m, name, {});
  }
}
