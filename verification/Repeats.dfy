/**
 Lists read for what comes first: what is kept when later repeats of an
 element are dropped.
 */
module Repeats {
  import opened Basics
  import opened Picking

  /** xs without the later occurrences of an element. */
  function Firsts<T(==, !new)>(xs: seq<T>): (r: seq<T>)
    ensures forall x :: x in r <==> x in xs
  {
    if xs == [] then []
    else
      var (init, last) := (xs[..|xs| - 1], xs[|xs| - 1]);
      assert xs == init + [last];
      if last in init then Firsts(init) else Firsts(init) + [last]
  }

  lemma {:induction false} FirstsSnoc<T(!new)>(init: seq<T>, last: T)
    ensures Firsts(init + [last]) == if last in init then Firsts(init) else Firsts(init) + [last]
  {
    assert (init + [last])[..|init|] == init;
  }

  /** The element at j occurs there first. */
  ghost predicate NewAt<T>(xs: seq<T>, j: nat) {
    j < |xs| && xs[j] !in xs[..j]
  }

  /** The i-th element kept is the one at at[i], where it first occurs. */
  ghost predicate FirstsAt<T>(xs: seq<T>, r: seq<T>, at: seq<nat>) {
    && |at| == |r| && Rises(at)
    && (forall i :: 0 <= i < |at| ==> NewAt(xs, at[i]) && r[i] == xs[at[i]])
    && (forall j: nat :: NewAt(xs, j) ==> j in at)
  }

  /** Every element is kept where it first occurs, in order, and nowhere else. */
  lemma {:induction false} FirstsAre<T(!new)>(xs: seq<T>) returns (at: seq<nat>)
    ensures FirstsAt(xs, Firsts(xs), at)
  {
    at := [];
    if xs != [] {
      var init, last := xs[..|xs| - 1], xs[|xs| - 1];
      assert xs == init + [last];
      FirstsSnoc(init, last);
      at := FirstsAre(init);
      if last in init {
        FirstsRepeat(init, last, at);
      } else {
        FirstsNew(init, last, at);
        at := at + [|init|];
      }
    }
  }

  lemma {:induction false} NewAtSnoc<T>(init: seq<T>, last: T)
    ensures forall j: nat :: j < |init| ==> (NewAt(init + [last], j) <==> NewAt(init, j))
    ensures NewAt(init + [last], |init|) <==> last !in init
  {
    forall j: nat | j <= |init|
      ensures (init + [last])[..j] == init[..j]
    {
    }
    assert init[..|init|] == init;
  }

  lemma {:induction false} FirstsRepeat<T(!new)>(init: seq<T>, last: T, at: seq<nat>)
    requires FirstsAt(init, Firsts(init), at) && last in init
    ensures FirstsAt(init + [last], Firsts(init), at)
  {
    NewAtSnoc(init, last);
  }

  lemma {:induction false} FirstsNew<T(!new)>(init: seq<T>, last: T, at: seq<nat>)
    requires FirstsAt(init, Firsts(init), at) && last !in init
    ensures FirstsAt(init + [last], Firsts(init) + [last], at + [|init|])
  {
    NewAtSnoc(init, last);
    RisesNext(at, |init|);
    assert (at + [|init|])[|at|] == |init|;
    forall j: nat | NewAt(init + [last], j)
      ensures j in at + [|init|]
    {
      assert j < |init| ==> j in at;
    }
  }

  /** Every element of mid is one of us. */
  ghost predicate Covered<T>(us: seq<T>, mid: seq<T>) {
    forall x :: x in mid ==> x in us
  }

  lemma {:induction false} Regroup<T>(us: seq<T>, mid: seq<T>, vs: seq<T>, rest: seq<T>)
    ensures us + mid + vs + rest == us + mid + (vs + rest)
    ensures us + vs + rest == us + (vs + rest)
  {
  }

  lemma {:induction false} RegroupAfter<T>(first: seq<T>, us: seq<T>, mid: seq<T>, vs: seq<T>, rest: seq<T>)
    ensures first + (us + mid + vs + rest) == (first + us) + mid + (vs + rest)
    ensures first + (us + vs + rest) == (first + us) + (vs + rest)
  {
  }

  function FlatMap<A, B>(f: A -> seq<B>, xs: seq<A>): seq<B> {
    if xs == [] then [] else FlatMap(f, xs[..|xs| - 1]) + f(xs[|xs| - 1])
  }

  lemma {:induction false} FlatMapSnoc<A, B>(f: A -> seq<B>, xs: seq<A>, x: A)
    ensures FlatMap(f, xs + [x]) == FlatMap(f, xs) + f(x)
  {
    assert (xs + [x])[..|xs|] == xs;
  }

  lemma {:induction false} FlatMapNext<A, B>(f: A -> seq<B>, xs: seq<A>, i: nat)
    requires i < |xs|
    ensures FlatMap(f, xs[..i + 1]) == FlatMap(f, xs[..i]) + f(xs[i])
  {
    assert xs[..i + 1] == xs[..i] + [xs[i]];
    FlatMapSnoc(f, xs[..i], xs[i]);
  }

  lemma {:induction false} FlatMapConcat<A, B>(f: A -> seq<B>, us: seq<A>, vs: seq<A>)
    ensures FlatMap(f, us + vs) == FlatMap(f, us) + FlatMap(f, vs)
  {
    if vs == [] {
      assert us + vs == us;
    } else {
      FlatMapConcat(f, us, vs[..|vs| - 1]);
      assert (us + vs)[..|us + vs| - 1] == us + vs[..|vs| - 1];
    }
  }

  lemma {:induction false} FlatMapHas<A, B>(f: A -> seq<B>, xs: seq<A>, x: A)
    requires x in xs
    ensures forall b :: b in f(x) ==> b in FlatMap(f, xs)
  {
    if x != xs[|xs| - 1] {
      assert xs == xs[..|xs| - 1] + [xs[|xs| - 1]];
      FlatMapHas(f, xs[..|xs| - 1], x);
    }
  }

  /** Each element of a flat map comes from some element of the list. */
  lemma {:induction false} FlatMapFrom<A, B>(f: A -> seq<B>, xs: seq<A>, b: B) returns (x: A)
    requires b in FlatMap(f, xs)
    ensures x in xs && b in f(x)
  {
    if b in f(xs[|xs| - 1]) {
      x := xs[|xs| - 1];
    } else {
      x := FlatMapFrom(f, xs[..|xs| - 1], b);
    }
  }

  /** A flat map takes a covered block to a covered block. */
  lemma {:induction false} FlatMapBlock<A, B>(f: A -> seq<B>, us: seq<A>, mid: seq<A>, vs: seq<A>)
    requires Covered(us, mid)
    ensures FlatMap(f, us + mid + vs) == FlatMap(f, us) + FlatMap(f, mid) + FlatMap(f, vs)
    ensures FlatMap(f, us + vs) == FlatMap(f, us) + FlatMap(f, vs)
    ensures Covered(FlatMap(f, us), FlatMap(f, mid))
  {
    FlatMapConcat(f, us + mid, vs);
    FlatMapConcat(f, us, mid);
    FlatMapConcat(f, us, vs);
    forall b | b in FlatMap(f, mid)
      ensures b in FlatMap(f, us)
    {
      var x := FlatMapFrom(f, mid, b);
      FlatMapHas(f, us, x);
    }
  }

  lemma {:induction false} FlatMapSame<A, B>(f: A -> seq<B>, g: A -> seq<B>, xs: seq<A>)
    requires forall x :: x in xs ==> f(x) == g(x)
    ensures FlatMap(f, xs) == FlatMap(g, xs)
  {
    if xs != [] {
      FlatMapSame(f, g, xs[..|xs| - 1]);
    }
  }

  /* ---------- values filed under keys ---------- */

  function Pick<K(==), V>(k: K): ((K, V)) -> seq<V> {
    (x: (K, V)) => if x.0 == k then [x.1] else []
  }

  /** What a log of filings files under one key, in order. */
  function Under<K(==), V>(k: K, log: seq<(K, V)>): seq<V> {
    FlatMap(Pick(k), log)
  }

  lemma {:induction false} UnderSnoc<K, V>(k: K, log: seq<(K, V)>, x: (K, V))
    ensures Under(k, log + [x]) == Under(k, log) + (if x.0 == k then [x.1] else [])
  {
    assert (log + [x])[..|log|] == log;
  }

  lemma {:induction false} UnderBlock<K(!new), V>(k: K, us: seq<(K, V)>, mid: seq<(K, V)>, vs: seq<(K, V)>)
    requires Covered(us, mid)
    ensures Under(k, us + mid + vs) == Under(k, us) + Under(k, mid) + Under(k, vs)
    ensures Under(k, us + vs) == Under(k, us) + Under(k, vs)
    ensures Covered(Under(k, us), Under(k, mid))
  {
    FlatMapBlock(Pick<K, V>(k), us, mid, vs);
  }

  lemma {:induction false} UnderFrom<K, V>(k: K, log: seq<(K, V)>, v: V)
    ensures v in Under(k, log) <==> (k, v) in log
  {
    if v in Under(k, log) {
      var x := FlatMapFrom(Pick<K, V>(k), log, v);
    }
    if (k, v) in log {
      FlatMapHas(Pick<K, V>(k), log, (k, v));
      assert v in Pick<K, V>(k)((k, v));
    }
  }

  /** The first element that is wanted. */
  function Find<T>(want: T -> bool, xs: seq<T>): Option<T> {
    if xs == [] then None
    else
      var r := Find(want, xs[..|xs| - 1]);
      if r.None? && want(xs[|xs| - 1]) then Some(xs[|xs| - 1]) else r
  }

  lemma {:induction false} FindFails<T>(want: T -> bool, xs: seq<T>)
    ensures Find(want, xs).None? <==> forall x :: x in xs ==> !want(x)
  {
    if xs != [] {
      FindFails(want, xs[..|xs| - 1]);
      assert xs == xs[..|xs| - 1] + [xs[|xs| - 1]];
    }
  }

  lemma {:induction false} FindConcat<T>(want: T -> bool, us: seq<T>, vs: seq<T>)
    ensures Find(want, us + vs) == if Find(want, us).Some? then Find(want, us) else Find(want, vs)
  {
    if vs == [] {
      assert us + vs == us;
    } else {
      FindConcat(want, us, vs[..|vs| - 1]);
      assert (us + vs)[..|us + vs| - 1] == us + vs[..|vs| - 1];
    }
  }

  lemma {:induction false} FindBlock<T>(want: T -> bool, us: seq<T>, mid: seq<T>, vs: seq<T>)
    requires Covered(us, mid)
    ensures Find(want, us + mid + vs) == Find(want, us + vs)
  {
    FindConcat(want, us + mid, vs);
    FindConcat(want, us, mid);
    FindConcat(want, us, vs);
    FindFails(want, us);
    FindFails(want, mid);
  }

  /* ---------- the oldest of a list of versions ---------- */

  type Less = (string, string) -> bool

  /** olderVersion: the older of two versions, ignoring "". */
  function Older(less: Less, cur: string, v: string): string {
    if v != "" && (cur == "" || less(v, cur)) then v else cur
  }

  function Oldest<T>(less: Less, version: T -> string, xs: seq<T>): string {
    if xs == [] then "" else Older(less, Oldest(less, version, xs[..|xs| - 1]), version(xs[|xs| - 1]))
  }

  /** A strict order on the versions of a set. */
  ghost predicate StrictOn(less: Less, versions: set<string>) {
    && (forall v :: v in versions ==> !less(v, v))
    && (forall x, y, z :: x in versions && y in versions && z in versions && less(x, y) && less(y, z) ==> less(x, z))
  }

  ghost predicate VersionsIn<T>(version: T -> string, xs: seq<T>, versions: set<string>) {
    forall x :: x in xs ==> version(x) == "" || version(x) in versions
  }

  /** Under a strict order no version read before is older than the oldest. */
  lemma {:induction false} OldestAbsorbs<T>(less: Less, version: T -> string, xs: seq<T>, versions: set<string>)
    requires StrictOn(less, versions) && VersionsIn(version, xs, versions)
    ensures Oldest(less, version, xs) == "" || Oldest(less, version, xs) in versions
    ensures forall x :: x in xs ==>
              Older(less, Oldest(less, version, xs), version(x)) == Oldest(less, version, xs)
  {
    if xs != [] {
      var init, last := xs[..|xs| - 1], xs[|xs| - 1];
      assert xs == init + [last];
      OldestAbsorbs(less, version, init, versions);
    }
  }

  lemma {:induction false} OldestSnoc<T>(less: Less, version: T -> string, xs: seq<T>, x: T)
    ensures Oldest(less, version, xs + [x]) == Older(less, Oldest(less, version, xs), version(x))
  {
    assert (xs + [x])[..|xs|] == xs;
  }

  lemma {:induction false} LastApart<T>(us: seq<T>, vs: seq<T>)
    requires vs != []
    ensures us + vs == us + vs[..|vs| - 1] + [vs[|vs| - 1]]
  {
  }

  lemma {:induction false} OldestAfter<T>(less: Less, version: T -> string, us: seq<T>, mid: seq<T>, vs: seq<T>)
    requires Oldest(less, version, us + mid) == Oldest(less, version, us)
    ensures Oldest(less, version, us + mid + vs) == Oldest(less, version, us + vs)
  {
    if vs == [] {
      assert us + mid + vs == us + mid && us + vs == us;
    } else {
      var init, last := vs[..|vs| - 1], vs[|vs| - 1];
      OldestAfter(less, version, us, mid, init);
      LastApart(us + mid, vs);
      LastApart(us, vs);
      OldestSnoc(less, version, us + mid + init, last);
      OldestSnoc(less, version, us + init, last);
    }
  }

  lemma {:induction false} OldestCovered<T>(less: Less, version: T -> string, us: seq<T>, mid: seq<T>, versions: set<string>)
    requires StrictOn(less, versions) && VersionsIn(version, us, versions) && Covered(us, mid)
    ensures Oldest(less, version, us + mid) == Oldest(less, version, us)
  {
    if mid == [] {
      assert us + mid == us;
    } else {
      OldestCovered(less, version, us, mid[..|mid| - 1], versions);
      assert (us + mid)[..|us + mid| - 1] == us + mid[..|mid| - 1];
      OldestAbsorbs(less, version, us, versions);
    }
  }

  /** The oldest version does not read repeats, under a strict order. */
  lemma {:induction false} OldestBlock<T>(less: Less, version: T -> string, us: seq<T>, mid: seq<T>, vs: seq<T>, versions: set<string>)
    requires StrictOn(less, versions) && VersionsIn(version, us, versions) && Covered(us, mid)
    ensures Oldest(less, version, us + mid + vs) == Oldest(less, version, us + vs)
  {
    OldestCovered(less, version, us, mid, versions);
    OldestAfter(less, version, us, mid, vs);
  }

  lemma {:induction false} OldestOfFirsts(less: Less, xs: seq<string>, versions: set<string>)
    requires StrictOn(less, versions) && forall v :: v in xs ==> v in versions
    ensures Oldest(less, Itself, xs) == Oldest(less, Itself, Firsts(xs))
  {
    if xs != [] {
      var init, last := xs[..|xs| - 1], xs[|xs| - 1];
      assert xs == init + [last];
      OldestOfFirsts(less, init, versions);
      OldestAbsorbs(less, Itself, init, versions);
    }
  }

  function Itself(v: string): string {
    v
  }

  lemma {:induction false} GapFirsts(x: string, y: string, z: string)
    requires x != y && y != z
    ensures Firsts([z] + [x] + [y] + [x]) == if x == z then [z] + [y] else [z] + [x] + [y]
  {
    FirstsSnoc([], z);
    assert [] + [z] == [z];
    FirstsSnoc([z], x);
    FirstsSnoc([z] + [x], y);
    FirstsSnoc([z] + [x] + [y], x);
  }

  /** A list whose oldest version depends on a repeat, when the order has a gap. */
  lemma {:induction false} RepeatCounts(less: Less, x: string, y: string, z: string)
    requires x != "" && y != "" && z != ""
    requires !less(x, x) && !less(y, y) && !less(z, z)
    requires less(x, y) && less(y, z) && !less(x, z)
    ensures Oldest(less, Itself, [z] + [x] + [y] + [x]) == x
    ensures Oldest(less, Itself, Firsts([z] + [x] + [y] + [x])) == y != x
  {
    OldestSnoc(less, Itself, [], z);
    assert [] + [z] == [z];
    OldestSnoc(less, Itself, [z], x);
    OldestSnoc(less, Itself, [z] + [x], y);
    OldestSnoc(less, Itself, [z] + [x] + [y], x);
    OldestSnoc(less, Itself, [z], y);
    GapFirsts(x, y, z);
  }

  /** Repeats never change the oldest of a set's versions if and only if the
      comparison is transitive on the set. */
  lemma {:induction false} RepeatsIgnoredExactly(less: Less, versions: set<string>)
    requires "" !in versions && forall v :: v in versions ==> !less(v, v)
    ensures StrictOn(less, versions) <==>
            forall xs: seq<string> :: (forall v :: v in xs ==> v in versions) ==>
                                        Oldest(less, Itself, xs) == Oldest(less, Itself, Firsts(xs))
  {
    if StrictOn(less, versions) {
      forall xs: seq<string> | forall v :: v in xs ==> v in versions
        ensures Oldest(less, Itself, xs) == Oldest(less, Itself, Firsts(xs))
      {
        OldestOfFirsts(less, xs, versions);
      }
    } else {
      var x, y, z :| x in versions && y in versions && z in versions && less(x, y) && less(y, z) && !less(x, z);
      RepeatCounts(less, x, y, z);
      assert forall v :: v in [z] + [x] + [y] + [x] ==> v in versions;
    }
  }
}

/** versionLess: semantic versions where both parse, plain strings otherwise. */
module VersionOrder {
  import opened Basics
  import opened Ordering
  import opened Repeats

  /** Go's string comparison. */
  predicate Before(a: string, b: string) {
    !Strings()(b, a)
  }

  predicate VersionLess<V>(parse: string -> Option<V>, less: (V, V) -> bool, a: string, b: string) {
    if parse(a).Some? && parse(b).Some? then less(parse(a).value, parse(b).value) else Before(a, b)
  }

  function AsLess<V>(parse: string -> Option<V>, less: (V, V) -> bool): Less {
    (a, b) => VersionLess(parse, less, a, b)
  }

  ghost predicate StrictOrder<V(!new)>(less: (V, V) -> bool) {
    (forall v :: !less(v, v)) && (forall x, y, z :: less(x, y) && less(y, z) ==> less(x, z))
  }

  /** Versions that all parse, or none of which does, are strictly ordered. */
  lemma {:induction false} UniformIsStrict<V(!new)>(parse: string -> Option<V>, less: (V, V) -> bool, versions: set<string>)
    requires StrictOrder(less)
    requires (forall v :: v in versions ==> parse(v).Some?) || (forall v :: v in versions ==> parse(v).None?)
    ensures StrictOn(AsLess(parse, less), versions)
  {
    StringsTotal();
  }

  /** A version too large to parse, read as a string among numbers, breaks the
      order: 9.0 is before 10.0, which is before it, which is before 9.0. */
  lemma {:induction false} MixedIsNotStrict<V>(parse: string -> Option<V>, less: (V, V) -> bool)
    requires parse("9.0").Some? && parse("10.0").Some? && less(parse("9.0").value, parse("10.0").value)
    requires parse("50000000000000000000.0").None?
    ensures !StrictOn(AsLess(parse, less), {"9.0", "10.0", "50000000000000000000.0"})
  {
    var order, w := AsLess(parse, less), "50000000000000000000.0";
    assert w[0] == '5' && "10.0"[0] == '1' && "9.0"[0] == '9';
    assert order("9.0", "10.0") && order("10.0", w) && order(w, "9.0");
    assert !order("9.0", w);
  }
}
