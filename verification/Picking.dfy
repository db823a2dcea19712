/**
 What a pass over a list keeps: the elements that are accepted, in order, each as
 it was changed, and of them no more than a cap.
 */
module Picking {
  import opened Basics

  ghost predicate Rises(at: seq<nat>) {
    forall i, j :: 0 <= i < j < |at| ==> at[i] < at[j]
  }

  /** j may be missing: it is not accepted, or the cap was reached before it. */
  ghost predicate MayMiss<X>(ok: X -> bool, cap: Option<nat>, xs: seq<X>, at: seq<nat>, j: nat)
    requires j < |xs|
  {
    !ok(xs[j]) || (cap == Some(|at|) && forall i :: 0 <= i < |at| ==> at[i] < j)
  }

  /** ys are accepted elements of xs, in order, the i-th from at[i]; an element is
      left out only if it is not accepted or beyond the cap. */
  ghost predicate PicksAt<X, Y>(ok: X -> bool, rel: (X, Y) -> bool, cap: Option<nat>, xs: seq<X>, ys: seq<Y>, at: seq<nat>) {
    && |at| == |ys| && Rises(at) && (cap.Some? ==> |ys| <= cap.value)
    && (forall i :: 0 <= i < |at| ==> at[i] < |xs| && ok(xs[at[i]]) && rel(xs[at[i]], ys[i]))
    && (forall j :: 0 <= j < |xs| && j !in at ==> MayMiss(ok, cap, xs, at, j))
  }

  ghost predicate Picks<X(!new), Y(!new)>(ok: X -> bool, rel: (X, Y) -> bool, cap: Option<nat>, xs: seq<X>, ys: seq<Y>) {
    exists at :: PicksAt(ok, rel, cap, xs, ys, at)
  }

  lemma {:induction false} PicksNone<X, Y>(ok: X -> bool, rel: (X, Y) -> bool)
    ensures PicksAt(ok, rel, None, [], [], [])
  {
  }

  lemma {:induction false} PicksMissing<X, Y>(ok: X -> bool, rel: (X, Y) -> bool, xs: seq<X>, ys: seq<Y>, at: seq<nat>, x: X)
    requires PicksAt(ok, rel, None, xs, ys, at) && !ok(x)
    ensures PicksAt(ok, rel, None, xs + [x], ys, at)
  {
    forall j | 0 <= j < |xs + [x]| && j !in at
      ensures MayMiss(ok, None, xs + [x], at, j)
    {
      assert j < |xs| ==> MayMiss(ok, None, xs, at, j);
    }
  }

  lemma {:induction false} PicksNext<X, Y>(ok: X -> bool, rel: (X, Y) -> bool, xs: seq<X>, ys: seq<Y>, at: seq<nat>, x: X, y: Y)
    requires PicksAt(ok, rel, None, xs, ys, at) && ok(x) && rel(x, y)
    ensures PicksAt(ok, rel, None, xs + [x], ys + [y], at + [|xs|])
  {
    var more := at + [|xs|];
    assert more[|at|] == |xs|;
    forall j | 0 <= j < |xs + [x]| && j !in more
      ensures MayMiss(ok, None, xs + [x], more, j)
    {
      assert j < |xs| && j !in at;
      assert MayMiss(ok, None, xs, at, j);
    }
  }

  function Short<Y>(ys: seq<Y>, max: nat): seq<Y> {
    if |ys| <= max then ys else ys[..max]
  }

  lemma {:induction false} PastCap(at: seq<nat>, max: nat, j: nat)
    requires Rises(at) && j in at && j !in Short(at, max)
    ensures |Short(at, max)| == max && forall i :: 0 <= i < max ==> Short(at, max)[i] < j
  {
    var p :| 0 <= p < |at| && at[p] == j;
    assert forall i :: 0 <= i < |Short(at, max)| ==> Short(at, max)[i] == at[i];
    assert p >= |Short(at, max)|;
  }

  /** Cutting what is kept at a cap. */
  lemma {:induction false} PicksShort<X, Y>(ok: X -> bool, rel: (X, Y) -> bool, max: nat, xs: seq<X>, ys: seq<Y>, at: seq<nat>)
    requires PicksAt(ok, rel, None, xs, ys, at)
    ensures PicksAt(ok, rel, Some(max), xs, Short(ys, max), Short(at, max))
  {
    forall j | 0 <= j < |xs| && j !in Short(at, max)
      ensures MayMiss(ok, Some(max), xs, Short(at, max), j)
    {
      if j in at {
        PastCap(at, max, j);
      } else {
        assert MayMiss(ok, None, xs, at, j);
      }
    }
  }

  lemma {:induction false} RisesNext(at: seq<nat>, n: nat)
    requires Rises(at) && forall x :: x in at ==> x < n
    ensures Rises(at + [n])
  {
    assert forall i :: 0 <= i < |at| ==> at[i] in at;
  }

  /* ---------- how many ---------- */

  /** Where the first n elements are accepted. */
  ghost function Places<T>(ok: T -> bool, xs: seq<T>, n: nat): set<int>
    requires n <= |xs|
  {
    set i | 0 <= i < n && ok(xs[i])
  }

  lemma {:induction false} PlacesNext<T>(ok: T -> bool, xs: seq<T>, n: nat)
    requires n < |xs|
    ensures |Places(ok, xs, n + 1)| == |Places(ok, xs, n)| + (if ok(xs[n]) then 1 else 0)
  {
    var before, after := Places(ok, xs, n), Places(ok, xs, n + 1);
    if ok(xs[n]) {
      assert after == before + {n};
    } else {
      assert after == before;
    }
  }

  lemma {:induction false} NoPlaces<T>(ok: T -> bool, xs: seq<T>)
    ensures Places(ok, xs, 0) == {}
  {
  }

  /* ---------- what each gives ---------- */

  function GivesOne<X, Y>(give: X -> Option<Y>): X -> bool {
    (x: X) => give(x).Some?
  }

  function GivenAs<X, Y(==)>(give: X -> Option<Y>): (X, Y) -> bool {
    (x: X, y: Y) => give(x) == Some(y)
  }

  /** ys is what the elements of xs give, in order, and no more. */
  ghost predicate Gives<X(!new), Y(!new)>(give: X -> Option<Y>, xs: seq<X>, ys: seq<Y>) {
    Picks(GivesOne(give), GivenAs(give), None, xs, ys)
  }

  function AsList<T>(x: Option<T>): seq<T> {
    if x.Some? then [x.value] else []
  }

  lemma {:induction false} GivesNone<X(!new), Y(!new)>(give: X -> Option<Y>)
    ensures Gives(give, [], [])
  {
    PicksNone(GivesOne(give), GivenAs(give));
  }

  lemma {:induction false} GivesNext<X(!new), Y(!new)>(give: X -> Option<Y>, xs: seq<X>, ys: seq<Y>, x: X)
    requires Gives(give, xs, ys)
    ensures Gives(give, xs + [x], ys + AsList(give(x)))
  {
    var at :| PicksAt(GivesOne(give), GivenAs(give), None, xs, ys, at);
    if give(x).Some? {
      PicksNext(GivesOne(give), GivenAs(give), xs, ys, at, x, give(x).value);
    } else {
      PicksMissing(GivesOne(give), GivenAs(give), xs, ys, at, x);
      assert ys + [] == ys;
    }
  }
}
