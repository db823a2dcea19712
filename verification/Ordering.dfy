/**
 Total orders, the order of strings they give, and what sorting and compacting
 by them leave.
 */
module Ordering {

  type Le<!X> = (X, X) -> bool

  /** Any two compare, and comparisons chain. */
  ghost predicate TotalOrder<X(!new)>(le: Le<X>) {
    && (forall x, y :: le(x, y) || le(y, x))
    && (forall x, y, z :: le(x, y) && le(y, z) ==> le(x, z))
  }

  ghost predicate Antisymmetric<X(!new)>(le: Le<X>) {
    forall x, y :: le(x, y) && le(y, x) ==> x == y
  }

  /* ---------- sequences, element by element ---------- */

  /** a comes no later than b. */
  predicate Lex<T>(le: Le<T>, a: seq<T>, b: seq<T>) {
    a == [] || (b != [] && (!le(b[0], a[0]) || (le(a[0], b[0]) && Lex(le, a[1..], b[1..]))))
  }

  function LexOf<T>(le: Le<T>): Le<seq<T>> {
    (a, b) => Lex(le, a, b)
  }

  /** Go's order of strings. */
  function Chars(): Le<char> {
    (c: char, d: char) => c <= d
  }

  function Strings(): Le<string> {
    LexOf(Chars())
  }

  lemma {:induction false} LexCompares<T(!new)>(le: Le<T>, a: seq<T>, b: seq<T>)
    requires TotalOrder(le)
    ensures Lex(le, a, b) || Lex(le, b, a)
  {
    if a != [] && b != [] {
      LexCompares(le, a[1..], b[1..]);
    }
  }

  lemma {:induction false} LexChains<T(!new)>(le: Le<T>, a: seq<T>, b: seq<T>, c: seq<T>)
    requires TotalOrder(le) && Lex(le, a, b) && Lex(le, b, c)
    ensures Lex(le, a, c)
  {
    if a != [] && le(b[0], a[0]) && le(c[0], b[0]) {
      LexChains(le, a[1..], b[1..], c[1..]);
    }
  }

  lemma {:induction false} LexBoth<T(!new)>(le: Le<T>, a: seq<T>, b: seq<T>)
    requires TotalOrder(le) && Antisymmetric(le) && Lex(le, a, b) && Lex(le, b, a)
    ensures a == b
  {
    if a != [] && b != [] {
      LexBoth(le, a[1..], b[1..]);
      assert a == [a[0]] + a[1..] && b == [b[0]] + b[1..];
    }
  }

  lemma {:induction false} LexTotal<T(!new)>(le: Le<T>)
    requires TotalOrder(le)
    ensures TotalOrder(LexOf(le))
  {
    forall a, b
      ensures Lex(le, a, b) || Lex(le, b, a)
    {
      LexCompares(le, a, b);
    }
    forall a, b, c | Lex(le, a, b) && Lex(le, b, c)
      ensures Lex(le, a, c)
    {
      LexChains(le, a, b, c);
    }
  }

  lemma {:induction false} LexAntisymmetric<T(!new)>(le: Le<T>)
    requires TotalOrder(le) && Antisymmetric(le)
    ensures Antisymmetric(LexOf(le))
  {
    forall a, b | Lex(le, a, b) && Lex(le, b, a)
      ensures a == b
    {
      LexBoth(le, a, b);
    }
  }

  lemma {:induction false} StringsTotal()
    ensures TotalOrder(Strings()) && Antisymmetric(Strings())
  {
    LexTotal(Chars());
    LexAntisymmetric(Chars());
  }

  /* ---------- one order after another ---------- */

  function By<X, Y>(f: X -> Y, le: Le<Y>): Le<X> {
    (x, y) => le(f(x), f(y))
  }

  /** The first decides, the second where it does not. */
  function Then<X>(first: Le<X>, second: Le<X>): Le<X> {
    (x, y) => !first(y, x) || (first(x, y) && second(x, y))
  }

  lemma {:induction false} ByTotal<X(!new), Y(!new)>(f: X -> Y, le: Le<Y>)
    requires TotalOrder(le)
    ensures TotalOrder(By(f, le))
  {
  }

  lemma {:induction false} ThenTotal<X(!new)>(first: Le<X>, second: Le<X>)
    requires TotalOrder(first) && TotalOrder(second)
    ensures TotalOrder(Then(first, second))
  {
  }

  /* ---------- sorting ---------- */

  function Insert<X>(le: Le<X>, x: X, xs: seq<X>): seq<X> {
    if xs == [] then [x] else if le(x, xs[0]) then [x] + xs else [xs[0]] + Insert(le, x, xs[1..])
  }

  function Sorted<X>(le: Le<X>, xs: seq<X>): seq<X> {
    if xs == [] then [] else Insert(le, xs[0], Sorted(le, xs[1..]))
  }

  ghost predicate InOrder<X>(le: Le<X>, xs: seq<X>) {
    xs == [] || (InOrder(le, xs[1..]) && forall x :: x in xs ==> le(xs[0], x))
  }

  lemma {:induction false} InsertAdds<X>(le: Le<X>, x: X, xs: seq<X>)
    ensures multiset(Insert(le, x, xs)) == multiset(xs) + multiset{x}
  {
    if xs != [] && !le(x, xs[0]) {
      InsertAdds(le, x, xs[1..]);
      assert xs == [xs[0]] + xs[1..];
    }
  }

  lemma {:induction false} InsertKeepsOrder<X(!new)>(le: Le<X>, x: X, xs: seq<X>)
    requires TotalOrder(le) && InOrder(le, xs)
    ensures InOrder(le, Insert(le, x, xs))
  {
    if xs != [] && !le(x, xs[0]) {
      InsertAdds(le, x, xs[1..]);
      InsertKeepsOrder(le, x, xs[1..]);
      forall y | y in Insert(le, x, xs[1..])
        ensures le(xs[0], y)
      {
        assert y in multiset(Insert(le, x, xs[1..]));
      }
    }
  }

  /** The same elements, in order. */
  lemma {:induction false} SortedIs<X(!new)>(le: Le<X>, xs: seq<X>)
    requires TotalOrder(le)
    ensures InOrder(le, Sorted(le, xs)) && multiset(Sorted(le, xs)) == multiset(xs)
  {
    if xs != [] {
      SortedIs(le, xs[1..]);
      InsertKeepsOrder(le, xs[0], Sorted(le, xs[1..]));
      InsertAdds(le, xs[0], Sorted(le, xs[1..]));
      assert xs == [xs[0]] + xs[1..];
    }
  }

  lemma {:induction false} SortedHas<X(!new)>(le: Le<X>, xs: seq<X>)
    requires TotalOrder(le)
    ensures |Sorted(le, xs)| == |xs| && forall x :: x in Sorted(le, xs) <==> x in xs
  {
    SortedIs(le, xs);
    assert |multiset(Sorted(le, xs))| == |multiset(xs)|;
    forall x
      ensures x in Sorted(le, xs) <==> x in xs
    {
      assert x in multiset(Sorted(le, xs)) <==> x in multiset(xs);
    }
  }

  lemma {:induction false} OrderedPairs<X>(le: Le<X>, xs: seq<X>)
    requires InOrder(le, xs)
    ensures forall i, j :: 0 <= i < j < |xs| ==> le(xs[i], xs[j])
  {
    if xs != [] {
      OrderedPairs(le, xs[1..]);
      forall i, j | 0 <= i < j < |xs|
        ensures le(xs[i], xs[j])
      {
        if i > 0 {
          assert xs[i] == xs[1..][i - 1] && xs[j] == xs[1..][j - 1];
        }
      }
    }
  }

  /* ---------- compacting ---------- */

  /** slices.Compact: repeats next to one another are dropped. */
  function Compact<X(==)>(xs: seq<X>): (r: seq<X>)
    ensures |r| <= |xs|
  {
    if |xs| <= 1 then xs
    else if xs[0] == xs[1] then Compact(xs[1..])
    else [xs[0]] + Compact(xs[1..])
  }

  /** Each comes before all after it: in order, and none twice. */
  ghost predicate Rising<X>(le: Le<X>, xs: seq<X>) {
    xs == [] || (Rising(le, xs[1..]) && forall x :: x in xs[1..] ==> !le(x, xs[0]))
  }

  /** What is in order, none twice, rises. */
  lemma {:induction false} OnceRises<X(!new)>(le: Le<X>, xs: seq<X>)
    requires Antisymmetric(le) && InOrder(le, xs) && forall x :: multiset(xs)[x] <= 1
    ensures Rising(le, xs)
  {
    if xs != [] {
      assert xs == [xs[0]] + xs[1..];
      forall x
        ensures multiset(xs[1..])[x] <= 1
      {
        assert multiset(xs)[x] >= multiset(xs[1..])[x];
      }
      OnceRises(le, xs[1..]);
      assert multiset(xs)[xs[0]] == 1 + multiset(xs[1..])[xs[0]];
    }
  }

  lemma {:induction false} CompactHas<X>(xs: seq<X>)
    ensures forall x :: x in Compact(xs) <==> x in xs
  {
    if |xs| > 1 {
      CompactHas(xs[1..]);
      assert xs == [xs[0]] + xs[1..];
      assert xs[1] in xs[1..];
    }
  }

  /** The first of different elements in order comes before all the others. */
  lemma {:induction false} FirstBefore<X(!new)>(le: Le<X>, xs: seq<X>, x: X)
    requires TotalOrder(le) && Antisymmetric(le) && |xs| > 1 && InOrder(le, xs) && xs[0] != xs[1] && x in xs[1..]
    ensures !le(x, xs[0])
  {
    assert le(xs[0], xs[1]) && le(xs[1], x);
  }

  /** Compacting what is in order leaves each once. */
  lemma {:induction false} CompactRises<X(!new)>(le: Le<X>, xs: seq<X>)
    requires TotalOrder(le) && Antisymmetric(le) && InOrder(le, xs)
    ensures Rising(le, Compact(xs))
  {
    if |xs| > 1 {
      CompactRises(le, xs[1..]);
      if xs[0] != xs[1] {
        CompactHas(xs[1..]);
        forall x | x in Compact(xs[1..])
          ensures !le(x, xs[0])
        {
          FirstBefore(le, xs, x);
        }
        assert Compact(xs)[1..] == Compact(xs[1..]);
      }
    }
  }

  /** Sorted and compacted: the same elements, each once, in order. */
  lemma {:induction false} Merged<X(!new)>(le: Le<X>, xs: seq<X>)
    requires TotalOrder(le) && Antisymmetric(le)
    ensures var r := Compact(Sorted(le, xs)); Rising(le, r) && |r| <= |xs| && forall x :: x in r <==> x in xs
  {
    SortedIs(le, xs);
    SortedHas(le, xs);
    CompactRises(le, Sorted(le, xs));
    CompactHas(Sorted(le, xs));
  }
}
