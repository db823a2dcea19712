/** In-tree volume plugin counts, by plugin and namespace (volumeTally). */
module VolumeTally {

  /** A plugin's uses, in all and by namespace. */
  datatype Row = Row(count: nat, byNs: map<string, nat>)

  type Tally = map<string, Row>

  type Uses = multiset<(string, string)>

  function Count(t: Tally, plugin: string, ns: string): nat {
    if plugin in t && ns in t[plugin].byNs then t[plugin].byNs[ns] else 0
  }

  /** The sum of a row's counts. */
  ghost function Sum(m: map<string, nat>): nat {
    if m == map[] then 0
    else
      var k :| k in m;
      m[k] + Sum(m - {k})
  }

  /** Whichever is added first. */
  lemma {:induction false} SumOne(m: map<string, nat>, k: string)
    requires k in m
    ensures Sum(m) == m[k] + Sum(m - {k})
    decreases |m|
  {
    var j :| j in m && Sum(m) == m[j] + Sum(m - {j});
    if j != k {
      SumOne(m - {j}, k);
      SumOne(m - {k}, j);
      assert m - {j} - {k} == m - {k} - {j};
    }
  }

  lemma {:induction false} SumMore(m: map<string, nat>, k: string, n: nat)
    ensures Sum(m[k := (if k in m then m[k] else 0) + n]) == Sum(m) + n
  {
    var more: map<string, nat> := m[k := (if k in m then m[k] else 0) + n];
    SumOne(more, k);
    assert more - {k} == m - {k};
    if k in m {
      SumOne(m, k);
    } else {
      assert m - {k} == m;
    }
  }

  /** No row is empty, no count is zero, and a row's count is the sum of its
      namespaces'. */
  ghost predicate Tidy(t: Tally) {
    forall p :: p in t ==> TidyRow(t[p])
  }

  ghost predicate TidyRow(row: Row) {
    row.byNs != map[] && row.count == Sum(row.byNs) && Positive(row.byNs)
  }

  ghost predicate Positive(m: map<string, nat>) {
    forall ns :: ns in m ==> m[ns] > 0
  }

  /** The tally counts exactly these uses. */
  ghost predicate Tallies(t: Tally, uses: Uses) {
    Tidy(t) && forall p, ns :: Count(t, p, ns) == uses[(p, ns)]
  }

  /** Tallies of the same uses are the same rows. */
  lemma {:induction false} SameUsesSameTally(a: Tally, b: Tally, uses: Uses)
    requires Tallies(a, uses) && Tallies(b, uses)
    ensures a == b
  {
    RowsWithin(a, b, uses);
    RowsWithin(b, a, uses);
    forall p | p in a
      ensures a[p] == b[p]
    {
      forall ns | ns in a[p].byNs || ns in b[p].byNs
        ensures ns in a[p].byNs && ns in b[p].byNs && a[p].byNs[ns] == b[p].byNs[ns]
      {
        assert Count(a, p, ns) == Count(b, p, ns);
      }
      assert a[p].byNs == b[p].byNs && TidyRow(a[p]) && TidyRow(b[p]);
    }
  }

  lemma {:induction false} RowsWithin(a: Tally, b: Tally, uses: Uses)
    requires Tallies(a, uses) && Tallies(b, uses)
    ensures forall p :: p in a ==> p in b
  {
    forall p | p in a
      ensures p in b
    {
      assert TidyRow(a[p]);
      var ns :| ns in a[p].byNs;
      assert Count(a, p, ns) == Count(b, p, ns);
    }
  }

  method Add(t: Tally, plugin: string, ns: string, n: nat, ghost uses: Uses) returns (r: Tally)
    requires Tallies(t, uses) && n > 0
    ensures Tallies(r, uses[(plugin, ns) := uses[(plugin, ns)] + n])
  {
    var row := Counted(if plugin in t then t[plugin] else Row(0, map[]), ns, n);
    r := t[plugin := row];
  }

  /** One namespace of a row counted n more times. */
  function Counted(row: Row, ns: string, n: nat): (r: Row)
    requires n > 0 && (row == Row(0, map[]) || TidyRow(row))
    ensures TidyRow(r)
    ensures forall k :: (k in r.byNs <==> k == ns || k in row.byNs) &&
              (k in r.byNs && k != ns ==> r.byNs[k] == row.byNs[k])
    ensures r.byNs[ns] == (if ns in row.byNs then row.byNs[ns] else 0) + n
  {
    SumMore(row.byNs, ns, n);
    Row(row.count + n, row.byNs[ns := (if ns in row.byNs then row.byNs[ns] else 0) + n])
  }

  /** One use of each plugin, in one namespace. */
  function PodUses(plugins: seq<string>, ns: string): seq<(string, string)> {
    seq(|plugins|, i requires 0 <= i < |plugins| => (plugins[i], ns))
  }

  lemma {:induction false} OneMore(us: Uses, xs: seq<(string, string)>, i: nat)
    requires i < |xs|
    ensures var before := us + multiset(xs[..i]);
            us + multiset(xs[..i + 1]) == before[xs[i] := before[xs[i]] + 1]
  {
    assert xs[..i + 1] == xs[..i] + [xs[i]];
  }

  /** addPod: one more use of each of a pod's plugins. */
  method AddPod(t: Tally, plugins: seq<string>, ns: string, ghost uses: Uses) returns (r: Tally)
    requires Tallies(t, uses)
    ensures Tallies(r, uses + multiset(PodUses(plugins, ns)))
  {
    r := t;
    ghost var all := PodUses(plugins, ns);
    for i := 0 to |plugins|
      invariant Tallies(r, uses + multiset(all[..i]))
    {
      ghost var before := uses + multiset(all[..i]);
      OneMore(uses, all, i);
      r := Add(r, plugins[i], ns, 1, before);
    }
    assert all[..|plugins|] == all;
  }

  /** Adds the namespaces of one row that are wanted. */
  method AddRow(t: Tally, plugin: string, row: map<string, nat>, but: set<string>, ghost uses: Uses)
    returns (r: Tally, ghost sum: Uses)
    requires Tallies(t, uses) && Positive(row)
    ensures Tallies(r, sum)
    ensures forall p, ns :: sum[(p, ns)] ==
              uses[(p, ns)] + (if p == plugin && ns in row && ns !in but then row[ns] else 0)
  {
    r, sum := t, uses;
    var todo := row.Keys - but;
    while todo != {}
      invariant todo <= row.Keys - but && Tallies(r, sum)
      invariant forall p, ns :: sum[(p, ns)] ==
                  uses[(p, ns)] + (if p == plugin && ns in row.Keys - but - todo then row[ns] else 0)
      decreases todo
    {
      var ns :| ns in todo;
      r := Add(r, plugin, ns, row[ns], sum);
      sum := sum[(plugin, ns) := sum[(plugin, ns)] + row[ns]];
      todo := todo - {ns};
    }
  }

  method AddRows(t: Tally, o: Tally, but: set<string>, ghost uses: Uses)
    returns (r: Tally, ghost sum: Uses)
    requires Tallies(t, uses) && Tidy(o)
    ensures Tallies(r, sum)
    ensures forall p, ns :: sum[(p, ns)] == uses[(p, ns)] + (if ns in but then 0 else Count(o, p, ns))
  {
    r, sum := t, uses;
    var todo := o.Keys;
    while todo != {}
      invariant todo <= o.Keys && Tallies(r, sum)
      invariant forall p, ns :: sum[(p, ns)] ==
                  uses[(p, ns)] + (if p in todo || ns in but then 0 else Count(o, p, ns))
      decreases todo
    {
      var p :| p in todo;
      r, sum := AddRow(r, p, o[p].byNs, but, sum);
      todo := todo - {p};
    }
  }

  /** merge: the uses of both. */
  method Merge(t: Tally, o: Tally, ghost us: Uses, ghost vs: Uses)
    returns (r: Tally)
    requires Tallies(t, us) && Tallies(o, vs)
    ensures Tallies(r, us + vs)
  {
    ghost var sum;
    r, sum := AddRows(t, o, {}, us);
    assert sum == us + vs by {
      forall x: (string, string)
        ensures sum[x] == (us + vs)[x]
      {
        assert x == (x.0, x.1);
      }
    }
  }

  /** without: the uses outside one namespace. */
  method Without(t: Tally, ns: string, ghost us: Uses, ghost vs: Uses)
    returns (r: Tally)
    requires Tallies(t, us) && forall x: (string, string) :: vs[x] == if x.1 == ns then 0 else us[x]
    ensures Tallies(r, vs)
  {
    ghost var sum;
    r, sum := AddRows(map[], t, {ns}, multiset{});
    assert sum == vs by {
      forall x: (string, string)
        ensures sum[x] == vs[x]
      {
        assert x == (x.0, x.1);
      }
    }
  }
}
