/**
 The discovery cache over a run of ticks: one complete answer of API discovery,
 served until its age, the server version or the CRDs say otherwise.
 */
module DiscoveryCache {

  /** One hour, in nanoseconds. */
  const MAX_AGE := 3_600_000_000_000

  /** What discovery returned. */
  type Answer = string

  datatype Asked = Complete(answer: Answer) | Error

  /** A read of discovery: the clock, and what the server would say if asked. */
  datatype Read = Read(now: int, asked: Asked)

  /** A tick: the clock at its start, the server version ("" when unread), its
      reads of discovery, and the CRDs' fingerprint at its end ("" when unread). */
  datatype Tick = Tick(begin: int, version: string, asks: seq<Read>, crds: string)

  datatype State = State(valid: bool, filled: int, answer: Answer, version: string, crds: string, stale: bool)

  const EMPTY := State(false, 0, "", "", "", false)

  function Drop(s: State): State {
    s.(valid := false, answer := "", crds := "")
  }

  function Begin(s: State, now: int): State {
    (if s.valid && (s.stale || now - s.filled >= MAX_AGE) then Drop(s) else s).(stale := false)
  }

  function Observe(s: State, v: string): State {
    (if s.valid && (v == "" || v != s.version) then Drop(s) else s).(version := v)
  }

  function ReadOnce(s: State, r: Read): State {
    if !s.valid && r.asked.Complete? then s.(valid := true, filled := r.now, answer := r.asked.answer, crds := "") else s
  }

  function ReadAll(s: State, asks: seq<Read>, n: nat): State
    requires n <= |asks|
  {
    if n == 0 then s else ReadOnce(ReadAll(s, asks, n - 1), asks[n - 1])
  }

  function End(s: State, fp: string): State {
    if !s.valid then s
    else if fp == "" then s.(stale := true)
    else if s.crds == "" then s.(crds := fp)
    else if fp != s.crds then s.(stale := true)
    else s
  }

  /** The state after the first t ticks. */
  function After(ticks: seq<Tick>, t: nat): State
    requires t <= |ticks|
    decreases t, 0
  {
    if t == 0 then EMPTY
    else
      var tick := ticks[t - 1];
      End(ReadAll(AtReads(ticks, t - 1), tick.asks, |tick.asks|), tick.crds)
  }

  /** The state when tick t's steps first read discovery. */
  function AtReads(ticks: seq<Tick>, t: nat): State
    requires t < |ticks|
    decreases t, 1
  {
    Observe(Begin(After(ticks, t), ticks[t].begin), ticks[t].version)
  }

  /** The first read answered in full. */
  function FirstComplete(asks: seq<Read>): (n: nat)
    ensures n <= |asks|
    ensures n < |asks| ==> asks[n].asked.Complete?
    ensures forall i :: 0 <= i < n ==> !asks[i].asked.Complete?
  {
    if asks == [] || asks[0].asked.Complete? then 0 else 1 + FirstComplete(asks[1..])
  }

  /** Reads of an empty cache are asked until one is answered in full, which
      every later one is served; those of a held answer are all served it. */
  lemma {:induction false} ReadsFill(s: State, asks: seq<Read>, n: nat)
    requires n <= |asks|
    ensures s.valid ==> ReadAll(s, asks, n) == s
    ensures !s.valid && n <= FirstComplete(asks) ==> ReadAll(s, asks, n) == s
    ensures !s.valid && n > FirstComplete(asks) ==>
              var r := asks[FirstComplete(asks)];
              ReadAll(s, asks, n) == s.(valid := true, filled := r.now, answer := r.asked.answer, crds := "")
  {
    if n != 0 {
      ReadsFill(s, asks, n - 1);
    }
  }

  /** Tick f found nothing held and filled the cache. */
  ghost predicate Fills(ticks: seq<Tick>, f: nat)
    requires f < |ticks|
  {
    !AtReads(ticks, f).valid && FirstComplete(ticks[f].asks) < |ticks[f].asks|
  }

  /** The read that filled it. */
  function Filling(ticks: seq<Tick>, f: nat): Read
    requires f < |ticks| && FirstComplete(ticks[f].asks) < |ticks[f].asks|
  {
    ticks[f].asks[FirstComplete(ticks[f].asks)]
  }

  /** From tick f to tick t the server version was read and the same, every tick
      before t read the CRDs with f's fingerprint, and every tick after f began
      within the hour. */
  ghost predicate Unchanged(ticks: seq<Tick>, f: nat, t: nat)
    requires f < t < |ticks| && FirstComplete(ticks[f].asks) < |ticks[f].asks|
  {
    && ticks[f].version != "" && (forall k :: f <= k <= t ==> ticks[k].version == ticks[f].version)
    && ticks[f].crds != "" && (forall k :: f <= k < t ==> ticks[k].crds == ticks[f].crds)
    && (forall k :: f < k <= t ==> ticks[k].begin - Filling(ticks, f).now < MAX_AGE)
  }

  lemma {:induction false} FilledState(ticks: seq<Tick>, f: nat)
    requires f < |ticks| && Fills(ticks, f)
    ensures var s := After(ticks, f + 1);
            && s.valid && s.filled == Filling(ticks, f).now && s.answer == Filling(ticks, f).asked.answer
            && s.version == ticks[f].version && s.crds == ticks[f].crds && (s.stale <==> ticks[f].crds == "")
  {
    ReadsFill(AtReads(ticks, f), ticks[f].asks, |ticks[f].asks|);
  }

  lemma {:induction false} UnchangedIsHeld(ticks: seq<Tick>, f: nat, t: nat)
    requires f < t < |ticks| && Fills(ticks, f) && Unchanged(ticks, f, t)
    ensures AtReads(ticks, t) == State(true, Filling(ticks, f).now, Filling(ticks, f).asked.answer, ticks[f].version,
                                       ticks[f].crds, false)
  {
    FilledState(ticks, f);
    if t != f + 1 {
      UnchangedIsHeld(ticks, f, t - 1);
      ReadsFill(AtReads(ticks, t - 1), ticks[t - 1].asks, |ticks[t - 1].asks|);
      assert ticks[t - 1].crds == ticks[f].crds;
    }
    assert ticks[t].version == ticks[f].version;
  }

  lemma {:induction false} UnchangedFurther(ticks: seq<Tick>, f: nat, t: nat)
    requires f < t && t + 1 < |ticks| && Fills(ticks, f) && Unchanged(ticks, f, t) && AtReads(ticks, t + 1).valid
    ensures Unchanged(ticks, f, t + 1)
  {
    UnchangedIsHeld(ticks, f, t);
    ReadsFill(AtReads(ticks, t), ticks[t].asks, |ticks[t].asks|);
    assert ticks[t + 1].version == ticks[f].version;
    assert ticks[t].crds == ticks[f].crds;
  }

  lemma {:induction false} UnchangedAtFirst(ticks: seq<Tick>, f: nat)
    requires f + 1 < |ticks| && Fills(ticks, f) && AtReads(ticks, f + 1).valid
    ensures Unchanged(ticks, f, f + 1)
  {
    FilledState(ticks, f);
  }

  lemma {:induction false} HeldIsUnchanged(ticks: seq<Tick>, t: nat) returns (f: nat)
    requires t < |ticks| && AtReads(ticks, t).valid
    ensures f < t && Fills(ticks, f) && Unchanged(ticks, f, t)
  {
    ReadsFill(AtReads(ticks, t - 1), ticks[t - 1].asks, |ticks[t - 1].asks|);
    if AtReads(ticks, t - 1).valid {
      f := HeldIsUnchanged(ticks, t - 1);
      UnchangedFurther(ticks, f, t - 1);
    } else {
      f := t - 1;
      UnchangedAtFirst(ticks, f);
    }
  }

  /** What a read returns, and whether the server was asked for it. */
  datatype Reply = Reply(result: Asked, asked: bool)

  /** What the n-th read of tick t returns: the answer held, or the server's own. */
  function Returned(ticks: seq<Tick>, t: nat, n: nat): Reply
    requires t < |ticks| && n < |ticks[t].asks|
  {
    var s := ReadAll(AtReads(ticks, t), ticks[t].asks, n);
    if s.valid then Reply(Complete(s.answer), false) else Reply(ticks[t].asks[n].asked, true)
  }

  /** Tick f filled the cache and nothing it watches has changed up to tick t. */
  ghost predicate Serves(ticks: seq<Tick>, f: nat, t: nat)
    requires f < t < |ticks|
    decreases f, 1
  {
    !Served(ticks, f) && FirstComplete(ticks[f].asks) < |ticks[f].asks| && Unchanged(ticks, f, t)
  }

  ghost predicate Served(ticks: seq<Tick>, t: nat)
    requires t < |ticks|
    decreases t, 0
  {
    exists f :: 0 <= f < t && Serves(ticks, f, t)
  }

  /** In every run a tick serves a held answer if and only if some earlier tick
      filled it and nothing the cache watches changed since: the same server
      version observed in every tick between, the same CRDs read in every one
      before, and less than an hour of age at the start of each. */
  lemma {:induction false} ServedExactly(ticks: seq<Tick>, t: nat)
    requires t < |ticks|
    ensures AtReads(ticks, t).valid <==> Served(ticks, t)
  {
    forall f | 0 <= f < t
      ensures AtReads(ticks, f).valid <==> Served(ticks, f)
    {
      ServedExactly(ticks, f);
    }
    if AtReads(ticks, t).valid {
      var f := HeldIsUnchanged(ticks, t);
      assert Serves(ticks, f, t);
    }
    if f :| 0 <= f < t && Serves(ticks, f, t) {
      UnchangedIsHeld(ticks, f, t);
    }
  }

  /** A served tick asks nothing and returns the answer of the tick that filled the
      cache; any other asks until a read is answered in full, and returns that answer
      from then on. */
  ghost predicate Answers(ticks: seq<Tick>, t: nat, n: nat, r: Reply)
    requires t < |ticks| && n < |ticks[t].asks|
  {
    if Served(ticks, t) then
      !r.asked && forall f :: 0 <= f < t && Serves(ticks, f, t) ==> r.result == Filling(ticks, f).asked
    else
      var full := FirstComplete(ticks[t].asks);
      r.asked == (n <= full) && r.result == ticks[t].asks[if n <= full then n else full].asked
  }

  lemma {:induction false} ReturnedIsRight(ticks: seq<Tick>, t: nat, n: nat)
    requires t < |ticks| && n < |ticks[t].asks|
    ensures Answers(ticks, t, n, Returned(ticks, t, n))
  {
    ReadsFill(AtReads(ticks, t), ticks[t].asks, n);
    ServedExactly(ticks, t);
    forall f | 0 <= f < t && Serves(ticks, f, t)
      ensures AtReads(ticks, t).answer == Filling(ticks, f).asked.answer
    {
      ServedExactly(ticks, f);
      UnchangedIsHeld(ticks, f, t);
    }
  }

  /* ---------- the cache itself ---------- */

  class Cache {
    var valid: bool
    var filled: int
    var answer: Answer
    var version: string
    var crds: string
    var stale: bool

    ghost function Now(): State
      reads this
    {
      State(valid, filled, answer, version, crds, stale)
    }

    constructor ()
      ensures Now() == EMPTY
    {
      valid, filled, answer, version, crds, stale := false, 0, "", "", "", false;
    }

    method DropLocked()
      modifies this
      ensures Now() == Drop(old(Now()))
    {
      valid, answer, crds := false, "", "";
    }

    method BeginTick(now: int)
      modifies this
      ensures Now() == Begin(old(Now()), now)
    {
      if valid && (stale || now - filled >= MAX_AGE) {
        DropLocked();
      }
      stale := false;
    }

    method ObserveVersion(v: string)
      modifies this
      ensures Now() == Observe(old(Now()), v)
    {
      if valid && (v == "" || v != version) {
        DropLocked();
      }
      version := v;
    }

    /** ServerGroupsAndResources: the held answer, or the server's, kept when complete. */
    method GroupsAndResources(r: Read) returns (reply: Reply)
      modifies this
      ensures Now() == ReadOnce(old(Now()), r)
      ensures reply == if old(valid) then Reply(Complete(old(answer)), false) else Reply(r.asked, true)
    {
      if valid {
        return Reply(Complete(answer), false);
      }
      if r.asked.Complete? {
        valid, filled, answer, crds := true, r.now, r.asked.answer, "";
      }
      return Reply(r.asked, true);
    }

    method EndTick(fp: string)
      modifies this
      ensures Now() == End(old(Now()), fp)
    {
      if !valid {
        return;
      }
      if fp == "" {
        stale := true;
      } else if crds == "" {
        crds := fp;
      } else if fp != crds {
        stale := true;
      }
    }
  }

  /** The replies to the first n reads of tick t. */
  ghost predicate AnswersTo(ticks: seq<Tick>, t: nat, row: seq<Reply>)
    requires t < |ticks|
  {
    |row| <= |ticks[t].asks| && forall n :: 0 <= n < |row| ==> Answers(ticks, t, n, row[n])
  }

  ghost predicate AnswersAll(ticks: seq<Tick>, results: seq<seq<Reply>>) {
    && |results| <= |ticks|
    && forall t :: 0 <= t < |results| ==> |results[t]| == |ticks[t].asks| && AnswersTo(ticks, t, results[t])
  }

  /** A run of ticks on one cache answers every read of every tick. */
  method RunTicks(ticks: seq<Tick>) returns (results: seq<seq<Reply>>)
    ensures |results| == |ticks| && AnswersAll(ticks, results)
  {
    var c := new Cache();
    results := [];
    for t := 0 to |ticks|
      invariant c.Now() == After(ticks, t) && |results| == t && AnswersAll(ticks, results)
    {
      var row := RunTick(c, ticks, t);
      results := results + [row];
    }
  }

  method RunTick(c: Cache, ticks: seq<Tick>, t: nat) returns (row: seq<Reply>)
    requires t < |ticks| && c.Now() == After(ticks, t)
    modifies c
    ensures c.Now() == After(ticks, t + 1) && |row| == |ticks[t].asks| && AnswersTo(ticks, t, row)
  {
    c.BeginTick(ticks[t].begin);
    c.ObserveVersion(ticks[t].version);
    row := [];
    for n := 0 to |ticks[t].asks|
      invariant c.Now() == ReadAll(AtReads(ticks, t), ticks[t].asks, n) && |row| == n && AnswersTo(ticks, t, row)
    {
      ReturnedIsRight(ticks, t, n);
      var reply := c.GroupsAndResources(ticks[t].asks[n]);
      row := row + [reply];
    }
    c.EndTick(ticks[t].crds);
  }
}
