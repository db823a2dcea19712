/**
 The pusher's one-snapshot buffer under concurrent offers and flushes: a flush
 takes the buffered snapshot, sends it without the lock, and clears it by
 identity.
 */
module PushBuffer {

  /** Snapshots are named by the order of their offers, as pointers tell them apart. */
  datatype Flush = Idle | Sending(snap: nat) | Clearing(snap: nat)

  datatype Buffer = Empty | Holds(snap: nat)

  /** settled: the snapshots a server accepted or refused for good. */
  datatype State = State(pending: Buffer, offered: nat, flushes: map<nat, Flush>, settled: set<nat>)

  datatype Answer = Final | Transient | GaveUp

  datatype Action =
    | Offer
    | Take(f: nat)
    | Hear(f: nat, answer: Answer)
    | Clear(f: nat)

  function At(s: State, f: nat): Flush {
    if f in s.flushes then s.flushes[f] else Idle
  }

  predicate Enabled(s: State, a: Action) {
    match a
    case Offer => true
    case Take(f) => At(s, f).Idle? && s.pending.Holds?
    case Hear(f, answer) => At(s, f).Sending?
    case Clear(f) => At(s, f).Clearing?
  }

  function Apply(s: State, a: Action): State
    requires Enabled(s, a)
  {
    match a
    case Offer => s.(pending := Holds(s.offered), offered := s.offered + 1)
    case Take(f) => s.(flushes := s.flushes[f := Sending(s.pending.snap)])
    case Hear(f, answer) =>
      var snap := At(s, f).snap;
      (match answer
       case Final => s.(flushes := s.flushes[f := Clearing(snap)], settled := s.settled + {snap})
       case Transient => s
       case GaveUp => s.(flushes := s.flushes[f := Idle]))
    case Clear(f) =>
      s.(flushes := s.flushes[f := Idle],
         pending := if s.pending == Holds(At(s, f).snap) then Empty else s.pending)
  }

  function Perform(s: State, acts: seq<Action>): State
    decreases |acts|
  {
    if acts == [] then s
    else
      var before := Perform(s, acts[..|acts| - 1]);
      if Enabled(before, acts[|acts| - 1]) then Apply(before, acts[|acts| - 1]) else before
  }

  const INIT := State(Empty, 0, map[], {})

  /** The buffer holds the latest offer or nothing, and nothing only once that
      offer is settled; a flush is of an offer made before. */
  ghost predicate Inv(s: State) {
    && (s.pending.Holds? ==> s.pending.snap + 1 == s.offered)
    && (s.pending.Empty? && s.offered > 0 ==> s.offered - 1 in s.settled)
    && (forall f :: At(s, f).Sending? ==> At(s, f).snap < s.offered)
    && (forall f :: At(s, f).Clearing? ==> At(s, f).snap < s.offered && At(s, f).snap in s.settled)
  }

  lemma {:induction false} StepKeepsInv(s: State, a: Action)
    requires Inv(s) && Enabled(s, a)
    ensures Inv(Apply(s, a))
  {
    var t := Apply(s, a);
    forall f
      ensures At(t, f) == At(s, f) || a.Take? || a.Hear? || a.Clear?
    {
    }
  }

  /** In every interleaving of offers and flushes, the latest snapshot offered is
      buffered, or was accepted or refused for good: none is lost to a flush of
      an older one. */
  lemma {:induction false} LatestNeverLost(acts: seq<Action>)
    ensures var s := Perform(INIT, acts);
            Inv(s) && (s.offered > 0 ==> s.pending == Holds(s.offered - 1) || s.offered - 1 in s.settled)
  {
    if acts != [] {
      LatestNeverLost(acts[..|acts| - 1]);
      var before := Perform(INIT, acts[..|acts| - 1]);
      if Enabled(before, acts[|acts| - 1]) {
        StepKeepsInv(before, acts[|acts| - 1]);
      }
    }
  }

  /** An offer made while a flush is sending survives that flush's clear, whatever
      else happens meanwhile, until a flush of its own settles it. */
  lemma {:induction false} OfferSurvives(s: State, acts: seq<Action>, snap: nat)
    requires Inv(s) && s.pending == Holds(snap)
    requires forall a :: a in acts ==> !a.Offer?
    ensures var t := Perform(s, acts);
            Inv(t) && t.offered == s.offered && (t.pending == Holds(snap) || snap in t.settled)
  {
    if acts != [] {
      OfferSurvives(s, acts[..|acts| - 1], snap);
      var before := Perform(s, acts[..|acts| - 1]);
      assert acts[|acts| - 1] in acts;
      if Enabled(before, acts[|acts| - 1]) {
        StepKeepsInv(before, acts[|acts| - 1]);
      }
    }
  }
}

/** The agent's push gate and its retries between ticks, over any run of ticks. */
module AgentPush {

  const PUSH_RETRIES := 3

  /** A buffered snapshot: the tick that made it and its content's hash. */
  datatype Snapshot = Snapshot(tick: nat, hash: string)

  datatype Buffered = Nothing | Kept(snap: Snapshot)

  datatype Answer = Accepted | Refused | Transient

  /** What the network does during one flush: the answer to each attempt, and
      whether the wait after it ran out or was cut short. */
  datatype Network = Network(answer: nat -> Answer, waited: nat -> bool)

  /** The attempt a flush ends with, from the n-th on: the first that is answered
      for good, or whose wait is cut short, or the last allowed. */
  function LastAttempt(net: Network, n: nat): (k: nat)
    requires n <= PUSH_RETRIES
    ensures n <= k <= PUSH_RETRIES
    decreases PUSH_RETRIES - n
  {
    if n == PUSH_RETRIES || net.answer(n) != Transient || !net.waited(n) then n else LastAttempt(net, n + 1)
  }

  function Verdict(net: Network): Answer {
    net.answer(LastAttempt(net, 0))
  }

  /** The server accepts the snapshot in some attempt of the flush. */
  predicate Accepts(net: Network) {
    Verdict(net) == Accepted
  }

  /** It refuses it for good. */
  predicate Refuses(net: Network) {
    Verdict(net) == Refused
  }

  /** Some attempt gets this answer, every earlier one a transient failure that
      was waited for. */
  ghost predicate Comes(net: Network, answer: Answer) {
    exists i :: 0 <= i <= PUSH_RETRIES && ComesAt(net, answer, i)
  }

  ghost predicate ComesAt(net: Network, answer: Answer, i: nat) {
    net.answer(i) == answer && forall j :: 0 <= j < i ==> net.answer(j) == Transient && net.waited(j)
  }

  lemma {:induction false} LastAttemptIs(net: Network, n: nat)
    requires n <= PUSH_RETRIES
    ensures forall j :: n <= j < LastAttempt(net, n) ==> net.answer(j) == Transient && net.waited(j)
    ensures var k := LastAttempt(net, n); k == PUSH_RETRIES || net.answer(k) != Transient || !net.waited(k)
    decreases PUSH_RETRIES - n
  {
    if LastAttempt(net, n) != n {
      LastAttemptIs(net, n + 1);
    }
  }

  /** The server accepts, or refuses for good, if and only if some attempt gets
      that answer after transient failures that were waited for. */
  lemma {:induction false} VerdictComes(net: Network, answer: Answer)
    requires answer != Transient
    ensures Verdict(net) == answer <==> Comes(net, answer)
  {
    LastAttemptIs(net, 0);
    var k := LastAttempt(net, 0);
    if Verdict(net) == answer {
      assert ComesAt(net, answer, k);
    }
    if i :| 0 <= i <= PUSH_RETRIES && ComesAt(net, answer, i) {
      assert !(k < i) && !(i < k);
    }
  }

  /** The retries of one wait: how many rounds fit, the network in each, whether the
      time ended during it, and the clock after it. */
  datatype Retries = Retries(rounds: nat, net: nat -> Network, ended: nat -> bool, clock: nat -> int)

  /** The n-th round leaves the snapshot buffered and time for another. */
  ghost predicate GoesOn(rs: Retries, n: nat) {
    !rs.ended(n) && !Accepts(rs.net(n)) && !Refuses(rs.net(n))
  }

  /** The n-th round is run: every one before it goes on. */
  ghost predicate Reaches(rs: Retries, n: nat) {
    n < rs.rounds && AllGoOn(rs, n)
  }

  ghost predicate AllGoOn(rs: Retries, n: nat) {
    forall k :: 0 <= k < n ==> GoesOn(rs, k)
  }

  /** A round run delivers. */
  ghost predicate Delivers(rs: Retries) {
    exists n :: Reaches(rs, n) && Accepts(rs.net(n))
  }

  /** A round run is refused for good as the time ends. */
  ghost predicate RefusedAtEnd(rs: Retries) {
    exists n :: Reaches(rs, n) && rs.ended(n) && Refuses(rs.net(n))
  }

  /** A round run is refused for good with time left. */
  ghost predicate RefusedInTime(rs: Retries) {
    exists n :: Reaches(rs, n) && !rs.ended(n) && Refuses(rs.net(n))
  }

  /** How often the first n rounds send. */
  function Sends(rs: Retries, n: nat): nat {
    if n == 0 then 0 else Sends(rs, n - 1) + LastAttempt(rs.net(n - 1), 0) + 1
  }

  /** How many rounds are run. */
  ghost function RoundsRun(rs: Retries, n: nat): nat
    requires n <= rs.rounds
    decreases rs.rounds - n
  {
    if n == rs.rounds then n else if GoesOn(rs, n) then RoundsRun(rs, n + 1) else n + 1
  }

  /** At most one of a run's rounds ends it. */
  lemma {:induction false} OneEnding(rs: Retries, m: nat, n: nat)
    requires Reaches(rs, m) && Reaches(rs, n) && !GoesOn(rs, m) && !GoesOn(rs, n)
    ensures m == n
  {
  }

  /** What a tick gives maybePush: whether it marshals, its content's hash,
      whether a server would admit it, and whether the cluster has a name. */
  datatype Inventory = Inventory(marshals: bool, hash: Hash, admitted: bool, named: bool)

  /** A content's hash, never empty. */
  type Hash = s: string | s != "" witness "h"

  datatype Result = Pushed | Unchanged | Failed

  /** Ticks in order, repeats allowed. */
  ghost predicate InOrder(log: seq<Snapshot>) {
    forall i, j :: 0 <= i < j < |log| ==> log[i].tick <= log[j].tick
  }

  ghost function LastHash(log: seq<Snapshot>): string {
    if log == [] then "" else log[|log| - 1].hash
  }

  ghost function LastTime(times: seq<int>): int {
    if times == [] then 0 else times[|times| - 1]
  }

  /** The content was the last one delivered, less than forceSync before now; times
      are the clock's at each delivery. */
  ghost predicate Recent(delivered: seq<Snapshot>, times: seq<int>, hash: Hash, now: int, forceSync: int) {
    && delivered != [] && delivered[|delivered| - 1].hash == hash
    && |times| == |delivered| && now - times[|times| - 1] < forceSync
  }

  /** The clock when the retries deliver. */
  ghost function ClockOf(rs: Retries): int
    requires Delivers(rs)
  {
    var n :| Reaches(rs, n) && Accepts(rs.net(n));
    rs.clock(n)
  }

  lemma {:induction false} ClockIs(rs: Retries, n: nat)
    requires Reaches(rs, n) && Accepts(rs.net(n))
    ensures Delivers(rs) && ClockOf(rs) == rs.clock(n)
  {
    var m :| Reaches(rs, m) && Accepts(rs.net(m)) && ClockOf(rs) == rs.clock(m);
    OneEnding(rs, m, n);
  }

  /** The log with what the retries of a snapshot deliver, and when. */
  ghost predicate RetriesAdd(rs: Retries, snap: Snapshot, before: seq<Snapshot>, clocks: seq<int>, after: seq<Snapshot>,
                             clocks': seq<int>)
  {
    if Delivers(rs) then after == before + [snap] && clocks' == clocks + [ClockOf(rs)] else after == before && clocks' == clocks
  }

  lemma {:induction false} RetriesAddAt(rs: Retries, n: nat, snap: Snapshot, before: seq<Snapshot>, clocks: seq<int>, after: seq<Snapshot>,
                     clocks': seq<int>)
    requires Reaches(rs, n) && !GoesOn(rs, n)
    requires if Accepts(rs.net(n)) then after == before + [snap] && clocks' == clocks + [rs.clock(n)]
             else after == before && clocks' == clocks
    ensures RetriesAdd(rs, snap, before, clocks, after, clocks')
  {
    EndedAt(rs, n);
    if Accepts(rs.net(n)) {
      ClockIs(rs, n);
    }
  }

  /** What was sent and what of it was delivered, up to a tick. */
  ghost predicate Logs(sent: seq<Snapshot>, delivered: seq<Snapshot>, tick: nat) {
    && InOrder(sent) && InOrder(delivered)
    && (forall d :: d in delivered ==> d in sent)
    && (forall d :: d in sent ==> d.tick <= tick)
  }

  lemma {:induction false} LogsSend(sent: seq<Snapshot>, delivered: seq<Snapshot>, snap: Snapshot)
    requires Logs(sent, delivered, snap.tick)
    ensures Logs(sent + [snap], delivered, snap.tick)
    ensures Logs(sent + [snap], delivered + [snap], snap.tick)
  {
    assert forall d :: d in delivered ==> d in sent;
  }

  /** The log grew by repeats of one snapshot. */
  ghost predicate Grew(before: seq<Snapshot>, after: seq<Snapshot>, snap: Snapshot) {
    before <= after && forall i :: |before| <= i < |after| ==> after[i] == snap
  }

  lemma {:induction false} GrewFurther(a: seq<Snapshot>, b: seq<Snapshot>, c: seq<Snapshot>, snap: Snapshot)
    requires Grew(a, b, snap) && Grew(b, c, snap)
    ensures Grew(a, c, snap)
  {
    forall i | |a| <= i < |c|
      ensures c[i] == snap
    {
      assert i < |b| ==> c[i] == b[i];
    }
  }

  class Runner {
    const forceSync: int
    var lastHash: string
    var lastPush: int
    var retryPending: bool
    var pendingHash: string
    var pending: Buffered
    var tick: nat
    ghost var sent: seq<Snapshot>
    ghost var delivered: seq<Snapshot>
    ghost var times: seq<int>

    /** The gate holds the hash and the clock of the last delivery. */
    ghost predicate Valid()
      reads this
    {
      && lastHash == LastHash(delivered) && lastPush == LastTime(times) && |times| == |delivered|
      && Logs(sent, delivered, tick)
      && (pending.Kept? ==> pending.snap.tick <= tick)
      && (retryPending && pending.Kept? ==> pending.snap == Snapshot(tick, pendingHash))
    }

    constructor (forceSync: int)
      ensures Valid() && tick == 0 && sent == [] && delivered == [] && times == [] && !retryPending
      ensures this.forceSync == forceSync
    {
      this.forceSync := forceSync;
      lastHash, lastPush, retryPending, pendingHash, pending := "", 0, false, "", Nothing;
      tick, sent, delivered, times := 0, [], [], [];
    }

    /** flush: up to four attempts of the buffered snapshot. It stays buffered
        when none was final, and its delivery alone is success. */
    method Flush(net: Network) returns (ok: bool)
      requires Valid() && (pending.Kept? ==> pending.snap.tick == tick)
      modifies this`sent, this`delivered, this`pending
      ensures Logs(sent, delivered, tick)
      ensures old(pending) == Nothing ==> ok && sent == old(sent) && delivered == old(delivered) && pending == Nothing
      ensures old(pending).Kept? ==> Grew(old(sent), sent, old(pending).snap)
      ensures old(pending).Kept? ==> |sent| == |old(sent)| + LastAttempt(net, 0) + 1
      ensures old(pending).Kept? ==> (ok <==> Accepts(net))
      ensures old(pending).Kept? ==> (pending == Nothing <==> Accepts(net) || Refuses(net))
      ensures old(pending).Kept? && ok ==> delivered == old(delivered) + [old(pending).snap]
      ensures !ok ==> delivered == old(delivered) && (pending == Nothing || pending == old(pending))
    {
      if pending.Nothing? {
        return true;
      }
      var snap := pending.snap;
      var attempt := 0;
      while true
        invariant 0 <= attempt <= PUSH_RETRIES
        invariant pending == old(pending) == Kept(snap) && delivered == old(delivered)
        invariant Logs(sent, delivered, tick)
        invariant Grew(old(sent), sent, snap) && |sent| == |old(sent)| + attempt
        invariant LastAttempt(net, 0) == LastAttempt(net, attempt)
        decreases PUSH_RETRIES - attempt
      {
        var answer := net.answer(attempt);
        LogsSend(sent, delivered, snap);
        sent := sent + [snap];
        ok := answer.Accepted?;
        if ok {
          delivered := delivered + [snap];
        }
        if !answer.Transient? {
          pending := Nothing;
          return;
        }
        if attempt == PUSH_RETRIES || !net.waited(attempt) {
          return;
        }
        attempt := attempt + 1;
      }
    }

    /** The gate: the content is the one delivered last, and not too long ago. */
    predicate Current(inv: Inventory, now: int)
      reads this
    {
      inv.marshals && inv.hash == lastHash && now - lastPush < forceSync
    }

    /** The content was delivered last, and recently. */
    ghost predicate WasRecent(inv: Inventory, now: int)
      reads this
    {
      inv.marshals && Recent(delivered, times, inv.hash, now, forceSync)
    }

    lemma {:induction false} GateIsRecent(inv: Inventory, now: int)
      requires Valid()
      ensures Current(inv, now) <==> WasRecent(inv, now)
    {
    }

    /** maybePush, at the start of tick's push. It is quiet exactly when its content
        is the last delivered and that was recent. A tick that does not fail leaves
        its own content the last delivered; one that fails delivers nothing, and
        leaves its snapshot to retry exactly when it is still buffered. */
    method MaybePush(inv: Inventory, now: int, later: int, net: Network) returns (r: Result)
      requires Valid()
      modifies this
      ensures Valid() && tick == old(tick) + 1
      ensures r.Unchanged? <==> old(WasRecent(inv, now))
      ensures r.Unchanged? ==> sent == old(sent) && delivered == old(delivered) && times == old(times)
      ensures r.Pushed? ==> delivered == old(delivered) + [Snapshot(tick, inv.hash)] && times == old(times) + [later]
      ensures r.Failed? ==> delivered == old(delivered) && times == old(times)
      ensures !r.Failed? ==> inv.marshals && LastHash(delivered) == inv.hash
      ensures Grew(old(sent), sent, Snapshot(tick, inv.hash))
      ensures sent != old(sent) <==> inv.marshals && !old(WasRecent(inv, now)) && inv.admitted && inv.named
      ensures sent != old(sent) ==> (r.Pushed? <==> Accepts(net)) && |sent| == |old(sent)| + LastAttempt(net, 0) + 1
      ensures retryPending <==> sent != old(sent) && !Accepts(net) && !Refuses(net)
      ensures retryPending ==> pending == Kept(Snapshot(tick, pendingHash)) && r.Failed? && inv.hash == pendingHash
    {
      GateIsRecent(inv, now);
      tick := tick + 1;
      retryPending := false;
      if !inv.marshals {
        return Failed;
      }
      if inv.hash == lastHash && now - lastPush < forceSync {
        return Unchanged;
      }
      if !inv.admitted || !inv.named {
        return Failed;
      }
      r := PushNow(inv.hash, later, net);
    }

    /** Offers the tick's snapshot and flushes it. */
    method PushNow(hash: string, later: int, net: Network) returns (r: Result)
      requires Valid() && !retryPending
      modifies this
      ensures Valid() && tick == old(tick) && Grew(old(sent), sent, Snapshot(tick, hash))
      ensures |sent| == |old(sent)| + LastAttempt(net, 0) + 1
      ensures r == if Accepts(net) then Pushed else Failed
      ensures delivered == if Accepts(net) then old(delivered) + [Snapshot(tick, hash)] else old(delivered)
      ensures times == if Accepts(net) then old(times) + [later] else old(times)
      ensures retryPending <==> !Accepts(net) && !Refuses(net)
      ensures retryPending ==> pending == Kept(Snapshot(tick, pendingHash)) && pendingHash == hash
    {
      pending := Kept(Snapshot(tick, hash));
      var ok := Flush(net);
      if !ok {
        retryPending, pendingHash := pending.Kept?, hash;
        return Failed;
      }
      lastHash, lastPush, times := hash, later, times + [later];
      return Pushed;
    }

    /** One round of retryBuffered; cutShort when the flush failed as its time
        ended. Only a refusal at that moment leaves the flag set with nothing
        buffered. */
    method RetryOnce(net: Network, ended: bool, now: int) returns (cutShort: bool)
      requires Valid() && retryPending && pending == Kept(Snapshot(tick, pendingHash))
      modifies this
      ensures Valid() && tick == old(tick) && pendingHash == old(pendingHash)
      ensures Grew(old(sent), sent, Snapshot(tick, pendingHash)) && |sent| == |old(sent)| + LastAttempt(net, 0) + 1
      ensures delivered == if Accepts(net) then old(delivered) + [Snapshot(tick, pendingHash)] else old(delivered)
      ensures times == if Accepts(net) then old(times) + [now] else old(times)
      ensures cutShort <==> ended && !Accepts(net)
      ensures retryPending <==> cutShort || (!Accepts(net) && !Refuses(net))
      ensures pending == if Accepts(net) || Refuses(net) then Nothing else old(pending)
      ensures retryPending && pending == Nothing <==> ended && Refuses(net)
    {
      var ok := Flush(net);
      if !ok && ended {
        return true;
      }
      if ok {
        retryPending := false;
        lastHash, lastPush, times := pendingHash, now, times + [now];
      } else if pending.Nothing? {
        retryPending := false;
      }
      return false;
    }

    /** Where the rounds leave the runner. */
    ghost predicate Retried(rs: Retries, before: Buffered)
      reads this
    {
      && (retryPending <==> !Delivers(rs) && !RefusedInTime(rs))
      && (pending == Nothing <==> Delivers(rs) || RefusedInTime(rs) || RefusedAtEnd(rs))
      && (pending == Nothing || pending == before)
    }

    /** n rounds have gone on, since what had been sent and delivered first. */
    ghost predicate Rounding(rs: Retries, n: nat, first: Past, snap: Snapshot)
      reads this
    {
      && Valid() && snap == Snapshot(tick, pendingHash) && pending == Kept(snap) && retryPending
      && n <= rs.rounds && AllGoOn(rs, n) && RoundsRun(rs, 0) == RoundsRun(rs, n)
      && Grew(first.sent, sent, snap) && |sent| == |first.sent| + Sends(rs, n)
      && delivered == first.delivered && times == first.times
    }

    /** The rounds are over. */
    ghost predicate Rounded(rs: Retries, first: Past, snap: Snapshot)
      reads this
    {
      && Valid() && snap == Snapshot(tick, pendingHash)
      && Grew(first.sent, sent, snap) && |sent| == |first.sent| + Sends(rs, RoundsRun(rs, 0))
      && RetriesAdd(rs, snap, first.delivered, first.times, delivered, times)
      && Retried(rs, Kept(snap))
    }

    /** The n-th round. */
    method RetryRound(rs: Retries, n: nat, ghost first: Past, ghost snap: Snapshot) returns (more: bool)
      requires Rounding(rs, n, first, snap) && n < rs.rounds
      modifies this
      ensures tick == old(tick) && pendingHash == old(pendingHash)
      ensures if more then Rounding(rs, n + 1, first, snap) else Rounded(rs, first, snap)
    {
      var cutShort := RetryOnce(rs.net(n), rs.ended(n), rs.clock(n));
      GrewFurther(first.sent, old(sent), sent, snap);
      more := !cutShort && retryPending;
      if more {
        RoundGoesOn(rs, n);
      } else {
        EndedAt(rs, n);
        RetriesAddAt(rs, n, snap, first.delivered, first.times, delivered, times);
      }
    }

    /** retryBuffered: flushes the buffered snapshot until it is delivered or
        refused, or the next tick is due (after some rounds, or during one).
        Afterwards the flag means a buffered snapshot if and only if no round was
        refused as the time ended. */
    method RetryBuffered(rs: Retries)
      requires Valid() && retryPending && pending == Kept(Snapshot(tick, pendingHash))
      modifies this
      ensures tick == old(tick) && pendingHash == old(pendingHash)
      ensures Rounded(rs, old(Story()), Snapshot(tick, pendingHash))
      ensures retryPending ==> (pending == Kept(Snapshot(tick, pendingHash)) <==> !RefusedAtEnd(rs))
    {
      ghost var snap := Snapshot(tick, pendingHash);
      var n := 0;
      while n < rs.rounds
        invariant n <= rs.rounds && tick == old(tick) && pendingHash == old(pendingHash)
        invariant Rounding(rs, n, old(Story()), snap)
      {
        var more := RetryRound(rs, n, old(Story()), snap);
        if !more {
          return;
        }
        n := n + 1;
      }
      NeverEnded(rs);
    }

    ghost function Story(): Past
      reads this
    {
      Past(sent, delivered, times)
    }

    /** One turn of loop: a tick's push, then the retries until the next tick. */
    method RunTurn(t: Turn) returns (res: Result)
      requires Valid()
      modifies this
      ensures Valid() && tick == old(tick) + 1
      ensures Grew(old(sent), sent, Snapshot(tick, t.inv.hash))
      ensures Turned(forceSync, t, old(tick), old(Story()), Story(), res)
      ensures !res.Failed? ==> lastHash == t.inv.hash
      ensures res.Pushed? ==> Arrives(t, old(WasRecent(t.inv, t.now)))
      ensures Flagged(t)
      ensures retryPending <==>
                Offers(t, old(WasRecent(t.inv, t.now))) && Lingers(t.net) && !Delivers(t.retries) && !RefusedInTime(t.retries)
    {
      res := MaybePush(t.inv, t.now, t.later, t.net);
      if retryPending {
        ghost var before := sent;
        RetryBuffered(t.retries);
        GrewFurther(old(sent), before, sent, Snapshot(tick, t.inv.hash));
      }
    }

    /** The flag set after a turn is of the turn's own snapshot, which is buffered
        if and only if no retry was refused as its time ended. */
    ghost predicate Flagged(t: Turn)
      reads this
    {
      retryPending ==>
        && pendingHash == t.inv.hash
        && (pending == Kept(Snapshot(tick, pendingHash)) <==> !RefusedAtEnd(t.retries))
        && (pending == Nothing <==> RefusedAtEnd(t.retries))
    }
  }

  /** The round n that does not go on decides how the retries end. */
  lemma {:induction false} EndedAt(rs: Retries, n: nat)
    requires Reaches(rs, n) && !GoesOn(rs, n)
    ensures RoundsRun(rs, n) == n + 1
    ensures Delivers(rs) <==> Accepts(rs.net(n))
    ensures RefusedAtEnd(rs) <==> rs.ended(n) && Refuses(rs.net(n))
    ensures RefusedInTime(rs) <==> !rs.ended(n) && Refuses(rs.net(n))
  {
    forall m | Reaches(rs, m) && !GoesOn(rs, m)
      ensures m == n
    {
      OneEnding(rs, m, n);
    }
  }

  lemma {:induction false} RoundGoesOn(rs: Retries, n: nat)
    requires Reaches(rs, n) && GoesOn(rs, n)
    ensures AllGoOn(rs, n + 1) && RoundsRun(rs, n) == RoundsRun(rs, n + 1)
  {
  }

  lemma {:induction false} NeverEnded(rs: Retries)
    requires AllGoOn(rs, rs.rounds)
    ensures !Delivers(rs) && !RefusedAtEnd(rs) && !RefusedInTime(rs)
  {
    forall m | Reaches(rs, m)
      ensures GoesOn(rs, m)
    {
    }
  }

  /** One turn of the loop: a tick's inventory and what the network then does. */
  datatype Turn = Turn(inv: Inventory, now: int, later: int, net: Network, retries: Retries)

  /** The tick offers its snapshot: it passes the gate, admission and naming. */
  predicate Offers(t: Turn, current: bool) {
    t.inv.marshals && !current && t.inv.admitted && t.inv.named
  }

  /** The turn delivers its snapshot, at once or in a retry. */
  ghost predicate Arrives(t: Turn, current: bool) {
    Offers(t, current) && (Accepts(t.net) || (Lingers(t.net) && Delivers(t.retries)))
  }

  /** The clock when it does. */
  ghost function ArrivedAt(t: Turn): int
    requires Accepts(t.net) || Delivers(t.retries)
  {
    if Accepts(t.net) then t.later else ClockOf(t.retries)
  }

  /** The flush settles nothing: the snapshot stays buffered. */
  ghost predicate Lingers(net: Network) {
    !Accepts(net) && !Refuses(net)
  }

  /** The flag with nothing behind it: a tick whose push kept failing, and a retry
      refused for good in the moment its time ends. */
  method RefusedAsTimeEnds() returns (r: Runner)
    ensures fresh(r) && r.Valid() && r.tick == 1 && r.retryPending && r.pending == Nothing && r.delivered == []
  {
    r := new Runner(0);
    var t := Turn(Inventory(true, "h", true, true), 0, 0, Network(_ => Transient, _ => true),
                  Retries(1, _ => Network(_ => Refused, _ => true), _ => true, _ => 0));
    assert LastAttempt(t.net, 0) == PUSH_RETRIES;
    EndedAt(t.retries, 0);
    var res := r.RunTurn(t);
  }

  /** Every snapshot sent is one of the first n ticks' own. */
  ghost predicate FromTicks(sent: seq<Snapshot>, turns: seq<Turn>, n: nat)
    requires n <= |turns|
  {
    forall d :: d in sent ==> 0 < d.tick <= n && d.hash == turns[d.tick - 1].inv.hash
  }

  lemma {:induction false} GrewFromTicks(before: seq<Snapshot>, after: seq<Snapshot>, turns: seq<Turn>, n: nat)
    requires 0 < n <= |turns| && (FromTicks(before, turns, n) || FromTicks(before, turns, n - 1))
    requires Grew(before, after, Snapshot(n, turns[n - 1].inv.hash))
    ensures FromTicks(after, turns, n)
  {
    forall d | d in after
      ensures 0 < d.tick <= n && d.hash == turns[d.tick - 1].inv.hash
    {
      var i :| 0 <= i < |after| && after[i] == d;
      assert i < |before| ==> before[i] == d;
    }
  }

  /** A push a tick reports is delivered. */
  ghost predicate Reported(results: seq<Result>, delivered: seq<Snapshot>, turns: seq<Turn>) {
    |results| <= |turns| &&
    forall i :: 0 <= i < |results| && results[i].Pushed? ==> Snapshot(i + 1, turns[i].inv.hash) in delivered
  }

  lemma {:induction false} ReportedOn(results: seq<Result>, delivered: seq<Snapshot>, turns: seq<Turn>, res: Result, more: seq<Snapshot>)
    requires Reported(results, delivered, turns) && |results| < |turns|
    requires res.Pushed? ==> Snapshot(|results| + 1, turns[|results|].inv.hash) in more
    ensures Reported(results + [res], delivered + more, turns)
  {
  }

  /** What was sent and delivered, and when, before some turn. */
  datatype Past = Past(sent: seq<Snapshot>, delivered: seq<Snapshot>, times: seq<int>)

  /** The k-th turn, from one past to the next: it is quiet exactly when its content
      is the last delivered and that was less than forceSync before; else, when it
      can be sent, it is, and what arrives is recorded with the clock then. */
  ghost predicate Turned(forceSync: int, t: Turn, k: nat, p: Past, q: Past, res: Result) {
    var recent := t.inv.marshals && Recent(p.delivered, p.times, t.inv.hash, t.now, forceSync);
    var snap := Snapshot(k + 1, t.inv.hash);
    && (res.Unchanged? <==> recent)
    && (q.sent == p.sent <==> recent || !t.inv.marshals || !t.inv.admitted || !t.inv.named)
    && Grew(p.sent, q.sent, snap)
    && q.delivered == p.delivered + (if Arrives(t, recent) then [snap] else [])
    && q.times == p.times + (if Arrives(t, recent) then [ArrivedAt(t)] else [])
  }

  ghost predicate History(forceSync: int, turns: seq<Turn>, results: seq<Result>, pasts: seq<Past>) {
    && |results| <= |turns| && |pasts| == |results| + 1 && pasts[0] == Past([], [], [])
    && forall k :: 0 <= k < |results| ==> Turned(forceSync, turns[k], k, pasts[k], pasts[k + 1], results[k])
  }

  lemma {:induction false} HistoryOn(forceSync: int, turns: seq<Turn>, results: seq<Result>, pasts: seq<Past>, res: Result, q: Past)
    requires History(forceSync, turns, results, pasts) && |results| < |turns|
    requires Turned(forceSync, turns[|results|], |results|, pasts[|results|], q, res)
    ensures History(forceSync, turns, results + [res], pasts + [q])
  {
    forall k | 0 <= k < |results + [res]|
      ensures Turned(forceSync, turns[k], k, (pasts + [q])[k], (pasts + [q])[k + 1], (results + [res])[k])
    {
      assert k < |results| ==> Turned(forceSync, turns[k], k, pasts[k], pasts[k + 1], results[k]);
    }
  }

  /** loop: ticks and the retries between them. Each is quiet or sends as what was
      delivered before it says; what is delivered last, and when, is what the gate
      compares with; sends never go back to an older tick; and the flag is of the
      tick just run, whose snapshot is buffered if and only if no retry of that tick
      was refused as its time ended. */
  method Loop(r: Runner, turns: seq<Turn>) returns (results: seq<Result>, ghost pasts: seq<Past>)
    requires r.Valid() && r.tick == 0 && r.sent == [] && r.delivered == []
    modifies r
    ensures r.Valid() && |results| == |turns| && r.tick == |turns|
    ensures History(r.forceSync, turns, results, pasts)
    ensures pasts[|turns|] == r.Story()
    ensures turns != [] ==> r.Flagged(turns[|turns| - 1])
    ensures r.lastHash == LastHash(r.delivered) && r.lastPush == LastTime(r.times)
    ensures InOrder(r.sent) && FromTicks(r.sent, turns, |turns|)
    ensures forall d :: d in r.delivered ==> d in r.sent
    ensures Reported(results, r.delivered, turns)
  {
    results, pasts := [], [Past([], [], [])];
    for i := 0 to |turns|
      invariant r.Valid() && r.tick == i == |results|
      invariant History(r.forceSync, turns, results, pasts) && pasts[i] == r.Story()
      invariant FromTicks(r.sent, turns, i) && (i > 0 ==> r.Flagged(turns[i - 1]))
      invariant Reported(results, r.delivered, turns)
    {
      ghost var before, came := r.sent, r.delivered;
      var res := r.RunTurn(turns[i]);
      GrewFromTicks(before, r.sent, turns, i + 1);
      ReportedOn(results, came, turns, res, r.delivered[|came|..]);
      assert r.delivered == came + r.delivered[|came|..];
      HistoryOn(r.forceSync, turns, results, pasts, res, r.Story());
      results, pasts := results + [res], pasts + [r.Story()];
    }
  }
}
