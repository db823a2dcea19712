/**
 The ordered parallel fetch of Helm release payloads (startFetching).

 A dispatcher goroutine, a pool of workers and the caller share a channel of
 room tokens, an unbuffered channel of jobs and one buffered result channel
 per index.  The protocol is a state machine: each `Action` is one step of one
 goroutine (or the end of the context), `Enabled` says when it can be taken
 and `Apply` what it does, so a run is any sequence of enabled actions.
 */
module OrderedFetch {
  import opened Basics

  /** What one fetch returns; fromContext is errors.Is(err, ctx.Err()). */
  datatype Outcome = Payload(data: seq<int>) | Failed(message: string, fromContext: bool)

  /** n payloads asked of `asked` workers, and what fetch answers for index i:
      `live(i)` while the context is live, `cut(i)` when the context ends with
      the fetch in flight, `late(i)` when the fetch begins after that. */
  datatype Config = Config(n: nat, asked: nat, live: nat -> Outcome, cut: nat -> Outcome, late: nat -> Outcome,
                           ctxErr: Outcome)
  {
    /** The pool branch is taken: more than one payload and more than one worker. */
    ghost predicate Pooled() {
      n > 1 && asked > 1 && ctxErr.Failed?
    }

    function Width(): (w: nat) {
      if asked < n then asked else n
    }
  }

  datatype Worker = Idle | Assigned(job: nat) | Fetching(job: nat, late: bool) | Exited
  datatype Slot = Empty | Full(outcome: Outcome) | Taken
  datatype Caller = Outside | Releasing | Waiting | Received(index: nat, outcome: Outcome) | Stopping | Stopped

  /** What next returned, whether the context was done when it looked, and the
      result it had received from the pool. */
  datatype Answer = Answer(outcome: Outcome, late: bool, received: Outcome)

  /** `sent` jobs were handed to workers; `token` is the dispatcher holding a
      room token for job `sent`; `room` counts the tokens in the channel. */
  datatype State = State(
    sent: nat, token: bool, closed: bool,
    workers: seq<Worker>, room: nat, results: seq<Slot>, quit: bool,
    next: nat, held: bool, caller: Caller, done: bool, handed: seq<Answer>)

  datatype Action =
    | Acquire | CloseJobs | Send(w: nat) | Begin(w: nat) | Finish(w: nat, outcome: Outcome) | Exit(w: nat)
    | Cancel | CallNext | Release | Receive | Return | CallStop | StopReturns

  function Init(c: Config): State {
    State(0, false, false, seq(c.Width(), i => Idle), 0, seq(c.n, i => Empty), false, 0, false, Outside, false, [])
  }

  /** What a fetch of i that began late or not may answer, now that the context is done or not. */
  predicate FetchMay(c: Config, i: nat, late: bool, done: bool, o: Outcome) {
    if !done then o == c.live(i)
    else if late then o == c.late(i)
    else o == c.live(i) || o == c.cut(i)
  }

  /** next's answer for the result r of index i. */
  function AnswerFor(c: Config, i: nat, r: Outcome, done: bool): Answer {
    if !done then Answer(r, false, r)
    else if r.Failed? && r.fromContext then Answer(r, true, r)
    else if c.late(i).Failed? then Answer(c.late(i), true, r)
    else Answer(c.ctxErr, true, r)
  }

  predicate AllExited(ws: seq<Worker>) {
    forall w :: 0 <= w < |ws| ==> ws[w].Exited?
  }

  predicate Enabled(c: Config, s: State, a: Action) {
    match a
    case Acquire => !s.closed && !s.token && s.sent < c.n && s.room < c.Width()
    case CloseJobs => !s.closed && (s.quit || (s.sent == c.n && !s.token))
    case Send(w) => !s.closed && s.token && w < |s.workers| && s.workers[w].Idle?
    case Begin(w) => w < |s.workers| && s.workers[w].Assigned?
    case Finish(w, o) =>
      && w < |s.workers| && s.workers[w].Fetching?
      && s.workers[w].job < |s.results| && s.results[s.workers[w].job].Empty?
      && FetchMay(c, s.workers[w].job, s.workers[w].late, s.done, o)
    case Exit(w) => w < |s.workers| && s.workers[w].Idle? && s.closed
    case Cancel => !s.done
    case CallNext => s.caller.Outside? && s.next < c.n
    case Release => s.caller.Releasing? && s.room > 0
    case Receive => s.caller.Waiting? && s.next < |s.results| && s.results[s.next].Full?
    case Return => s.caller.Received?
    case CallStop => s.caller.Outside?
    case StopReturns => s.caller.Stopping? && s.closed && AllExited(s.workers)
  }

  function Apply(c: Config, s: State, a: Action): State
    requires Enabled(c, s, a)
  {
    match a
    case Acquire => s.(token := true, room := s.room + 1)
    case CloseJobs => s.(closed := true)
    case Send(w) => s.(token := false, sent := s.sent + 1, workers := s.workers[w := Assigned(s.sent)])
    case Begin(w) => s.(workers := s.workers[w := Fetching(s.workers[w].job, s.done)])
    case Finish(w, o) => s.(results := s.results[s.workers[w].job := Full(o)], workers := s.workers[w := Idle])
    case Exit(w) => s.(workers := s.workers[w := Exited])
    case Cancel => s.(done := true)
    case CallNext => s.(caller := if s.held then Releasing else Waiting)
    case Release => s.(room := s.room - 1, held := false, caller := Waiting)
    case Receive =>
      s.(results := s.results[s.next := Taken], next := s.next + 1, held := true,
      caller := Received(s.next, s.results[s.next].outcome))
    case Return =>
      s.(caller := Outside, handed := s.handed + [AnswerFor(c, s.caller.index, s.caller.outcome, s.done)])
    case CallStop => s.(quit := true, caller := Stopping)
    case StopReturns => s.(caller := Stopped)
  }

  /** The state after taking acts in order, None when one of them is not enabled. */
  function Perform(c: Config, s: State, acts: seq<Action>): Option<State>
    decreases |acts|
  {
    if acts == [] then Some(s)
    else if Enabled(c, s, acts[0]) then Perform(c, Apply(c, s, acts[0]), acts[1..])
    else None
  }

  /* ---------- the invariant of every reachable state ---------- */

  function Job(w: Worker): int {
    if w.Assigned? || w.Fetching? then w.job else -1
  }

  function B(b: bool): int {
    if b then 1 else 0
  }

  ghost predicate Shape(c: Config, s: State) {
    && |s.workers| == c.Width() && |s.results| == c.n
    && s.next <= s.sent <= c.n && (s.token ==> s.sent < c.n)
    && (s.closed ==> s.quit || (s.sent == c.n && !s.token))
    && (s.quit <==> s.caller.Stopping? || s.caller.Stopped?)
    && (forall w :: 0 <= w < |s.workers| && s.workers[w].Exited? ==> s.closed)
    && (s.caller.Stopped? ==> s.closed && AllExited(s.workers))
  }

  /** One token per payload: taken by the dispatcher, given back by the caller. */
  ghost predicate Tokens(c: Config, s: State) {
    && s.room == s.sent + B(s.token) - s.next + B(s.held)
    && s.room <= c.Width()
    && (s.held ==> s.next > 0)
    && (s.caller.Releasing? ==> s.held && s.next < c.n)
    && (s.caller.Waiting? ==> !s.held && s.next < c.n)
    && (s.caller.Received? ==> s.held && s.caller.index == s.next - 1)
  }

  ghost predicate AtWorker(ws: seq<Worker>, i: int) {
    exists w :: 0 <= w < |ws| && Job(ws[w]) == i
  }

  /** A slot is emptied by the caller in order, and none is filled before its job is sent. */
  ghost predicate Slots(results: seq<Slot>, next: nat, sent: nat) {
    && (forall i :: 0 <= i < |results| ==> (results[i].Taken? <==> i < next))
    && (forall i :: sent <= i < |results| ==> results[i].Empty?)
  }

  /** The job of a worker was sent and its result is still to come. */
  predicate JobOpen(w: Worker, results: seq<Slot>, sent: nat) {
    Job(w) == -1 || (0 <= Job(w) < sent && Job(w) < |results| && results[Job(w)].Empty?)
  }

  ghost predicate JobsOpen(ws: seq<Worker>, results: seq<Slot>, sent: nat) {
    forall w :: 0 <= w < |ws| ==> JobOpen(ws[w], results, sent)
  }

  ghost predicate Distinct(ws: seq<Worker>) {
    forall v, w :: 0 <= v < w < |ws| && Job(ws[v]) != -1 ==> Job(ws[v]) != Job(ws[w])
  }

  ghost predicate Covered(ws: seq<Worker>, results: seq<Slot>, sent: nat) {
    forall i :: 0 <= i < sent && i < |results| && results[i].Empty? ==> AtWorker(ws, i)
  }

  /** Every job handed out is at exactly one worker, or its result waits, or it was handed over. */
  ghost predicate Jobs(s: State) {
    && Slots(s.results, s.next, s.sent)
    && JobsOpen(s.workers, s.results, s.sent)
    && Distinct(s.workers)
    && Covered(s.workers, s.results, s.sent)
  }

  /** Only what fetch answered for an index is ever stored for it. */
  ghost predicate Genuine(c: Config, done: bool, i: nat, o: Outcome) {
    o == c.live(i) || (done && (o == c.cut(i) || o == c.late(i)))
  }

  ghost predicate Stored(c: Config, done: bool, results: seq<Slot>) {
    forall i :: 0 <= i < |results| && results[i].Full? ==> Genuine(c, done, i, results[i].outcome)
  }

  ghost predicate LateIsDone(ws: seq<Worker>, done: bool) {
    forall w :: 0 <= w < |ws| && ws[w].Fetching? && ws[w].late ==> done
  }

  ghost predicate AnswerOk(c: Config, i: nat, a: Answer) {
    if a.late then
      && a.outcome.Failed? && a.received in [c.live(i), c.cut(i), c.late(i)]
      && (FromContext(a.received) ==> a.outcome == a.received)
      && (!FromContext(a.received) ==> Replaced(c, i, a.outcome))
    else a.outcome == a.received == c.live(i)
  }

  ghost predicate FromContext(o: Outcome) {
    o.Failed? && o.fromContext
  }

  /** What stands in for a result the loop would only fetch now: what a fetch begun
      now answers, the context's own error where that is a payload. */
  ghost predicate Replaced(c: Config, i: nat, o: Outcome) {
    o == if c.late(i).Failed? then c.late(i) else c.ctxErr
  }

  /** What was handed over: fetch's answers while the context was live, errors from then on. */
  ghost predicate Answers(c: Config, done: bool, handed: seq<Answer>) {
    && (forall k :: 0 <= k < |handed| ==> AnswerOk(c, k, handed[k]) && (handed[k].late ==> done))
    && (forall j, k :: 0 <= j < k < |handed| && handed[j].late ==> handed[k].late)
  }

  ghost predicate Values(c: Config, s: State) {
    && LateIsDone(s.workers, s.done)
    && Stored(c, s.done, s.results)
    && (s.caller.Received? ==> Genuine(c, s.done, s.caller.index, s.caller.outcome))
    && |s.handed| + B(s.caller.Received?) == s.next
    && Answers(c, s.done, s.handed)
  }

  ghost predicate Inv(c: Config, s: State) {
    Shape(c, s) && Tokens(c, s) && Jobs(s) && Values(c, s)
  }

  lemma {:induction false} InitInv(c: Config)
    requires c.Pooled()
    ensures Inv(c, Init(c))
  {
  }

  /* ---------- shape and tokens ---------- */

  /** A full slot's job was sent, so the caller never gets ahead of the dispatcher. */
  lemma {:induction false} ReceiveBelowSent(results: seq<Slot>, next: nat, sent: nat)
    requires Slots(results, next, sent) && next < |results| && results[next].Full?
    ensures next < sent
  {
  }

  /** A step that moves no job, closes nothing and ends no call keeps the shape. */
  lemma {:induction false} ShapeStays(c: Config, s: State, t: State)
    requires Shape(c, s) && t.workers == s.workers && |t.results| == |s.results| && t.closed == s.closed && t.quit == s.quit
    requires t.sent == s.sent && s.next <= t.next <= t.sent && (t.token ==> t.sent < c.n) && (s.closed ==> t.token == s.token)
    requires t.caller.Stopping? || t.caller.Stopped? <==> s.caller.Stopping? || s.caller.Stopped?
    requires t.caller.Stopped? ==> s.closed && AllExited(s.workers)
    ensures Shape(c, t)
  {
  }

  lemma {:induction false} WorkerKeepsShape(c: Config, s: State, k: nat, w: Worker, t: State)
    requires Shape(c, s) && k < |s.workers| && t.workers == s.workers[k := w] && (w.Exited? ==> s.closed)
    requires !s.workers[k].Exited?
    requires |t.results| == |s.results| && t.closed == s.closed && t.quit == s.quit && t.caller == s.caller && t.next == s.next
    requires (t.sent == s.sent && t.token == s.token) || (!s.closed && s.token && t.sent == s.sent + 1 && !t.token)
    ensures Shape(c, t)
  {
  }

  lemma {:induction false} CloseKeepsShape(c: Config, s: State)
    requires Shape(c, s) && Enabled(c, s, CloseJobs)
    ensures Shape(c, s.(closed := true))
  {
  }

  lemma {:induction false} StopKeepsShape(c: Config, s: State)
    requires Shape(c, s) && s.caller.Outside?
    ensures Shape(c, s.(quit := true, caller := Stopping))
  {
  }

  /** A step of the pool or the end of the context leaves the caller as it was. */
  lemma {:induction false} PoolKeepsTokens(c: Config, s: State, t: State)
    requires Tokens(c, s) && t.next == s.next && t.held == s.held && t.caller == s.caller
    requires t.room - s.room == t.sent + B(t.token) - (s.sent + B(s.token)) && t.room <= c.Width()
    ensures Tokens(c, t)
  {
  }

  /** So does leaving a call leave the tokens. */
  lemma {:induction false} LeavingKeepsTokens(c: Config, s: State, t: State)
    requires Tokens(c, s) && t.next == s.next && t.held == s.held && t.room == s.room && t.sent == s.sent && t.token == s.token
    requires t.caller.Outside? || t.caller.Stopping? || t.caller.Stopped?
    ensures Tokens(c, t)
  {
  }

  lemma {:induction false} CallKeepsTokens(c: Config, s: State)
    requires Tokens(c, s) && s.next < c.n
    ensures Tokens(c, s.(caller := if s.held then Releasing else Waiting))
  {
  }

  lemma {:induction false} ReleaseKeepsTokens(c: Config, s: State)
    requires Tokens(c, s) && s.caller.Releasing? && s.room > 0
    ensures Tokens(c, s.(room := s.room - 1, held := false, caller := Waiting))
  {
  }

  lemma {:induction false} ReceiveKeepsTokens(c: Config, s: State, t: State)
    requires Tokens(c, s) && s.caller.Waiting? && t.next == s.next + 1 && t.held
    requires t.room == s.room && t.sent == s.sent && t.token == s.token && t.caller.Received? && t.caller.index == s.next
    ensures Tokens(c, t)
  {
  }

  /* ---------- jobs ---------- */

  /** A worker whose job changes leaves every other job where it was. */
  lemma {:induction false} OthersStayAtWork(ws: seq<Worker>, k: nat, w: Worker, i: int)
    requires k < |ws| && AtWorker(ws, i) && Job(ws[k]) != i
    ensures AtWorker(ws[k := w], i)
  {
    var v :| 0 <= v < |ws| && Job(ws[v]) == i;
    assert ws[k := w][v] == ws[v];
  }

  lemma {:induction false} SendCovers(ws: seq<Worker>, results: seq<Slot>, sent: nat, k: nat)
    requires Covered(ws, results, sent) && k < |ws| && ws[k].Idle?
    ensures Covered(ws[k := Assigned(sent)], results, sent + 1)
  {
    forall i | 0 <= i < sent + 1 && i < |results| && results[i].Empty?
      ensures AtWorker(ws[k := Assigned(sent)], i)
    {
      if i == sent {
        assert Job(ws[k := Assigned(sent)][k]) == i;
      } else {
        OthersStayAtWork(ws, k, Assigned(sent), i);
      }
    }
  }

  lemma {:induction false} SendKeepsJobs(s: State, w: nat, t: State)
    requires Jobs(s) && w < |s.workers| && s.workers[w].Idle? && s.sent < |s.results|
    requires t.workers == s.workers[w := Assigned(s.sent)] && t.sent == s.sent + 1 && t.results == s.results && t.next == s.next
    ensures Jobs(t)
  {
    SendCovers(s.workers, s.results, s.sent, w);
    assert forall v :: 0 <= v < |t.workers| ==> JobOpen(s.workers[v], s.results, s.sent);
  }

  lemma {:induction false} FinishCovers(ws: seq<Worker>, results: seq<Slot>, sent: nat, k: nat, o: Outcome)
    requires Covered(ws, results, sent) && k < |ws| && 0 <= Job(ws[k]) < |results|
    ensures Covered(ws[k := Idle], results[Job(ws[k]) := Full(o)], sent)
  {
    var rest := results[Job(ws[k]) := Full(o)];
    forall i | 0 <= i < sent && i < |rest| && rest[i].Empty?
      ensures AtWorker(ws[k := Idle], i)
    {
      OthersStayAtWork(ws, k, Idle, i);
    }
  }

  /** The job that ends was nobody else's. */
  lemma {:induction false} FinishLeavesOpen(ws: seq<Worker>, results: seq<Slot>, sent: nat, k: nat, o: Outcome)
    requires JobsOpen(ws, results, sent) && Distinct(ws) && k < |ws| && 0 <= Job(ws[k]) < |results|
    ensures JobsOpen(ws[k := Idle], results[Job(ws[k]) := Full(o)], sent)
  {
    var others, rest := ws[k := Idle], results[Job(ws[k]) := Full(o)];
    forall v | 0 <= v < |others|
      ensures JobOpen(others[v], rest, sent)
    {
      assert JobOpen(ws[v], results, sent);
      assert v < k || v == k || k < v;
    }
  }

  lemma {:induction false} FinishKeepsJobs(s: State, w: nat, o: Outcome, t: State)
    requires Jobs(s) && w < |s.workers| && s.workers[w].Fetching? && s.workers[w].job < |s.results|
    requires t.workers == s.workers[w := Idle] && t.results == s.results[s.workers[w].job := Full(o)]
    requires t.sent == s.sent && t.next == s.next
    ensures Jobs(t)
  {
    assert JobOpen(s.workers[w], s.results, s.sent);
    FinishCovers(s.workers, s.results, s.sent, w, o);
    FinishLeavesOpen(s.workers, s.results, s.sent, w, o);
  }

  /** Begin and Exit change a worker, not its job. */
  lemma {:induction false} WorkerKeepsJobs(s: State, k: nat, w: Worker, t: State)
    requires Jobs(s) && k < |s.workers| && Job(w) == Job(s.workers[k])
    requires t.workers == s.workers[k := w] && t.results == s.results && t.sent == s.sent && t.next == s.next
    ensures Jobs(t)
  {
    assert forall v :: 0 <= v < |t.workers| ==> Job(t.workers[v]) == Job(s.workers[v]);
    assert forall v :: 0 <= v < |t.workers| ==> JobOpen(s.workers[v], s.results, s.sent);
    forall i | 0 <= i < t.sent && i < |t.results| && t.results[i].Empty?
      ensures AtWorker(t.workers, i)
    {
      var v :| 0 <= v < |s.workers| && Job(s.workers[v]) == i;
      assert Job(t.workers[v]) == i;
    }
  }

  lemma {:induction false} ReceiveKeepsJobs(s: State, t: State)
    requires Jobs(s) && s.next < |s.results| && s.results[s.next].Full?
    requires t.results == s.results[s.next := Taken] && t.next == s.next + 1 && t.sent == s.sent && t.workers == s.workers
    ensures Jobs(t)
  {
    forall v | 0 <= v < |s.workers|
      ensures JobOpen(t.workers[v], t.results, t.sent)
    {
      assert JobOpen(s.workers[v], s.results, s.sent);
    }
  }

  lemma {:induction false} JobsStay(s: State, t: State)
    requires Jobs(s) && t.workers == s.workers && t.results == s.results && t.sent == s.sent && t.next == s.next
    ensures Jobs(t)
  {
  }

  /* ---------- values ---------- */

  lemma {:induction false} FinishKeepsValues(c: Config, s: State, w: nat, o: Outcome, t: State)
    requires Values(c, s) && Enabled(c, s, Finish(w, o)) && t.results == s.results[s.workers[w].job := Full(o)]
    requires t.workers == s.workers[w := Idle] && t.done == s.done && t.caller == s.caller
    requires t.next == s.next && t.handed == s.handed
    ensures Values(c, t)
  {
  }

  /** Nothing is stored, received or handed over. */
  lemma {:induction false} ValuesStay(c: Config, s: State, t: State)
    requires Values(c, s) && t.workers == s.workers && t.results == s.results && t.done == s.done
    requires t.next == s.next && t.handed == s.handed && !t.caller.Received? && !s.caller.Received?
    ensures Values(c, t)
  {
  }

  lemma {:induction false} PoolKeepsValues(c: Config, s: State, t: State)
    requires Values(c, s) && t.workers == s.workers && t.results == s.results && t.done == s.done
    requires t.next == s.next && t.handed == s.handed && t.caller == s.caller
    ensures Values(c, t)
  {
  }

  lemma {:induction false} WorkerKeepsValues(c: Config, s: State, k: nat, w: Worker, t: State)
    requires Values(c, s) && k < |s.workers| && t.workers == s.workers[k := w] && (w.Fetching? && w.late ==> s.done)
    requires t.results == s.results && t.done == s.done && t.next == s.next && t.handed == s.handed && t.caller == s.caller
    ensures Values(c, t)
  {
  }

  lemma {:induction false} ReceiveKeepsValues(c: Config, s: State, t: State)
    requires Values(c, s) && s.caller.Waiting? && s.next < |s.results| && s.results[s.next].Full?
    requires t.results == s.results[s.next := Taken] && t.caller == Received(s.next, s.results[s.next].outcome)
    requires t.workers == s.workers && t.done == s.done && t.next == s.next + 1 && t.handed == s.handed
    ensures Values(c, t)
  {
  }

  /** The answer to the next call is genuine, and an error once the context is done. */
  lemma {:induction false} ReturnAnswers(c: Config, done: bool, handed: seq<Answer>, o: Outcome)
    requires c.Pooled() && Answers(c, done, handed) && Genuine(c, done, |handed|, o)
    ensures Answers(c, done, handed + [AnswerFor(c, |handed|, o, done)])
  {
    var a := AnswerFor(c, |handed|, o, done);
    assert AnswerOk(c, |handed|, a);
    assert a.late <==> done;
  }

  lemma {:induction false} CancelKeepsValues(c: Config, s: State)
    requires Values(c, s)
    ensures Values(c, s.(done := true))
  {
  }

  lemma {:induction false} ReturnKeepsValues(c: Config, s: State)
    requires c.Pooled() && Tokens(c, s) && Values(c, s) && s.caller.Received?
    ensures Values(c, Apply(c, s, Return))
  {
    ReturnAnswers(c, s.done, s.handed, s.caller.outcome);
  }

  /* ---------- every step ---------- */

  lemma {:induction false} AcquireKeeps(c: Config, s: State)
    requires c.Pooled() && Inv(c, s) && Enabled(c, s, Acquire)
    ensures Inv(c, Apply(c, s, Acquire))
  {
    var t := Apply(c, s, Acquire);
    ShapeStays(c, s, t);
    PoolKeepsTokens(c, s, t);
    JobsStay(s, t);
    PoolKeepsValues(c, s, t);
  }

  lemma {:induction false} CloseKeeps(c: Config, s: State)
    requires c.Pooled() && Inv(c, s) && Enabled(c, s, CloseJobs)
    ensures Inv(c, Apply(c, s, CloseJobs))
  {
    var t := Apply(c, s, CloseJobs);
    CloseKeepsShape(c, s);
    PoolKeepsTokens(c, s, t);
    JobsStay(s, t);
    PoolKeepsValues(c, s, t);
  }

  lemma {:induction false} SendKeeps(c: Config, s: State, w: nat)
    requires c.Pooled() && Inv(c, s) && Enabled(c, s, Send(w))
    ensures Inv(c, Apply(c, s, Send(w)))
  {
    var t := Apply(c, s, Send(w));
    WorkerKeepsShape(c, s, w, Assigned(s.sent), t);
    PoolKeepsTokens(c, s, t);
    SendKeepsJobs(s, w, t);
    WorkerKeepsValues(c, s, w, Assigned(s.sent), t);
  }

  lemma {:induction false} BeginKeeps(c: Config, s: State, w: nat)
    requires c.Pooled() && Inv(c, s) && Enabled(c, s, Begin(w))
    ensures Inv(c, Apply(c, s, Begin(w)))
  {
    var t := Apply(c, s, Begin(w));
    WorkerKeepsShape(c, s, w, t.workers[w], t);
    PoolKeepsTokens(c, s, t);
    WorkerKeepsJobs(s, w, t.workers[w], t);
    WorkerKeepsValues(c, s, w, t.workers[w], t);
  }

  lemma {:induction false} FinishKeeps(c: Config, s: State, w: nat, o: Outcome)
    requires c.Pooled() && Inv(c, s) && Enabled(c, s, Finish(w, o))
    ensures Inv(c, Apply(c, s, Finish(w, o)))
  {
    var t := Apply(c, s, Finish(w, o));
    WorkerKeepsShape(c, s, w, Idle, t);
    PoolKeepsTokens(c, s, t);
    FinishKeepsJobs(s, w, o, t);
    FinishKeepsValues(c, s, w, o, t);
  }

  lemma {:induction false} ExitKeeps(c: Config, s: State, w: nat)
    requires c.Pooled() && Inv(c, s) && Enabled(c, s, Exit(w))
    ensures Inv(c, Apply(c, s, Exit(w)))
  {
    var t := Apply(c, s, Exit(w));
    WorkerKeepsShape(c, s, w, Exited, t);
    PoolKeepsTokens(c, s, t);
    WorkerKeepsJobs(s, w, Exited, t);
    WorkerKeepsValues(c, s, w, Exited, t);
  }

  lemma {:induction false} CancelKeeps(c: Config, s: State)
    requires c.Pooled() && Inv(c, s) && Enabled(c, s, Cancel)
    ensures Inv(c, Apply(c, s, Cancel))
  {
    var t := Apply(c, s, Cancel);
    ShapeStays(c, s, t);
    PoolKeepsTokens(c, s, t);
    JobsStay(s, t);
    CancelKeepsValues(c, s);
  }

  lemma {:induction false} CallKeeps(c: Config, s: State)
    requires c.Pooled() && Inv(c, s) && Enabled(c, s, CallNext)
    ensures Inv(c, Apply(c, s, CallNext))
  {
    var t := Apply(c, s, CallNext);
    ShapeStays(c, s, t);
    CallKeepsTokens(c, s);
    JobsStay(s, t);
    ValuesStay(c, s, t);
  }

  lemma {:induction false} ReleaseKeeps(c: Config, s: State)
    requires c.Pooled() && Inv(c, s) && Enabled(c, s, Release)
    ensures Inv(c, Apply(c, s, Release))
  {
    var t := Apply(c, s, Release);
    ShapeStays(c, s, t);
    ReleaseKeepsTokens(c, s);
    JobsStay(s, t);
    ValuesStay(c, s, t);
  }

  lemma {:induction false} ReceiveKeeps(c: Config, s: State)
    requires c.Pooled() && Inv(c, s) && Enabled(c, s, Receive)
    ensures Inv(c, Apply(c, s, Receive))
  {
    var t := Apply(c, s, Receive);
    ReceiveBelowSent(s.results, s.next, s.sent);
    ShapeStays(c, s, t);
    ReceiveKeepsTokens(c, s, t);
    ReceiveKeepsJobs(s, t);
    ReceiveKeepsValues(c, s, t);
  }

  lemma {:induction false} ReturnKeeps(c: Config, s: State)
    requires c.Pooled() && Inv(c, s) && Enabled(c, s, Return)
    ensures Inv(c, Apply(c, s, Return))
  {
    var t := Apply(c, s, Return);
    ShapeStays(c, s, t);
    LeavingKeepsTokens(c, s, t);
    JobsStay(s, t);
    ReturnKeepsValues(c, s);
  }

  lemma {:induction false} StopKeeps(c: Config, s: State)
    requires c.Pooled() && Inv(c, s) && Enabled(c, s, CallStop)
    ensures Inv(c, Apply(c, s, CallStop))
  {
    var t := Apply(c, s, CallStop);
    StopKeepsShape(c, s);
    LeavingKeepsTokens(c, s, t);
    JobsStay(s, t);
    ValuesStay(c, s, t);
  }

  lemma {:induction false} StoppedKeeps(c: Config, s: State)
    requires c.Pooled() && Inv(c, s) && Enabled(c, s, StopReturns)
    ensures Inv(c, Apply(c, s, StopReturns))
  {
    var t := Apply(c, s, StopReturns);
    ShapeStays(c, s, t);
    LeavingKeepsTokens(c, s, t);
    JobsStay(s, t);
    ValuesStay(c, s, t);
  }

  lemma {:induction false} StepKeepsInv(c: Config, s: State, a: Action)
    requires c.Pooled() && Inv(c, s) && Enabled(c, s, a)
    ensures Inv(c, Apply(c, s, a))
  {
    match a
    case Acquire => AcquireKeeps(c, s);
    case CloseJobs => CloseKeeps(c, s);
    case Send(w) => SendKeeps(c, s, w);
    case Begin(w) => BeginKeeps(c, s, w);
    case Finish(w, o) => FinishKeeps(c, s, w, o);
    case Exit(w) => ExitKeeps(c, s, w);
    case Cancel => CancelKeeps(c, s);
    case CallNext => CallKeeps(c, s);
    case Release => ReleaseKeeps(c, s);
    case Receive => ReceiveKeeps(c, s);
    case Return => ReturnKeeps(c, s);
    case CallStop => StopKeeps(c, s);
    case StopReturns => StoppedKeeps(c, s);
  }

  /** Every state of every run satisfies the invariant. */
  lemma {:induction false} RunInv(c: Config, s: State, acts: seq<Action>, t: State)
    requires c.Pooled() && Inv(c, s) && Perform(c, s, acts) == Some(t)
    ensures Inv(c, t)
    decreases |acts|
  {
    if acts != [] {
      StepKeepsInv(c, s, acts[0]);
      RunInv(c, Apply(c, s, acts[0]), acts[1..], t);
    }
  }

  /* ---------- the caller sees the one-at-a-time loop ---------- */

  /** What the loop answers for index i: while the context is live, the payload or
      error fetch gives; once it is done, what a fetch begun now gives, or an error
      of the context from one that was in flight. */
  ghost predicate LoopMay(c: Config, i: nat, done: bool, o: Outcome) {
    if !done then o == c.live(i)
    else Replaced(c, i, o) || (FromContext(o) && (o == c.live(i) || o == c.cut(i)))
  }

  /** The payloads the loop's first k fetches return on a live context. */
  function LoopLive(c: Config, k: nat): (r: seq<Answer>) {
    seq(k, i requires 0 <= i => Answer(c.live(i), false, c.live(i)))
  }

  /** Over every interleaving, there is a moment up to which next's answers are
      the loop's payloads in index order; from it on every answer is an error and
      no payload is handed over.  The result received is handed over when it failed
      from the context; any other, an error of its own included, gives way to what
      a fetch begun now answers. */
  lemma {:induction false} NextIsTheLoop(c: Config, acts: seq<Action>, s: State) returns (live: nat)
    requires c.Pooled() && Perform(c, Init(c), acts) == Some(s)
    ensures live <= |s.handed| && s.handed[..live] == LoopLive(c, live)
    ensures live < |s.handed| ==> s.done
    ensures !s.done ==> s.handed == LoopLive(c, |s.handed|)
    ensures forall k :: live <= k < |s.handed| ==> s.handed[k].late && s.handed[k].outcome.Failed?
    ensures forall k :: live <= k < |s.handed| && FromContext(s.handed[k].received) ==>
              s.handed[k].outcome == s.handed[k].received
    ensures forall k :: live <= k < |s.handed| && !FromContext(s.handed[k].received) ==> Replaced(c, k, s.handed[k].outcome)
    ensures forall k :: 0 <= k < |s.handed| ==> LoopMay(c, k, s.handed[k].late, s.handed[k].outcome)
  {
    InitInv(c);
    RunInv(c, Init(c), acts, s);
    live := 0;
    while live < |s.handed| && !s.handed[live].late
      invariant live <= |s.handed|
      invariant forall k :: 0 <= k < live ==> !s.handed[k].late
    {
      live := live + 1;
    }
    assert forall k :: 0 <= k < |s.handed| ==> AnswerOk(c, k, s.handed[k]);
    assert forall k :: 0 <= k < live ==> s.handed[k] == Answer(c.live(k), false, c.live(k));
    assert !s.done ==> live == |s.handed|;
    assert s.handed[..|s.handed|] == s.handed;
  }

  /* ---------- bounded memory ---------- */

  /** Index i's payload is held: being fetched, waiting, or the last one handed over. */
  ghost predicate Holds(s: State, i: nat) {
    || AtWorker(s.workers, i)
    || (i < |s.results| && s.results[i].Full?)
    || (s.held && i == s.next - 1)
  }

  ghost function Range(lo: nat, hi: nat): (r: set<nat>)
    requires lo <= hi
    ensures forall i: nat :: i in r <==> lo <= i < hi
    ensures |r| == hi - lo
    decreases hi - lo
  {
    if lo == hi then {} else {lo} + Range(lo + 1, hi)
  }

  lemma {:induction false} SubsetSize(a: set<nat>, b: set<nat>)
    requires a <= b
    ensures |a| <= |b|
  {
    if a != {} {
      var x :| x in a;
      SubsetSize(a - {x}, b - {x});
    }
  }

  /** In every reachable state at most `asked` payloads are held, and no index is held by two workers. */
  lemma {:induction false} AtMostWorkersHeld(c: Config, acts: seq<Action>, s: State)
    requires c.Pooled() && Perform(c, Init(c), acts) == Some(s)
    ensures |set i: nat | i < c.n && Holds(s, i)| <= c.Width() <= c.asked
    ensures forall v, w :: 0 <= v < w < |s.workers| && Job(s.workers[v]) != -1 ==> Job(s.workers[v]) != Job(s.workers[w])
  {
    InitInv(c);
    RunInv(c, Init(c), acts, s);
    var lo := s.next - B(s.held);
    var range := Range(lo, s.sent);
    forall i: nat | i < c.n && Holds(s, i)
      ensures i in range
    {
      if i < |s.results| && s.results[i].Full? {
        assert i < s.sent;
      }
    }
    var held := set i: nat | i < c.n && Holds(s, i);
    SubsetSize(held, range);
  }

  /* ---------- progress ---------- */

  /** The steps of the dispatcher and the workers. */
  predicate Internal(a: Action) {
    a.Acquire? || a.CloseJobs? || a.Send? || a.Begin? || a.Finish? || a.Exit?
  }

  ghost predicate CanStep(c: Config, s: State) {
    exists a :: Internal(a) && Enabled(c, s, a)
  }

  function Weight(w: Worker): nat {
    match w
    case Exited => 0
    case Idle => 1
    case Fetching(_, _) => 2
    case Assigned(_) => 3
  }

  function Sum(ws: seq<Worker>): nat {
    if ws == [] then 0 else Weight(ws[0]) + Sum(ws[1..])
  }

  lemma {:induction false} SumUpdate(ws: seq<Worker>, k: nat, w: Worker)
    requires k < |ws|
    ensures Sum(ws[k := w]) == Sum(ws) - Weight(ws[k]) + Weight(w)
    decreases ws
  {
    var vs := ws[k := w];
    if k == 0 {
      assert vs[1..] == ws[1..];
    } else {
      assert vs[1..] == ws[1..][k - 1 := w];
      SumUpdate(ws[1..], k - 1, w);
    }
  }

  /** How many more internal steps there can be. */
  ghost function Measure(c: Config, s: State): int {
    4 * (c.n - s.sent) - B(s.token) + B(!s.closed) + Sum(s.workers)
  }

  lemma {:induction false} InternalStepDescends(c: Config, s: State, a: Action)
    requires c.Pooled() && Inv(c, s) && Internal(a) && Enabled(c, s, a)
    ensures Measure(c, Apply(c, s, a)) < Measure(c, s)
    ensures Measure(c, s) >= 0
  {
    match a
    case Send(w) => SumUpdate(s.workers, w, Assigned(s.sent));
    case Begin(w) => SumUpdate(s.workers, w, Fetching(s.workers[w].job, s.done));
    case Finish(w, o) => SumUpdate(s.workers, w, Idle);
    case Exit(w) => SumUpdate(s.workers, w, Exited);
    case _ =>
  }

  lemma {:induction false} InternalRunsAreShort(c: Config, s: State, acts: seq<Action>, t: State)
    requires c.Pooled() && Inv(c, s) && Perform(c, s, acts) == Some(t)
    requires forall a :: a in acts ==> Internal(a)
    ensures |acts| <= Measure(c, s) - Measure(c, t) && Measure(c, t) >= 0
    ensures s.caller == t.caller && s.quit == t.quit && s.next == t.next
    decreases |acts|
  {
    if acts != [] {
      var u := Apply(c, s, acts[0]);
      InternalStepDescends(c, s, acts[0]);
      StepKeepsInv(c, s, acts[0]);
      InternalRunsAreShort(c, u, acts[1..], t);
    }
  }

  /** A busy worker can always take its next step: its result channel has room. */
  lemma {:induction false} BusyWorkerSteps(c: Config, s: State, w: nat)
    requires c.Pooled() && Inv(c, s) && w < |s.workers| && Job(s.workers[w]) != -1
    ensures CanStep(c, s)
  {
    if s.workers[w].Assigned? {
      assert Internal(Begin(w)) && Enabled(c, s, Begin(w));
    } else {
      var i := s.workers[w].job;
      assert Job(s.workers[w]) == i;
      var o := if s.done && s.workers[w].late then c.late(i) else c.live(i);
      assert Internal(Finish(w, o)) && Enabled(c, s, Finish(w, o));
    }
  }

  /** No deadlock: a caller inside next always has a step of its own or of the pool ahead of it. */
  lemma {:induction false} WaitingCallerHasAStep(c: Config, s: State)
    requires c.Pooled() && Inv(c, s)
    ensures s.caller.Releasing? ==> Enabled(c, s, Release)
    ensures s.caller.Waiting? && !Enabled(c, s, Receive) ==> CanStep(c, s)
  {
    if s.caller.Waiting? && !Enabled(c, s, Receive) {
      if s.next < s.sent {
        assert AtWorker(s.workers, s.next);
        var w :| 0 <= w < |s.workers| && Job(s.workers[w]) == s.next;
        BusyWorkerSteps(c, s, w);
      } else {
        if !s.token {
          assert Internal(Acquire) && Enabled(c, s, Acquire);
        } else {
          var w := 0;
          if Job(s.workers[w]) != -1 {
            BusyWorkerSteps(c, s, w);
          } else {
            assert Internal(Send(w)) && Enabled(c, s, Send(w));
          }
        }
      }
    }
  }

  /** Whatever the pool does while the caller waits, after finitely many steps,
      a number fixed when it began to wait, only the hand-over is left to do. */
  lemma {:induction false} NextIsServed(c: Config, acts: seq<Action>, s: State, more: seq<Action>, t: State)
    requires c.Pooled() && Perform(c, Init(c), acts) == Some(s) && s.caller.Waiting?
    requires Perform(c, s, more) == Some(t) && forall a :: a in more ==> Internal(a)
    ensures |more| <= Measure(c, s)
    ensures Enabled(c, t, Receive) || CanStep(c, t)
  {
    InitInv(c);
    RunInv(c, Init(c), acts, s);
    InternalRunsAreShort(c, s, more, t);
    RunInv(c, s, more, t);
    WaitingCallerHasAStep(c, t);
  }

  lemma {:induction false} PoolEmpties(c: Config, s: State)
    requires c.Pooled() && Inv(c, s) && s.quit
    ensures CanStep(c, s) || (s.closed && AllExited(s.workers))
  {
    if !s.closed {
      assert Internal(CloseJobs) && Enabled(c, s, CloseJobs);
    } else if w :| 0 <= w < |s.workers| && !s.workers[w].Exited? {
      if s.workers[w].Idle? {
        assert Internal(Exit(w)) && Enabled(c, s, Exit(w));
      } else {
        BusyWorkerSteps(c, s, w);
      }
    }
  }

  /** stop always returns with no goroutine left: after it closes quit, the pool's
      steps are bounded, and when none is left every goroutine has returned. */
  lemma {:induction false} StopTerminates(c: Config, acts: seq<Action>, s: State, more: seq<Action>, t: State)
    requires c.Pooled() && Perform(c, Init(c), acts) == Some(s) && s.caller.Stopping?
    requires Perform(c, s, more) == Some(t) && forall a :: a in more ==> Internal(a)
    ensures |more| <= Measure(c, s)
    ensures CanStep(c, t) || (t.caller.Stopping? && t.closed && AllExited(t.workers))
  {
    InitInv(c);
    RunInv(c, Init(c), acts, s);
    InternalRunsAreShort(c, s, more, t);
    RunInv(c, s, more, t);
    PoolEmpties(c, t);
  }

  /** When stop has returned, in any run, no goroutine of the pool is left. */
  lemma {:induction false} StoppedIsEmpty(c: Config, acts: seq<Action>, s: State)
    requires c.Pooled() && Perform(c, Init(c), acts) == Some(s) && s.caller.Stopped?
    ensures s.closed && |s.workers| == c.Width() && AllExited(s.workers)
  {
    InitInv(c);
    RunInv(c, Init(c), acts, s);
  }
}
