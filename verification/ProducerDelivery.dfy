/** Flushing gets there, whoever else is at work: over any run, with calls and requests coming in all
    the time, only so many flushes can fail once the sink recovers. */
module ProducerDelivery {
  import opened Wrappers
  import opened SealPass
  import opened PassLaws
  import opened Delivery
  import opened ProducerMachine
  import opened ProducerLaws
  import opened ProducerRuns

  // ---- What a queue can still cost ----

  /** An upper bound on the passes of this queue that can fail: failures the sink has left, the work in
      the retry deque, and two for each staged row. */
  function Credit(q: Queue, recovery: nat): nat
    requires NoneEmpty(q.retry)
  {
    FailuresLeft(q.hist, recovery) + Work(q.retry) + 2 * |q.staging|
  }

  function Cost(failed: bool): nat {
    if failed then 1 else 0
  }

  lemma {:induction false} WorkAppend(a: seq<Chunk>, b: seq<Chunk>)
    requires NoneEmpty(a) && NoneEmpty(b)
    ensures NoneEmpty(a + b) && Work(a + b) == Work(a) + Work(b)
  {
    if a == [] {
      assert a + b == b;
    } else {
      assert (a + b)[1..] == a[1..] + b;
      WorkAppend(a[1..], b);
    }
  }

  lemma {:induction false} SealedWork(rows: seq<Row>, size: nat, nextId: nat)
    requires size >= 1
    ensures Work(Seal(rows, size, nextId)) <= 2 * |rows|
    decreases |rows|
  {
    if |rows| > size {
      SealedWork(rows[size..], size, nextId + 1);
      var rest := Seal(rows[size..], size, nextId + 1);
      assert ([Chunk(nextId, rows[..size])] + rest)[1..] == rest;
    }
  }

  /** A pass takes its failure out of the credit. */
  lemma PassPays(env: Env, q: Queue, recovery: nat)
    requires NoneEmpty(q.retry) && RecoversAt(env, recovery)
    ensures var (q', r) := SealAndSend(env, q); Credit(q', recovery) + Cost(r.Err?) <= Credit(q, recovery)
  {
    var sealed := Seal(q.staging, ChunkSize(env), q.nextId);
    SealedWork(q.staging, ChunkSize(env), q.nextId);
    WorkAppend(q.retry, sealed);
    FailingLoopCosts(env, Start(env, q), recovery);
  }

  /** An ingested row brings two. */
  lemma IngestPays(env: Env, q: Queue, row: Row, recovery: nat)
    requires NoneEmpty(q.retry) && RecoversAt(env, recovery)
    ensures Credit(Ingest(env, q, row), recovery) <= Credit(q, recovery) + 2
  {
    PassPays(env, q, recovery);
  }

  lemma DrainPays(env: Env, q: Queue, recovery: nat)
    requires NoneEmpty(q.retry) && RecoversAt(env, recovery)
    ensures var (q', err) := DrainToCompletion(env, q); Credit(q', recovery) + Cost(err.Some?) <= Credit(q, recovery)
  {
    if q.staging != [] || q.retry != [] {
      PassPays(env, q, recovery);
      var (q1, r) := SealAndSend(env, q);
      assert r.Ok? ==> DrainToCompletion(env, q1) == (q1, None);
    }
  }

  // ---- What a run can still cost ----

  /** A shutdown that failed and has not been answered yet. */
  function Owed(task: Pc): nat {
    match task
    case Storing(_, err, _) => Cost(err.Some?)
    case Replying(_, err, _) => Cost(err.Some?)
    case _ => 0
  }

  function FailedReplies(replies: seq<Reply>): nat {
    if replies == [] then 0
    else FailedReplies(replies[..|replies| - 1]) + Cost(replies[|replies| - 1].err.Some?)
  }

  function Budget(s: State, recovery: nat): nat
    requires NoneEmpty(s.q.retry)
  {
    Credit(s.q, recovery) + 2 * (|InHand(s.task)| + |s.channel|) + Owed(s.task)
  }

  /** What a step may do: it pays for each failed reply, and only a landing row brings credit. */
  predicate Pays(s: State, s': State, recovery: nat)
    requires NoneEmpty(s.q.retry) && NoneEmpty(s'.q.retry)
  {
    FailedReplies(s'.replies) + Budget(s', recovery) + 2 * |s.arrivals|
    <= FailedReplies(s.replies) + Budget(s, recovery) + 2 * |s'.arrivals|
  }

  lemma ReplyPushed(replies: seq<Reply>, reply: Reply)
    ensures FailedReplies(replies + [reply]) == FailedReplies(replies) + Cost(reply.err.Some?)
  {
    assert (replies + [reply])[..|replies|] == replies;
  }

  lemma SealingPays(env: Env, s: State, pick: Pick, recovery: nat)
    requires NoneEmpty(s.q.retry) && RecoversAt(env, recovery) && s.task.Sealing?
    ensures NoneEmpty(Works(env, s, pick).q.retry) && Pays(s, Works(env, s, pick), recovery)
  {
    hide SealAndSend, DrainToCompletion, Credit, FailedReplies, Lost, NoneEmpty, RecoversAt;
    LostGrows(env, s.q);
    var why := s.task.why;
    if IsFlush(why) {
      PassPays(env, s.q, recovery);
      var r := SealAndSend(env, s.q).1;
      ReplyPushed(s.replies, Reply(why.request, if r.Err? then Some(r.error) else None, s.task.upTo));
    } else {
      DrainPays(env, s.q, recovery);
    }
  }

  lemma TurnPays(env: Env, s: State, pick: Pick, recovery: nat)
    requires NoneEmpty(s.q.retry) && RecoversAt(env, recovery)
    ensures NoneEmpty(Works(env, s, pick).q.retry) && Pays(s, Works(env, s, pick), recovery)
  {
    hide SealAndSend, Ingest, DrainToCompletion, Credit, FailedReplies, Lost, NoneEmpty, RecoversAt;
    LostGrows(env, s.q);
    match s.task {
      case Holding(row, drain) => IngestPays(env, s.q, row, recovery);
      case Sealing(why, upTo) => SealingPays(env, s, pick, recovery);
      case Replying(since, err, upTo) => ReplyPushed(s.replies, Reply(Request(Shutdown, since), err, upTo));
      case _ => PassPays(env, s.q, recovery);
    }
  }

  lemma StepPays(env: Env, s: State, move: Move, recovery: nat)
    requires NoneEmpty(s.q.retry) && RecoversAt(env, recovery)
    ensures NoneEmpty(Step(env, s, move).q.retry) && Pays(s, Step(env, s, move), recovery)
  {
    hide Credit, FailedReplies, NoneEmpty, Works;
    match move {
      case Turn(pick) => TurnPays(env, s, pick, recovery);
      case _ =>
    }
  }

  /** From any moment of a run on, failed replies are bounded by the budget of that moment and two for
      each row that lands later. */
  lemma {:induction false} RunPays(env: Env, moves: seq<Move>, n: nat, recovery: nat)
    requires n <= |moves| && RecoversAt(env, recovery)
    ensures Pays(Run(env, moves[..n]), Run(env, moves), recovery)
  {
    hide Step, Budget, FailedReplies, RecoversAt, NoneEmpty;
    if n == |moves| {
      assert moves[..n] == moves;
    } else {
      var before := moves[..|moves| - 1];
      assert before[..n] == moves[..n];
      RunPays(env, before, n, recovery);
      StepPays(env, Run(env, before), moves[|moves| - 1], recovery);
    }
  }

  lemma {:induction false} AllFailed(replies: seq<Reply>, from: nat)
    requires from <= |replies| && forall i :: from <= i < |replies| ==> replies[i].err.Some?
    ensures FailedReplies(replies) == FailedReplies(replies[..from]) + |replies| - from
  {
    if from == |replies| {
      assert replies[..from] == replies;
    } else {
      var last := |replies| - 1;
      assert replies[..last][..from] == replies[..from];
      AllFailed(replies[..last], from);
    }
  }

  lemma SomeReplyIsGood(replies: seq<Reply>, from: nat)
    requires from <= |replies| && FailedReplies(replies) - FailedReplies(replies[..from]) < |replies| - from
    ensures exists i :: from <= i < |replies| && replies[i].err.None?
  {
    if forall i :: from <= i < |replies| ==> replies[i].err.Some? {
      AllFailed(replies, from);
    }
  }

  /** Over a whole run with a sink that recovers, however calls, flushes and turns interleave, at most
      one flush or shutdown fails for each failure the sink had left, and two for each row accepted. */
  lemma RunFailuresAreBounded(env: Env, moves: seq<Move>, recovery: nat)
    requires RecoversAt(env, recovery)
    ensures var s := Run(env, moves); FailedReplies(s.replies) <= recovery + 2 * |s.arrivals|
  {
    hide Step, RecoversAt;
    RunPays(env, moves, 0, recovery);
    assert moves[..0] == [] && Run(env, moves[..0]) == INIT;
  }

  /** So flushing goes through in any company: once more replies than the budget of some moment, and
      two for each row landed since, have been given since that moment, one of them reports success,
      and then every row accepted before it was asked for is acknowledged or counted as dropped. */
  lemma FlushingGoesThrough(env: Env, moves: seq<Move>, n: nat, recovery: nat)
    requires n <= |moves| && RecoversAt(env, recovery)
    ensures var s, t := Run(env, moves[..n]), Run(env, moves);
            |t.replies| - |s.replies| > Budget(s, recovery) + 2 * (|t.arrivals| - |s.arrivals|) ==>
              exists i :: |s.replies| <= i < |t.replies| && t.replies[i].err.None? &&
                  Covered(t, t.replies[i].request.since)
  {
    hide Run, Budget, FailedReplies, RecoversAt, NoneEmpty, Settled;
    var s, t := Run(env, moves[..n]), Run(env, moves);
    if |t.replies| - |s.replies| > Budget(s, recovery) + 2 * (|t.arrivals| - |s.arrivals|) {
      RunPays(env, moves, n, recovery);
      RepliesStay(env, moves, n);
      assert t.replies[..|s.replies|] == s.replies;
      SomeReplyIsGood(t.replies, |s.replies|);
      var i :| |s.replies| <= i < |t.replies| && t.replies[i].err.None?;
      RunRepliesCover(env, moves, i);
      PrefixOfPrefix(Settled(t.q.hist), t.arrivals, t.replies[i].request.since, t.replies[i].upTo);
      assert Covered(t, t.replies[i].request.since);
    }
  }

  /** The first `n` rows accepted are acknowledged or counted as dropped. */
  predicate Covered(s: State, n: nat) {
    n <= |Settled(s.q.hist)| <= |s.arrivals| && Settled(s.q.hist)[..n] == s.arrivals[..n]
  }

  lemma PrefixOfPrefix(a: seq<Row>, b: seq<Row>, m: nat, n: nat)
    requires m <= n <= |a| && n <= |b| && a[..n] == b[..n]
    ensures a[..m] == b[..m]
  {
    assert a[..n][..m] == a[..m] && b[..n][..m] == b[..m];
  }

  lemma {:induction false} RepliesStay(env: Env, moves: seq<Move>, n: nat)
    requires n <= |moves|
    ensures Run(env, moves[..n]).replies <= Run(env, moves).replies
  {
    hide Step, NoneEmpty;
    if n == |moves| {
      assert moves[..n] == moves;
    } else {
      var before := moves[..|moves| - 1];
      assert before[..n] == moves[..n];
      RepliesStay(env, before, n);
      StepKeepsReplies(env, Run(env, before), moves[|moves| - 1]);
    }
  }

  lemma StepKeepsReplies(env: Env, s: State, move: Move)
    requires NoneEmpty(s.q.retry)
    ensures s.replies <= Step(env, s, move).replies
  {
    hide SealAndSend, Ingest, DrainToCompletion, Lost, NoneEmpty;
  }
}
