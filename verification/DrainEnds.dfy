/** What a drain leaves, seen from before it starts: the batches its chunks come to, and what the sink
    is going to answer. */
module DrainEnds {
  import opened Wrappers
  import opened SealPass
  import opened PassLaws
  import opened ProducerMachine
  import opened ProducerLaws
  import opened ProducerRuns
  import opened ProducerEndings
  import opened ProducerMetrics

  // ---- What a chunk comes to ----

  predicate TooLong(env: Env, rows: seq<Row>) {
    CanBuild(env, rows) && env.frameLen(rows) > env.maxMessageBytes
  }

  /** A batch that goes out. */
  predicate Ships(env: Env, rows: seq<Row>) {
    CanBuild(env, rows) && env.frameLen(rows) <= env.maxMessageBytes
  }

  /** What halving comes to: the batches and the drops that stand for these rows, in order. */
  function Leaves(env: Env, rows: seq<Row>): (leaves: seq<seq<Row>>)
    ensures leaves != []
    decreases |rows|
  {
    if TooLong(env, rows) && |rows| > 1 then
      Leaves(env, rows[..|rows| / 2]) + Leaves(env, rows[|rows| / 2..])
    else [rows]
  }

  function AllLeaves(env: Env, pending: seq<Chunk>): (leaves: seq<seq<Row>>)
    ensures leaves == [] <==> pending == []
  {
    if pending == [] then [] else Leaves(env, pending[0].rows) + AllLeaves(env, pending[1..])
  }

  /** Every leaf goes out and is accepted, the first of them by answer `n` of the sink. */
  predicate AllAccepted(env: Env, leaves: seq<seq<Row>>, n: nat) {
    leaves == [] || (Ships(env, leaves[0]) && env.answer(n).Accepted? && AllAccepted(env, leaves[1..], n + 1))
  }

  /** Going down the leaves, each that goes out is accepted at its turn, and one that does not go out
      is the last. */
  predicate NothingStays(env: Env, leaves: seq<seq<Row>>, n: nat) {
    leaves == []
    || (if Ships(env, leaves[0]) then env.answer(n).Accepted? && NothingStays(env, leaves[1..], n + 1)
        else |leaves| == 1)
  }

  lemma SplitKeepsLeaves(env: Env, l: Loop)
    requires l.pending != [] && Oversize(env, l.pending[0]) && |l.pending[0].rows| > 1
    ensures AllLeaves(env, SplitFront(l).pending) == AllLeaves(env, l.pending)
  {
    var left, right, rest := Left(l.pending[0]), Right(l.pending[0], l.nextId), l.pending[1..];
    var halves := [left, right] + rest;
    assert halves[1..] == [right] + rest && halves[1..][1..] == rest;
    assert AllLeaves(env, halves) == Leaves(env, left.rows) + (Leaves(env, right.rows) + AllLeaves(env, rest));
  }

  lemma FirstLeaf(env: Env, pending: seq<Chunk>)
    requires pending != [] && !(Oversize(env, pending[0]) && |pending[0].rows| > 1)
    ensures var leaves := AllLeaves(env, pending);
            leaves[0] == pending[0].rows && leaves[1..] == AllLeaves(env, pending[1..])
  {
    assert Leaves(env, pending[0].rows) == [pending[0].rows];
  }

  /** One iteration on a head that is not split: it goes out and is accepted, or the pass ends here,
      keeping the head if it went out and dropping it otherwise. */
  lemma HeadMoves(env: Env, l: Loop)
    requires l.pending != [] && !(Oversize(env, l.pending[0]) && |l.pending[0].rows| > 1)
    ensures var (l', err) := FrontStep(env, l);
            var answer := env.answer(SendCount(l.hist));
            if Ships(env, l.pending[0].rows) then
              if answer.Accepted? then
                err.None? && l'.pending == l.pending[1..] && SendCount(l'.hist) == SendCount(l.hist) + 1
              else err.Some? && l'.pending == l.pending
            else err.Some? && l'.pending == l.pending[1..]
  {
    SendCountPush(l.hist, Sent(l.pending[0], env.answer(SendCount(l.hist))));
  }

  /** How the loop of a pass ends, told from where it starts. */
  lemma {:induction false} LoopEnds(env: Env, l: Loop)
    requires NoneEmpty(l.pending)
    ensures var (l', err) := SendAll(env, l);
            && (err.None? <==> AllAccepted(env, AllLeaves(env, l.pending), SendCount(l.hist)))
            && (l'.pending == [] <==> NothingStays(env, AllLeaves(env, l.pending), SendCount(l.hist)))
    decreases Work(l.pending)
  {
    var leaves, n := AllLeaves(env, l.pending), SendCount(l.hist);
    if l.pending == [] {
      NoLeaves(env, n);
    } else {
      StepLowersWork(env, l);
      var head := l.pending[0];
      if Oversize(env, head) && |head.rows| > 1 {
        hide Leaves, AllLeaves, AllAccepted, NothingStays;
        SplitKeepsLeaves(env, l);
        LoopEnds(env, SplitFront(l));
      } else {
        hide Leaves, AllLeaves, FrontStep, CanBuild, Work;
        FirstLeaf(env, l.pending);
        HeadMoves(env, l);
        assert |leaves| == 1 <==> leaves[1..] == [];
        if FrontStep(env, l).1.None? {
          LoopEnds(env, FrontStep(env, l).0);
        }
      }
    }
  }

  lemma NoLeaves(env: Env, n: nat)
    ensures AllAccepted(env, [], n) && AllLeaves(env, []) == []
  {
  }

  /** A pass loop ends without error exactly if everything it did was an acknowledged send. */
  lemma {:induction false} CleanLoop(env: Env, l: Loop)
    requires NoneEmpty(l.pending)
    ensures var (l', err) := SendAll(env, l);
            l.hist <= l'.hist && (err.None? <==> forall i :: |l.hist| <= i < |l'.hist| ==> Acked(l'.hist[i]))
    decreases Work(l.pending)
  {
    if l.pending == [] {
    } else {
      StepLowersWork(env, l);
      var (l1, err) := FrontStep(env, l);
      if err.None? {
        CleanLoop(env, l1);
      } else {
        var head := l.pending[0];
        assert l1.hist[|l.hist|] == if Ships(env, head.rows) then Sent(head, env.answer(SendCount(l.hist)))
                                    else Discarded(head.rows);
      }
    }
  }

  // ---- A drain ----

  /** The leaves of everything in a queue, retries first. */
  function QueueLeaves(env: Env, q: Queue): seq<seq<Row>> {
    AllLeaves(env, Start(env, q).pending)
  }

  /** A drain, told from before it. It reports no error if and only if every leaf of the queue goes out
      and the sink is going to accept each in turn; everything it does is then an acknowledged send.
      And, error or not, it leaves nothing waiting for retry if and only if each leaf that goes out is
      accepted at its turn and one that does not go out is the last: a drain that drops its last chunk
      fails and still leaves nothing. */
  lemma DrainIsClean(env: Env, q: Queue)
    requires QueueInv(env, q)
    ensures NoneEmpty(q.retry)
    ensures var (q', err) := DrainToCompletion(env, q);
            && q'.staging == [] && q.hist <= q'.hist
            && (err.None? <==> AllAccepted(env, QueueLeaves(env, q), SendCount(q.hist)))
            && (q'.retry == [] <==> NothingStays(env, QueueLeaves(env, q), SendCount(q.hist)))
            && (err.None? <==> forall i :: |q.hist| <= i < |q'.hist| ==> Acked(q'.hist[i]))
            && (err.None? ==> q'.retry == [] && Lost(q'.hist) == Lost(q.hist))
            && (err.Some? ==> |q'.hist| > |q.hist| && Explains(env, q'.hist[|q'.hist| - 1], err.value))
  {
    hide Explains;
    hide QueueInv, Intake, Settled, AckedIds, AckedRows, Lost, AllAccepted, NothingStays, AllLeaves;
    SealAndSendKeeps(env, q);
    SealAndSendReports(env, q);
    LoopEnds(env, Start(env, q));
    if q.staging == [] && q.retry == [] {
      assert Start(env, q).pending == [];
    } else {
      CleanLoop(env, Start(env, q));
      var (q1, r) := SealAndSend(env, q);
      assert r.Ok? ==> DrainToCompletion(env, q1) == (q1, None);
    }
  }

  // ---- A shutdown ----

  /** Between sealing and the end nothing touches the queue: it is the one before the drain, or what
      the drain made of it. */
  predicate DrainDone(env: Env, s: State, t: State)
    requires NoneEmpty(s.q.retry)
  {
    var (q, err) := DrainToCompletion(env, s.q);
    (t.task == s.task && t.q == s.q) || (t.q == q && AfterDrain(t.task, err))
  }

  predicate AfterDrain(task: Pc, drained: Option<FlushError>) {
    match task
    case Storing(_, err, _) => err == drained
    case Replying(_, err, _) => err == drained
    case Stopping(err, _) => err == drained
    case Stopped(err, _) => err == drained
    case _ => false
  }

  lemma StepKeepsDrain(env: Env, s: State, t: State, move: Move)
    requires NoneEmpty(s.q.retry) && NoneEmpty(t.q.retry) && DrainDone(env, s, t)
    requires s.task.Sealing? && !IsFlush(s.task.why)
    ensures DrainDone(env, s, Step(env, t, move))
  {
    hide NoneEmpty, SealAndSend, Ingest, DrainToCompletion, Lost;
  }

  lemma {:induction false} DrainStaysDone(env: Env, before: seq<Move>, moves: seq<Move>)
    requires before <= moves
    ensures var s := Run(env, before);
            s.task.Sealing? && !IsFlush(s.task.why) ==> DrainDone(env, s, Run(env, moves))
    decreases |moves|
  {
    hide Step, DrainDone, NoneEmpty;
    var s := Run(env, before);
    if s.task.Sealing? && !IsFlush(s.task.why) {
      if before == moves {
        NotYetDrained(env, s);
      } else {
        var last := moves[..|moves| - 1];
        DrainStaysDone(env, before, last);
        StepKeepsDrain(env, s, Run(env, last), moves[|moves| - 1]);
      }
    }
  }

  lemma NotYetDrained(env: Env, s: State)
    requires NoneEmpty(s.q.retry)
    ensures DrainDone(env, s, s)
  {
  }

  /** Whether the buffer is empty once the task has stopped is settled when the drain starts, whatever
      anyone does meanwhile: staging always is, and nothing waits for retry if and only if each leaf of
      the queue that goes out is going to be accepted and one that does not is the last. The error
      reported is none if and only if every leaf goes out and is going to be accepted. */
  lemma ShutdownLeaves(env: Env, before: seq<Move>, moves: seq<Move>)
    requires before <= moves
    ensures var s, t := Run(env, before), Run(env, moves);
            s.task.Sealing? && !IsFlush(s.task.why) && t.task.Stopped? ==>
              && t.q.staging == []
              && (t.q.retry == [] <==> NothingStays(env, QueueLeaves(env, s.q), SendCount(s.q.hist)))
              && (t.task.err.None? <==> AllAccepted(env, QueueLeaves(env, s.q), SendCount(s.q.hist)))
              && (t.task.err.Some? ==>
                    |t.q.hist| > |s.q.hist| && Explains(env, t.q.hist[|t.q.hist| - 1], t.task.err.value))
  {
    hide Explains;
    hide Run, QueueInv, NothingStays, AllAccepted, QueueLeaves, DrainToCompletion, NoneEmpty, Lost;
    RunKeeps(env, before);
    var s := Run(env, before);
    if s.task.Sealing? && !IsFlush(s.task.why) {
      DrainIsClean(env, s.q);
      DrainStaysDone(env, before, moves);
    }
  }

  lemma Turned(env: Env, moves: seq<Move>) returns (more: seq<Move>)
    ensures more == moves + [Turn(PickRow)] && Run(env, more) == Works(env, Run(env, moves), PickRow)
  {
    more := OneTurn(env, moves);
  }

  /** One staged row that ships, and a sink that rejects it. */
  lemma RejectedDrain(env: Env, row: Row)
    requires env.buildable(row) && env.frameLen([row]) <= env.maxMessageBytes && env.answer(0) == Rejected(false)
    ensures DrainToCompletion(env, EMPTY_QUEUE.(staging := [row]))
         == (Queue([], [Chunk(0, [row])], 1, [Sent(Chunk(0, [row]), Rejected(false))]), Some(SinkFailed))
  {
    var q, c := EMPTY_QUEUE.(staging := [row]), Chunk(0, [row]);
    assert Seal([row], ChunkSize(env), 0) == [c];
    var l := Start(env, q);
    assert l == Loop([c], 1, [], FlushOutcome([], 0));
    assert SendCount(l.hist) == 0;
    assert CanBuild(env, c.rows) && !Oversize(env, c);
    var none: seq<Event> := [];
    assert none + [Sent(c, Rejected(false))] == [Sent(c, Rejected(false))];
    assert FrontStep(env, l) == (l.(hist := [Sent(c, Rejected(false))]), Some(SinkFailed));
    assert SendAll(env, l) == FrontStep(env, l);
    assert SealAndSend(env, q) == (Queue([], [c], 1, [Sent(c, Rejected(false))]), Err(SinkFailed));
  }

  /** One row accepted, and a shutdown that has brought it to staging and is about to drain. */
  lemma RowAwaitsDrain(env: Env, row: Row) returns (m: seq<Move>)
    ensures Run(env, m) == INIT.(life := Draining, accepted := 1, arrivals := [row],
                                 task := Sealing(ByRequest(Request(Shutdown, 1)), 1),
                                 q := EMPTY_QUEUE.(staging := [row]))
  {
    hide Run, DrainToCompletion, SealAndSend;
    m := RowLands(env, row);
    RunPush(env, m, Ask(Shutdown));
    m := m + [Ask(Shutdown)];
    RunPush(env, m, Turn(PickCtrl));
    m := m + [Turn(PickCtrl)];
    m := Turned(env, m);
    m := Turned(env, m);
    m := Turned(env, m);
    assert Run(env, m).q == EMPTY_QUEUE.(staging := [row]);
    m := Turned(env, m);
  }

  /** A run that ends drained and not empty: one row is accepted, the sink rejects it in the shutdown's
      drain, and the task stops with its chunk waiting for a retry that does not come. */
  lemma RetryCanBeLeft(env: Env, row: Row)
    requires env.buildable(row) && env.frameLen([row]) <= env.maxMessageBytes && env.answer(0) == Rejected(false)
    ensures exists moves :: var s := Run(env, moves);
              && s.life == Drained && s.task == Stopped(Some(SinkFailed), 1) && s.accepted == 1
              && s.q.retry == [Chunk(0, [row])] && s.dropped == 0
  {
    hide Run, DrainToCompletion, SealAndSend, Ingest;
    RejectedDrain(env, row);
    var m := RowAwaitsDrain(env, row);
    m := Turned(env, m);
    m := Turned(env, m);
    m := Turned(env, m);
    m := Turned(env, m);
    assert Run(env, m).task == Stopped(Some(SinkFailed), 1);
  }
}
