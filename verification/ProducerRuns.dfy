/** The promises of the producer, over whole runs of the interleaving machine. */
module ProducerRuns {
  import opened Wrappers
  import opened SealPass
  import opened PassLaws
  import opened BatchIds
  import opened ProducerMachine
  import opened ProducerLaws

  /** No `enqueue` call is part-way through its counters. */
  predicate Quiet(s: State) {
    s.calls[Landed] == 0 && s.calls[Counted] == 0 && s.calls[Refused] == 0
  }

  // ---- Conservation ----

  /** At every moment of every run the rows accepted so far are, in acceptance order: the rows
      acknowledged or dropped, those waiting for retry, those staged, the one in the task's hand,
      and those on the channel. */
  lemma RunConservesRows(env: Env, moves: seq<Move>)
    ensures var s := Run(env, moves);
            s.arrivals == Settled(s.q.hist) + Flatten(s.q.retry) + s.q.staging + InHand(s.task) + s.channel
  {
    hide QueueInv, Settled, Flatten;
    RunKeeps(env, moves);
  }

  /** The counters account for every call: `accepted` is what is buffered plus what was acknowledged
      plus what was lost after acceptance, and `dropped` is the refused calls plus the losses. */
  lemma RunAccountsForEveryRow(env: Env, moves: seq<Move>)
    requires Quiet(Run(env, moves))
    ensures var s := Run(env, moves);
            && s.accepted == |s.channel| + |InHand(s.task)| + |s.q.staging| + |Flatten(s.q.retry)|
                             + |AckedRows(s.q.hist)| + Lost(s.q.hist)
            && s.dropped == s.refused + Lost(s.q.hist)
  {
    hide QueueInv, Settled, Flatten, AckedRows, Lost;
    RunKeeps(env, moves);
    RunConservesRows(env, moves);
    SettledSplits(Run(env, moves).q.hist);
  }

  /** Rows are dropped after acceptance only when a row of their chunk does not fit the schema or a
      single row is over the size limit. */
  lemma RunDropsOnlyBadChunks(env: Env, moves: seq<Move>, i: nat)
    requires i < |Run(env, moves).q.hist| && Run(env, moves).q.hist[i].Discarded?
    ensures var rows := Run(env, moves).q.hist[i].rows;
            || (exists k :: 0 <= k < |rows| && !env.buildable(rows[k]))
            || (|rows| == 1 && env.frameLen(rows) > env.maxMessageBytes)
  {
    RunKeeps(env, moves);
    assert DropsOk(env, Run(env, moves).q.hist);
  }

  // ---- Order and batch ids ----

  /** Head-of-line order over a run: a batch carries exactly the accepted rows that follow those
      acknowledged or dropped before it was sent. */
  lemma RunSendsInOrder(env: Env, moves: seq<Move>, i: nat)
    requires i < |Run(env, moves).q.hist| && Run(env, moves).q.hist[i].Sent?
    ensures var s := Run(env, moves);
            var n, rows := |Settled(s.q.hist[..i])|, s.q.hist[i].chunk.rows;
            && n + |rows| <= |s.arrivals|
            && Settled(s.q.hist[..i]) == s.arrivals[..n] && rows == s.arrivals[n..n + |rows|]
  {
    hide QueueInv, Settled, Flatten;
    RunKeeps(env, moves);
    NothingOvertakes(env, Run(env, moves).q, i);
  }

  /** Batch-id stability over a run. */
  lemma RunKeepsBatchIds(env: Env, moves: seq<Move>, i: nat, j: nat)
    requires var hist := Run(env, moves).q.hist; i < j < |hist| && hist[i].Sent? && hist[j].Sent?
    ensures var hist := Run(env, moves).q.hist;
            if hist[i].chunk.id == hist[j].chunk.id then SameBatch(hist, i, j) else LaterRows(hist, i, j)
  {
    RunKeeps(env, moves);
    QueueHistoryOk(env, Run(env, moves).q);
    BatchIdStable(Run(env, moves).q.hist, i, j);
  }

  /** Exactly-once delivery over a run, whatever the sink answers and stores. */
  lemma RunStoresOnce(env: Env, moves: seq<Move>)
    ensures var hist := Run(env, moves).q.hist; Flatten(Store(hist)) == AckedRows(hist) + InDoubt(hist)
  {
    RunKeeps(env, moves);
    QueueHistoryOk(env, Run(env, moves).q);
    DedupStoresOnce(Run(env, moves).q.hist);
  }

  /** Every batch sent in a run is within bounds. */
  lemma RunSendsWithinBounds(env: Env, moves: seq<Move>, i: nat)
    requires i < |Run(env, moves).q.hist| && Run(env, moves).q.hist[i].Sent?
    ensures var rows := Run(env, moves).q.hist[i].chunk.rows;
            && 1 <= |rows| <= AtLeastOne(env.flushMaxRows) && |rows| <= AtLeastOne(env.stagingCapacity)
            && env.frameLen(rows) <= env.maxMessageBytes
  {
    RunKeeps(env, moves);
    SentIsSendable(env, Run(env, moves).q, i);
  }

  /** `ingest` never reaches its drop branch in a run: staging always has room after a seal. */
  lemma RunIngestLands(env: Env, moves: seq<Move>)
    requires Run(env, moves).task.Holding?
    ensures var s := Run(env, moves);
            var q' := Ingest(env, s.q, s.task.row);
            && q'.staging != [] && q'.staging[|q'.staging| - 1] == s.task.row
            && |q'.staging| <= AtLeastOne(env.stagingCapacity)
  {
    RunKeeps(env, moves);
    IngestKeeps(env, Run(env, moves).q, Run(env, moves).task.row);
  }

  // ---- Flush and shutdown ----

  /** A successful flush or shutdown covers every row accepted before it was asked for: each is
      acknowledged or counted as dropped, for the rest of the run. */
  lemma RunRepliesCover(env: Env, moves: seq<Move>, i: nat)
    requires i < |Run(env, moves).replies| && Run(env, moves).replies[i].err.None?
    ensures var s := Run(env, moves);
            var reply := s.replies[i];
            && reply.request.since <= reply.upTo <= |Settled(s.q.hist)| <= |s.arrivals|
            && Settled(s.q.hist)[..reply.upTo] == s.arrivals[..reply.upTo]
  {
    hide QueueInv, Settled, Flatten;
    RunKeeps(env, moves);
  }

  lemma FlushStep(env: Env, s: State, pick: Pick)
    requires NoneEmpty(s.q.retry) && s.task.Sealing? && IsFlush(s.task.why)
    ensures var s' := Step(env, s, Turn(pick));
            var (q, r) := SealAndSend(env, s.q);
            && s'.q == q
            && s'.replies
               == s.replies + [Reply(s.task.why.request, if r.Err? then Some(r.error) else None, s.task.upTo)]
  {
    LostGrows(env, s.q);
  }

  /** The flush step itself: success means nothing is pending any more. */
  lemma RunFlushEmpties(env: Env, moves: seq<Move>, pick: Pick)
    requires Run(env, moves).task.Sealing? && IsFlush(Run(env, moves).task.why)
    ensures var s, s' := Run(env, moves), Step(env, Run(env, moves), Turn(pick));
            && |s'.replies| == |s.replies| + 1
            && (s'.replies[|s.replies|].err.None? ==>
                  && s'.q.staging == [] && s'.q.retry == []
                  && s.task.upTo <= |s.arrivals| && Settled(s'.q.hist) == s.arrivals[..s.task.upTo]
                  && Lost(s'.q.hist) == Lost(s.q.hist))
            && (s'.replies[|s.replies|].err.Some? ==>
                  && |s'.q.hist| > |s.q.hist|
                  && Explains(env, s'.q.hist[|s'.q.hist| - 1], s'.replies[|s.replies|].err.value))
  {
    hide QueueInv, Settled, Flatten, Lost, Explains, NoneEmpty, SealAndSend;
    RunKeeps(env, moves);
    ConservedPrefix(Run(env, moves));
    SealAndSendReports(env, Run(env, moves).q);
    FlushStep(env, Run(env, moves), pick);
    hide Step, Run;
  }

  /** After the task has stopped: the drained prefix is settled or in the retry deque, exactly; what
      landed behind the drain is stranded on the channel, exactly. So, error or not, all accepted rows
      are settled if and only if the retry deque is empty and nothing landed behind. */
  lemma RunStops(env: Env, moves: seq<Move>)
    requires Run(env, moves).task.Stopped?
    ensures var s := Run(env, moves);
            var Stopped(err, upTo) := s.task;
            && upTo <= |s.arrivals| && s.q.staging == []
            && Settled(s.q.hist) + Flatten(s.q.retry) == s.arrivals[..upTo]
            && s.channel == s.arrivals[upTo..]
            && (err.None? ==> s.q.retry == [])
            && (Settled(s.q.hist) == s.arrivals <==> s.q.retry == [] && s.channel == [])
  {
    hide QueueInv, Settled, Flatten;
    RunKeeps(env, moves);
    var s := Run(env, moves);
    var upTo := s.task.upTo;
    assert s.arrivals == s.arrivals[..upTo] + s.channel;
    FlattenEmpty(s.q.retry);
  }

  lemma FlattenEmpty(chunks: seq<Chunk>)
    requires NoneEmpty(chunks)
    ensures Flatten(chunks) == [] <==> chunks == []
  {
    assert chunks != [] ==> chunks[0].rows != [];
  }

  function Rank(life: Life): nat {
    match life
    case Running => 0
    case Draining => 1
    case Drained => 2
  }

  lemma TurnAdvancesLife(env: Env, s: State, pick: Pick)
    requires NoneEmpty(s.q.retry) && Phase(s)
    ensures Rank(s.life) <= Rank(Works(env, s, pick).life) <= Rank(s.life) + 1
  {
    hide DrainedUpTo, Settled, Flatten, NoneEmpty, SealAndSend, DrainToCompletion, Ingest, Intake, Lost;
  }

  lemma StepAdvancesLife(env: Env, s: State, move: Move)
    requires Inv(env, s)
    ensures Rank(s.life) <= Rank(Step(env, s, move).life) <= Rank(s.life) + 1
  {
    hide QueueInv, Conserved, Counters, RepliesOk, Phase, NoneEmpty, Works;
    match move {
      case Turn(pick) => TurnAdvancesLife(env, s, pick);
      case _ =>
    }
  }

  /** The state moves only `Running`, `Draining`, `Drained`, in that order, one at a time. */
  lemma {:induction false} RunAdvancesLife(env: Env, moves: seq<Move>, n: nat)
    requires n <= |moves|
    ensures var from, to := Rank(Run(env, moves[..n]).life), Rank(Run(env, moves).life);
            from <= to <= from + |moves| - n
  {
    hide Inv, Step;
    if n == |moves| {
      assert moves[..n] == moves;
    } else {
      var before := moves[..|moves| - 1];
      RunAdvancesLife(env, before, n);
      assert before[..n] == moves[..n];
      RunKeeps(env, before);
      StepAdvancesLife(env, Run(env, before), moves[|moves| - 1]);
    }
  }

  // ---- A run that shows where the limits are ----

  lemma RunPush(env: Env, moves: seq<Move>, move: Move)
    ensures Run(env, moves + [move]) == Step(env, Run(env, moves), move)
  {
    assert (moves + [move])[..|moves|] == moves;
  }

  /** A call has read `RUNNING`, and a shutdown has drained to completion but not yet answered. */
  lemma ShutdownDrains(env: Env, row: Row) returns (moves: seq<Move>)
    ensures Run(env, moves) == INIT.(life := Draining, calls := multiset{Trying(row, 0)}, task := Storing(0, None, 0))
  {
    moves := [Enter(row)];
    RunPush(env, [], Enter(row));
    assert [] + moves == moves;
    hide Run;
    RunPush(env, moves, Ask(Shutdown));
    moves := moves + [Ask(Shutdown)];
    RunPush(env, moves, Turn(PickCtrl));
    moves := moves + [Turn(PickCtrl)];
    RunPush(env, moves, Turn(PickRow));
    moves := moves + [Turn(PickRow)];
    assert Run(env, moves).task == Sealing(ByRequest(Request(Shutdown, 0)), 0);
    RunPush(env, moves, Turn(PickRow));
    moves := moves + [Turn(PickRow)];
  }

  /** A row can land behind the drain: the caller reads `RUNNING`, a shutdown drains and is about to
      answer with success, the row goes onto the channel, and the task stops. The row was accepted
      and is neither delivered nor counted. */
  lemma RowCanBeStranded(env: Env, row: Row)
    ensures exists moves :: var s := Run(env, moves);
              && s.task == Stopped(None, 0) && s.accepted == 1 && s.dropped == 0 && s.channel == [row] && s.q.hist == []
  {
    hide Run;
    var m1 := ShutdownDrains(env, row);
    var m2 := m1 + [Advance(Trying(row, 0))];
    RunPush(env, m1, Advance(Trying(row, 0)));
    var m3 := m2 + [Advance(Landed)];
    RunPush(env, m2, Advance(Landed));
    var m4 := m3 + [Turn(PickRow)];
    RunPush(env, m3, Turn(PickRow));
    var m5 := m4 + [Turn(PickRow)];
    RunPush(env, m4, Turn(PickRow));
    var m6 := m5 + [Turn(PickRow)];
    RunPush(env, m5, Turn(PickRow));
    assert Run(env, m6).task == Stopped(None, 0);
  }
}
