/** The machine and the handlers: with nobody else moving, the turns of the task are what its handlers
    do, and the steps of a call are what `enqueue` does; and what the task never leaves undone. */
module TaskTurns {
  import opened Wrappers
  import opened SealPass
  import opened PassLaws
  import opened Producers
  import opened ProducerMachine
  import opened ProducerLaws
  import opened ProducerRuns

  // ---- A full batch does not wait ----

  /** Between two turns of its loop the task never holds a batch's worth of staged rows. */
  predicate NoBatchWaits(env: Env, s: State) {
    s.task.Selecting? ==> |s.q.staging| < if env.flushMaxRows == 0 then 1 else env.flushMaxRows
  }

  lemma MoveKeepsNoBatch(env: Env, s: State, move: Move)
    requires NoneEmpty(s.q.retry) && NoBatchWaits(env, s)
    ensures NoBatchWaits(env, Step(env, s, move))
  {
    hide NoneEmpty, SealAndSend, Ingest, DrainToCompletion, Lost;
    EmptyStaging(env, s.q);
  }

  lemma EmptyStaging(env: Env, q: Queue)
    requires NoneEmpty(q.retry)
    ensures SealAndSend(env, q).0.staging == []
  {
  }

  /** In every run: no batch waits for a flush, and the timer leaves nothing staged. */
  lemma RunLeavesNoBatch(env: Env, moves: seq<Move>)
    requires Run(env, moves).task.Selecting?
    ensures |Run(env, moves).q.staging| < if env.flushMaxRows == 0 then 1 else env.flushMaxRows
    ensures Step(env, Run(env, moves), Turn(PickTick)).q.staging == []
  {
    RunKeepsNoBatch(env, moves);
    TickEmpties(env, Run(env, moves));
  }

  lemma {:induction false} RunKeepsNoBatch(env: Env, moves: seq<Move>)
    ensures NoBatchWaits(env, Run(env, moves))
  {
    hide Step, NoneEmpty, NoBatchWaits;
    if moves == [] {
      assert NoBatchWaits(env, INIT) by {
        NothingStaged(env);
      }
    } else {
      RunKeepsNoBatch(env, moves[..|moves| - 1]);
      MoveKeepsNoBatch(env, Run(env, moves[..|moves| - 1]), moves[|moves| - 1]);
    }
  }

  lemma NothingStaged(env: Env)
    ensures NoBatchWaits(env, INIT)
  {
  }

  /** The timer leaves nothing staged, and does nothing if nothing is. */
  lemma TickEmpties(env: Env, s: State)
    requires NoneEmpty(s.q.retry) && s.task.Selecting?
    ensures var t := Works(env, s, PickTick); t.q.staging == [] && (s.q.staging == [] ==> t == s)
  {
    EmptyStaging(env, s.q);
  }

  // ---- No request outlives the task ----

  lemma MoveKeepsNoRequest(env: Env, s: State, move: Move)
    requires NoneEmpty(s.q.retry) && (s.task.Stopped? ==> s.ctrl == [])
    ensures var t := Step(env, s, move); t.task.Stopped? ==> t.ctrl == []
  {
    hide NoneEmpty, SealAndSend, Ingest, DrainToCompletion, Lost;
  }

  /** In every run: once the task has stopped no request is left waiting, and none is taken any more. */
  lemma {:induction false} RunLeavesNoRequest(env: Env, moves: seq<Move>)
    requires Run(env, moves).task.Stopped?
    ensures Run(env, moves).ctrl == []
    ensures forall ctrl :: Step(env, Run(env, moves), Ask(ctrl)) == Run(env, moves)
  {
    var before := moves[..|moves| - 1];
    hide NoneEmpty, Works, Advances;
    if Run(env, before).task.Stopped? {
      RunLeavesNoRequest(env, before);
    }
    MoveKeepsNoRequest(env, Run(env, before), moves[|moves| - 1]);
  }

  // ---- Turns with nobody else moving ----

  /** The task on its own for `n` turns. */
  function Turns(env: Env, s: State, n: nat): (t: State)
    requires NoneEmpty(s.q.retry)
    ensures NoneEmpty(t.q.retry)
    decreases n
  {
    if n == 0 then s
    else
      StepStaysWellFormed(env, s, Turn(PickRow));
      Turns(env, Works(env, s, PickRow), n - 1)
  }

  lemma {:induction false} MoreTurns(env: Env, s: State, m: nat, n: nat)
    requires NoneEmpty(s.q.retry)
    ensures Turns(env, Turns(env, s, m), n) == Turns(env, s, m + n)
    decreases m
  {
    hide Works, NoneEmpty;
    if m == 0 {
    } else {
      StepStaysWellFormed(env, s, Turn(PickRow));
      MoreTurns(env, Works(env, s, PickRow), m - 1, n);
    }
  }

  /** A state with another queue, what was dropped on the way counted. */
  function WithDrops(s: State, q: Queue): State {
    var total := s.dropped + Lost(q.hist) - Lost(s.q.hist);
    s.(q := q, dropped := if total < 0 then 0 else total)
  }

  /** The arm for a row: four turns are `Task.OnRow`. */
  lemma RowTurns(env: Env, s: State)
    requires NoneEmpty(s.q.retry) && s.task.Selecting? && s.channel != []
    ensures Turns(env, s, 4)
         == WithDrops(s, RowHandled(env, s.q, s.channel[0])).(channel := s.channel[1..], depth := s.depth - 1)
  {
    hide NoneEmpty, SealAndSend, Ingest, Lost;
    LostGrows(env, s.q);
    LostGrows(env, Ingest(env, s.q, s.channel[0]));
    var s1 := Works(env, s, PickRow);
    var s2 := Works(env, s1, PickRow);
    var s3 := Works(env, s2, PickRow);
    assert s3.task == SizeCheck && s3.q == Ingest(env, s.q, s.channel[0]);
    var s4 := Works(env, s3, PickRow);
    FourTurns(env, s);
  }

  lemma FourTurns(env: Env, s: State)
    requires NoneEmpty(s.q.retry)
    ensures NoneEmpty(Works(env, s, PickRow).q.retry)
    ensures NoneEmpty(Works(env, Works(env, s, PickRow), PickRow).q.retry)
    ensures NoneEmpty(Works(env, Works(env, Works(env, s, PickRow), PickRow), PickRow).q.retry)
    ensures Turns(env, s, 4)
         == Works(env, Works(env, Works(env, Works(env, s, PickRow), PickRow), PickRow), PickRow)
  {
    hide Works, NoneEmpty;
    StepStaysWellFormed(env, s, Turn(PickRow));
    var s1 := Works(env, s, PickRow);
    StepStaysWellFormed(env, s1, Turn(PickRow));
    var s2 := Works(env, s1, PickRow);
    StepStaysWellFormed(env, s2, Turn(PickRow));
    var s3 := Works(env, s2, PickRow);
    StepStaysWellFormed(env, s3, Turn(PickRow));
  }

  /** The arm for the timer: one turn is `Task.OnTick`. */
  lemma TickTurn(env: Env, s: State)
    requires NoneEmpty(s.q.retry) && s.task.Selecting?
    ensures Works(env, s, PickTick) == WithDrops(s, TickHandled(env, s.q))
  {
    LostGrows(env, s.q);
  }

  lemma ThreeTurns(env: Env, s: State)
    requires NoneEmpty(s.q.retry)
    ensures NoneEmpty(Works(env, s, PickRow).q.retry)
    ensures NoneEmpty(Works(env, Works(env, s, PickRow), PickRow).q.retry)
    ensures Turns(env, s, 3) == Works(env, Works(env, Works(env, s, PickRow), PickRow), PickRow)
  {
    hide Works, NoneEmpty;
    StepStaysWellFormed(env, s, Turn(PickRow));
    var s1 := Works(env, s, PickRow);
    StepStaysWellFormed(env, s1, Turn(PickRow));
    var s2 := Works(env, s1, PickRow);
    StepStaysWellFormed(env, s2, Turn(PickRow));
  }

  /** Three turns take one row off the channel in a drain. */
  lemma DrainOneRow(env: Env, s: State, why: Why)
    requires NoneEmpty(s.q.retry) && s.task == DrainingChannel(why) && s.channel != []
    ensures Turns(env, s, 3)
         == WithDrops(s, Ingest(env, s.q, s.channel[0])).(channel := s.channel[1..], depth := s.depth - 1)
  {
    hide NoneEmpty, SealAndSend, Ingest, Lost;
    LostGrows(env, s.q);
    var s1 := Works(env, s, PickRow);
    var s2 := Works(env, s1, PickRow);
    var s3 := Works(env, s2, PickRow);
    assert s3.q == Ingest(env, s.q, s.channel[0]);
    ThreeTurns(env, s);
  }

  lemma {:induction false} AllLostGrows(env: Env, q: Queue, rows: seq<Row>)
    requires NoneEmpty(q.retry)
    ensures Lost(q.hist) <= Lost(IngestAll(env, q, rows).hist)
    decreases |rows|
  {
    hide Lost, NoneEmpty, Ingest;
    if rows == [] {
    } else {
      LostGrows(env, q);
      AllLostGrows(env, Ingest(env, q, rows[0]), rows[1..]);
    }
  }

  /** Draining the channel: three turns a row and one to see it empty are `Task.DrainChannel`. */
  lemma {:induction false} DrainTurns(env: Env, s: State, why: Why)
    requires NoneEmpty(s.q.retry) && s.task == DrainingChannel(why)
    ensures Turns(env, s, 3 * |s.channel| + 1)
         == WithDrops(s, IngestAll(env, s.q, s.channel)).(
              channel := [], depth := s.depth - |s.channel|, task := Sealing(why, |s.arrivals|))
    decreases |s.channel|
  {
    hide NoneEmpty, Ingest, Lost;
    if s.channel == [] {
      OneMoreTurn(env, s);
      assert WithDrops(s, s.q) == s;
    } else {
      var q1 := Ingest(env, s.q, s.channel[0]);
      var s3 := Turns(env, s, 3);
      DrainOneRow(env, s, why);
      hide Turns, Works;
      LostGrows(env, s.q);
      AllLostGrows(env, q1, s.channel[1..]);
      DrainTurns(env, s3, why);
      MoreTurns(env, s, 3, 3 * |s3.channel| + 1);
      assert 3 + (3 * |s3.channel| + 1) == 3 * |s.channel| + 1;
    }
  }

  lemma OneMoreTurn(env: Env, s: State)
    requires NoneEmpty(s.q.retry)
    ensures Turns(env, s, 1) == Works(env, s, PickRow)
  {
    StepStaysWellFormed(env, s, Turn(PickRow));
    assert Turns(env, Works(env, s, PickRow), 0) == Works(env, s, PickRow);
  }

  function ErrorOf(r: Result<FlushOutcome, FlushError>): Option<FlushError> {
    if r.Err? then Some(r.error) else None
  }

  lemma RequestTaken(env: Env, s: State)
    requires NoneEmpty(s.q.retry) && s.task.Selecting? && s.ctrl != []
    ensures Works(env, s, PickCtrl)
         == s.(ctrl := s.ctrl[1..], task := DrainingChannel(ByRequest(s.ctrl[0])),
               life := if s.ctrl[0].ctrl == Shutdown then Draining else s.life)
  {
  }

  /** The arm for a flush: taking the request, draining the channel and one seal are `Task.OnFlush`. */
  lemma FlushTurns(env: Env, s: State)
    requires NoneEmpty(s.q.retry) && s.task.Selecting? && s.ctrl != [] && s.ctrl[0].ctrl == Flush
    ensures var s1 := Works(env, s, PickCtrl);
            var (q, r) := FlushHandled(env, s.q, s.channel);
            && NoneEmpty(s1.q.retry)
            && Turns(env, s1, 3 * |s.channel| + 2)
               == WithDrops(s, q).(
                    channel := [], depth := s.depth - |s.channel|, ctrl := s.ctrl[1..],
                    replies := s.replies + [Reply(s.ctrl[0], ErrorOf(r), |s.arrivals|)])
  {
    hide NoneEmpty, Ingest, Lost, SealAndSend;
    RequestTaken(env, s);
    var s1 := Works(env, s, PickCtrl);
    var n := 3 * |s.channel| + 1;
    DrainTurns(env, s1, ByRequest(s.ctrl[0]));
    AllLostGrows(env, s.q, s.channel);
    LostGrows(env, IngestAll(env, s.q, s.channel));
    MoreTurns(env, s1, n, 1);
    OneMoreTurn(env, Turns(env, s1, n));
    hide Turns, IngestAll;
  }

  /** The end of a shutdown: the queue is drained, the state is stored, the answer is sent. */
  lemma LastTurns(env: Env, s: State, since: nat)
    requires NoneEmpty(s.q.retry) && s.task == Sealing(ByRequest(Request(Shutdown, since)), |s.arrivals|)
    ensures var (q, err) := DrainToCompletion(env, s.q);
            Turns(env, s, 3)
            == WithDrops(s, q).(life := Drained, task := Stopping(err, |s.arrivals|),
                                replies := s.replies + [Reply(Request(Shutdown, since), err, |s.arrivals|)])
  {
    hide NoneEmpty, Lost, DrainToCompletion;
    LostGrows(env, s.q);
    ThreeTurns(env, s);
  }

  /** The arm for a shutdown, up to leaving the loop: taking the request, draining the channel and the
      queue, storing the state and answering are `Task.OnShutdown`. */
  lemma ShutdownTurns(env: Env, s: State)
    requires NoneEmpty(s.q.retry) && s.task.Selecting? && s.ctrl != [] && s.ctrl[0].ctrl == Shutdown
    ensures var s1 := Works(env, s, PickCtrl);
            var (q, err) := ShutdownHandled(env, s.q, s.channel);
            && NoneEmpty(s1.q.retry) && s1.life == Draining
            && Turns(env, s1, 3 * |s.channel| + 4)
               == WithDrops(s, q).(
                    channel := [], depth := s.depth - |s.channel|, ctrl := s.ctrl[1..], life := Drained,
                    task := Stopping(err, |s.arrivals|),
                    replies := s.replies + [Reply(Request(Shutdown, s.ctrl[0].since), err, |s.arrivals|)])
  {
    hide NoneEmpty, Ingest, Lost, DrainToCompletion, Turns, IngestAll, Works;
    RequestTaken(env, s);
    var s1 := Works(env, s, PickCtrl);
    var n := 3 * |s.channel| + 1;
    DrainTurns(env, s1, ByRequest(s.ctrl[0]));
    AllLostGrows(env, s.q, s.channel);
    LostGrows(env, IngestAll(env, s.q, s.channel));
    MoreTurns(env, s1, n, 3);
    LastTurns(env, Turns(env, s1, n), s.ctrl[0].since);
  }

  /** The arm for a closed control channel: as a shutdown, without state or answer. */
  lemma CloseTurns(env: Env, s: State)
    requires NoneEmpty(s.q.retry) && s.task.Selecting? && s.ctrl == [] && !s.handle
    ensures var s1 := Works(env, s, PickCtrl);
            var (q, err) := ShutdownHandled(env, s.q, s.channel);
            && NoneEmpty(s1.q.retry)
            && Turns(env, s1, 3 * |s.channel| + 2)
               == WithDrops(s, q).(
                    channel := [], depth := s.depth - |s.channel|, task := Stopping(err, |s.arrivals|))
  {
    hide NoneEmpty, Ingest, Lost, DrainToCompletion;
    var s1 := Works(env, s, PickCtrl);
    var n := 3 * |s.channel| + 1;
    DrainTurns(env, s1, ByClose);
    AllLostGrows(env, s.q, s.channel);
    LostGrows(env, IngestAll(env, s.q, s.channel));
    MoreTurns(env, s1, n, 1);
    OneMoreTurn(env, Turns(env, s1, n));
    hide Turns, IngestAll;
  }

  /** The row arm once the last handle is gone and the channel is empty: the queue is drained. */
  lemma LastRowTurns(env: Env, s: State)
    requires NoneEmpty(s.q.retry) && s.task.Selecting? && s.channel == [] && !s.handle
    ensures var (q, err) := ShutdownHandled(env, s.q, []);
            Turns(env, s, 2) == WithDrops(s, q).(task := Stopping(err, |s.arrivals|))
  {
    hide NoneEmpty, Ingest, Lost, DrainToCompletion;
    LostGrows(env, s.q);
    OneMoreTurn(env, s);
    OneMoreTurn(env, Turns(env, s, 1));
    MoreTurns(env, s, 1, 1);
    hide Turns;
  }

  // ---- A call with nobody else moving ----

  function Calls(env: Env, s: State, steps: seq<Call>): State
    decreases |steps|
  {
    if steps == [] then s else Calls(env, Advances(env, s, steps[0]), steps[1..])
  }

  lemma StepsAre(env: Env, s: State, a: Call, rest: seq<Call>)
    ensures Calls(env, s, [a] + rest) == Calls(env, Advances(env, s, a), rest)
    ensures Calls(env, s, []) == s
  {
    assert ([a] + rest)[1..] == rest;
  }

  /** The same state with one more call in progress. */
  function With(s: State, a: Call): State {
    s.(calls := s.calls + multiset{a})
  }

  lemma TakenOut(s: State, a: Call)
    ensures a in With(s, a).calls && With(s, a).calls - multiset{a} == s.calls
  {
  }

  lemma OfferStep(env: Env, s: State, row: Row, attempt: nat)
    ensures Advances(env, With(s, Trying(row, attempt)), Trying(row, attempt))
         == if s.task.Stopped? then With(s, Refused)
            else if |s.channel| < if env.channelCapacity == 0 then 1 else env.channelCapacity then
              With(s.(channel := s.channel + [row], arrivals := s.arrivals + [row]), Landed)
            else if attempt < 2 then With(s, Trying(row, attempt + 1))
            else With(s, Refused)
  {
    TakenOut(s, Trying(row, attempt));
  }

  lemma LandStep(env: Env, s: State)
    ensures Advances(env, With(s, Landed), Landed) == With(s.(accepted := s.accepted + 1), Counted)
  {
    TakenOut(s, Landed);
  }

  lemma CountStep(env: Env, s: State)
    ensures Advances(env, With(s, Counted), Counted) == s.(depth := s.depth + 1)
  {
    TakenOut(s, Counted);
  }

  lemma RefuseStep(env: Env, s: State)
    ensures Advances(env, With(s, Refused), Refused) == s.(dropped := s.dropped + 1, refused := s.refused + 1)
  {
    TakenOut(s, Refused);
  }

  /** The steps of a call that finds room at once. */
  lemma AcceptedAlone(env: Env, s: State, row: Row)
    requires s.handle && s.life == Running && !s.task.Stopped?
    requires |s.channel| < if env.channelCapacity == 0 then 1 else env.channelCapacity
    ensures Calls(env, Enters(s, row), [Trying(row, 0), Landed, Counted])
         == s.(channel := s.channel + [row], arrivals := s.arrivals + [row],
               accepted := s.accepted + 1, depth := s.depth + 1)
  {
    assert Enters(s, row) == With(s, Trying(row, 0));
    OfferStep(env, s, row, 0);
    var s1 := s.(channel := s.channel + [row], arrivals := s.arrivals + [row]);
    LandStep(env, s1);
    var s2 := s1.(accepted := s.accepted + 1);
    CountStep(env, s2);
    hide Advances, With, Calls;
    StepsAre(env, With(s, Trying(row, 0)), Trying(row, 0), [Landed, Counted]);
    StepsAre(env, With(s1, Landed), Landed, [Counted]);
    StepsAre(env, With(s2, Counted), Counted, []);
    StepsAre(env, s2.(depth := s.depth + 1), Counted, []);
    assert [Trying(row, 0)] + [Landed, Counted] == [Trying(row, 0), Landed, Counted];
    assert [Landed] + [Counted] == [Landed, Counted] && [Counted] + [] == [Counted];
  }

  lemma ThirdOffer(env: Env, s: State, row: Row)
    requires !s.task.Stopped?
    requires |s.channel| >= if env.channelCapacity == 0 then 1 else env.channelCapacity
    ensures Calls(env, With(s, Trying(row, 1)), [Trying(row, 1), Trying(row, 2), Refused])
         == s.(dropped := s.dropped + 1, refused := s.refused + 1)
  {
    OfferStep(env, s, row, 1);
    OfferStep(env, s, row, 2);
    RefuseStep(env, s);
    hide Advances, With, Calls;
    StepsAre(env, With(s, Trying(row, 1)), Trying(row, 1), [Trying(row, 2), Refused]);
    StepsAre(env, With(s, Trying(row, 2)), Trying(row, 2), [Refused]);
    StepsAre(env, With(s, Refused), Refused, []);
    StepsAre(env, s.(dropped := s.dropped + 1, refused := s.refused + 1), Refused, []);
    assert [Trying(row, 1)] + [Trying(row, 2), Refused] == [Trying(row, 1), Trying(row, 2), Refused];
    assert [Trying(row, 2)] + [Refused] == [Trying(row, 2), Refused] && [Refused] + [] == [Refused];
  }

  /** The steps of a call that meets a full channel: three offers, and the drop counter. */
  lemma RefusedAlone(env: Env, s: State, row: Row)
    requires s.handle && s.life == Running && !s.task.Stopped?
    requires |s.channel| >= if env.channelCapacity == 0 then 1 else env.channelCapacity
    ensures Calls(env, Enters(s, row), [Trying(row, 0), Trying(row, 1), Trying(row, 2), Refused])
         == s.(dropped := s.dropped + 1, refused := s.refused + 1)
  {
    assert Enters(s, row) == With(s, Trying(row, 0));
    OfferStep(env, s, row, 0);
    hide Advances, With, Calls, Enters;
    ThirdOffer(env, s, row);
    StepsAre(env, With(s, Trying(row, 0)), Trying(row, 0), [Trying(row, 1), Trying(row, 2), Refused]);
    assert [Trying(row, 0)] + [Trying(row, 1), Trying(row, 2), Refused]
        == [Trying(row, 0), Trying(row, 1), Trying(row, 2), Refused];
  }

  /** The steps of a call that finds the producer draining or drained, or the task gone. */
  lemma TurnedAway(env: Env, s: State, row: Row)
    requires s.handle && (s.life != Running || s.task.Stopped?)
    ensures Calls(env, Enters(s, row), if s.life == Running then [Trying(row, 0), Refused] else [Refused])
         == s.(dropped := s.dropped + 1, refused := s.refused + 1)
  {
    assert Enters(s, row) == With(s, if s.life == Running then Trying(row, 0) else Refused);
    OfferStep(env, s, row, 0);
    RefuseStep(env, s);
    hide Advances, With, Calls;
    StepsAre(env, With(s, Trying(row, 0)), Trying(row, 0), [Refused]);
    StepsAre(env, With(s, Refused), Refused, []);
    StepsAre(env, s.(dropped := s.dropped + 1, refused := s.refused + 1), Refused, []);
    assert [Trying(row, 0)] + [Refused] == [Trying(row, 0), Refused] && [Refused] + [] == [Refused];
  }
}
