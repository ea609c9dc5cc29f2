/** How a run ends: when a shutdown can leave a row behind, seen from any state in which it is
    draining. */
module ProducerEndings {
  import opened Wrappers
  import opened SealPass
  import opened PassLaws
  import opened ProducerMachine
  import opened ProducerLaws
  import opened ProducerRuns

  /** Some call has read `RUNNING` and not yet got an answer from the channel. */
  predicate InFlight(s: State) {
    exists call :: call in s.calls && call.Trying?
  }

  /** The task will not take another row off the channel. */
  predicate PastDrain(task: Pc) {
    task.Sealing? || task.Storing? || task.Replying? || task.Stopping? || task.Stopped?
  }

  /** The task is gone and an accepted row is still on the channel. */
  predicate Stranded(s: State) {
    s.task.Stopped? && s.channel != []
  }

  /** No row is behind the drain, and no call could put one there. */
  predicate Sealed(s: State) {
    s.life != Running && !InFlight(s) && (PastDrain(s.task) ==> s.channel == [])
  }

  // ---- Sealed states stay sealed ----

  lemma CallKeepsSealed(env: Env, s: State, call: Call)
    requires Sealed(s)
    ensures Sealed(Advances(env, s, call))
  {
    var s' := Advances(env, s, call);
    assert forall c :: c in s'.calls && c.Trying? ==> c in s.calls;
  }

  lemma TurnKeepsSealed(env: Env, s: State, pick: Pick)
    requires Sealed(s) && Phase(s) && NoneEmpty(s.q.retry)
    ensures Sealed(Works(env, s, pick))
  {
    hide Intake, DrainedUpTo, NoneEmpty, SealAndSend, DrainToCompletion, Ingest, Lost, Settled, Flatten;
    TurnAdvancesLife(env, s, pick);
    assert Works(env, s, pick).calls == s.calls;
  }

  lemma StepKeepsSealed(env: Env, s: State, move: Move)
    requires Sealed(s) && Inv(env, s)
    ensures Sealed(Step(env, s, move))
  {
    hide QueueInv, Conserved, Counters, RepliesOk, Phase, NoneEmpty, Works, Advances;
    match move {
      case Enter(row) => assert forall c :: c in Enters(s, row).calls && c.Trying? ==> c in s.calls;
      case Advance(call) => CallKeepsSealed(env, s, call);
      case Turn(pick) => TurnKeepsSealed(env, s, pick);
      case _ =>
    }
  }

  lemma {:induction false} SealedStays(env: Env, before: seq<Move>, moves: seq<Move>)
    requires before <= moves && Sealed(Run(env, before))
    ensures Sealed(Run(env, moves))
    decreases |moves|
  {
    hide Sealed, Inv, Step, NoneEmpty;
    if before == moves {
    } else {
      var last := moves[..|moves| - 1];
      SealedStays(env, before, last);
      RunKeeps(env, last);
      StepKeepsSealed(env, Run(env, last), moves[|moves| - 1]);
    }
  }

  // ---- Driving a draining task to its end ----

  lemma OneTurn(env: Env, moves: seq<Move>) returns (more: seq<Move>)
    ensures more == moves + [Turn(PickRow)] && moves <= more && Run(env, more) == Works(env, Run(env, moves), PickRow)
  {
    more := moves + [Turn(PickRow)];
    RunPush(env, moves, Turn(PickRow));
  }

  /** A draining task goes on to see the channel empty; calls in progress stay where they are. */
  lemma {:induction false} DrainGoesOn(env: Env, moves: seq<Move>) returns (more: seq<Move>)
    ensures moves <= more
    ensures var s, t := Run(env, moves), Run(env, more);
            s.life == Draining && !PastDrain(s.task) ==>
                t.life == Draining && t.task.Sealing? && t.channel == [] && t.calls == s.calls
    decreases |Run(env, moves).channel|,
              if Run(env, moves).task.Received? then 2 else if Run(env, moves).task.Holding? then 1 else 0
  {
    hide Run, QueueInv, Settled, Flatten, NoneEmpty, Lost, Intake, Ingest, SealAndSend, DrainToCompletion;
    hide Conserved, Counters, RepliesOk, DrainedUpTo;
    RunKeeps(env, moves);
    more := moves;
    var s := Run(env, moves);
    if s.life == Draining && !PastDrain(s.task) {
      more := OneTurn(env, moves);
      if !(s.task.DrainingChannel? && s.channel == []) {
        more := DrainGoesOn(env, more);
      }
    }
  }

  /** Past the drain, the task stops within four turns, and what is on the channel stays there. */
  lemma {:induction false} TaskStops(env: Env, moves: seq<Move>, left: nat) returns (more: seq<Move>)
    ensures moves <= more
    ensures var s, t := Run(env, moves), Run(env, more);
            s.life != Running && PastDrain(s.task) && left == TurnsLeft(s.task) ==>
                t.task.Stopped? && t.channel == s.channel
    decreases left
  {
    hide Run, QueueInv, Settled, Flatten, NoneEmpty, Lost, Intake, Ingest, SealAndSend, DrainToCompletion;
    hide Conserved, Counters, RepliesOk, DrainedUpTo;
    RunKeeps(env, moves);
    more := moves;
    var s := Run(env, moves);
    if s.life != Running && PastDrain(s.task) && left == TurnsLeft(s.task) && left > 0 {
      more := OneTurn(env, moves);
      more := TaskStops(env, more, left - 1);
    }
  }

  function TurnsLeft(task: Pc): nat {
    match task
    case Sealing(_, _) => 4
    case Storing(_, _, _) => 3
    case Replying(_, _, _) => 2
    case Stopping(_, _) => 1
    case _ => 0
  }

  /** A call in flight lands on the empty channel of a task that has not stopped. */
  lemma CallLands(env: Env, moves: seq<Move>) returns (more: seq<Move>)
    ensures moves <= more
    ensures var s, t := Run(env, moves), Run(env, more);
            InFlight(s) && s.channel == [] && !s.task.Stopped? ==>
                t.channel != [] && t.task == s.task && t.life == s.life
  {
    hide Run;
    more := moves;
    var s := Run(env, moves);
    if InFlight(s) && s.channel == [] && !s.task.Stopped? {
      var call :| call in s.calls && call.Trying?;
      more := moves + [Advance(call)];
      RunPush(env, moves, Advance(call));
    }
  }

  // ---- The exact condition ----

  /** From any state in which a shutdown is draining, some continuation leaves an accepted row behind
      if and only if a call that read `RUNNING` is still in flight, or one has landed since the
      channel was seen empty. A caller that lets its own calls return first is safe. */
  lemma StrandingCondition(env: Env, moves: seq<Move>)
    requires Run(env, moves).life == Draining
    ensures (exists more :: moves <= more && Stranded(Run(env, more)))
       <==> InFlight(Run(env, moves)) || (PastDrain(Run(env, moves).task) && Run(env, moves).channel != [])
  {
    hide Run;
    var s := Run(env, moves);
    if InFlight(s) || (PastDrain(s.task) && s.channel != []) {
      var more := SomeStranded(env, moves);
    } else {
      forall more | moves <= more ensures !Stranded(Run(env, more)) {
        SealedStays(env, moves, more);
      }
    }
  }

  lemma SomeStranded(env: Env, moves: seq<Move>) returns (more: seq<Move>)
    ensures moves <= more
    ensures var s := Run(env, moves);
            s.life == Draining && (InFlight(s) || (PastDrain(s.task) && s.channel != [])) ==> Stranded(Run(env, more))
  {
    hide Run;
    RunKeeps(env, moves);
    more := moves;
    if !PastDrain(Run(env, more).task) {
      more := DrainGoesOn(env, more);
    }
    if Run(env, more).channel == [] {
      more := CallLands(env, more);
    }
    more := TaskStops(env, more, TurnsLeft(Run(env, more).task));
  }
}
