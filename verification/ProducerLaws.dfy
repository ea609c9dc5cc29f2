/** What holds in every state of every run of the producer: conservation, order, exact counters,
    and what the answers to `flush` and `shutdown` mean. */
module ProducerLaws {
  import opened Wrappers
  import opened SealPass
  import opened PassLaws
  import opened ProducerMachine

  /** The row the task has taken off the channel and not yet handed to the queue. */
  function InHand(task: Pc): seq<Row> {
    match task
    case Received(row, _) => [row]
    case Holding(row, _) => [row]
    case _ => []
  }

  /** No row is lost, duplicated or reordered between acceptance and settlement. */
  predicate Conserved(s: State) {
    s.arrivals == Intake(s.q) + InHand(s.task) + s.channel
  }

  /** The counters, up to the calls that are part-way. */
  predicate Counters(env: Env, s: State) {
    && s.accepted + s.calls[Landed] == |s.arrivals|
    && s.depth == |s.channel| - s.calls[Landed] - s.calls[Counted] + (if s.task.Received? then 1 else 0)
    && s.dropped == s.refused + Lost(s.q.hist)
    && |s.channel| <= AtLeastOne(env.channelCapacity)
  }

  /** What a drain that ended with `err` has done about the first `upTo` rows accepted. */
  predicate DrainedUpTo(s: State, err: Option<FlushError>, upTo: nat) {
    && upTo <= |s.arrivals| && s.q.staging == []
    && Settled(s.q.hist) + Flatten(s.q.retry) == s.arrivals[..upTo]
    && (err.None? ==> s.q.retry == [] && Settled(s.q.hist) == s.arrivals[..upTo])
  }

  /** The life a drain runs in, and that its request is not from the future. */
  predicate DrainOk(s: State, drain: Option<Why>) {
    if drain.Some? && drain.value.ByRequest? then
      && drain.value.request.since <= |s.arrivals|
      && s.life == if drain.value.request.ctrl == Shutdown then Draining else Running
    else s.life == Running
  }

  /** The life cycle and the task's position agree. */
  predicate Phase(s: State) {
    match s.task
    case Selecting => s.life == Running
    case SizeCheck => s.life == Running
    case Received(_, drain) => DrainOk(s, drain)
    case Holding(_, drain) => DrainOk(s, drain)
    case DrainingChannel(why) => DrainOk(s, Some(why))
    case Sealing(why, upTo) =>
      DrainOk(s, Some(why)) && upTo == |Intake(s.q)| && (why.ByRequest? ==> why.request.since <= upTo)
    case Storing(since, err, upTo) => s.life == Draining && DrainedUpTo(s, err, upTo) && since <= upTo
    case Replying(since, err, upTo) => s.life == Drained && DrainedUpTo(s, err, upTo) && since <= upTo
    case Stopping(err, upTo) => s.life != Draining && DrainedUpTo(s, err, upTo)
    case Stopped(err, upTo) => s.life != Draining && DrainedUpTo(s, err, upTo)
  }

  /** No request is from the future; an answer covers all that was accepted before the request; a
      successful one means the first `upTo` rows accepted have been settled. */
  predicate RepliesOk(s: State) {
    && (forall i :: 0 <= i < |s.ctrl| ==> s.ctrl[i].since <= |s.arrivals|)
    && (forall i :: 0 <= i < |s.replies| ==> s.replies[i].request.since <= s.replies[i].upTo)
    && (forall i :: 0 <= i < |s.replies| && s.replies[i].err.None? ==> s.replies[i].upTo <= |Settled(s.q.hist)|)
  }

  predicate Inv(env: Env, s: State) {
    QueueInv(env, s.q) && NoneEmpty(s.q.retry) && Conserved(s) && Counters(env, s) && Phase(s) && RepliesOk(s)
  }

  // ---- One step at a time ----

  lemma ConservedPrefix(s: State)
    requires Conserved(s)
    ensures Intake(s.q) == s.arrivals[..|Intake(s.q)|] && |Intake(s.q)| <= |s.arrivals|
  {
  }

  /** Rows already settled stay settled: the settled list only grows. */
  lemma SettledStays(s: State, hist: seq<Event>)
    requires RepliesOk(s) && s.q.hist <= hist
    ensures forall i :: 0 <= i < |s.replies| && s.replies[i].err.None? ==> s.replies[i].upTo <= |Settled(hist)|
  {
    SettledPrefix(hist, |s.q.hist|);
    assert hist[..|s.q.hist|] == s.q.hist;
  }

  lemma ArrivalKeepsPhase(s: State, row: Row)
    requires Phase(s)
    ensures Phase(s.(arrivals := s.arrivals + [row]))
  {
    hide Settled, Flatten, Intake;
    match s.task {
      case Storing(_, err, upTo) => assert (s.arrivals + [row])[..upTo] == s.arrivals[..upTo];
      case Replying(_, err, upTo) => assert (s.arrivals + [row])[..upTo] == s.arrivals[..upTo];
      case Stopping(err, upTo) => assert (s.arrivals + [row])[..upTo] == s.arrivals[..upTo];
      case Stopped(err, upTo) => assert (s.arrivals + [row])[..upTo] == s.arrivals[..upTo];
      case _ =>
    }
  }

  lemma LandingKeeps(env: Env, s: State, call: Call)
    requires Inv(env, s) && call in s.calls && call.Trying? && Open(s) && |s.channel| < AtLeastOne(env.channelCapacity)
    ensures Inv(env, Advances(env, s, call))
  {
    hide QueueInv, Settled, Flatten, Phase, NoneEmpty;
    var s' := Advances(env, s, call);
    assert (Intake(s.q) + InHand(s.task) + s.channel) + [call.row]
        == Intake(s.q) + InHand(s.task) + (s.channel + [call.row]);
    ArrivalKeepsPhase(s, call.row);
    PhaseIgnoresCalls(s.(arrivals := s.arrivals + [call.row]), s');
  }

  /** The phase looks at nothing but the life, the task, the queue and the arrivals. */
  lemma PhaseIgnoresCalls(s: State, s': State)
    requires Phase(s) && s'.life == s.life && s'.task == s.task && s'.q == s.q && s'.arrivals == s.arrivals
    ensures Phase(s')
  {
    hide Settled, Flatten, Intake;
  }

  lemma CountingKeeps(env: Env, s: State, call: Call)
    requires Inv(env, s) && call in s.calls && !call.Trying?
    ensures Inv(env, Advances(env, s, call))
  {
    hide QueueInv, Settled, Flatten, Intake, Phase, NoneEmpty, Lost, InHand, Counters;
    var s' := Advances(env, s, call);
    PhaseIgnoresCalls(s, s');
    CountingKeepsCounters(env, s, call);
    assert Conserved(s') && RepliesOk(s');
  }

  lemma CountingKeepsCounters(env: Env, s: State, call: Call)
    requires Counters(env, s) && call in s.calls && !call.Trying?
    ensures Counters(env, Advances(env, s, call))
  {
    hide Lost;
    var c, c' := s.calls, Advances(env, s, call).calls;
    match call {
      case Landed => assert c'[Landed] == c[Landed] - 1 && c'[Counted] == c[Counted] + 1;
      case Counted => assert c'[Landed] == c[Landed] && c'[Counted] == c[Counted] - 1;
      case Refused => assert c'[Landed] == c[Landed] && c'[Counted] == c[Counted];
    }
  }

  lemma RefusalKeeps(env: Env, s: State, call: Call)
    requires Inv(env, s) && call in s.calls && call.Trying? &&
               !(Open(s) && |s.channel| < AtLeastOne(env.channelCapacity))
    ensures Inv(env, Advances(env, s, call))
  {
    hide QueueInv, Settled, Flatten, Intake, Phase, NoneEmpty, Lost, InHand;
    var s' := Advances(env, s, call);
    assert s'.calls[Landed] == s.calls[Landed] && s'.calls[Counted] == s.calls[Counted];
    PhaseIgnoresCalls(s, s');
  }

  lemma AdvanceKeeps(env: Env, s: State, call: Call)
    requires Inv(env, s)
    ensures Inv(env, Advances(env, s, call))
  {
    hide Inv;
    if call in s.calls {
      if !call.Trying? {
        CountingKeeps(env, s, call);
      } else if Open(s) && |s.channel| < AtLeastOne(env.channelCapacity) {
        LandingKeeps(env, s, call);
      } else {
        RefusalKeeps(env, s, call);
      }
    }
  }

  /** A step that changes the queue to one with the same intake keeps all but the task's phase. */
  lemma QueueStepKeeps(env: Env, s: State, q: Queue)
    requires Inv(env, s) && QueueInv(env, q) && Intake(q) == Intake(s.q) && NoneEmpty(q.retry)
    requires s.q.hist <= q.hist && Lost(s.q.hist) <= Lost(q.hist)
    ensures var s' := WithQueue(s, q); Conserved(s') && Counters(env, s') && RepliesOk(s')
  {
    hide QueueInv, Settled, Flatten, Intake, Phase, NoneEmpty, Lost;
    SettledStays(s, q.hist);
  }

  lemma SealOnceKeeps(env: Env, s: State)
    requires Inv(env, s) && (s.task.Selecting? || s.task.SizeCheck? || s.task.Sealing?)
    ensures SealOnce(env, s).q.staging == []
    ensures var s' := SealOnce(env, s); Inv(env, s')
  {
    hide QueueInv, Settled, Flatten, Intake, NoneEmpty, Lost;
    SealAndSendKeeps(env, s.q);
    LostGrows(env, s.q);
    QueueStepKeeps(env, s, SealAndSend(env, s.q).0);
  }

  lemma TakeRowKeeps(env: Env, s: State, drain: Option<Why>)
    requires Inv(env, s) && s.channel != []
    requires if drain.Some? then s.task == DrainingChannel(drain.value) else s.task == Selecting
    ensures Inv(env, s.(channel := s.channel[1..], task := Received(s.channel[0], drain)))
  {
    hide QueueInv, Settled, Flatten, NoneEmpty, Lost, Intake;
    assert s.channel == [s.channel[0]] + s.channel[1..];
    assert Intake(s.q) + [] + s.channel == Intake(s.q) + [s.channel[0]] + s.channel[1..];
  }

  lemma IngestStepKeeps(env: Env, s: State, pick: Pick)
    requires Inv(env, s) && s.task.Holding?
    ensures Inv(env, Works(env, s, pick))
  {
    hide QueueInv, Settled, Flatten, NoneEmpty, Lost, Intake;
    var row := s.task.row;
    IngestKeeps(env, s.q, row);
    LostGrows(env, s.q);
    var q := Ingest(env, s.q, row);
    SettledStays(s, q.hist);
    assert Intake(s.q) + [row] + s.channel == Intake(q) + [] + s.channel;
  }

  predicate IsFlush(why: Why) {
    why.ByRequest? && why.request.ctrl == Flush
  }

  lemma FlushStepKeeps(env: Env, s: State, pick: Pick)
    requires Inv(env, s) && s.task.Sealing? && IsFlush(s.task.why)
    ensures Inv(env, Works(env, s, pick))
  {
    hide QueueInv, Settled, Flatten, NoneEmpty, Lost, AckedIds, AckedRows, InOrder;
    ConservedPrefix(s);
    SealOnceKeeps(env, s);
    SealAndSendReports(env, s.q);
  }

  lemma DrainStepKeeps(env: Env, s: State, pick: Pick)
    requires Inv(env, s) && s.task.Sealing? && !IsFlush(s.task.why)
    ensures Inv(env, Works(env, s, pick))
  {
    hide QueueInv, Settled, Flatten, NoneEmpty, Lost, InOrder, Intake;
    var q := DrainToCompletion(env, s.q).0;
    ConservedPrefix(s);
    DrainToCompletionKeeps(env, s.q);
    LostGrows(env, s.q);
    QueueStepKeeps(env, s, q);
  }

  lemma SelectStepKeeps(env: Env, s: State, pick: Pick)
    requires Inv(env, s) && s.task.Selecting?
    ensures Inv(env, Works(env, s, pick))
  {
    hide QueueInv, Settled, Flatten, NoneEmpty, Lost;
    match pick {
      case PickCtrl =>
      case PickRow => if s.channel != [] { TakeRowKeeps(env, s, None); }
      case PickTick => SealOnceKeeps(env, s);
    }
  }

  lemma BookkeepingStepKeeps(env: Env, s: State, pick: Pick)
    requires Inv(env, s)
    requires s.task.Received? || s.task.Storing? || s.task.Replying? || s.task.Stopping? || s.task.Stopped?
    ensures Inv(env, Works(env, s, pick))
  {
    hide QueueInv, Settled, Flatten, NoneEmpty, Lost, Intake;
  }

  lemma TurnKeeps(env: Env, s: State, pick: Pick)
    requires Inv(env, s)
    ensures Inv(env, Works(env, s, pick))
  {
    hide QueueInv, Settled, Flatten, NoneEmpty, Lost, Counters, Conserved, RepliesOk;
    match s.task {
      case Selecting => SelectStepKeeps(env, s, pick);
      case Holding(row, drain) => IngestStepKeeps(env, s, pick);
      case SizeCheck => SizeStepKeeps(env, s, pick);
      case DrainingChannel(why) => DrainChannelStepKeeps(env, s, pick);
      case Sealing(why, upTo) =>
        if IsFlush(why) { FlushStepKeeps(env, s, pick); } else { DrainStepKeeps(env, s, pick); }
      case _ => BookkeepingStepKeeps(env, s, pick);
    }
  }

  lemma SizeStepKeeps(env: Env, s: State, pick: Pick)
    requires Inv(env, s) && s.task.SizeCheck?
    ensures Inv(env, Works(env, s, pick))
  {
    hide QueueInv, Settled, Flatten, NoneEmpty, Lost, Intake;
    SealOnceKeeps(env, s);
  }

  lemma DrainChannelStepKeeps(env: Env, s: State, pick: Pick)
    requires Inv(env, s) && s.task.DrainingChannel?
    ensures Inv(env, Works(env, s, pick))
  {
    hide QueueInv, Settled, Flatten, NoneEmpty, Lost, Intake;
    if s.channel != [] { TakeRowKeeps(env, s, Some(s.task.why)); }
  }

  /** Every move of anyone keeps the invariant. */
  lemma StepKeeps(env: Env, s: State, move: Move)
    ensures Inv(env, s) ==> Inv(env, Step(env, s, move))
  {
    hide QueueInv, Settled, Flatten, NoneEmpty, Lost, Intake;
    if Inv(env, s) {
      match move {
        case Enter(row) =>
        case Advance(call) => AdvanceKeeps(env, s, call);
        case Ask(ctrl) =>
        case Release =>
        case Turn(pick) => TurnKeeps(env, s, pick);
      }
    }
  }

  lemma InitInv(env: Env)
    ensures Inv(env, INIT)
  {
    hide QueueInv;
    EmptyQueueInv(env);
  }

  lemma EmptyQueueInv(env: Env)
    ensures QueueInv(env, EMPTY_QUEUE) && Intake(EMPTY_QUEUE) == []
  {
  }

  lemma {:induction false} RunKeeps(env: Env, moves: seq<Move>)
    ensures Inv(env, Run(env, moves))
  {
    hide QueueInv, Inv, Step, NoneEmpty;
    if moves == [] {
      InitInv(env);
    } else {
      RunKeeps(env, moves[..|moves| - 1]);
      StepKeeps(env, Run(env, moves[..|moves| - 1]), moves[|moves| - 1]);
    }
  }
}
