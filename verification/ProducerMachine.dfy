/** The producer under every interleaving: any number of `enqueue` calls in progress, control
    messages, and the one background task, each moving one atomic step at a time.

    A run is a list of moves. A move names who goes next; one that is not enabled leaves the state
    as it is, so every statement about `Run` is a statement about every interleaving. A seal pass is
    one step: of what it touches, other parties see only the drop counter, whose additions commute,
    and the length of the staging ring, which only `metrics` reads (ProducerMetrics.dfy). */
module ProducerMachine {
  import opened Wrappers
  import opened SealPass
  import opened PassLaws

  const WORD := 0x1_0000_0000_0000_0000
  const ENQUEUE_ATTEMPTS := 3

  datatype Life = Running | Draining | Drained

  datatype Ctrl = Flush | Shutdown

  /** A control message. `since` is not in the program: it is how many rows had been accepted when
      the message was sent. */
  datatype Request = Request(ctrl: Ctrl, since: nat)

  /** Where one `enqueue` call stands. */
  datatype Call =
    | Trying(row: Row, attempt: nat)  // read `RUNNING`; will offer the row to the channel
    | Landed                          // the row is on the channel; `accepted` not yet bumped
    | Counted                         // `accepted` bumped; `channel_depth` not yet
    | Refused                         // will bump `dropped` and return `QueueFull`

  /** Why the task is draining the channel: a flush, a shutdown, or the last handle is gone. */
  datatype Why = ByRequest(request: Request) | ByClose

  /** Where the background task stands. `upTo` is the number of rows ever accepted when the drain
      saw the channel empty. */
  datatype Pc =
    | Selecting
    | Received(row: Row, drain: Option<Why>)  // popped; `channel_depth` not yet lowered
    | Holding(row: Row, drain: Option<Why>)   // lowered; about to ingest
    | SizeCheck
    | DrainingChannel(why: Why)
    | Sealing(why: Why, upTo: nat)
    | Storing(since: nat, err: Option<FlushError>, upTo: nat)   // about to store `DRAINED`
    | Replying(since: nat, err: Option<FlushError>, upTo: nat)  // about to answer the shutdown
    | Stopping(err: Option<FlushError>, upTo: nat)  // out of the loop; receivers not yet dropped
    | Stopped(err: Option<FlushError>, upTo: nat)

  /** An answered control message. */
  datatype Reply = Reply(request: Request, err: Option<FlushError>, upTo: nat)

  /** Counters hold net totals; what a load reads is the total modulo 2^64. `arrivals` and `refused`
      record what the callers have been told, or are about to be. */
  datatype State = State(
    life: Life,
    handle: bool,
    channel: seq<Row>,
    depth: int,
    accepted: nat,
    dropped: nat,
    calls: multiset<Call>,
    ctrl: seq<Request>,
    task: Pc,
    q: Queue,
    arrivals: seq<Row>,
    refused: nat,
    replies: seq<Reply>)

  datatype Pick = PickCtrl | PickRow | PickTick

  datatype Move =
    | Enter(row: Row)        // a caller enters `enqueue` and loads the state
    | Advance(call: Call)    // a call in progress takes its next step
    | Ask(ctrl: Ctrl)        // a caller sends a control message
    | Release                // the last handle is dropped
    | Turn(pick: Pick)       // the background task takes its next step

  const INIT := State(Running, true, [], 0, 0, 0, multiset{}, [], Selecting, EMPTY_QUEUE, [], 0, [])

  predicate Open(s: State) {
    !s.task.Stopped?
  }

  function Enters(s: State, row: Row): State {
    if !s.handle then s
    else s.(calls := s.calls + multiset{if s.life == Running then Trying(row, 0) else Refused})
  }

  /** One step of one call: `try_send` up to three times, then the two counters, or the drop counter. */
  function Advances(env: Env, s: State, call: Call): State {
    if call !in s.calls then s
    else
      var others := s.calls - multiset{call};
      match call
      case Trying(row, attempt) =>
        if !Open(s) then s.(calls := others + multiset{Refused})
        else if |s.channel| < AtLeastOne(env.channelCapacity) then
          s.(calls := others + multiset{Landed}, channel := s.channel + [row], arrivals := s.arrivals + [row])
        else if attempt + 1 < ENQUEUE_ATTEMPTS then s.(calls := others + multiset{Trying(row, attempt + 1)})
        else s.(calls := others + multiset{Refused})
      case Landed => s.(calls := others + multiset{Counted}, accepted := s.accepted + 1)
      case Counted => s.(calls := others, depth := s.depth + 1)
      case Refused => s.(calls := others, dropped := s.dropped + 1, refused := s.refused + 1)
  }

  /** Replace the queue, counting what the pass dropped. */
  function WithQueue(s: State, q: Queue): State
    requires Lost(s.q.hist) <= Lost(q.hist)
  {
    s.(q := q, dropped := s.dropped + Lost(q.hist) - Lost(s.q.hist))
  }

  function SealOnce(env: Env, s: State): State
    requires NoneEmpty(s.q.retry)
  {
    LostGrows(env, s.q);
    WithQueue(s, SealAndSend(env, s.q).0)
  }

  /** `Task::run`, one step. In `Selecting`, a pick that has nothing to take does nothing. */
  function Works(env: Env, s: State, pick: Pick): State
    requires NoneEmpty(s.q.retry)
  {
    match s.task
    case Selecting =>
      (match pick
       case PickCtrl =>
         if s.ctrl != [] then
           var request := s.ctrl[0];
           s.(ctrl := s.ctrl[1..], task := DrainingChannel(ByRequest(request)),
              life := if request.ctrl == Shutdown then Draining else s.life)
         else if !s.handle then s.(task := DrainingChannel(ByClose))
         else s
       case PickRow =>
         if s.channel != [] then s.(channel := s.channel[1..], task := Received(s.channel[0], None))
         else if !s.handle then s.(task := Sealing(ByClose, |s.arrivals|))
         else s
       case PickTick => if s.q.staging != [] then SealOnce(env, s) else s)
    case Received(row, drain) => s.(depth := s.depth - 1, task := Holding(row, drain))
    case Holding(row, drain) =>
      LostGrows(env, s.q);
      var s' := WithQueue(s, Ingest(env, s.q, row));
      s'.(task := if drain.Some? then DrainingChannel(drain.value) else SizeCheck)
    case SizeCheck =>
      (if |s.q.staging| >= ChunkSize(env) then SealOnce(env, s) else s).(task := Selecting)
    case DrainingChannel(why) =>
      if s.channel != [] then s.(channel := s.channel[1..], task := Received(s.channel[0], Some(why)))
      else s.(task := Sealing(why, |s.arrivals|))
    case Sealing(why, upTo) =>
      if why.ByRequest? && why.request.ctrl == Flush then
        var r := SealAndSend(env, s.q).1;
        SealOnce(env, s).(task := Selecting,
                          replies := s.replies + [Reply(why.request, if r.Err? then Some(r.error) else None, upTo)])
      else
        LostGrows(env, s.q);
        var (q, err) := DrainToCompletion(env, s.q);
        WithQueue(s, q).(task := if why.ByRequest? then Storing(why.request.since, err, upTo) else Stopping(err, upTo))
    case Storing(since, err, upTo) => s.(life := Drained, task := Replying(since, err, upTo))
    case Replying(since, err, upTo) =>
      s.(replies := s.replies + [Reply(Request(Shutdown, since), err, upTo)], task := Stopping(err, upTo))
    case Stopping(err, upTo) => s.(ctrl := [], task := Stopped(err, upTo))
    case Stopped(_, _) => s
  }

  function Step(env: Env, s: State, move: Move): State
    requires NoneEmpty(s.q.retry)
  {
    match move
    case Enter(row) => Enters(s, row)
    case Advance(call) => Advances(env, s, call)
    case Ask(ctrl) => if s.handle && Open(s) then s.(ctrl := s.ctrl + [Request(ctrl, |s.arrivals|)]) else s
    case Release => if s.calls == multiset{} && s.ctrl == [] then s.(handle := false) else s
    case Turn(pick) => Works(env, s, pick)
  }

  lemma StepStaysWellFormed(env: Env, s: State, move: Move)
    requires NoneEmpty(s.q.retry)
    ensures NoneEmpty(Step(env, s, move).q.retry)
  {
  }

  /** The state after a list of moves from the start. */
  function Run(env: Env, moves: seq<Move>): (s: State)
    ensures NoneEmpty(s.q.retry)
  {
    if moves == [] then INIT
    else
      var s := Run(env, moves[..|moves| - 1]);
      StepStaysWellFormed(env, s, moves[|moves| - 1]);
      Step(env, s, moves[|moves| - 1])
  }

  // ---- The drop count never goes down ----

  lemma {:induction false} SendAllLostGrows(env: Env, l: Loop)
    requires NoneEmpty(l.pending)
    ensures Lost(l.hist) <= Lost(SendAll(env, l).0.hist)
    decreases Work(l.pending)
  {
    if l.pending == [] {
    } else {
      StepLowersWork(env, l);
      SettledPush(l.hist, Discarded(l.pending[0].rows));
      SettledPush(l.hist, Sent(l.pending[0], env.answer(SendCount(l.hist))));
      if FrontStep(env, l).1.None? {
        SendAllLostGrows(env, FrontStep(env, l).0);
      }
    }
  }

  lemma LostGrows(env: Env, q: Queue)
    requires NoneEmpty(q.retry)
    ensures Lost(q.hist) <= Lost(SealAndSend(env, q).0.hist)
    ensures forall row :: Lost(q.hist) <= Lost(Ingest(env, q, row).hist)
    ensures Lost(q.hist) <= Lost(DrainToCompletion(env, q).0.hist)
  {
    SendAllLostGrows(env, Start(env, q));
    var q' := SealAndSend(env, q).0;
    forall row ensures Lost(q.hist) <= Lost(Ingest(env, q, row).hist) {
      SettledPush(q'.hist, Discarded([row]));
    }
  }
}
