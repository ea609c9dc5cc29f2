/** The seal-and-send pass of the write buffer, as a function of the queue's value.

    `RecordQueue` (RecordQueue.dfy) updates its fields in place and is proved equal to the
    functions here; what the buffer promises is proved about these functions. */
module SealPass {
  import opened Wrappers

  /** One buffered record. An occurrence of a row is its position in acceptance order. */
  datatype Row = Row(json: string, cardRef: string, runId: Option<string>)

  /** A sealed chunk: the rows of one batch under its idempotency key. */
  datatype Chunk = Chunk(id: nat, rows: seq<Row>)

  /** What the sink said, and whether the batch reached its store all the same. */
  datatype Answer = Accepted | Rejected(stored: bool) | TimedOut(stored: bool)

  /** One thing that happened to a chunk: a send with its answer, or a counted drop. */
  datatype Event = Sent(chunk: Chunk, answer: Answer) | Discarded(rows: seq<Row>)

  datatype FlushError = BuildFailed | PayloadTooLarge | SinkFailed | FlushTimeout

  datatype FlushOutcome = FlushOutcome(batchIds: seq<nat>, rowsFlushed: nat)

  /** Configuration, and the parts of the world the queue cannot see into. `buildable` says
      whether a row fits the schema, `frameLen` is the encoded size of a built batch, and
      `answer(n)` is what the sink does with the n-th send of the run. */
  datatype Env = Env(
    channelCapacity: nat,
    stagingCapacity: nat,
    flushMaxRows: nat,
    maxMessageBytes: nat,
    buildable: Row -> bool,
    frameLen: seq<Row> -> nat,
    answer: nat -> Answer)

  /** The queue: staging ring, retry deque, next unused batch id, and everything done so far. */
  datatype Queue = Queue(staging: seq<Row>, retry: seq<Chunk>, nextId: nat, hist: seq<Event>)

  /** The variables of the pass loop: chunks still pending, next unused id, history, outcome. */
  datatype Loop = Loop(pending: seq<Chunk>, nextId: nat, hist: seq<Event>, out: FlushOutcome)

  const EMPTY_QUEUE := Queue([], [], 0, [])

  function SendCount(hist: seq<Event>): nat {
    if hist == [] then 0
    else SendCount(hist[..|hist| - 1]) + if hist[|hist| - 1].Sent? then 1 else 0
  }

  lemma SendCountPush(hist: seq<Event>, e: Event)
    ensures SendCount(hist + [e]) == SendCount(hist) + if e.Sent? then 1 else 0
  {
    assert (hist + [e])[..|hist|] == hist;
  }

  function AtLeastOne(n: nat): nat {
    if n == 0 then 1 else n
  }

  function ChunkSize(env: Env): nat {
    AtLeastOne(env.flushMaxRows)
  }

  function RingSize(env: Env): nat {
    AtLeastOne(env.stagingCapacity)
  }

  /** The most rows a sealed chunk can hold. */
  function RowBound(env: Env): nat {
    if ChunkSize(env) < RingSize(env) then ChunkSize(env) else RingSize(env)
  }

  predicate CanBuild(env: Env, rows: seq<Row>) {
    forall i :: 0 <= i < |rows| ==> env.buildable(rows[i])
  }

  predicate NoneEmpty(chunks: seq<Chunk>) {
    forall i :: 0 <= i < |chunks| ==> chunks[i].rows != []
  }

  /** Sum over the pending chunks of 2 * len - 1: what a split, a send or a drop lowers. */
  function Work(pending: seq<Chunk>): nat
    requires NoneEmpty(pending)
  {
    if pending == [] then 0 else 2 * |pending[0].rows| - 1 + Work(pending[1..])
  }

  /** Seal a row list into chunks of at most `size` rows under consecutive fresh ids. */
  function Seal(rows: seq<Row>, size: nat, nextId: nat): (chunks: seq<Chunk>)
    requires size >= 1
    ensures NoneEmpty(chunks)
  {
    if rows == [] then []
    else if |rows| > size then [Chunk(nextId, rows[..size])] + Seal(rows[size..], size, nextId + 1)
    else [Chunk(nextId, rows)]
  }

  function Left(c: Chunk): Chunk {
    Chunk(c.id, c.rows[..|c.rows| / 2])
  }

  function Right(c: Chunk, id: nat): Chunk {
    Chunk(id, c.rows[|c.rows| / 2..])
  }

  predicate Oversize(env: Env, c: Chunk) {
    CanBuild(env, c.rows) && env.frameLen(c.rows) > env.maxMessageBytes
  }

  /** Drop the front chunk; the others stay pending. */
  function DropFront(l: Loop): Loop
    requires l.pending != []
  {
    l.(pending := l.pending[1..], hist := l.hist + [Discarded(l.pending[0].rows)])
  }

  /** Replace the front chunk by its halves; the left half keeps the id, the right half gets a fresh one. */
  function SplitFront(l: Loop): Loop
    requires l.pending != []
  {
    l.(pending := [Left(l.pending[0]), Right(l.pending[0], l.nextId)] + l.pending[1..], nextId := l.nextId + 1)
  }

  /** Send the front chunk; it leaves `pending` only when acknowledged. */
  function SendFront(l: Loop, answer: Answer): Loop
    requires l.pending != []
  {
    var head := l.pending[0];
    var l' := l.(hist := l.hist + [Sent(head, answer)]);
    if answer.Accepted? then
      l'.(pending := l.pending[1..], out := FlushOutcome(l.out.batchIds + [head.id], l.out.rowsFlushed + |head.rows|))
    else l'
  }

  function AnswerError(answer: Answer): Option<FlushError> {
    match answer
    case Accepted => None
    case Rejected(_) => Some(SinkFailed)
    case TimedOut(_) => Some(FlushTimeout)
  }

  /** One iteration of the pass loop, and the error that ends the pass, if any. */
  function FrontStep(env: Env, l: Loop): (Loop, Option<FlushError>)
    requires l.pending != []
  {
    var head := l.pending[0];
    if !CanBuild(env, head.rows) then (DropFront(l), Some(BuildFailed))
    else if Oversize(env, head) then
      if |head.rows| <= 1 then (DropFront(l), Some(PayloadTooLarge)) else (SplitFront(l), None)
    else
      var answer := env.answer(SendCount(l.hist));
      (SendFront(l, answer), AnswerError(answer))
  }

  /** Every split, acknowledged send and drop lowers the work left; only a failed send, which ends
      the pass, leaves it as it was. */
  lemma StepLowersWork(env: Env, l: Loop)
    requires NoneEmpty(l.pending) && l.pending != []
    ensures NoneEmpty(FrontStep(env, l).0.pending)
    ensures if FrontStep(env, l).1 in {Some(SinkFailed), Some(FlushTimeout)}
            then FrontStep(env, l).0.pending == l.pending
            else Work(FrontStep(env, l).0.pending) < Work(l.pending)
  {
    var head := l.pending[0];
    if Oversize(env, head) && |head.rows| > 1 {
      SplitLowersWork(l.pending, l.nextId);
    }
  }

  /** The loop of a pass. What is still pending at the end goes back to the retry deque. */
  function SendAll(env: Env, l: Loop): (r: (Loop, Option<FlushError>))
    requires NoneEmpty(l.pending)
    ensures NoneEmpty(r.0.pending)
    ensures r.1.None? ==> r.0.pending == []
    decreases Work(l.pending)
  {
    if l.pending == [] then (l, None)
    else
      StepLowersWork(env, l);
      var (l', err) := FrontStep(env, l);
      if err.Some? then (l', err) else SendAll(env, l')
  }

  lemma {:induction false} SplitLowersWork(pending: seq<Chunk>, id: nat)
    requires NoneEmpty(pending) && pending != [] && |pending[0].rows| > 1
    ensures NoneEmpty([Left(pending[0]), Right(pending[0], id)] + pending[1..])
    ensures Work([Left(pending[0]), Right(pending[0], id)] + pending[1..]) == Work(pending) - 1
  {
    var l, r, rest := Left(pending[0]), Right(pending[0], id), pending[1..];
    assert ([l, r] + rest)[1..] == [r] + rest;
    assert ([r] + rest)[1..] == rest;
    assert Work([l, r] + rest) == 2 * |l.rows| - 1 + Work([r] + rest);
  }

  /** The loop as `seal_and_send` enters it: retries first, then staging sealed under fresh ids. */
  function Start(env: Env, q: Queue): Loop {
    var sealed := Seal(q.staging, ChunkSize(env), q.nextId);
    Loop(q.retry + sealed, q.nextId + |sealed|, q.hist, FlushOutcome([], 0))
  }

  /** `RecordQueue::seal_and_send`. */
  function SealAndSend(env: Env, q: Queue): (r: (Queue, Result<FlushOutcome, FlushError>))
    requires NoneEmpty(q.retry)
    ensures NoneEmpty(r.0.retry) && r.0.staging == []
    ensures r.1.Ok? ==> r.0.retry == []
  {
    var (l, err) := SendAll(env, Start(env, q));
    (Queue([], l.pending, l.nextId, l.hist), if err.Some? then Err(err.value) else Ok(l.out))
  }

  /** `RecordQueue::ingest`: push, or seal once and push, or drop. */
  function Ingest(env: Env, q: Queue, row: Row): (q': Queue)
    requires NoneEmpty(q.retry)
    ensures NoneEmpty(q'.retry)
  {
    if |q.staging| < RingSize(env) then q.(staging := q.staging + [row])
    else
      var q' := SealAndSend(env, q).0;
      if |q'.staging| < RingSize(env) then q'.(staging := q'.staging + [row])
      else q'.(hist := q'.hist + [Discarded([row])])
  }

  /** `Task::drain_to_completion`: pass after pass while anything is pending, up to the first error. */
  function DrainToCompletion(env: Env, q: Queue): (r: (Queue, Option<FlushError>))
    requires NoneEmpty(q.retry)
    ensures NoneEmpty(r.0.retry)
    decreases |q.staging| + |q.retry|
  {
    if q.staging == [] && q.retry == [] then (q, None)
    else
      var (q', result) := SealAndSend(env, q);
      match result
      case Err(why) => (q', Some(why))
      case Ok(_) => DrainToCompletion(env, q')
  }
}
