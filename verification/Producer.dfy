/** The two ends of the stage-1 channel as the program writes them: the caller's `enqueue` and the
    background task's handlers. Each method is proved against a function; how the two interleave is
    the subject of ProducerMachine.dfy. */
module Producers {
  import opened Wrappers
  import opened SealPass
  import opened PassLaws
  import opened RecordQueues
  import opened ProducerMachine

  datatype Offer = Taken | Full | Closed

  /** The bounded channel as a caller meets it: before the n-th offer the task takes `taken(n)` rows
      off its front (or all, if there are fewer). */
  class Channel {
    const capacity: nat
    const taken: nat -> nat
    var rows: seq<Row>
    var open: bool
    var offers: nat

    constructor (capacity: nat, taken: nat -> nat)
      ensures this.capacity == AtLeastOne(capacity) && this.taken == taken
      ensures rows == [] && open && offers == 0
    {
      this.capacity, this.taken := AtLeastOne(capacity), taken;
      rows, open, offers := [], true, 0;
    }

    method TrySend(row: Row) returns (r: Offer)
      modifies this`rows, this`offers
      ensures offers == old(offers) + 1
      ensures (rows, r) == Offered(old(rows), open, capacity, taken(old(offers)), row)
    {
      rows := rows[Least(taken(offers), |rows|)..];
      offers := offers + 1;
      if !open {
        return Closed;
      }
      if |rows| < capacity {
        rows := rows + [row];
        return Taken;
      }
      return Full;
    }
  }

  function Least(a: nat, b: nat): (m: nat)
    ensures m <= a && m <= b
  {
    if a < b then a else b
  }

  function Offered(rows: seq<Row>, open: bool, capacity: nat, taken: nat, row: Row): (seq<Row>, Offer) {
    var left := rows[Least(taken, |rows|)..];
    if !open then (left, Closed)
    else if |left| < capacity then (left + [row], Taken)
    else (left, Full)
  }

  /** What `attempts` offers of a row come to: the first that is not refused as full decides. */
  function OfferUpTo(
    attempts: nat, rows: seq<Row>, open: bool, capacity: nat, taken: nat -> nat, offers: nat, row: Row)
    : (seq<Row>, nat, bool)
  {
    if attempts == 0 then (rows, offers, false)
    else
      var (rows', r) := Offered(rows, open, capacity, taken(offers), row);
      match r
      case Taken => (rows', offers + 1, true)
      case Closed => (rows', offers + 1, false)
      case Full => OfferUpTo(attempts - 1, rows', open, capacity, taken, offers + 1, row)
  }

  predicate IsSuffix(rest: seq<Row>, rows: seq<Row>) {
    |rest| <= |rows| && rest == rows[|rows| - |rest|..]
  }

  lemma SuffixOfSuffix(a: seq<Row>, b: seq<Row>, c: seq<Row>)
    requires IsSuffix(a, b) && IsSuffix(b, c)
    ensures IsSuffix(a, c)
  {
    assert c[|c| - |b|..][|b| - |a|..] == c[|c| - |a|..];
  }

  /** One offer. */
  lemma OfferedOutcome(rows: seq<Row>, open: bool, capacity: nat, taken: nat, row: Row)
    ensures var (rows', r) := Offered(rows, open, capacity, taken, row);
            && (r.Taken? ==>
                  && open && 1 <= |rows'| <= capacity && rows'[|rows'| - 1] == row
                  && IsSuffix(rows'[..|rows'| - 1], rows))
            && (!r.Taken? ==> IsSuffix(rows', rows))
            && (r.Full? ==> open && |rows'| >= capacity)
            && (r.Closed? ==> !open)
  {
    var left := rows[Least(taken, |rows|)..];
    assert IsSuffix(left, rows);
    assert (left + [row])[..|left|] == left;
  }

  /** An accepted row is last, within the capacity, behind rows that were there; a refused one leaves
      only such rows. */
  predicate OfferedWell(rows: seq<Row>, open: bool, capacity: nat, row: Row, after: seq<Row>, ok: bool) {
    if ok then open && 1 <= |after| <= capacity && after[|after| - 1] == row && IsSuffix(after[..|after| - 1], rows)
    else IsSuffix(after, rows)
  }

  lemma OfferedAfter(
    rows: seq<Row>, left: seq<Row>, open: bool, capacity: nat, row: Row, after: seq<Row>, ok: bool)
    requires IsSuffix(left, rows) && OfferedWell(left, open, capacity, row, after, ok)
    ensures OfferedWell(rows, open, capacity, row, after, ok)
  {
    hide IsSuffix;
    SuffixOfSuffix(if ok then after[..|after| - 1] else after, left, rows);
  }

  /** Up to so many offers: rows come and go as they should, and refusal of an open channel means that
      every offer met a full one. */
  lemma {:induction false} OfferOutcome(
    attempts: nat, rows: seq<Row>, open: bool, capacity: nat, taken: nat -> nat, offers: nat, row: Row)
    ensures var (rows', offers', ok) := OfferUpTo(attempts, rows, open, capacity, taken, offers, row);
            && offers <= offers' <= offers + attempts
            && OfferedWell(rows, open, capacity, row, rows', ok)
            && (!ok && open ==> offers' == offers + attempts && (attempts > 0 ==> |rows'| >= capacity))
  {
    if attempts == 0 {
    } else {
      var (rows1, r) := Offered(rows, open, capacity, taken(offers), row);
      OfferedOutcome(rows, open, capacity, taken(offers), row);
      if r == Full {
        hide Offered, IsSuffix, OfferedWell;
        OfferOutcome(attempts - 1, rows1, open, capacity, taken, offers + 1, row);
        var (rows2, _, ok) := OfferUpTo(attempts - 1, rows1, open, capacity, taken, offers + 1, row);
        OfferedAfter(rows, rows1, open, capacity, row, rows2, ok);
      }
    }
  }

  /** The caller-facing handle. */
  class Producer {
    const channel: Channel
    const counters: Counters
    var life: Life
    var depth: int

    constructor (channel: Channel, counters: Counters)
      ensures this.channel == channel && this.counters == counters && life == Running && depth == 0
    {
      this.channel, this.counters := channel, counters;
      life, depth := Running, 0;
    }

    /** Offer the row at most three times. Every call is accounted for: it bumps `accepted` and the
        depth, or `dropped`, by one, and never both. */
    method Enqueue(row: Row) returns (ok: bool)
      modifies this`depth, channel`rows, channel`offers, counters
      ensures life != Running ==> !ok && channel.rows == old(channel.rows) && channel.offers == old(channel.offers)
      ensures life == Running ==>
                (channel.rows, channel.offers, ok) ==
                OfferUpTo(ENQUEUE_ATTEMPTS, old(channel.rows), channel.open, channel.capacity, channel.taken,
                          old(channel.offers), row)
      ensures counters.accepted == old(counters.accepted) + if ok then 1 else 0
      ensures counters.dropped == old(counters.dropped) + if ok then 0 else 1
      ensures depth == old(depth) + if ok then 1 else 0
    {
      if life != Running {
        counters.dropped := counters.dropped + 1;
        return false;
      }
      for attempt := 0 to ENQUEUE_ATTEMPTS
        invariant OfferUpTo(ENQUEUE_ATTEMPTS - attempt, channel.rows, channel.open, channel.capacity, channel.taken,
                            channel.offers, row)
               == OfferUpTo(ENQUEUE_ATTEMPTS, old(channel.rows), channel.open, channel.capacity, channel.taken,
                            old(channel.offers), row)
        invariant channel.offers == old(channel.offers) + attempt
        invariant counters.accepted == old(counters.accepted) && counters.dropped == old(counters.dropped)
        invariant depth == old(depth)
      {
        var r := channel.TrySend(row);
        match r {
          case Taken =>
            counters.accepted := counters.accepted + 1;
            depth := depth + 1;
            return true;
          case Full =>
          case Closed => break;
        }
      }
      counters.dropped := counters.dropped + 1;
      return false;
    }
  }

  /** Ingest rows one after another. */
  function IngestAll(env: Env, q: Queue, rows: seq<Row>): (q': Queue)
    requires NoneEmpty(q.retry)
    ensures NoneEmpty(q'.retry)
    decreases |rows|
  {
    if rows == [] then q else IngestAll(env, Ingest(env, q, rows[0]), rows[1..])
  }

  /** Ingesting a list lands every row, in order, behind what the queue already holds. */
  lemma {:induction false} IngestAllKeeps(env: Env, q: Queue, rows: seq<Row>)
    requires QueueInv(env, q)
    ensures NoneEmpty(q.retry)
    ensures var q' := IngestAll(env, q, rows); QueueInv(env, q') && Intake(q') == Intake(q) + rows && q.hist <= q'.hist
    decreases |rows|
  {
    hide QueueInv, Intake;
    QueueHasNoEmptyChunk(env, q);
    if rows == [] {
    } else {
      IngestKeeps(env, q, rows[0]);
      IngestAllKeeps(env, Ingest(env, q, rows[0]), rows[1..]);
      assert Intake(q) + [rows[0]] + rows[1..] == Intake(q) + rows;
    }
  }

  lemma QueueHasNoEmptyChunk(env: Env, q: Queue)
    requires QueueInv(env, q)
    ensures NoneEmpty(q.retry)
  {
  }

  // ---- What each handler makes of the queue ----

  /** A row: ingest it, and seal when staging has reached the batch size. */
  function RowHandled(env: Env, q: Queue, row: Row): (q': Queue)
    requires NoneEmpty(q.retry)
    ensures NoneEmpty(q'.retry)
  {
    var q1 := Ingest(env, q, row);
    if |q1.staging| >= AtLeastOne(env.flushMaxRows) then SealPass.SealAndSend(env, q1).0 else q1
  }

  /** The timer: seal what is staged. */
  function TickHandled(env: Env, q: Queue): (q': Queue)
    requires NoneEmpty(q.retry)
    ensures NoneEmpty(q'.retry)
  {
    if q.staging != [] then SealPass.SealAndSend(env, q).0 else q
  }

  /** A flush: take in the channel, seal once. */
  function FlushHandled(env: Env, q: Queue, channel: seq<Row>): (r: (Queue, Result<FlushOutcome, FlushError>))
    requires NoneEmpty(q.retry)
    ensures NoneEmpty(r.0.retry)
  {
    SealPass.SealAndSend(env, IngestAll(env, q, channel))
  }

  /** A shutdown: take in the channel, seal until nothing is pending or a pass fails. */
  function ShutdownHandled(env: Env, q: Queue, channel: seq<Row>): (r: (Queue, Option<FlushError>))
    requires NoneEmpty(q.retry)
    ensures NoneEmpty(r.0.retry)
  {
    DrainToCompletion(env, IngestAll(env, q, channel))
  }

  /** A flush that reports success has settled the whole intake and the whole channel, in order. */
  lemma FlushSettlesAll(env: Env, q: Queue, channel: seq<Row>)
    requires QueueInv(env, q)
    ensures NoneEmpty(q.retry)
    ensures var (q', r) := FlushHandled(env, q, channel);
            && QueueInv(env, q') && Intake(q') == Intake(q) + channel
            && (r.Ok? ==> q'.staging == [] && q'.retry == [] && Settled(q'.hist) == Intake(q) + channel)
  {
    hide QueueInv, Intake;
    IngestAllKeeps(env, q, channel);
    SealAndSendKeeps(env, IngestAll(env, q, channel));
    SealAndSendReports(env, IngestAll(env, q, channel));
  }

  /** A shutdown keeps every row either settled or in the retry deque, in order, and in the deque
      only if a pass failed. */
  lemma ShutdownKeepsAll(env: Env, q: Queue, channel: seq<Row>)
    requires QueueInv(env, q)
    ensures NoneEmpty(q.retry)
    ensures var (q', err) := ShutdownHandled(env, q, channel);
            && q'.staging == [] && Settled(q'.hist) + Flatten(q'.retry) == Intake(q) + channel
            && (err.None? ==> q'.retry == [] && Settled(q'.hist) == Intake(q) + channel)
  {
    hide QueueInv, Intake;
    IngestAllKeeps(env, q, channel);
    DrainToCompletionKeeps(env, IngestAll(env, q, channel));
  }

  /** The background task, between two polls of its channels: `channel` holds what is on the stage-1
      channel and no caller moves meanwhile. */
  class Task {
    const queue: RecordQueue
    var channel: seq<Row>
    var depth: int
    var life: Life

    constructor (queue: RecordQueue)
      ensures this.queue == queue && channel == [] && depth == 0 && life == Running
    {
      this.queue := queue;
      channel, depth, life := [], 0, Running;
    }

    /** Pull every row off the channel into staging. */
    method DrainChannel()
      requires queue.Valid()
      modifies this`channel, this`depth, queue, queue.sink, queue.counters
      ensures queue.Valid() && channel == [] && depth == old(depth) - |old(channel)|
      ensures queue.Value() == IngestAll(queue.env, old(queue.Value()), old(channel))
    {
      while channel != []
        invariant queue.Valid() && depth - |channel| == old(depth) - |old(channel)|
        invariant IngestAll(queue.env, queue.Value(), channel) == IngestAll(queue.env, old(queue.Value()), old(channel))
        decreases |channel|
      {
        var row := channel[0];
        channel, depth := channel[1..], depth - 1;
        queue.Ingest(row);
      }
    }

    /** Seal while anything is pending, up to the first error. */
    method DrainToCompletion() returns (err: Option<FlushError>)
      requires queue.Valid()
      modifies queue, queue.sink, queue.counters
      ensures queue.Valid() && (queue.Value(), err) == SealPass.DrainToCompletion(queue.env, old(queue.Value()))
    {
      var pending := queue.HasPending();
      while pending
        invariant queue.Valid() && pending == (queue.staging != [] || queue.retry != [])
        invariant SealPass.DrainToCompletion(queue.env, queue.Value())
               == SealPass.DrainToCompletion(queue.env, old(queue.Value()))
        decreases |queue.staging| + |queue.retry|
      {
        var r := queue.SealAndSend();
        if r.Err? {
          return Some(r.error);
        }
        pending := queue.HasPending();
      }
      return None;
    }

    /** A row came off the channel: ingest it, and seal when staging has reached the batch size. */
    method OnRow()
      requires queue.Valid() && channel != []
      modifies this`channel, this`depth, queue, queue.sink, queue.counters
      ensures queue.Valid() && channel == old(channel)[1..] && depth == old(depth) - 1
      ensures queue.Value() == RowHandled(queue.env, old(queue.Value()), old(channel)[0])
    {
      var row := channel[0];
      channel, depth := channel[1..], depth - 1;
      queue.Ingest(row);
      if |queue.staging| >= ChunkSize(queue.env) {
        var _ := queue.SealAndSend();
      }
    }

    /** The interval timer fired. */
    method OnTick()
      requires queue.Valid()
      modifies queue, queue.sink, queue.counters
      ensures queue.Valid()
      ensures queue.Value() == TickHandled(queue.env, old(queue.Value()))
    {
      if |queue.staging| > 0 {
        var _ := queue.SealAndSend();
      }
    }

    /** A flush request: drain the channel, seal once, report. */
    method OnFlush() returns (r: Result<FlushOutcome, FlushError>)
      requires queue.Valid()
      modifies this`channel, this`depth, queue, queue.sink, queue.counters
      ensures queue.Valid() && channel == [] && depth == old(depth) - |old(channel)|
      ensures (queue.Value(), r) == FlushHandled(queue.env, old(queue.Value()), old(channel))
    {
      DrainChannel();
      r := queue.SealAndSend();
    }

    /** A shutdown request: refuse new rows, drain the channel and then the queue, and stop. */
    method OnShutdown() returns (err: Option<FlushError>)
      requires queue.Valid()
      modifies this`channel, this`depth, this`life, queue, queue.sink, queue.counters
      ensures queue.Valid() && channel == [] && depth == old(depth) - |old(channel)| && life == Drained
      ensures (queue.Value(), err) == ShutdownHandled(queue.env, old(queue.Value()), old(channel))
    {
      life := Draining;
      DrainChannel();
      err := DrainToCompletion();
      life := Drained;
    }
  }
}
