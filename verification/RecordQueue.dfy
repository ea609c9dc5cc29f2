/** The stage-2 buffer as the program writes it: a staging ring, a retry deque and shared counters,
    updated in place. */
module RecordQueues {
  import opened Wrappers
  import opened SealPass
  import opened PassLaws

  /** Accepted and dropped tallies, shared with the callers of `enqueue`. The program's cells are 64
      bits wide, start at 0 and are only ever added to, so what a load reads is the total added so
      far modulo 2^64; the fields hold the totals. */
  class Counters {
    var accepted: nat
    var dropped: nat

    constructor ()
      ensures accepted == 0 && dropped == 0
    {
      accepted, dropped := 0, 0;
    }
  }

  /** The sink as the queue sees it: it answers the n-th send as it pleases. */
  class Sink {
    const answer: nat -> Answer
    var sends: nat

    constructor (answer: nat -> Answer)
      ensures this.answer == answer && sends == 0
    {
      this.answer := answer;
      sends := 0;
    }

    method Send(batch: Chunk) returns (a: Answer)
      modifies this
      ensures a == answer(old(sends)) && sends == old(sends) + 1
    {
      a := answer(sends);
      sends := sends + 1;
    }
  }

  class RecordQueue {
    const env: Env
    const sink: Sink
    const counters: Counters
    var staging: seq<Row>
    var retry: seq<Chunk>
    var nextId: nat
    ghost var hist: seq<Event>

    /** The sink is the one the environment describes, and no waiting chunk is empty. That a
        queue also keeps `QueueInv` is proved on values: every method computes the value given by a
        function that keeps it. */
    ghost predicate Valid()
      reads this, sink
    {
      sink.answer == env.answer && sink.sends == SendCount(hist) && NoneEmpty(retry)
    }

    ghost function Value(): Queue
      reads this
    {
      Queue(staging, retry, nextId, hist)
    }

    constructor (env: Env, sink: Sink, counters: Counters)
      requires sink.answer == env.answer && sink.sends == 0
      ensures Valid() && Value() == EMPTY_QUEUE
      ensures this.env == env && this.sink == sink && this.counters == counters
    {
      this.env, this.sink, this.counters := env, sink, counters;
      staging, retry, nextId, hist := [], [], 0, [];
    }

    /** Offer a row to the staging ring; false if it is full. */
    method Push(row: Row) returns (landed: bool)
      modifies this`staging
      ensures landed == (|old(staging)| < RingSize(env))
      ensures staging == if landed then old(staging) + [row] else old(staging)
    {
      landed := |staging| < RingSize(env);
      if landed {
        staging := staging + [row];
      }
    }

    method HasPending() returns (pending: bool)
      ensures pending <==> staging != [] || retry != []
    {
      pending := staging != [] || retry != [];
    }

    /** Pop the staging ring until it is empty. */
    method Drain() returns (rows: seq<Row>)
      modifies this`staging
      ensures rows == old(staging) && staging == []
    {
      rows := [];
      while staging != []
        invariant rows + staging == old(staging)
        decreases |staging|
      {
        rows, staging := rows + [staging[0]], staging[1..];
      }
    }

    /** Seal drained rows into chunks of at most `size` rows behind the chunks already pending. */
    method SealChunks(retries: seq<Chunk>, drained: seq<Row>, size: nat) returns (pending: seq<Chunk>)
      requires size >= 1
      modifies this`nextId
      ensures pending == retries + Seal(drained, size, old(nextId))
      ensures nextId == old(nextId) + |Seal(drained, size, old(nextId))|
    {
      ghost var all := retries + Seal(drained, size, nextId);
      pending := retries;
      var rows := drained;
      while rows != []
        invariant pending + Seal(rows, size, nextId) == all
        invariant nextId + |Seal(rows, size, nextId)| == old(nextId) + |Seal(drained, size, old(nextId))|
        decreases |rows|
      {
        var rest := if |rows| > size then rows[size..] else [];
        var chunk := if |rows| > size then rows[..size] else rows;
        assert Seal(rows, size, nextId) == [Chunk(nextId, chunk)] + Seal(rest, size, nextId + 1);
        pending := pending + [Chunk(nextId, chunk)];
        nextId, rows := nextId + 1, rest;
      }
    }

    /** Drain retries and staging, then build, split, send or drop chunk by chunk. The new state
        and the result are those of the specification; the drop counter moves by exactly the rows
        dropped in the pass. */
    method SealAndSend() returns (r: Result<FlushOutcome, FlushError>)
      requires Valid()
      modifies this, sink, counters
      ensures Valid()
      ensures (Value(), r) == SealPass.SealAndSend(env, old(Value()))
      ensures counters.dropped - old(counters.dropped) == Lost(hist) - Lost(old(hist))
      ensures counters.accepted == old(counters.accepted)
    {
      ghost var q := Value();
      var retries := retry;
      retry := [];
      var rows := Drain();
      var pending := SealChunks(retries, rows, ChunkSize(env));
      pending, r := SendPending(pending, Start(env, q));
      retry := pending;
    }

    /** The loop of a pass over the chunks given; returns those to be kept for the next pass. */
    method SendPending(chunks: seq<Chunk>, ghost start: Loop)
      returns (kept: seq<Chunk>, r: Result<FlushOutcome, FlushError>)
      requires NoneEmpty(chunks) && start == Loop(chunks, nextId, hist, FlushOutcome([], 0))
      requires sink.answer == env.answer && sink.sends == SendCount(hist)
      modifies this`nextId, this`hist, sink, counters`dropped
      ensures sink.sends == SendCount(hist)
      ensures var (l, err) := SendAll(env, start);
              && kept == l.pending && nextId == l.nextId && hist == l.hist
              && r == if err.Some? then Err(err.value) else Ok(l.out)
      ensures counters.dropped - old(counters.dropped) == Lost(hist) - Lost(old(hist))
    {
      var out, err := FlushOutcome([], 0), None;
      kept := chunks;
      ghost var l := start;
      while kept != [] && err.None?
        invariant l == Loop(kept, nextId, hist, out) && NoneEmpty(kept) && sink.sends == SendCount(hist)
        invariant if err.None? then SendAll(env, l) == SendAll(env, start) else SendAll(env, start) == (l, err)
        invariant counters.dropped - old(counters.dropped) == Lost(hist) - Lost(old(hist))
        decreases err.None?, Work(kept)
      {
        StepLowersWork(env, l);
        assert SendAll(env, start)
            == if FrontStep(env, l).1.Some? then FrontStep(env, l) else SendAll(env, FrontStep(env, l).0);
        l := FrontStep(env, l).0;
        kept, out, err := Attempt(kept, out);
      }
      r := if err.Some? then Err(err.value) else Ok(out);
    }

    /** One iteration of the pass loop, on the front chunk. */
    method Attempt(pending: seq<Chunk>, out: FlushOutcome)
      returns (kept: seq<Chunk>, out': FlushOutcome, err: Option<FlushError>)
      requires pending != [] && sink.answer == env.answer && sink.sends == SendCount(hist)
      modifies this`nextId, this`hist, sink, counters`dropped
      ensures (Loop(kept, nextId, hist, out'), err) == FrontStep(env, Loop(pending, old(nextId), old(hist), out))
      ensures sink.sends == SendCount(hist)
      ensures counters.dropped - old(counters.dropped) == Lost(hist) - Lost(old(hist))
    {
      var chunk, rest := pending[0], pending[1..];
      out' := out;
      if !CanBuild(env, chunk.rows) {
        DropChunk(chunk);
        return rest, out, Some(BuildFailed);
      }
      if env.frameLen(chunk.rows) > env.maxMessageBytes {
        if |chunk.rows| <= 1 {
          DropChunk(chunk);
          return rest, out, Some(PayloadTooLarge);
        }
        var mid := |chunk.rows| / 2;
        var right := Chunk(nextId, chunk.rows[mid..]);
        nextId := nextId + 1;
        return [Chunk(chunk.id, chunk.rows[..mid]), right] + rest, out, None;
      }
      var answer := SendChunk(chunk);
      match answer {
        case Accepted => return rest, FlushOutcome(out.batchIds + [chunk.id], out.rowsFlushed + |chunk.rows|), None;
        case Rejected(_) => return pending, out, Some(SinkFailed);
        case TimedOut(_) => return pending, out, Some(FlushTimeout);
      }
    }

    method SendChunk(chunk: Chunk) returns (answer: Answer)
      requires sink.sends == SendCount(hist)
      modifies this`hist, sink
      ensures answer == sink.answer(SendCount(old(hist))) && hist == old(hist) + [Sent(chunk, answer)]
      ensures sink.sends == SendCount(hist) && Lost(hist) == Lost(old(hist))
    {
      answer := sink.Send(chunk);
      SettledPush(hist, Sent(chunk, answer));
      SendCountPush(hist, Sent(chunk, answer));
      hist := hist + [Sent(chunk, answer)];
    }

    /** Count a chunk that cannot be sent. */
    method DropChunk(chunk: Chunk)
      modifies this`hist, counters`dropped
      ensures hist == old(hist) + [Discarded(chunk.rows)] && SendCount(hist) == SendCount(old(hist))
      ensures counters.dropped - old(counters.dropped) == Lost(hist) - Lost(old(hist))
    {
      SettledPush(hist, Discarded(chunk.rows));
      SendCountPush(hist, Discarded(chunk.rows));
      counters.dropped := counters.dropped + |chunk.rows|;
      hist := hist + [Discarded(chunk.rows)];
    }

    /** Buffer one row, sealing once to make room. The row always lands, so the branch in which the
        program counts a drop is dead. */
    method Ingest(row: Row)
      requires Valid()
      modifies this, sink, counters
      ensures Valid()
      ensures Value() == SealPass.Ingest(env, old(Value()), row)
      ensures counters.accepted == old(counters.accepted)
    {
      var landed := Push(row);
      if !landed {
        var _ := SealAndSend();
        landed := Push(row);
        if !landed {
          assert false;
        }
      }
    }
  }
}
