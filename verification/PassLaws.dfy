/** What every seal pass keeps: no row is lost, duplicated or overtaken; a batch id names one
    chunk for the whole run; every batch that leaves is small enough and buildable. */
module PassLaws {
  import opened Wrappers
  import opened SealPass

  // ---- Reading a history ----

  function Flatten(chunks: seq<Chunk>): seq<Row> {
    if chunks == [] then [] else chunks[0].rows + Flatten(chunks[1..])
  }

  predicate Failed(e: Event) {
    e.Sent? && !e.answer.Accepted?
  }

  predicate Acked(e: Event) {
    e.Sent? && e.answer.Accepted?
  }

  /** Rows one event takes out of the buffer for good. */
  function SettledBy(e: Event): seq<Row> {
    match e
    case Sent(c, Accepted) => c.rows
    case Sent(_, _) => []
    case Discarded(rows) => rows
  }

  /** Rows acknowledged or dropped so far, in the order it happened. */
  function Settled(hist: seq<Event>): seq<Row> {
    if hist == [] then [] else Settled(hist[..|hist| - 1]) + SettledBy(hist[|hist| - 1])
  }

  /** Rows the sink acknowledged, in the order it happened. */
  function AckedRows(hist: seq<Event>): seq<Row> {
    if hist == [] then []
    else
      var e := hist[|hist| - 1];
      AckedRows(hist[..|hist| - 1]) + if Acked(e) then e.chunk.rows else []
  }

  /** How many rows the drop paths of the queue have counted. */
  function Lost(hist: seq<Event>): nat {
    if hist == [] then 0
    else
      var e := hist[|hist| - 1];
      Lost(hist[..|hist| - 1]) + if e.Discarded? then |e.rows| else 0
  }

  /** Everything the queue has taken in, oldest first: settled, waiting for retry, staged. */
  function Intake(q: Queue): seq<Row> {
    Settled(q.hist) + Flatten(q.retry) + q.staging
  }

  // ---- The invariant ----

  /** A chunk the pass may hand to the sink. */
  predicate Sendable(env: Env, c: Chunk) {
    1 <= |c.rows| <= RowBound(env) && CanBuild(env, c.rows) && env.frameLen(c.rows) <= env.maxMessageBytes
  }

  /** Pending chunks fit the row bound and carry distinct ids already minted. */
  predicate PendingOk(env: Env, pending: seq<Chunk>, nextId: nat) {
    && (forall i :: 0 <= i < |pending| ==> 1 <= |pending[i].rows| <= RowBound(env) && pending[i].id < nextId)
    && (forall i, j :: 0 <= i < j < |pending| ==> pending[i].id != pending[j].id)
  }

  /** Every send was of a sendable chunk, and an acknowledged id is never used again, neither in
      the rest of the history nor among the chunks still pending. */
  predicate IdsOk(env: Env, hist: seq<Event>, pending: seq<Chunk>, nextId: nat) {
    && (forall i :: 0 <= i < |hist| && hist[i].Sent? ==> Sendable(env, hist[i].chunk) && hist[i].chunk.id < nextId)
    && (forall i, j :: 0 <= i < j < |hist| && Acked(hist[i]) && hist[j].Sent? ==> hist[i].chunk.id != hist[j].chunk.id)
    && (forall i, j :: 0 <= i < |hist| && Acked(hist[i]) && 0 <= j < |pending| ==> hist[i].chunk.id != pending[j].id)
  }

  /** A failed send is followed by a send of the same chunk; if it is the newest event, that
      chunk waits at the front. */
  predicate ResendsOk(hist: seq<Event>, pending: seq<Chunk>) {
    && (forall i :: 0 <= i < |hist| - 1 && Failed(hist[i]) ==> hist[i + 1].Sent? && hist[i + 1].chunk == hist[i].chunk)
    && (hist != [] && Failed(hist[|hist| - 1]) ==> pending != [] && pending[0] == hist[|hist| - 1].chunk)
  }

  /** Head-of-line order: every send starts exactly where the settled rows end in `order`. */
  predicate InOrder(hist: seq<Event>, order: seq<Row>) {
    forall i :: 0 <= i < |hist| && hist[i].Sent? ==> Settled(hist[..i]) + hist[i].chunk.rows <= order
  }

  /** A chunk is dropped only if a row in it does not fit the schema, or if it is one row whose
      batch alone is over the size limit. */
  predicate DropsOk(env: Env, hist: seq<Event>) {
    forall i :: 0 <= i < |hist| && hist[i].Discarded? ==>
      !CanBuild(env, hist[i].rows) || (|hist[i].rows| == 1 && env.frameLen(hist[i].rows) > env.maxMessageBytes)
  }

  predicate LoopInv(env: Env, l: Loop) {
    && DropsOk(env, l.hist) && PendingOk(env, l.pending, l.nextId)
    && IdsOk(env, l.hist, l.pending, l.nextId) && ResendsOk(l.hist, l.pending)
  }

  function LoopIntake(l: Loop): seq<Row> {
    Settled(l.hist) + Flatten(l.pending)
  }

  predicate QueueInv(env: Env, q: Queue) {
    && |q.staging| <= RingSize(env)
    && LoopInv(env, Loop(q.retry, q.nextId, q.hist, FlushOutcome([], 0)))
    && InOrder(q.hist, Intake(q))
  }

  // ---- Sequence facts ----

  lemma {:induction false} FlattenAppend(a: seq<Chunk>, b: seq<Chunk>)
    ensures Flatten(a + b) == Flatten(a) + Flatten(b)
  {
    if a == [] {
      assert a + b == b;
    } else {
      assert (a + b)[1..] == a[1..] + b;
      FlattenAppend(a[1..], b);
    }
  }

  lemma FlattenCons(c: Chunk, rest: seq<Chunk>)
    ensures Flatten([c] + rest) == c.rows + Flatten(rest)
  {
    assert ([c] + rest)[1..] == rest;
  }

  lemma SettledPush(hist: seq<Event>, e: Event)
    ensures Settled(hist + [e]) == Settled(hist) + SettledBy(e)
    ensures AckedRows(hist + [e]) == AckedRows(hist) + if Acked(e) then e.chunk.rows else []
    ensures Lost(hist + [e]) == Lost(hist) + if e.Discarded? then |e.rows| else 0
  {
    assert (hist + [e])[..|hist|] == hist;
  }

  lemma {:induction false} SettledPrefix(hist: seq<Event>, n: nat)
    requires n <= |hist|
    ensures Settled(hist[..n]) <= Settled(hist)
  {
    if n == |hist| {
      assert hist[..n] == hist;
    } else {
      SettledPrefix(hist[..|hist| - 1], n);
      assert hist[..|hist| - 1][..n] == hist[..n];
    }
  }

  lemma InOrderPush(hist: seq<Event>, e: Event, order: seq<Row>)
    requires InOrder(hist, order)
    requires e.Sent? ==> Settled(hist) + e.chunk.rows <= order
    ensures InOrder(hist + [e], order)
  {
    var h := hist + [e];
    forall i | 0 <= i < |h| && h[i].Sent? ensures Settled(h[..i]) + h[i].chunk.rows <= order {
      assert h[..i] == hist[..i];
      if i == |hist| {
        assert hist[..i] == hist;
      }
    }
  }

  lemma InOrderGrow(hist: seq<Event>, order: seq<Row>, more: seq<Row>)
    requires InOrder(hist, order)
    ensures InOrder(hist, order + more)
  {
  }

  // ---- Sealing ----

  /** Sealing keeps the rows and their order, fills chunks up to `size`, and numbers them in turn. */
  lemma {:induction false} SealKeepsRows(rows: seq<Row>, size: nat, nextId: nat)
    requires size >= 1
    ensures Flatten(Seal(rows, size, nextId)) == rows
    ensures forall i :: 0 <= i < |Seal(rows, size, nextId)| ==>
              && Seal(rows, size, nextId)[i].id == nextId + i
              && 1 <= |Seal(rows, size, nextId)[i].rows| <= size
              && |Seal(rows, size, nextId)[i].rows| <= |rows|
              && (i < |Seal(rows, size, nextId)| - 1 ==> |Seal(rows, size, nextId)[i].rows| == size)
  {
    if |rows| > size {
      SealKeepsRows(rows[size..], size, nextId + 1);
      FlattenCons(Chunk(nextId, rows[..size]), Seal(rows[size..], size, nextId + 1));
    } else if rows != [] {
      FlattenCons(Chunk(nextId, rows), []);
      assert [Chunk(nextId, rows)] + [] == [Chunk(nextId, rows)];
    }
  }

  /** What a pass starts with: the retries as they are, then staging, row for row, in chunks of
      `flush_max_rows` rows (of one, if that is zero), the last one shorter if it must be, numbered with
      consecutive fresh ids. */
  lemma StartCutsStaging(env: Env, q: Queue)
    ensures var pending, n := Start(env, q).pending, |q.retry|;
            && n <= |pending| && pending[..n] == q.retry && Flatten(pending[n..]) == q.staging
            && (forall i :: n <= i < |pending| ==> pending[i].id == q.nextId + (i - n))
            && (forall i :: n <= i < |pending| - 1 ==>
                  |pending[i].rows| == if env.flushMaxRows == 0 then 1 else env.flushMaxRows)
            && (forall i :: n <= i < |pending| ==>
                  1 <= |pending[i].rows| <= if env.flushMaxRows == 0 then 1 else env.flushMaxRows)
  {
    hide Flatten;
    var sealed := Seal(q.staging, ChunkSize(env), q.nextId);
    SealKeepsRows(q.staging, ChunkSize(env), q.nextId);
    assert Start(env, q).pending[|q.retry|..] == sealed;
  }

  // ---- One iteration of the pass loop ----

  /** The chunk that failed last was sendable, so it can be neither split nor dropped now. */
  lemma WaitingFrontIsSendable(env: Env, l: Loop)
    requires LoopInv(env, l)
    ensures l.hist != [] && Failed(l.hist[|l.hist| - 1]) ==> l.pending != [] && Sendable(env, l.pending[0])
  {
  }

  predicate IsPush(hist: seq<Event>, e: Event, hist': seq<Event>) {
    |hist'| == |hist| + 1 && hist'[|hist|] == e && forall i :: 0 <= i < |hist| ==> hist'[i] == hist[i]
  }

  predicate IsTail(pending: seq<Chunk>, rest: seq<Chunk>) {
    |pending| == |rest| + 1 && forall i :: 0 <= i < |rest| ==> rest[i] == pending[i + 1]
  }

  lemma DropKeepsIds(env: Env, l: Loop, hist': seq<Event>, rest: seq<Chunk>)
    requires IdsOk(env, l.hist, l.pending, l.nextId)
    requires IsTail(l.pending, rest) && IsPush(l.hist, Discarded(l.pending[0].rows), hist')
    ensures IdsOk(env, hist', rest, l.nextId)
  {
  }

  lemma DropFrontKeeps(env: Env, l: Loop)
    requires LoopInv(env, l) && l.pending != []
    requires !CanBuild(env, l.pending[0].rows) || (Oversize(env, l.pending[0]) && |l.pending[0].rows| == 1)
    ensures LoopInv(env, DropFront(l))
  {
    var l' := DropFront(l);
    assert IsTail(l.pending, l'.pending) && IsPush(l.hist, Discarded(l.pending[0].rows), l'.hist);
    WaitingFrontIsSendable(env, l);
    DropKeepsIds(env, l, l'.hist, l'.pending);
  }

  lemma SendKeepsIds(env: Env, l: Loop, hist': seq<Event>, answer: Answer)
    requires PendingOk(env, l.pending, l.nextId) && IdsOk(env, l.hist, l.pending, l.nextId)
    requires l.pending != [] && Sendable(env, l.pending[0]) && IsPush(l.hist, Sent(l.pending[0], answer), hist')
    ensures !answer.Accepted? ==> IdsOk(env, hist', l.pending, l.nextId)
    ensures forall rest :: answer.Accepted? && IsTail(l.pending, rest) ==> IdsOk(env, hist', rest, l.nextId)
  {
  }

  lemma SendKeepsResends(l: Loop, hist': seq<Event>, pending': seq<Chunk>, answer: Answer)
    requires ResendsOk(l.hist, l.pending)
    requires l.pending != [] && IsPush(l.hist, Sent(l.pending[0], answer), hist')
    requires !answer.Accepted? ==> pending' == l.pending
    ensures ResendsOk(hist', pending')
  {
    forall i | 0 <= i < |hist'| - 1 && Failed(hist'[i])
      ensures hist'[i + 1].Sent? && hist'[i + 1].chunk == hist'[i].chunk
    {
      assert hist'[i] == l.hist[i];
    }
  }

  lemma SendFrontKeeps(env: Env, l: Loop, answer: Answer)
    requires LoopInv(env, l) && l.pending != [] && Sendable(env, l.pending[0])
    ensures LoopInv(env, SendFront(l, answer))
  {
    var l' := SendFront(l, answer);
    assert IsPush(l.hist, Sent(l.pending[0], answer), l'.hist);
    assert answer.Accepted? ==> IsTail(l.pending, l'.pending);
    SendKeepsIds(env, l, l'.hist, answer);
    SendKeepsResends(l, l'.hist, l'.pending, answer);
  }

  lemma SplitFrontShape(l: Loop)
    requires l.pending != []
    ensures var p := SplitFront(l).pending;
            && |p| == |l.pending| + 1
            && p[0] == Left(l.pending[0]) && p[1] == Right(l.pending[0], l.nextId)
            && forall i :: 2 <= i < |p| ==> p[i] == l.pending[i - 1]
  {
  }

  lemma SplitFrontKeeps(env: Env, l: Loop)
    requires LoopInv(env, l) && l.pending != [] && |l.pending[0].rows| > 1 && !Sendable(env, l.pending[0])
    ensures LoopInv(env, SplitFront(l))
  {
    var l' := SplitFront(l);
    var p := l'.pending;
    SplitFrontShape(l);
    WaitingFrontIsSendable(env, l);
    forall i | 0 <= i < |p|
      ensures 1 <= |p[i].rows| <= RowBound(env)
      ensures p[i].id == if i == 0 then l.pending[0].id else if i == 1 then l.nextId else l.pending[i - 1].id
    {
    }
    assert PendingOk(env, p, l'.nextId);
    assert IdsOk(env, l.hist, p, l'.nextId);
  }

  /** One iteration keeps the loop invariant. */
  lemma StepKeepsInv(env: Env, l: Loop)
    requires LoopInv(env, l) && l.pending != []
    ensures LoopInv(env, FrontStep(env, l).0)
    ensures l.hist <= FrontStep(env, l).0.hist && l.nextId <= FrontStep(env, l).0.nextId
  {
    var head := l.pending[0];
    if Sendable(env, head) {
      SendFrontKeeps(env, l, env.answer(SendCount(l.hist)));
    } else if Oversize(env, head) && |head.rows| > 1 {
      SplitFrontKeeps(env, l);
    } else {
      DropFrontKeeps(env, l);
    }
  }

  lemma SplitFrontRows(l: Loop)
    requires l.pending != []
    ensures Flatten(SplitFront(l).pending) == Flatten(l.pending)
  {
    var left, right, rest := Left(l.pending[0]), Right(l.pending[0], l.nextId), l.pending[1..];
    calc {
      Flatten([left, right] + rest);
      { assert [left, right] + rest == [left] + ([right] + rest); }
      Flatten([left] + ([right] + rest));
      { FlattenCons(left, [right] + rest); }
      left.rows + Flatten([right] + rest);
      { FlattenCons(right, rest); }
      left.rows + (right.rows + Flatten(rest));
      { assert left.rows + right.rows == l.pending[0].rows; }
      Flatten(l.pending);
    }
  }

  lemma ThreeParts(a: seq<Row>, b: seq<Row>, c: seq<Row>)
    ensures (a + b) + c == a + (b + c) && a + b <= a + (b + c)
  {
  }

  lemma DropFrontRows(l: Loop, order: seq<Row>)
    requires l.pending != [] && InOrder(l.hist, order)
    ensures LoopIntake(DropFront(l)) == LoopIntake(l) && InOrder(DropFront(l).hist, order)
  {
    SettledPush(l.hist, Discarded(l.pending[0].rows));
    ThreeParts(Settled(l.hist), l.pending[0].rows, Flatten(l.pending[1..]));
    InOrderPush(l.hist, Discarded(l.pending[0].rows), order);
  }

  lemma SendFrontRows(l: Loop, answer: Answer, order: seq<Row>)
    requires l.pending != [] && LoopIntake(l) <= order && InOrder(l.hist, order)
    ensures LoopIntake(SendFront(l, answer)) == LoopIntake(l) && InOrder(SendFront(l, answer).hist, order)
  {
    var e := Sent(l.pending[0], answer);
    SettledPush(l.hist, e);
    ThreeParts(Settled(l.hist), l.pending[0].rows, Flatten(l.pending[1..]));
    InOrderPush(l.hist, e, order);
  }

  /** One iteration moves rows from pending to settled, in order; a send starts where the settled
      rows end. */
  lemma StepKeepsRows(env: Env, l: Loop, order: seq<Row>)
    requires l.pending != [] && LoopIntake(l) <= order && InOrder(l.hist, order)
    ensures LoopIntake(FrontStep(env, l).0) == LoopIntake(l) && InOrder(FrontStep(env, l).0.hist, order)
  {
    var head := l.pending[0];
    if !CanBuild(env, head.rows) {
      DropFrontRows(l, order);
    } else if Oversize(env, head) {
      if |head.rows| <= 1 { DropFrontRows(l, order); } else { SplitFrontRows(l); }
    } else {
      SendFrontRows(l, env.answer(SendCount(l.hist)), order);
    }
  }

  // ---- The whole loop ----

  /** The pass loop keeps the invariant and only appends to the history. */
  lemma {:induction false} SendAllKeepsInv(env: Env, l: Loop)
    requires LoopInv(env, l)
    ensures NoneEmpty(l.pending)
    ensures var l' := SendAll(env, l).0; LoopInv(env, l') && l.hist <= l'.hist && l.nextId <= l'.nextId
    decreases Work(l.pending)
  {
    if l.pending == [] {
    } else {
      StepKeepsInv(env, l);
      if FrontStep(env, l).1.None? {
        StepLowersWork(env, l);
        SendAllKeepsInv(env, FrontStep(env, l).0);
      }
    }
  }

  /** The pass loop loses, repeats and reorders no row. */
  lemma {:induction false} SendAllKeepsRows(env: Env, l: Loop, order: seq<Row>)
    requires NoneEmpty(l.pending) && LoopIntake(l) <= order && InOrder(l.hist, order)
    ensures LoopIntake(SendAll(env, l).0) == LoopIntake(l) && InOrder(SendAll(env, l).0.hist, order)
    decreases Work(l.pending)
  {
    if l.pending == [] {
    } else {
      StepKeepsRows(env, l, order);
      if FrontStep(env, l).1.None? {
        StepLowersWork(env, l);
        SendAllKeepsRows(env, FrontStep(env, l).0, order);
      }
    }
  }

  /** Ids of the acknowledged batches, in the order it happened. */
  function AckedIds(hist: seq<Event>): seq<nat> {
    if hist == [] then []
    else
      var e := hist[|hist| - 1];
      AckedIds(hist[..|hist| - 1]) + if Acked(e) then [e.chunk.id] else []
  }

  /** What a pass owes its caller: `base` is the history at the start of the call. */
  predicate Reported(base: seq<Event>, l: Loop) {
    AckedIds(l.hist) == AckedIds(base) + l.out.batchIds && |AckedRows(l.hist)| == |AckedRows(base)| + l.out.rowsFlushed
  }

  /** The last event of a failed pass shows why it failed: the sink rejected the batch, or did not answer
      in time, or a row of the chunk does not fit the schema, or one row alone is over the size limit. */
  ghost predicate Explains(env: Env, last: Event, why: FlushError) {
    && (why == SinkFailed <==> last.Sent? && last.answer.Rejected?)
    && (why == FlushTimeout <==> last.Sent? && last.answer.TimedOut?)
    && (why == BuildFailed <==> last.Discarded? && exists k :: 0 <= k < |last.rows| && !env.buildable(last.rows[k]))
    && (why == PayloadTooLarge <==>
          && last.Discarded? && |last.rows| == 1
          && env.buildable(last.rows[0]) && env.frameLen(last.rows) > env.maxMessageBytes)
  }

  lemma StepExplains(env: Env, l: Loop)
    requires l.pending != [] && NoneEmpty(l.pending)
    ensures var (l', err) := FrontStep(env, l);
            && |l.hist| <= |l'.hist|
            && (err.Some? ==> |l'.hist| > |l.hist| && Explains(env, l'.hist[|l'.hist| - 1], err.value))
  {
    var head := l.pending[0];
    if !CanBuild(env, head.rows) {
      var k :| 0 <= k < |head.rows| && !env.buildable(head.rows[k]);
    }
  }

  /** One iteration splits, drops or sends, and which shows in the history. A chunk that builds, is over
      the limit and has several rows leaves no event: its first half, the smaller if they differ, keeps the
      id, the second gets the next one, and both stay in front. A dropped chunk leaves the others as they
      were; a sent one leaves exactly if it was accepted, and is then added to the outcome. */
  lemma StepShowsInHistory(env: Env, l: Loop)
    requires l.pending != [] && NoneEmpty(l.pending)
    ensures var l' := FrontStep(env, l).0;
            var head, rest, n := l.pending[0], l.pending[1..], |l.pending[0].rows|;
            if (forall k :: 0 <= k < n ==> env.buildable(head.rows[k])) && env.frameLen(head.rows) > env.maxMessageBytes
               && n > 1 then
              l' == l.(pending := [Chunk(head.id, head.rows[..n / 2]), Chunk(l.nextId, head.rows[n / 2..])] + rest,
                       nextId := l.nextId + 1)
            else
              && l'.nextId == l.nextId && |l'.hist| == |l.hist| + 1 && l'.hist[..|l.hist|] == l.hist
              && match l'.hist[|l.hist|]
                 case Discarded(rows) => rows == head.rows && l'.pending == rest && l'.out == l.out
                 case Sent(chunk, answer) =>
                   && chunk == head && answer == env.answer(SendCount(l.hist))
                   && if answer == Accepted then
                        && l'.pending == rest && l'.out.batchIds == l.out.batchIds + [head.id]
                        && l'.out.rowsFlushed == l.out.rowsFlushed + n
                      else l'.pending == l.pending && l'.out == l.out
  {
  }

  lemma AckedIdsPush(hist: seq<Event>, e: Event)
    ensures AckedIds(hist + [e]) == AckedIds(hist) + if Acked(e) then [e.chunk.id] else []
  {
    assert (hist + [e])[..|hist|] == hist;
  }

  lemma StepReports(env: Env, l: Loop, base: seq<Event>)
    requires l.pending != [] && Reported(base, l)
    ensures var (l', err) := FrontStep(env, l);
            Reported(base, l') && (err.None? ==> Lost(l'.hist) == Lost(l.hist))
  {
    hide CanBuild, NoneEmpty, Settled, AckedIds, AckedRows, Lost, SendCount, SettledBy;
    var head := l.pending[0];
    if !(Oversize(env, head) && |head.rows| > 1) {
      var e := if CanBuild(env, head.rows) && !Oversize(env, head) then Sent(head, env.answer(SendCount(l.hist)))
               else Discarded(head.rows);
      SettledPush(l.hist, e);
      AckedIdsPush(l.hist, e);
      assert FrontStep(env, l).0.hist == l.hist + [e];
      assert (AckedIds(base) + l.out.batchIds) + [head.id] == AckedIds(base) + (l.out.batchIds + [head.id]);
    }
  }

  lemma {:induction false} SendAllReports(env: Env, l: Loop, base: seq<Event>)
    requires NoneEmpty(l.pending) && Reported(base, l)
    ensures var (l', err) := SendAll(env, l);
            && Reported(base, l')
            && (err.None? ==> l'.pending == [] && Lost(l'.hist) == Lost(l.hist))
            && (err.Some? ==> |l'.hist| > |l.hist| && Explains(env, l'.hist[|l'.hist| - 1], err.value))
    decreases Work(l.pending)
  {
    hide FrontStep, NoneEmpty, Explains;
    if l.pending == [] {
      assert SendAll(env, l) == (l, None);
    } else {
      StepReports(env, l, base);
      StepExplains(env, l);
      hide Reported;
      if FrontStep(env, l).1.None? {
        StepLowersWork(env, l);
        SendAllReports(env, FrontStep(env, l).0, base);
      }
    }
  }

  // ---- A whole call ----

  predicate IsAppend(a: seq<Chunk>, b: seq<Chunk>, ab: seq<Chunk>) {
    && |ab| == |a| + |b|
    && (forall i :: 0 <= i < |a| ==> ab[i] == a[i])
    && (forall i :: |a| <= i < |ab| ==> ab[i] == b[i - |a|])
  }

  lemma AppendFreshKeeps(env: Env, l: Loop, sealed: seq<Chunk>, pending: seq<Chunk>)
    requires LoopInv(env, l) && IsAppend(l.pending, sealed, pending)
    requires forall i :: 0 <= i < |sealed| ==> sealed[i].id == l.nextId + i && 1 <= |sealed[i].rows| <= RowBound(env)
    ensures LoopInv(env, l.(pending := pending, nextId := l.nextId + |sealed|))
  {
    forall i | |l.pending| <= i < |pending|
      ensures pending[i].id == l.nextId + i - |l.pending| && 1 <= |pending[i].rows| <= RowBound(env)
    {
    }
  }

  lemma StartKeepsIntake(env: Env, q: Queue)
    ensures LoopIntake(Start(env, q)) == Intake(q)
  {
    hide Settled, Flatten;
    SealKeepsRows(q.staging, ChunkSize(env), q.nextId);
    FlattenAppend(q.retry, Seal(q.staging, ChunkSize(env), q.nextId));
    ThreeParts(Settled(q.hist), Flatten(q.retry), q.staging);
  }

  lemma StartIsFine(env: Env, q: Queue)
    requires QueueInv(env, q)
    ensures LoopInv(env, Start(env, q)) && LoopIntake(Start(env, q)) == Intake(q)
  {
    hide LoopInv, InOrder, Intake, LoopIntake, Flatten;
    var sealed := Seal(q.staging, ChunkSize(env), q.nextId);
    SealKeepsRows(q.staging, ChunkSize(env), q.nextId);
    AppendFreshKeeps(env, Loop(q.retry, q.nextId, q.hist, FlushOutcome([], 0)), sealed, q.retry + sealed);
    StartKeepsIntake(env, q);
  }

  /** `seal_and_send` keeps the queue invariant and the intake, empties staging, and never rewrites
      history. */
  lemma SealAndSendKeeps(env: Env, q: Queue)
    requires QueueInv(env, q)
    ensures NoneEmpty(q.retry)
    ensures var q' := SealAndSend(env, q).0;
            QueueInv(env, q') && Intake(q') == Intake(q) && q'.staging == [] && q.hist <= q'.hist
  {
    var l := Start(env, q);
    StartIsFine(env, q);
    SendAllKeepsInv(env, l);
    SendAllKeepsRows(env, l, Intake(q));
    var q' := SealAndSend(env, q).0;
    assert Intake(q') == LoopIntake(SendAll(env, l).0);
  }

  /** Success means nothing is pending, everything taken in is settled and nothing was dropped in
      the pass; the outcome names exactly the batches acknowledged in it. Failure is explained by
      the last event. */
  lemma SealAndSendReports(env: Env, q: Queue)
    requires QueueInv(env, q)
    ensures NoneEmpty(q.retry)
    ensures var (q', r) := SealAndSend(env, q);
            match r
            case Ok(out) =>
              && q'.retry == [] && q'.staging == [] && Settled(q'.hist) == Intake(q) && Lost(q'.hist) == Lost(q.hist)
              && AckedIds(q'.hist) == AckedIds(q.hist) + out.batchIds
              && |AckedRows(q'.hist)| == |AckedRows(q.hist)| + out.rowsFlushed
            case Err(why) => |q'.hist| > |q.hist| && Explains(env, q'.hist[|q'.hist| - 1], why)
  {
    hide QueueInv, LoopInv, Intake, LoopIntake, Settled, Lost, AckedRows, Explains;
    SealAndSendKeeps(env, q);
    StartIsFine(env, q);
    NothingReported(env, q);
    SendAllReports(env, Start(env, q), q.hist);
    var (l, err) := SendAll(env, Start(env, q));
    var q' := SealAndSend(env, q).0;
    assert q' == Queue([], l.pending, l.nextId, l.hist);
    if err.None? {
      SettledIsIntake(q');
    }
  }

  lemma NothingReported(env: Env, q: Queue)
    ensures Reported(q.hist, Start(env, q))
  {
    assert AckedIds(q.hist) + [] == AckedIds(q.hist);
  }

  lemma SettledIsIntake(q: Queue)
    requires q.retry == [] && q.staging == []
    ensures Intake(q) == Settled(q.hist)
  {
    assert Settled(q.hist) + [] + [] == Settled(q.hist);
  }

  /** `ingest` always lands the row: into a ring with room and nothing else, or after a seal, which empties
      staging, so that the drop branch is never taken. */
  lemma IngestKeeps(env: Env, q: Queue, row: Row)
    requires QueueInv(env, q)
    ensures NoneEmpty(q.retry)
    ensures var q' := Ingest(env, q, row);
            && QueueInv(env, q') && Intake(q') == Intake(q) + [row] && q.hist <= q'.hist
            && q'.staging != [] && q'.staging[|q'.staging| - 1] == row
            && (|q.staging| < AtLeastOne(env.stagingCapacity) ==> q' == q.(staging := q.staging + [row]))
            && (|q.staging| >= AtLeastOne(env.stagingCapacity) ==> q'.staging == [row])
  {
    var q1 := q;
    if |q.staging| >= RingSize(env) {
      SealAndSendKeeps(env, q);
      q1 := SealAndSend(env, q).0;
    }
    ThreeParts(Settled(q1.hist) + Flatten(q1.retry), q1.staging, [row]);
    InOrderGrow(q1.hist, Intake(q), [row]);
  }

  /** Draining to completion keeps the invariant and the intake and empties staging. Without error
      nothing is left and all that was taken in is settled; with one, the retry deque holds exactly
      the rows that are not settled. */
  lemma DrainToCompletionKeeps(env: Env, q: Queue)
    requires QueueInv(env, q)
    ensures NoneEmpty(q.retry)
    ensures var (q', err) := DrainToCompletion(env, q);
            && QueueInv(env, q') && Intake(q') == Intake(q) && q.hist <= q'.hist && q'.staging == []
            && Settled(q'.hist) + Flatten(q'.retry) == Intake(q)
            && (err.None? ==> q'.retry == [] && Settled(q'.hist) == Intake(q))
  {
    if q.staging != [] || q.retry != [] {
      SealAndSendKeeps(env, q);
      SealAndSendReports(env, q);
      var q1 := SealAndSend(env, q).0;
      assert Intake(q1) == Settled(q1.hist) + Flatten(q1.retry);
      assert q1.retry == [] ==> DrainToCompletion(env, q1) == (q1, None);
    }
  }
}
