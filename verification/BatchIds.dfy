/** What a batch id means over a whole run, and what a store that deduplicates by id ends up with. */
module BatchIds {
  import opened Wrappers
  import opened SealPass
  import opened PassLaws

  /** The part of the queue invariant that speaks of the past only: a failed send is repeated at
      once, and an acknowledged id is never sent again. */
  predicate HistoryOk(hist: seq<Event>) {
    && (forall i :: 0 <= i < |hist| - 1 && Failed(hist[i]) ==> hist[i + 1].Sent? && hist[i + 1].chunk == hist[i].chunk)
    && (forall i, j :: 0 <= i < j < |hist| && Acked(hist[i]) && hist[j].Sent? ==> hist[i].chunk.id != hist[j].chunk.id)
  }

  lemma QueueHistoryOk(env: Env, q: Queue)
    requires QueueInv(env, q)
    ensures HistoryOk(q.hist)
  {
  }

  /** Sends `i` and `j` are attempts at one batch: same id, same rows, and nothing but failed
      attempts at it from `i` up to `j`. */
  predicate SameBatch(hist: seq<Event>, i: nat, j: nat)
    requires i < j < |hist| && hist[i].Sent? && hist[j].Sent?
  {
    hist[i].chunk == hist[j].chunk && forall k :: i <= k < j ==> Failed(hist[k]) && hist[k].chunk == hist[i].chunk
  }

  /** Send `j` is of rows that come after all the rows of send `i`. */
  predicate LaterRows(hist: seq<Event>, i: nat, j: nat)
    requires i < j < |hist| && hist[i].Sent? && hist[j].Sent?
  {
    Settled(hist[..i]) + hist[i].chunk.rows <= Settled(hist[..j])
  }

  /** Batch-id stability: of any two sends, either both are attempts at one batch, with equal ids
      and equal rows, or their ids differ and the second carries only later rows. */
  lemma {:induction false} BatchIdStable(hist: seq<Event>, i: nat, j: nat)
    requires HistoryOk(hist) && i < j < |hist| && hist[i].Sent? && hist[j].Sent?
    ensures if hist[i].chunk.id == hist[j].chunk.id then SameBatch(hist, i, j) else LaterRows(hist, i, j)
    decreases j - i
  {
    hide AckedRows, Lost, Settled;
    SettledPush(hist[..i], hist[i]);
    assert hist[..i] + [hist[i]] == hist[..i + 1];
    if Acked(hist[i]) {
      SettledPrefix(hist[..j], i + 1);
      assert hist[..j][..i + 1] == hist[..i + 1];
    } else if i + 1 < j {
      BatchIdStable(hist, i + 1, j);
      assert Settled(hist[..i + 1]) == Settled(hist[..i]) + [];
    }
  }

  /** Row `k` of everything taken in is carried by send `i`. */
  predicate Carries(hist: seq<Event>, i: nat, k: nat)
    requires i < |hist| && hist[i].Sent?
  {
    |Settled(hist[..i])| <= k < |Settled(hist[..i])| + |hist[i].chunk.rows|
  }

  /** A row occurrence belongs to at most one batch id. */
  lemma OneIdPerRow(env: Env, q: Queue, i: nat, j: nat, k: nat)
    requires QueueInv(env, q)
    requires i < |q.hist| && q.hist[i].Sent? && Carries(q.hist, i, k)
    requires j < |q.hist| && q.hist[j].Sent? && Carries(q.hist, j, k)
    ensures q.hist[i].chunk == q.hist[j].chunk
  {
    if i < j {
      BatchIdStable(q.hist, i, j);
    } else if j < i {
      BatchIdStable(q.hist, j, i);
    }
  }

  /** Head-of-line blocking: what send `i` carries is the intake right after the rows that were
      acknowledged or dropped before it. */
  lemma NothingOvertakes(env: Env, q: Queue, i: nat)
    requires QueueInv(env, q) && i < |q.hist| && q.hist[i].Sent?
    ensures var n := |Settled(q.hist[..i])|;
            && n + |q.hist[i].chunk.rows| <= |Intake(q)|
            && Settled(q.hist[..i]) == Intake(q)[..n]
            && q.hist[i].chunk.rows == Intake(q)[n..n + |q.hist[i].chunk.rows|]
  {
    var s, rows := Settled(q.hist[..i]), q.hist[i].chunk.rows;
    assert s + rows <= Intake(q);
    assert (s + rows)[..|s|] == s && (s + rows)[|s|..] == rows;
  }

  // ---- A store that keeps the first batch it sees under each id ----

  predicate Reached(e: Event) {
    e.Sent? && (e.answer.Accepted? || e.answer.stored)
  }

  predicate HasId(store: seq<Chunk>, id: nat) {
    exists i :: 0 <= i < |store| && store[i].id == id
  }

  /** The store after a history: every batch that reached it, once per id. */
  function Store(hist: seq<Event>): seq<Chunk> {
    if hist == [] then []
    else
      var store, e := Store(hist[..|hist| - 1]), hist[|hist| - 1];
      if Reached(e) && !HasId(store, e.chunk.id) then store + [e.chunk] else store
  }

  /** The rows of the batch whose last attempt failed although an attempt had been stored. */
  function InDoubt(hist: seq<Event>): seq<Row> {
    if hist != [] && Failed(hist[|hist| - 1]) && HasId(Store(hist), hist[|hist| - 1].chunk.id)
    then hist[|hist| - 1].chunk.rows
    else []
  }

  lemma {:induction false} StoredWasSent(hist: seq<Event>, id: nat)
    requires HasId(Store(hist), id)
    ensures exists i :: 0 <= i < |hist| && hist[i].Sent? && hist[i].chunk.id == id
  {
    var h, e := hist[..|hist| - 1], hist[|hist| - 1];
    if HasId(Store(h), id) {
      StoredWasSent(h, id);
      var i :| 0 <= i < |h| && h[i].Sent? && h[i].chunk.id == id;
      assert hist[i] == h[i];
    } else {
      assert e.Sent? && e.chunk.id == id;
    }
  }

  lemma FlattenPush(store: seq<Chunk>, c: Chunk)
    ensures Flatten(store + [c]) == Flatten(store) + c.rows
  {
    FlattenAppend(store, [c]);
    FlattenCons(c, []);
    assert [c] + [] == [c];
  }

  lemma HasIdPush(store: seq<Chunk>, c: Chunk, id: nat)
    ensures HasId(store + [c], id) <==> HasId(store, id) || c.id == id
  {
    if HasId(store, id) {
      var i :| 0 <= i < |store| && store[i].id == id;
      assert (store + [c])[i].id == id;
    }
    assert (store + [c])[|store|] == c;
  }

  lemma HistoryOkPrefix(hist: seq<Event>, n: nat)
    requires HistoryOk(hist) && n <= |hist|
    ensures HistoryOk(hist[..n])
  {
  }

  /** A send that starts a new batch uses an id the store has not seen. */
  lemma NewBatchIsNew(hist: seq<Event>)
    requires HistoryOk(hist) && hist != [] && hist[|hist| - 1].Sent?
    requires |hist| >= 2 ==> !Failed(hist[|hist| - 2])
    ensures !HasId(Store(hist[..|hist| - 1]), hist[|hist| - 1].chunk.id)
  {
    var n := |hist| - 1;
    if HasId(Store(hist[..n]), hist[n].chunk.id) {
      StoredWasSent(hist[..n], hist[n].chunk.id);
      var i :| 0 <= i < n && hist[..n][i].Sent? && hist[..n][i].chunk.id == hist[n].chunk.id;
      BatchIdStable(hist, i, n);
      assert false;
    }
  }

  /** Exactly once: a store that deduplicates by batch id holds precisely the acknowledged rows, in
      acknowledgement order and without repeats, plus at most the rows of the one batch whose last
      attempt failed after an attempt at it had been stored. */
  lemma {:induction false} DedupStoresOnce(hist: seq<Event>)
    requires HistoryOk(hist)
    ensures Flatten(Store(hist)) == AckedRows(hist) + InDoubt(hist)
  {
    hide Settled, Lost, HasId;
    if hist == [] {
    } else {
      var n := |hist| - 1;
      var h, e := hist[..n], hist[n];
      HistoryOkPrefix(hist, n);
      DedupStoresOnce(h);
      if e.Sent? {
        FlattenPush(Store(h), e.chunk);
        HasIdPush(Store(h), e.chunk, e.chunk.id);
        if n > 0 && Failed(h[n - 1]) {
          assert hist[n - 1] == h[n - 1] && e.chunk == h[n - 1].chunk;
        } else {
          assert n > 0 ==> hist[n - 1] == h[n - 1];
          NewBatchIsNew(hist);
        }
      }
    }
  }

  /** Every settled row is either acknowledged or counted as lost. */
  lemma {:induction false} SettledSplits(hist: seq<Event>)
    ensures |Settled(hist)| == |AckedRows(hist)| + Lost(hist)
  {
    if hist == [] {
    } else {
      SettledSplits(hist[..|hist| - 1]);
    }
  }

  /** With nothing lost, every settled row was acknowledged. */
  lemma {:induction false} NothingLostMeansAllAcked(hist: seq<Event>)
    requires Lost(hist) == 0
    ensures AckedRows(hist) == Settled(hist)
  {
    if hist == [] {
    } else {
      NothingLostMeansAllAcked(hist[..|hist| - 1]);
    }
  }

  /** Nothing empty, too long, unbuildable or oversize is ever sent, whatever the row sizes are. */
  lemma SentIsSendable(env: Env, q: Queue, i: nat)
    requires QueueInv(env, q) && i < |q.hist| && q.hist[i].Sent?
    ensures var rows := q.hist[i].chunk.rows;
            && 1 <= |rows| <= AtLeastOne(env.flushMaxRows) && |rows| <= AtLeastOne(env.stagingCapacity)
            && env.frameLen(rows) <= env.maxMessageBytes
            && forall k :: 0 <= k < |rows| ==> env.buildable(rows[k])
  {
    assert Sendable(env, q.hist[i].chunk);
  }

  predicate IsOneOf(rows: seq<Row>, chunks: seq<Chunk>) {
    exists i :: 0 <= i < |chunks| && chunks[i].rows == rows
  }

  /** An iteration creates no unbuildable chunk. */
  lemma StepCreatesNoPoison(env: Env, l: Loop, rows: seq<Row>)
    requires l.pending != [] && !CanBuild(env, rows) && IsOneOf(rows, FrontStep(env, l).0.pending)
    ensures IsOneOf(rows, l.pending)
  {
    var l' := FrontStep(env, l).0;
    var head := l.pending[0];
    var i :| 0 <= i < |l'.pending| && l'.pending[i].rows == rows;
    if |l'.pending| == |l.pending| + 1 {
      SplitFrontShape(l);
      assert CanBuild(env, Left(head).rows) && CanBuild(env, Right(head, l.nextId).rows);
      assert l.pending[i - 1].rows == rows;
    } else if |l'.pending| == |l.pending| {
      assert l.pending[i].rows == rows;
    } else {
      assert l.pending[i + 1].rows == rows;
    }
  }

  /** A chunk that built once is never poison later: what a pass drops as unbuildable is a chunk it
      was started with, never a half of one it split. */
  lemma {:induction false} PoisonWasNeverSplit(env: Env, l: Loop)
    requires NoneEmpty(l.pending) && SendAll(env, l).1 == Some(BuildFailed)
    ensures var hist := SendAll(env, l).0.hist;
            && hist != [] && hist[|hist| - 1].Discarded? && !CanBuild(env, hist[|hist| - 1].rows)
            && IsOneOf(hist[|hist| - 1].rows, l.pending)
    decreases Work(l.pending)
  {
    var (l', err) := FrontStep(env, l);
    if err.None? {
      StepLowersWork(env, l);
      PoisonWasNeverSplit(env, l');
      var hist := SendAll(env, l').0.hist;
      StepCreatesNoPoison(env, l, hist[|hist| - 1].rows);
    } else {
      assert l.pending[0].rows == l'.hist[|l'.hist| - 1].rows;
    }
  }
}
