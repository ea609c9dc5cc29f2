/** Retrying gets there: once the sink stops failing, finitely many passes settle everything. */
module Delivery {
  import opened SealPass
  import opened PassLaws
  import opened BatchIds

  /** From the n-th send of the run on, the sink accepts. */
  ghost predicate RecoversAt(env: Env, n: nat) {
    forall k :: k >= n ==> env.answer(k).Accepted?
  }

  /** `n` passes in a row, whatever they report. */
  function Passes(env: Env, q: Queue, n: nat): (q': Queue)
    requires NoneEmpty(q.retry)
    ensures NoneEmpty(q'.retry)
    decreases n
  {
    if n == 0 then q else Passes(env, SealAndSend(env, q).0, n - 1)
  }

  /** Sends that can still fail. */
  function FailuresLeft(hist: seq<Event>, recovery: nat): nat {
    if SendCount(hist) < recovery then recovery - SendCount(hist) else 0
  }

  /** What every failing pass lowers: a failed send uses up a failure, a drop lowers the work. */
  function Patience(env: Env, q: Queue, recovery: nat): nat
    requires NoneEmpty(q.retry)
  {
    FailuresLeft(q.hist, recovery) + Work(Start(env, q).pending)
  }

  /** One iteration undoes neither failure nor work, and one that ends the pass has used up one. */
  lemma StepCosts(env: Env, l: Loop, recovery: nat)
    requires NoneEmpty(l.pending) && l.pending != [] && RecoversAt(env, recovery)
    ensures var (l', err) := FrontStep(env, l);
            && NoneEmpty(l'.pending)
            && FailuresLeft(l'.hist, recovery) <= FailuresLeft(l.hist, recovery) && Work(l'.pending) <= Work(l.pending)
            && (err.Some? ==>
                  || FailuresLeft(l'.hist, recovery) < FailuresLeft(l.hist, recovery)
                  || Work(l'.pending) < Work(l.pending))
            && (err.None? ==> Work(l'.pending) < Work(l.pending))
  {
    StepLowersWork(env, l);
    hide Work, NoneEmpty;
    SendCountPush(l.hist, Discarded(l.pending[0].rows));
    SendCountPush(l.hist, Sent(l.pending[0], env.answer(SendCount(l.hist))));
  }

  /** A pass loop that ends in an error has used up a failure or lowered the work, and undone neither. */
  lemma {:induction false} FailingLoopCosts(env: Env, l: Loop, recovery: nat)
    requires NoneEmpty(l.pending) && RecoversAt(env, recovery)
    ensures var (l', err) := SendAll(env, l);
            && FailuresLeft(l'.hist, recovery) <= FailuresLeft(l.hist, recovery)
            && Work(l'.pending) <= Work(l.pending)
            && (err.Some? ==>
                  FailuresLeft(l'.hist, recovery) + Work(l'.pending) < FailuresLeft(l.hist, recovery) + Work(l.pending))
    decreases Work(l.pending)
  {
    hide FrontStep, FailuresLeft, Work, NoneEmpty, RecoversAt;
    if l.pending == [] {
    } else {
      StepCosts(env, l, recovery);
      if FrontStep(env, l).1.None? {
        FailingLoopCosts(env, FrontStep(env, l).0, recovery);
      }
    }
  }

  lemma FailingPassCosts(env: Env, q: Queue, recovery: nat)
    requires NoneEmpty(q.retry) && RecoversAt(env, recovery) && SealAndSend(env, q).1.Err?
    ensures Patience(env, SealAndSend(env, q).0, recovery) < Patience(env, q, recovery)
  {
    FailingLoopCosts(env, Start(env, q), recovery);
    var q' := SealAndSend(env, q).0;
    assert Start(env, q').pending == q'.retry + [] == q'.retry;
  }

  /** If the sink recovers, a pass succeeds after at most `Patience` failing ones, and with it every
      row taken in is acknowledged or counted as dropped. */
  lemma {:induction false} RetryingDelivers(env: Env, q: Queue, recovery: nat) returns (n: nat)
    requires QueueInv(env, q) && RecoversAt(env, recovery)
    ensures NoneEmpty(q.retry)
    ensures n <= Patience(env, q, recovery)
    ensures var (q', r) := SealAndSend(env, Passes(env, q, n));
            QueueInv(env, q') && r.Ok? && q'.retry == [] && q'.staging == [] && Settled(q'.hist) == Intake(q)
    decreases if NoneEmpty(q.retry) then Patience(env, q, recovery) else 0
  {
    hide QueueInv, Intake, Settled, AckedIds, AckedRows, Lost;
    SealAndSendKeeps(env, q);
    SealAndSendReports(env, q);
    if SealAndSend(env, q).1.Ok? {
      n := 0;
    } else {
      FailingPassCosts(env, q, recovery);
      n := RetryingDelivers(env, SealAndSend(env, q).0, recovery);
      n := n + 1;
    }
  }

  /** Every row fits the schema, and alone in a batch it fits the size limit. */
  predicate GoodRows(env: Env, rows: seq<Row>) {
    forall i :: 0 <= i < |rows| ==> env.buildable(rows[i]) && env.frameLen([rows[i]]) <= env.maxMessageBytes
  }

  lemma {:induction false} SettledHas(hist: seq<Event>, i: nat, k: nat)
    requires i < |hist| && hist[i].Discarded? && k < |hist[i].rows|
    ensures hist[i].rows[k] in Settled(hist)
  {
    var n := |hist| - 1;
    if i < n {
      SettledHas(hist[..n], i, k);
    }
  }

  lemma {:induction false} LostMeansDropped(hist: seq<Event>) returns (i: nat)
    requires Lost(hist) > 0
    ensures i < |hist| && hist[i].Discarded? && hist[i].rows != []
  {
    var n := |hist| - 1;
    if hist[n].Discarded? && hist[n].rows != [] {
      i := n;
    } else {
      i := LostMeansDropped(hist[..n]);
    }
  }

  /** A loss shows a bad row among those settled. */
  lemma LossMeansBadRow(env: Env, q: Queue)
    requires QueueInv(env, q) && Lost(q.hist) > 0
    ensures !GoodRows(env, Settled(q.hist))
  {
    var i := LostMeansDropped(q.hist);
    var rows := q.hist[i].rows;
    assert DropsOk(env, q.hist);
    if CanBuild(env, rows) {
      assert rows == [rows[0]];
      SettledHas(q.hist, i, 0);
    } else {
      var k :| 0 <= k < |rows| && !env.buildable(rows[k]);
      SettledHas(q.hist, i, k);
    }
  }

  /** Good rows are never dropped. */
  lemma GoodRowsAreKept(env: Env, q: Queue)
    requires QueueInv(env, q) && GoodRows(env, Settled(q.hist))
    ensures Lost(q.hist) == 0 && AckedRows(q.hist) == Settled(q.hist)
  {
    hide QueueInv, Settled;
    if Lost(q.hist) > 0 {
      LossMeansBadRow(env, q);
    }
    NothingLostMeansAllAcked(q.hist);
  }

  /** Whole delivery: if the rows are good and the sink recovers, finitely many passes get every row
      acknowledged, in acceptance order, and a store that deduplicates by batch id then holds exactly
      these rows, each once, whatever was stored or lost on the way. */
  lemma GoodRowsArrive(env: Env, q: Queue, recovery: nat) returns (n: nat)
    requires QueueInv(env, q) && RecoversAt(env, recovery) && GoodRows(env, Intake(q))
    ensures NoneEmpty(q.retry)
    ensures n <= Patience(env, q, recovery)
    ensures var q' := SealAndSend(env, Passes(env, q, n)).0;
            AckedRows(q'.hist) == Intake(q) && Flatten(Store(q'.hist)) == Intake(q)
  {
    hide Intake, Settled, AckedIds, AckedRows, Lost, GoodRows, Store;
    n := RetryingDelivers(env, q, recovery);
    var q' := SealAndSend(env, Passes(env, q, n)).0;
    GoodRowsAreKept(env, q');
    QueueHistoryOk(env, q');
    DedupStoresOnce(q'.hist);
    assert q'.hist != [] && Failed(q'.hist[|q'.hist| - 1]) ==> q'.retry != [];
    assert AckedRows(q'.hist) + [] == AckedRows(q'.hist);
  }
}
