/** What `metrics` reports. It makes two loads, first the depth cell and then the length of the staging
    ring, and the world may move on between them. */
module ProducerMetrics {
  import opened SealPass
  import opened PassLaws
  import opened ProducerMachine
  import opened ProducerLaws
  import opened ProducerRuns

  /** The depth reported when the cell is loaded in `s` and the staging ring is then `staged` long. */
  function MetricsDepth(s: State, staged: nat): nat {
    (s.depth % WORD + staged) % WORD
  }

  /** Calls that have landed but not yet added to the depth cell, less the row the task has popped
      but not yet subtracted. */
  function Unadded(s: State): int {
    var added: int := s.calls[Landed] + s.calls[Counted];
    if s.task.Received? then added - 1 else added
  }

  /** Rows ever taken off the channel. */
  function Taken(s: State): nat {
    |Intake(s.q)| + |InHand(s.task)|
  }

  // ---- Arithmetic modulo the word ----

  lemma ModShift(a: int, b: int)
    ensures (a + b) % WORD == a % WORD <==> b % WORD == 0
  {
    var qa, ra := a / WORD, a % WORD;
    var qb, rb := b / WORD, b % WORD;
    if ra + rb < WORD {
      ModIs(a + b, qa + qb, ra + rb);
    } else {
      ModIs(a + b, qa + qb + 1, ra + rb - WORD);
    }
  }

  lemma ModIs(x: int, q: int, r: int)
    requires x == q * WORD + r && 0 <= r < WORD
    ensures x % WORD == r
  {
  }

  lemma ModPlus(a: int, b: int)
    ensures (a % WORD + b) % WORD == (a + b) % WORD
  {
    var r := (a + b) % WORD;
    ModIs(a % WORD + b, (a + b) / WORD - a / WORD, r);
  }

  lemma Reading(depth: int, staged: nat, held: nat, off: int)
    requires depth == held + off
    ensures (depth % WORD + staged) % WORD == (held + staged) % WORD <==> off % WORD == 0
  {
    ModPlus(depth, staged);
    ModShift(held + staged, off);
  }

  // ---- What is reported, and when it is right ----

  lemma DepthCell(env: Env, moves: seq<Move>)
    ensures var s := Run(env, moves);
            s.depth == |s.channel| - Unadded(s) && |s.channel| == |s.arrivals| - Taken(s)
  {
    hide QueueInv, Settled, Flatten, Lost, Phase, RepliesOk, NoneEmpty, Run, Intake;
    RunKeeps(env, moves);
    var s := Run(env, moves);
    assert Counters(env, s) && Conserved(s);
  }

  /** The reported depth, for loads in any two states of a run. It is what was on the channel at the
      first load, less the rows not yet added, plus what was staged at the second. It is the number of
      rows in flight at the second load if and only if the rows taken off the channel in between are
      as many as those that landed in between and those not yet added at the first load together,
      modulo the word size. `staged` is left open: a seal pass empties the ring row by row, so the
      second load may see any length on the way. */
  lemma RunMetrics(env: Env, moves: seq<Move>, n: nat, staged: nat)
    requires n <= |moves|
    ensures var s, t := Run(env, moves[..n]), Run(env, moves);
            && MetricsDepth(s, staged) == (|s.channel| - Unadded(s) + staged) % WORD
            && (MetricsDepth(s, staged) == (|t.channel| + staged) % WORD
                <==> (Taken(t) - Taken(s) - (|t.arrivals| - |s.arrivals|) - Unadded(s)) % WORD == 0)
  {
    hide Run, Unadded, Taken;
    DepthCell(env, moves[..n]);
    DepthCell(env, moves);
    var s, t := Run(env, moves[..n]), Run(env, moves);
    ModPlus(s.depth, staged);
    Reading(s.depth, staged, |t.channel|, s.depth - |t.channel|);
  }

  /** At a quiescent point the report is exact: no call and no pop part-way at the first load, and no
      row landed or taken off between the two. */
  lemma QuietMetrics(env: Env, moves: seq<Move>, n: nat)
    requires n <= |moves|
    ensures var s, t := Run(env, moves[..n]), Run(env, moves);
            Quiet(s) && !s.task.Received? && Taken(t) == Taken(s) && |t.arrivals| == |s.arrivals| ==>
              MetricsDepth(s, |t.q.staging|) == (|t.channel| + |t.q.staging|) % WORD
  {
    hide Run, Taken;
    RunMetrics(env, moves, n, |Run(env, moves).q.staging|);
  }

  // ---- Two runs that show where the limits are ----

  /** One row, landed and counted. */
  lemma RowLands(env: Env, row: Row) returns (moves: seq<Move>)
    ensures Run(env, moves) == INIT.(channel := [row], depth := 1, accepted := 1, arrivals := [row])
  {
    moves := [Enter(row)];
    RunPush(env, [], Enter(row));
    assert [] + moves == moves;
    hide Run;
    RunPush(env, moves, Advance(Trying(row, 0)));
    moves := moves + [Advance(Trying(row, 0))];
    RunPush(env, moves, Advance(Landed));
    moves := moves + [Advance(Landed)];
    RunPush(env, moves, Advance(Counted));
    moves := moves + [Advance(Counted)];
  }

  /** A row can be counted twice: it is on the channel at the first load and staged at the second.
      One row is in flight at both, nothing is part-way at either, and the report is 2. */
  lemma RowCanBeCountedTwice(env: Env, row: Row)
    ensures exists moves, n: nat :: n <= |moves| &&
              var s, t := Run(env, moves[..n]), Run(env, moves);
              && Unadded(s) == 0 && |s.channel| + |s.q.staging| == 1
              && Unadded(t) == 0 && |t.channel| + |t.q.staging| == 1
              && MetricsDepth(s, |t.q.staging|) == 2
  {
    hide Run;
    var m0 := RowLands(env, row);
    var m1 := m0 + [Turn(PickRow)];
    RunPush(env, m0, Turn(PickRow));
    var m2 := m1 + [Turn(PickRow)];
    RunPush(env, m1, Turn(PickRow));
    var m3 := m2 + [Turn(PickRow)];
    RunPush(env, m2, Turn(PickRow));
    var n := |m0|;
    assert m3[..n] == m0;
    assert Run(env, m3).q == EMPTY_QUEUE.(staging := [row]) && Run(env, m3).channel == [];
  }

  /** Between a landing and its addition the cell can read one below zero, that is 2^64 - 1. */
  lemma DepthCanWrap(env: Env, row: Row)
    ensures exists moves :: var s := Run(env, moves); s.channel == [] && s.depth % WORD == WORD - 1
  {
    var m1 := [Enter(row)];
    RunPush(env, [], Enter(row));
    assert [] + m1 == m1;
    var m2 := m1 + [Advance(Trying(row, 0))];
    RunPush(env, m1, Advance(Trying(row, 0)));
    var m3 := m2 + [Turn(PickRow)];
    RunPush(env, m2, Turn(PickRow));
    var m4 := m3 + [Turn(PickRow)];
    RunPush(env, m3, Turn(PickRow));
    assert Run(env, m4).depth == -1;
    ModIs(-1, -1, WORD - 1);
    assert Run(env, m4).channel == [] && Run(env, m4).depth % WORD == WORD - 1;
  }
}
