/** Calls of `verify` that overlap. A call that misses the cache goes to a computation the calls for
    one token share: the first to arrive begins it, for the tenant it expects, and the others are handed
    what it gives. */
module TokenOverlap {
  import opened Wrappers
  import opened Delegation
  import opened TokenVerify
  import opened TokenClaims

  /** A cached token, and the tenant its computation was begun for. */
  datatype Kept = Kept(entry: Entry, begunFor: nat)

  /** Where the answer of a call comes from: the cache looked at first, or a computation. */
  datatype Given = FirstLook | Computed(begunFor: nat)

  /** Where one call stands. */
  datatype Call =
    | Missed(token: string, tenant: nat)   // found nothing; will go to the shared computation
    | Waiting(token: string, tenant: nat)  // its token is being computed
    | Handed(token: string, tenant: nat, begunFor: nat, r: Result<Verified, AuthError>)  // revocation not yet checked
    | Done(token: string, tenant: nat, given: Given, r: Result<Verified, AuthError>)

  /** `flights` holds the tenants for which the computations under way were begun. */
  datatype World = World(now: int, cache: map<string, Kept>, flights: map<string, nat>, calls: seq<Call>)

  datatype Move =
    | Begin(token: string, tenant: nat)
    | Join(call: nat)
    | Land(token: string)
    | Finish(call: nat)
    | Forget(token: string)         // invalidated or evicted
    | ForgetPrincipal(id: nat)
    | Pause(milliseconds: nat)

  /** The checks on a token found at the first look. */
  function HitVerdict(env: Env, now: int, v: Verified, tenant: nat): Result<Verified, AuthError> {
    if v.principal.tenant != tenant then Err(InvalidToken)
    else if CachedExpired(env, now, v.exp) then Err(TokenExpired)
    else if IsRevoked(env, now, v) then Err(Revoked)
    else Ok(v)
  }

  predicate Answers(env: Env, s: World, token: string) {
    token in s.cache && Live(env, s.now, s.cache[token].entry)
  }

  function Begins(env: Env, s: World, token: string, tenant: nat): World {
    if |token| > MAX_BEARER_TOKEN_BYTES then
      s.(calls := s.calls + [Done(token, tenant, FirstLook, Err(BadTokenFormat))])
    else if Answers(env, s, token) then
      var r := HitVerdict(env, s.now, s.cache[token].entry.verified, tenant);
      s.(calls := s.calls + [Done(token, tenant, FirstLook, r)], cache := if r.Err? then s.cache - {token} else s.cache)
    else s.(calls := s.calls + [Missed(token, tenant)])
  }

  /** Going to the shared computation: another call may have filled the cache since, or be at it. */
  function Joins(env: Env, s: World, i: nat): World
    requires i < |s.calls| && s.calls[i].Missed?
  {
    var Missed(token, tenant) := s.calls[i];
    if Answers(env, s, token) then
      var kept := s.cache[token];
      s.(calls := s.calls[i := Handed(token, tenant, kept.begunFor, Ok(kept.entry.verified))])
    else
      s.(calls := s.calls[i := Waiting(token, tenant)],
         flights := if token in s.flights then s.flights else s.flights[token := tenant])
  }

  function HandTo(call: Call, token: string, begunFor: nat, r: Result<Verified, AuthError>): Call {
    if call.Waiting? && call.token == token then Handed(token, call.tenant, begunFor, r) else call
  }

  /** A computation ends, and everyone waiting for it is handed the result. */
  function Lands(env: Env, s: World, token: string): World
    requires token in s.flights
  {
    var begunFor := s.flights[token];
    var r := Decode(env, s.now, token, begunFor);
    s.(flights := s.flights - {token},
       cache := if r.Ok? then s.cache[token := Kept(Entry(r.value, s.now), begunFor)] else s.cache,
       calls := seq(|s.calls|, i requires 0 <= i < |s.calls| => HandTo(s.calls[i], token, begunFor, r)))
  }

  function Finishes(env: Env, s: World, i: nat): World
    requires i < |s.calls| && s.calls[i].Handed?
  {
    var Handed(token, tenant, begunFor, r) := s.calls[i];
    if r.Ok? && IsRevoked(env, s.now, r.value) then
      s.(calls := s.calls[i := Done(token, tenant, Computed(begunFor), Err(Revoked))], cache := s.cache - {token})
    else s.(calls := s.calls[i := Done(token, tenant, Computed(begunFor), r)])
  }

  /** A move that does not apply changes nothing. */
  function Moves(env: Env, s: World, move: Move): World {
    match move
    case Begin(token, tenant) => Begins(env, s, token, tenant)
    case Join(i) => if i < |s.calls| && s.calls[i].Missed? then Joins(env, s, i) else s
    case Land(token) => if token in s.flights then Lands(env, s, token) else s
    case Finish(i) => if i < |s.calls| && s.calls[i].Handed? then Finishes(env, s, i) else s
    case Forget(token) => s.(cache := s.cache - {token})
    case ForgetPrincipal(id) =>
      s.(cache := map token | token in s.cache && s.cache[token].entry.verified.principal.id != id :: s.cache[token])
    case Pause(milliseconds) => s.(now := s.now + milliseconds)
  }

  function RunFrom(env: Env, s: World, moves: seq<Move>): World
    decreases |moves|
  {
    if moves == [] then s else RunFrom(env, Moves(env, s, moves[0]), moves[1..])
  }

  const START := World(0, map[], map[], [])

  // ---- Whose token a call is given ----

  predicate CallOk(call: Call) {
    match call
    case Handed(_, _, begunFor, Ok(v)) => v.principal.tenant == begunFor
    case Done(_, tenant, FirstLook, Ok(v)) => v.principal.tenant == tenant
    case Done(_, _, Computed(begunFor), Ok(v)) => v.principal.tenant == begunFor
    case _ => true
  }

  /** A computation that succeeds gives a token of the tenant it was begun for; everything cached and
      handed out comes from one. */
  predicate TenantsOk(s: World) {
    && (forall token :: token in s.cache ==> s.cache[token].entry.verified.principal.tenant == s.cache[token].begunFor)
    && (forall i :: 0 <= i < |s.calls| ==> CallOk(s.calls[i]))
  }

  lemma MoveKeepsTenants(env: Env, s: World, move: Move)
    requires TenantsOk(s)
    ensures TenantsOk(Moves(env, s, move))
  {
    hide IsRevoked, IntoVerified;
    if move.Land? && move.token in s.flights && Decode(env, s.now, move.token, s.flights[move.token]).Ok? {
      DecodedTenant(env, s.now, move.token, s.flights[move.token]);
    }
  }

  lemma {:induction false} RunKeepsTenants(env: Env, s: World, moves: seq<Move>)
    requires TenantsOk(s)
    ensures TenantsOk(RunFrom(env, s, moves))
    decreases |moves|
  {
    hide TenantsOk, Moves;
    if moves == [] {
    } else {
      MoveKeepsTenants(env, s, moves[0]);
      RunKeepsTenants(env, Moves(env, s, moves[0]), moves[1..]);
    }
  }

  /** Over every run of overlapping calls: an accepted token is of another tenant than the call expects
      if and only if it came out of a computation begun for another tenant, which the call joined, or
      found finished between its own look at the cache and its turn. */
  lemma WrongTenantExactly(env: Env, moves: seq<Move>, i: nat)
    ensures var s := RunFrom(env, START, moves);
            i < |s.calls| && s.calls[i].Done? && s.calls[i].r.Ok? ==>
              (s.calls[i].r.value.principal.tenant != s.calls[i].tenant
               <==> s.calls[i].given.Computed? && s.calls[i].given.begunFor != s.calls[i].tenant)
  {
    hide RunFrom;
    RunKeepsTenants(env, START, moves);
    var s := RunFrom(env, START, moves);
    if i < |s.calls| {
      assert CallOk(s.calls[i]);
    }
  }

  // ---- What a call is given says what its own token says ----

  predicate SaysOwn(env: Env, token: string, v: Verified) {
    env.decode(token).Ok? && Says(env.decode(token).value, v)
  }

  predicate CallSays(env: Env, call: Call) {
    match call
    case Handed(token, _, _, Ok(v)) => SaysOwn(env, token, v)
    case Done(token, _, _, Ok(v)) => SaysOwn(env, token, v)
    case _ => true
  }

  predicate AllSay(env: Env, s: World) {
    && (forall token :: token in s.cache ==> SaysOwn(env, token, s.cache[token].entry.verified))
    && (forall i :: 0 <= i < |s.calls| ==> CallSays(env, s.calls[i]))
  }

  lemma MoveKeepsSaying(env: Env, s: World, move: Move)
    requires AllSay(env, s)
    ensures AllSay(env, Moves(env, s, move))
  {
    hide IsRevoked, Decode, SaysOwn, CachedExpired;
    if move.Land? && move.token in s.flights && Decode(env, s.now, move.token, s.flights[move.token]).Ok? {
      var v := Decode(env, s.now, move.token, s.flights[move.token]).value;
      assert SaysOwn(env, move.token, v) by {
        DecodedSaysOwn(env, s.now, move.token, s.flights[move.token]);
      }
    }
  }

  lemma DecodedSaysOwn(env: Env, now: int, token: string, tenant: nat)
    requires Decode(env, now, token, tenant).Ok?
    ensures SaysOwn(env, token, Decode(env, now, token, tenant).value)
  {
    hide Says, Decode;
    DecodedSays(env, now, token, tenant);
  }

  lemma {:induction false} RunKeepsSaying(env: Env, s: World, moves: seq<Move>)
    requires AllSay(env, s)
    ensures AllSay(env, RunFrom(env, s, moves))
    decreases |moves|
  {
    hide AllSay, Moves;
    if moves == [] {
    } else {
      MoveKeepsSaying(env, s, moves[0]);
      RunKeepsSaying(env, Moves(env, s, moves[0]), moves[1..]);
    }
  }

  /** However calls overlap, what a call accepts says what the claims of its own token say. */
  lemma OverlappedSays(env: Env, moves: seq<Move>, i: nat)
    ensures var s := RunFrom(env, START, moves);
            i < |s.calls| && s.calls[i].Done? && s.calls[i].r.Ok? ==>
              env.decode(s.calls[i].token).Ok? && Says(env.decode(s.calls[i].token).value, s.calls[i].r.value)
  {
    hide RunFrom, Says;
    RunKeepsSaying(env, START, moves);
    if i < |RunFrom(env, START, moves).calls| {
      assert CallSays(env, RunFrom(env, START, moves).calls[i]);
    }
  }

  // ---- One call at a time ----

  function Plain(cache: map<string, Kept>): Cache {
    map token | token in cache :: cache[token].entry
  }

  /** A call nobody overlaps with, from its beginning to its end. */
  function Alone(token: string, tenant: nat, i: nat): seq<Move> {
    [Begin(token, tenant), Join(i), Land(token), Finish(i)]
  }

  lemma MoveFirst(env: Env, s: World, moves: seq<Move>)
    ensures moves == [] ==> RunFrom(env, s, moves) == s
    ensures moves != [] ==> RunFrom(env, s, moves) == RunFrom(env, Moves(env, s, moves[0]), moves[1..])
  {
  }

  lemma FourMoves(env: Env, s: World, m: seq<Move>)
    requires |m| == 4
    ensures RunFrom(env, s, m) == Moves(env, Moves(env, Moves(env, Moves(env, s, m[0]), m[1]), m[2]), m[3])
  {
    hide Moves, RunFrom;
    var s1 := Moves(env, s, m[0]);
    var s2 := Moves(env, s1, m[1]);
    var s3 := Moves(env, s2, m[2]);
    MoveFirst(env, s, m);
    MoveFirst(env, s1, m[1..]);
    MoveFirst(env, s2, m[2..]);
    MoveFirst(env, s3, m[3..]);
    MoveFirst(env, Moves(env, s3, m[3]), m[4..]);
    assert m[1..][1..] == m[2..] && m[2..][1..] == m[3..] && m[3..][1..] == m[4..];
  }

  predicate Idle(s: World, token: string) {
    token !in s.flights && forall i :: 0 <= i < |s.calls| ==> !(s.calls[i].Waiting? && s.calls[i].token == token)
  }

  /** What a call nobody overlaps with comes to. */
  predicate IsVerify(env: Env, s: World, t: World, token: string, tenant: nat) {
    var i := |s.calls|;
    && |t.calls| == i + 1 && t.calls[i].Done? && t.calls[..i] == s.calls && t.flights == s.flights
    && (t.calls[i].r, Plain(t.cache)) == Verify(env, s.now, Plain(s.cache), token, tenant)
    && (t.calls[i].given.Computed? ==> t.calls[i].given.begunFor == tenant)
  }

  lemma AloneAnswered(env: Env, s: World, token: string, tenant: nat)
    requires |token| > MAX_BEARER_TOKEN_BYTES || Answers(env, s, token)
    ensures IsVerify(env, s, Begins(env, s, token, tenant), token, tenant)
  {
    hide Decode, IsRevoked, CachedExpired;
    assert Plain(s.cache - {token}) == Plain(s.cache) - {token};
  }

  lemma AloneComputed(env: Env, s: World, token: string, tenant: nat)
    requires |token| <= MAX_BEARER_TOKEN_BYTES && !Answers(env, s, token) && Idle(s, token)
    ensures var i := |s.calls|;
            var s2 := Joins(env, Begins(env, s, token, tenant), i);
            var r := Decode(env, s.now, token, tenant);
            && s2 == s.(calls := s.calls + [Waiting(token, tenant)], flights := s.flights[token := tenant])
            && Lands(env, s2, token)
               == s.(calls := s.calls + [Handed(token, tenant, tenant, r)],
                     cache := if r.Ok? then s.cache[token := Kept(Entry(r.value, s.now), tenant)] else s.cache)
  {
    hide Decode;
    var i := |s.calls|;
    var s2 := Joins(env, Begins(env, s, token, tenant), i);
    assert s2.calls == s.calls + [Waiting(token, tenant)];
    var s3 := Lands(env, s2, token);
    assert s3.flights == s.flights;
    assert s3.calls == s.calls + [Handed(token, tenant, tenant, Decode(env, s.now, token, tenant))];
  }

  lemma ComputedIsVerify(env: Env, s: World, token: string, tenant: nat)
    requires |token| <= MAX_BEARER_TOKEN_BYTES && !Answers(env, s, token)
    ensures var r := Decode(env, s.now, token, tenant);
            var s3 := s.(calls := s.calls + [Handed(token, tenant, tenant, r)],
                         cache := if r.Ok? then s.cache[token := Kept(Entry(r.value, s.now), tenant)] else s.cache);
            IsVerify(env, s, Finishes(env, s3, |s.calls|), token, tenant)
  {
    hide Decode, IsRevoked;
    var r := Decode(env, s.now, token, tenant);
    if r.Ok? {
      var kept := Kept(Entry(r.value, s.now), tenant);
      assert Plain(s.cache[token := kept]) == Plain(s.cache)[token := kept.entry];
      assert Plain(s.cache[token := kept] - {token}) == Plain(s.cache) - {token};
    }
  }

  /** A call nobody overlaps with does what `verify` does on its own: same answer, same cache, and a
      computation begun for its own tenant. */
  lemma AloneIsVerify(env: Env, s: World, token: string, tenant: nat)
    requires Idle(s, token)
    ensures IsVerify(env, s, RunFrom(env, s, Alone(token, tenant, |s.calls|)), token, tenant)
  {
    hide IsVerify, Idle, Answers, Plain, HitVerdict, Decode, RunFrom;
    FourMoves(env, s, Alone(token, tenant, |s.calls|));
    if |token| > MAX_BEARER_TOKEN_BYTES || Answers(env, s, token) {
      AloneAnswered(env, s, token, tenant);
      AnsweredStays(env, s, token, tenant);
    } else {
      AloneComputed(env, s, token, tenant);
      ComputedIsVerify(env, s, token, tenant);
    }
  }

  lemma AnsweredStays(env: Env, s: World, token: string, tenant: nat)
    requires |token| > MAX_BEARER_TOKEN_BYTES || Answers(env, s, token)
    requires Idle(s, token)
    ensures var s1 := Begins(env, s, token, tenant);
            |s1.calls| == |s.calls| + 1 && s1.calls[|s.calls|].Done? && token !in s1.flights
  {
  }

  // ---- Two runs in which calls overlap ----

  lemma SixMoves(env: Env, s: World, m: seq<Move>)
    requires |m| == 6
    ensures RunFrom(env, s, m)
         == Moves(env, Moves(env, Moves(env, Moves(env,
              Moves(env, Moves(env, s, m[0]), m[1]), m[2]), m[3]), m[4]), m[5])
  {
    hide Moves, RunFrom;
    MoveFirst(env, s, m);
    MoveFirst(env, Moves(env, s, m[0]), m[1..]);
    assert m[1..][1..] == m[2..];
    FourMoves(env, Moves(env, Moves(env, s, m[0]), m[1]), m[2..]);
  }

  /** Both calls miss; the one expecting the token's tenant begins the computation and the other, which
      expects tenant 1, joins it and is handed the token of tenant 0. */
  lemma JoinedForAnotherTenant()
    ensures var m := [Begin("t", 0), Begin("t", 1), Join(0), Join(1), Land("t"), Finish(1)];
            var s := RunFrom(OneToken(), START, m);
            |s.calls| == 2 && s.calls[1].Done? && s.calls[1].tenant == 1
            && s.calls[1].r.Ok? && s.calls[1].r.value.principal.tenant == 0
  {
    var env := OneToken();
    SixMoves(env, START, [Begin("t", 0), Begin("t", 1), Join(0), Join(1), Land("t"), Finish(1)]);
    assert Decode(env, 0, "t", 0).Ok? && Decode(env, 0, "t", 0).value.principal.tenant == 0;
  }

  /** The other way round: the call that expects the token's own tenant joins a computation begun for
      tenant 1 and is refused, although a fresh verification accepts. */
  lemma JoinedAndRefused()
    ensures var m := [Begin("t", 1), Begin("t", 0), Join(0), Join(1), Land("t"), Finish(1)];
            var s := RunFrom(OneToken(), START, m);
            |s.calls| == 2 && s.calls[1] == Done("t", 0, Computed(1), Err(InvalidToken))
            && VerifyFresh(OneToken(), s.now, "t", 0).Ok?
  {
    var env := OneToken();
    SixMoves(env, START, [Begin("t", 1), Begin("t", 0), Join(0), Join(1), Land("t"), Finish(1)]);
    assert Decode(env, 0, "t", 1) == Err(InvalidToken);
  }
}
