/** What an accepted token says, told from its claims: who is taken to act, for whom, with which roles,
    and exactly which tokens are accepted. */
module TokenClaims {
  import opened Wrappers
  import opened Delegation
  import opened TokenVerify

  // ---- Claims read independently ----

  predicate SameCard(a: CardRef, b: CardRef) {
    a.kind == b.kind && a.name == b.name && a.version == b.version && a.space == b.space
  }

  /** A principal on the wire that stands for a runtime kind: a user holds no card, a service and an
      agent hold one of their own kind, and a scope that is present holds that card. */
  predicate Holds(p: PrincipalRef) {
    match p.kind
    case User => p.card.None?
    case Service => p.card.Some? && p.card.value.kind == ServiceCard
    case Agent => p.card.Some? && p.card.value.kind == AgentCard
  }

  predicate Scoped(p: PrincipalRef) {
    p.card.Some? && p.scope != [] ==> exists i :: 0 <= i < |p.scope| && SameCard(p.scope[i], p.card.value)
  }

  /** The kind a wire principal stands for, card and scope included. */
  predicate StandsFor(p: PrincipalRef, kind: Kind) {
    match kind
    case UserKind => p.kind == User && p.card.None?
    case ServiceKind(card, scope) =>
      && p.kind == Service && p.card == Some(card) && card.kind == ServiceCard
      && scope == if p.scope == [] then [card] else p.scope
    case AgentKind(card, scope) =>
      && p.kind == Agent && p.card == Some(card) && card.kind == AgentCard
      && scope == if p.scope == [] then [card] else p.scope
  }

  lemma KindsAreRead(p: PrincipalRef)
    ensures var r := WireKind(p.kind, p.card, p.scope);
            && (r.Ok? <==> Holds(p) && Scoped(p))
            && (r.Ok? ==> StandsFor(p, r.value) && TagOf(r.value) == p.kind)
            && (r.Err? ==> r.error == if Holds(p) then CardScopeMissingRoot else CardRefInvalid)
  {
    if p.card.Some? {
      var card := p.card.value;
      assert forall i :: 0 <= i < |p.scope| ==> (SameIdentity(p.scope[i], card) <==> SameCard(p.scope[i], card));
    }
  }

  /** The principals of an `act` claim, newest first. */
  function Layers(act: Option<ActClaim>): seq<PrincipalRef> {
    match act
    case None => []
    case Some(layer) => [layer.principal] + Layers(layer.act)
  }

  /** A step of the chain: its id and its kind, scoped to its own card whatever scope the layer had. */
  predicate IsStep(p: PrincipalRef, step: DelegationStep) {
    step.id == p.id && StandsFor(p.(scope := []), step.kind)
  }

  predicate AllHold(layers: seq<PrincipalRef>) {
    forall k :: 0 <= k < |layers| ==> Holds(layers[k])
  }

  /** One of the first `n` layers does not hold the card of its kind. */
  predicate SomeFails(layers: seq<PrincipalRef>, n: int) {
    exists k :: 0 <= k < |layers| && k < n && !Holds(layers[k])
  }

  predicate AreSteps(layers: seq<PrincipalRef>, steps: seq<DelegationStep>) {
    |steps| == |layers| && forall k :: 0 <= k < |layers| ==> IsStep(layers[k], steps[k])
  }

  lemma OneMoreLayer(p: PrincipalRef, below: seq<PrincipalRef>, n: int)
    ensures AllHold([p] + below) <==> Holds(p) && AllHold(below)
    ensures n > 0 ==> (SomeFails([p] + below, n) <==> !Holds(p) || SomeFails(below, n - 1))
    ensures n <= 0 ==> !SomeFails(below, n)
  {
    hide Holds;
    var layers := [p] + below;
    assert layers[0] == p && forall k :: 0 <= k < |below| ==> layers[k + 1] == below[k];
    if k :| 0 <= k < |below| && k < n - 1 && !Holds(below[k]) {
      assert !Holds(layers[k + 1]);
    }
    if AllHold(layers) {
      forall k | 0 <= k < |below| ensures Holds(below[k]) {
        assert Holds(layers[k + 1]);
      }
    }
  }

  lemma OneMoreStep(p: PrincipalRef, below: seq<PrincipalRef>, step: DelegationStep, steps: seq<DelegationStep>)
    requires IsStep(p, step) && AreSteps(below, steps)
    ensures AreSteps([p] + below, [step] + steps)
  {
    hide IsStep;
  }

  lemma {:induction false} WalkIsExact(act: Option<ActClaim>, taken: nat)
    requires taken <= MAX_DELEGATION_DEPTH
    ensures var (layers, r) := (Layers(act), Walk(act, taken));
            && (r.Ok? <==> |layers| <= 5 - taken && AllHold(layers))
            && (r.Ok? ==> AreSteps(layers, r.value))
            && (r.Err? ==> r.error == if SomeFails(layers, 5 - taken) then CardRefInvalid else DelegationDepthExceeded)
    decreases act
  {
    if act.Some? {
      var layer := act.value;
      var below := Layers(layer.act);
      OneMoreLayer(layer.principal, below, 5 - taken);
      OwnScope(layer.principal);
      KindsAreRead(layer.principal.(scope := []));
      if taken < 5 {
        WalkIsExact(layer.act, taken + 1);
        hide Holds, StandsFor, WireKind, AllHold, SomeFails, AreSteps;
        var r := Walk(layer.act, taken + 1);
        if Holds(layer.principal) && r.Ok? {
          OneMoreStep(layer.principal, below, StepOf(layer.principal).value, r.value);
        }
      }
    }
  }

  lemma OwnScope(p: PrincipalRef)
    ensures Holds(p) == Holds(p.(scope := [])) && Scoped(p.(scope := []))
  {
  }

  /** The chain is flattened exactly when it has at most five layers, each with a principal that holds
      the card of its kind; oldest first then, layer by layer. Otherwise the newest such layer among
      the first five decides the error, and failing that the depth. */
  lemma FlattenIsExact(act: Option<ActClaim>)
    ensures var (layers, r) := (Layers(act), Flatten(act));
            && (r.Ok? <==> |layers| <= 5 && AllHold(layers))
            && (r.Ok? ==>
                  && |r.value| == |layers|
                  && forall k :: 0 <= k < |layers| ==> IsStep(layers[k], r.value[|layers| - 1 - k]))
            && (r.Err? ==> r.error == if SomeFails(layers, 5) then CardRefInvalid else DelegationDepthExceeded)
  {
    hide Holds, IsStep, AllHold, SomeFails;
    WalkIsExact(act, 0);
    if Walk(act, 0).Ok? {
      var steps := Walk(act, 0).value;
      forall k | 0 <= k < |steps| ensures |Reversed(steps)| == |steps| && Reversed(steps)[|steps| - 1 - k] == steps[k] {
        ReversedAt(steps, k);
      }
      if steps == [] {
        assert Reversed(steps) == [];
      } else {
        ReversedAt(steps, 0);
      }
    }
  }

  lemma {:induction false} ReversedAt<T>(s: seq<T>, k: nat)
    requires k < |s|
    ensures |Reversed(s)| == |s| && Reversed(s)[|s| - 1 - k] == s[k]
  {
    if |s| > 1 {
      ReversedAt(s[1..], if k == 0 then 0 else k - 1);
    }
  }

  // ---- What an accepted token says ----

  /** A verified token says what its claims say: the current actor with its tenant, roles, kind and
      card scope, the times, and the earlier actors oldest first. */
  predicate Says(claims: Claims, v: Verified) {
    && v.principal.id == claims.principal.id
    && v.principal.tenant == claims.principal.tenant
    && v.principal.roles == claims.roles
    && StandsFor(claims.principal, v.principal.kind)
    && v.exp == claims.exp && v.iat == claims.iat
    && |v.chain| == |Layers(claims.act)|
    && forall k :: 0 <= k < |v.chain| ==> IsStep(Layers(claims.act)[k], v.chain[|v.chain| - 1 - k])
  }

  lemma DecodedSays(env: Env, now: int, token: string, tenant: nat)
    requires Decode(env, now, token, tenant).Ok?
    ensures env.decode(token).Ok? && Says(env.decode(token).value, Decode(env, now, token, tenant).value)
  {
    var claims := env.decode(token).value;
    KindsAreRead(claims.principal);
    FlattenIsExact(claims.act);
    hide WireKind, Flatten, StandsFor, IsStep, Holds, Scoped;
  }

  /** Whatever the run before, and cached or fresh: an accepted token says what its claims say. */
  lemma AcceptedSays(env: Env, start: int, ops: seq<Op>, token: string, tenant: nat)
    ensures var s := Run(env, start, ops);
            var cached, fresh_ := Verify(env, s.now, s.cache, token, tenant).0, VerifyFresh(env, s.now, token, tenant);
            && (cached.Ok? ==> env.decode(token).Ok? && Says(env.decode(token).value, cached.value))
            && (fresh_.Ok? ==> env.decode(token).Ok? && Says(env.decode(token).value, fresh_.value))
  {
    hide Says, Decode, IsRevoked, CachedExpired, Run;
    RunKeepsCacheOk(env, start, ops);
    var s := Run(env, start, ops);
    if Decode(env, s.now, token, tenant).Ok? {
      DecodedSays(env, s.now, token, tenant);
    }
    if token in s.cache && Live(env, s.now, s.cache[token]) {
      var entry := s.cache[token];
      DecodedSays(env, entry.at, token, entry.verified.principal.tenant);
    }
  }

  /** A delegated token, issued and then accepted: the last subject acts, with the roles granted last;
      the chain names the direct holder and then each earlier subject. */
  lemma DelegatedSays(env: Env, start: int, ops: seq<Op>, token: string, tenant: nat, first: Claims, grants: seq<Grant>)
    requires first.act == None && ValidPrincipal(first.principal) && grants != [] && Delegate(first, grants).Ok?
    requires env.decode(token) == Ok(Delegate(first, grants).value)
    requires Verify(env, Run(env, start, ops).now, Run(env, start, ops).cache, token, tenant).0.Ok?
    ensures var v := Verify(env, Run(env, start, ops).now, Run(env, start, ops).cache, token, tenant).0.value;
            var last := grants[|grants| - 1];
            && v.principal.id == last.subject.id && v.principal.tenant == last.subject.tenant
            && v.principal.roles == last.roles
            && StandsFor(last.subject, v.principal.kind)
            && v.iat == last.now && v.exp == last.now + last.ttl
            && |v.chain| == |grants|
            && forall i :: 0 <= i < |grants| ==>
                 IsStep(HolderBefore(first, grants, i), v.chain[i])
  {
    hide Run, Verify, VerifyFresh, StandsFor, IsStep, Delegate, Layers;
    AcceptedSays(env, start, ops, token, tenant);
    IssuedLayers(first, grants);
    DelegateShape(first, grants);
    var v := Verify(env, Run(env, start, ops).now, Run(env, start, ops).cache, token, tenant).0.value;
    forall i | 0 <= i < |grants| ensures IsStep(HolderBefore(first, grants, i), v.chain[i]) {
      var k := |grants| - 1 - i;
      assert IsStep(Layers(Delegate(first, grants).value.act)[k], v.chain[|grants| - 1 - k]);
    }
  }

  /** The layers of an issued token, newest first: the holders before the last. */
  lemma {:induction false} IssuedLayers(first: Claims, grants: seq<Grant>)
    requires first.act == None && Delegate(first, grants).Ok?
    ensures var layers := Layers(Delegate(first, grants).value.act);
            && |layers| == |grants|
            && forall i :: 0 <= i < |grants| ==> layers[|grants| - 1 - i] == HolderBefore(first, grants, i)
  {
    if grants != [] {
      var before := grants[..|grants| - 1];
      hide Delegate;
      LastLayer(first, grants);
      IssuedLayers(first, before);
      DelegateShape(first, before);
      var caller := Delegate(first, before).value;
      assert Layers(Delegate(first, grants).value.act) == [caller.principal] + Layers(caller.act);
      assert caller.principal == HolderBefore(first, grants, |grants| - 1);
      assert forall i :: 0 <= i < |before| ==> HolderBefore(first, before, i) == HolderBefore(first, grants, i);
    }
  }

  /** Who held the token when the `i`-th grant was made. */
  function HolderBefore(first: Claims, grants: seq<Grant>, i: nat): PrincipalRef
    requires i < |grants|
  {
    if i == 0 then first.principal else grants[i - 1].subject
  }

  lemma {:induction false} DepthIsLayers(act: Option<ActClaim>)
    ensures ActDepth(act) == |Layers(act)|
    decreases act
  {
    if act.Some? {
      DepthIsLayers(act.value.act);
    }
  }

  /** One request for a delegated token, whoever asks: granted exactly to a subject that holds the card
      of its kind, for a positive lifetime, by a holder with fewer than five layers behind it. The
      token then wraps the holder, its subject and its chain in one more layer. */
  lemma IssueIsExact(caller: Claims, grant: Grant)
    ensures var r := IssueDelegated(caller, grant);
            if !Holds(grant.subject) then r == Err(InvalidCardRef)
            else if |Layers(caller.act)| >= 5 then r == Err(DepthExceeded)
            else if grant.ttl <= 0 || grant.now < 0 then r == Err(InvalidTtl)
            else
              && r.Ok? && GrantedLast(r.value, grant) && r.value.sub == caller.sub
              && r.value.act == Some(ActClaim(caller.sub, caller.principal, caller.act))
              && Layers(r.value.act) == [caller.principal] + Layers(caller.act)
  {
    DepthIsLayers(caller.act);
  }

  // ---- Exactly which tokens ----

  /** A known epoch after the token was issued. */
  ghost predicate IssuedBeforeEpoch(env: Env, now: int, claims: Claims) {
    var p := claims.principal;
    env.checksRevocation &&
    exists epoch :: env.epoch(now, p.tenant, p.id, p.kind) == Ok(Some(epoch)) && claims.iat < epoch
  }

  /** A fresh verification accepts exactly the tokens of at most 8192 bytes that decode, have not
      expired by more than the skew in whole seconds, are of the expected tenant, name an actor that
      holds the card of its kind inside its scope, resolve, carry a chain that flattens and times that
      are dates, and were not issued before a known epoch. */
  lemma FreshIsExact(env: Env, now: int, token: string, tenant: nat)
    ensures VerifyFresh(env, now, token, tenant).Ok? <==>
              && |token| <= 8192 && env.decode(token).Ok?
              && var claims := env.decode(token).value;
                 && now / 1000 <= claims.exp + env.skew / 1000
                 && claims.principal.tenant == tenant
                 && Holds(claims.principal) && Scoped(claims.principal)
                 && env.resolve(now, tenant, claims.roles).Ok?
                 && |Layers(claims.act)| <= 5 && AllHold(Layers(claims.act))
                 && env.stampOk(claims.exp) && env.stampOk(claims.iat)
                 && !IssuedBeforeEpoch(env, now, claims)
  {
    if env.decode(token).Ok? {
      var claims := env.decode(token).value;
      KindsAreRead(claims.principal);
      FlattenIsExact(claims.act);
      hide WireKind, Flatten, StandsFor, IsStep, Holds, Scoped, Layers, AllHold, SomeFails;
    }
  }

  /** The error of each refusal, in the order the checks are made. */
  lemma FreshErrors(env: Env, now: int, token: string, tenant: nat)
    requires VerifyFresh(env, now, token, tenant).Err?
    ensures var e := VerifyFresh(env, now, token, tenant).error;
            if |token| > 8192 then e == BadTokenFormat
            else if env.decode(token).Err? then e == env.decode(token).error
            else
              var claims := env.decode(token).value;
              if now / 1000 > claims.exp + env.skew / 1000 then e == TokenExpired
              else if claims.principal.tenant != tenant then e == InvalidToken
              else if !Holds(claims.principal) then e == CardRefInvalid
              else if !Scoped(claims.principal) then e == CardScopeMissingRoot
              else if env.resolve(now, tenant, claims.roles) == Err(Unavailable) then e == VerifyUnavailable
              else if env.resolve(now, tenant, claims.roles).Err? then e == PermissionsCorrupt
              else if SomeFails(Layers(claims.act), 5) then e == CardRefInvalid
              else if |Layers(claims.act)| > 5 then e == DelegationDepthExceeded
              else if !env.stampOk(claims.exp) || !env.stampOk(claims.iat) then e == InvalidToken
              else e == Revoked
  {
    if env.decode(token).Ok? {
      var claims := env.decode(token).value;
      KindsAreRead(claims.principal);
      FlattenIsExact(claims.act);
      hide WireKind, Flatten, StandsFor, IsStep, Holds, Scoped, Layers, AllHold, SomeFails;
    }
  }

  /** In every run, a token the cache answers for is refused only for its tenant, its expiry to the
      millisecond, or its revocation, in that order; one it does not answer for is verified afresh. */
  lemma CachedErrors(env: Env, start: int, ops: seq<Op>, token: string, tenant: nat)
    ensures var s := Run(env, start, ops);
            var r := Verify(env, s.now, s.cache, token, tenant).0;
            if token in s.cache && s.now < s.cache[token].at + env.cacheTtl then
              && env.decode(token).Ok?
              && var claims := env.decode(token).value;
                 r.Err? ==>
                   if claims.principal.tenant != tenant then r.error == InvalidToken
                   else if env.skew > MAX_SKEW || s.now > claims.exp * 1000 + env.skew then r.error == TokenExpired
                   else r.error == Revoked && IssuedBeforeEpoch(env, s.now, claims)
            else r == VerifyFresh(env, s.now, token, tenant)
  {
    hide Decode, Run, IssuedBeforeEpoch;
    RunKeepsCacheOk(env, start, ops);
    var s := Run(env, start, ops);
    if token in s.cache {
      var entry := s.cache[token];
      var home := entry.verified.principal.tenant;
      DecodedSays(env, entry.at, token, home);
      DecodedTenant(env, entry.at, token, home);
      hide CacheOk;
      RevokedByClaims(env, s.now, env.decode(token).value, entry.verified);
    }
  }

  lemma RevokedByClaims(env: Env, now: int, claims: Claims, v: Verified)
    requires Says(claims, v) && TagOf(v.principal.kind) == claims.principal.kind
    ensures IsRevoked(env, now, v) <==> IssuedBeforeEpoch(env, now, claims)
  {
  }

  // ---- What the cache holds afterwards ----

  /** One verification touches the cache at its own token only. What it accepts is remembered, from
      now unless the cache answered; what it refuses, the cache does not answer for any more. */
  lemma CacheAfter(env: Env, now: int, cache: Cache, token: string, tenant: nat)
    ensures var (r, after) := Verify(env, now, cache, token, tenant);
            && after - {token} == cache - {token}
            && (r.Ok? ==>
                  && token in after && after[token].verified == r.value
                  && after[token].at == if token in cache && Live(env, now, cache[token]) then cache[token].at else now)
            && (r.Err? && |token| <= 8192 ==> token in after ==> after[token].at + env.cacheTtl <= now)
            && (|token| > 8192 ==> after == cache)
  {
    hide Decode, IsRevoked, CachedExpired;
  }

  /** In every run: after `invalidate_principal`, no cached token has claims whose actor is that
      principal, and every other cached token is still there. */
  lemma PrincipalIsForgotten(env: Env, start: int, ops: seq<Op>, id: nat, token: string)
    ensures var s := Run(env, start, ops);
            var after := Step(env, s, DoInvalidatePrincipal(id)).cache;
            token in after <==>
              token in s.cache && env.decode(token).Ok? && env.decode(token).value.principal.id != id
  {
    hide Says, Decode, Run;
    RunKeepsCacheOk(env, start, ops);
    var s := Run(env, start, ops);
    if token in s.cache {
      var entry := s.cache[token];
      DecodedSays(env, entry.at, token, entry.verified.principal.tenant);
      SaysId(env.decode(token).value, entry.verified);
    }
  }

  lemma SaysId(claims: Claims, v: Verified)
    requires Says(claims, v)
    ensures v.principal.id == claims.principal.id
  {
  }
}
