/** Bearer-token verification with a token cache in front, against verification without one. */
module TokenVerify {
  import opened Wrappers
  import opened Delegation

  const MAX_BEARER_TOKEN_BYTES := 8192
  const MAX_SKEW := 0x7fff_ffff_ffff_ffff

  /** Roles resolved to permissions; what they are does not matter here. */
  datatype Permissions = Permissions(names: seq<string>)

  datatype ResolveError = Unavailable | BadPermissionsJson

  /** Settings, and the parts of the world the verifier cannot see into. Times are milliseconds.
      `decode` covers header, key lookup, signature, issuer and claim shape; expiry is checked apart.
      `stampOk` says which second counts are representable dates. `resolve` and `epoch` are what the
      two stores answer at a time. The cache key is a hash of the token, taken to be injective. */
  datatype Env = Env(
    cacheTtl: nat,
    skew: nat,
    decode: string -> Result<Claims, AuthError>,
    stampOk: int -> bool,
    resolve: (int, nat, seq<string>) -> Result<Permissions, ResolveError>,
    checksRevocation: bool,
    epoch: (int, nat, nat, Tag) -> Result<Option<int>, ResolveError>)

  datatype Principal = Principal(id: nat, kind: Kind, tenant: nat, roles: seq<string>, permissions: Permissions)

  /** `exp` and `iat` in seconds. */
  datatype Verified = Verified(principal: Principal, chain: seq<DelegationStep>, exp: int, iat: int)

  /** What a verified token says apart from the permissions resolved for it. */
  datatype Identity = Identity(
    id: nat, kind: Kind, tenant: nat, roles: seq<string>, chain: seq<DelegationStep>, exp: int, iat: int)

  function IdentityOf(v: Verified): Identity {
    Identity(v.principal.id, v.principal.kind, v.principal.tenant, v.principal.roles, v.chain, v.exp, v.iat)
  }

  datatype Entry = Entry(verified: Verified, at: int)

  type Cache = map<string, Entry>

  function TagOf(kind: Kind): Tag {
    match kind
    case UserKind => User
    case ServiceKind(_, _) => Service
    case AgentKind(_, _) => Agent
  }

  /** The expiry check of the token library: whole seconds, the leeway cut to seconds. */
  predicate LibraryExpired(env: Env, now: int, exp: int) {
    exp < now / 1000 - env.skew / 1000
  }

  /** `is_expired`, the check on a cached token: full precision. */
  predicate CachedExpired(env: Env, now: int, exp: int) {
    env.skew > MAX_SKEW || now > exp * 1000 + env.skew
  }

  /** `AccessTokenClaims::into_verified`. */
  function IntoVerified(env: Env, now: int, claims: Claims): Result<Verified, AuthError> {
    var p := claims.principal;
    match WireKind(p.kind, p.card, p.scope)
    case Err(e) => Err(e)
    case Ok(kind) =>
      match env.resolve(now, p.tenant, claims.roles)
      case Err(Unavailable) => Err(VerifyUnavailable)
      case Err(BadPermissionsJson) => Err(PermissionsCorrupt)
      case Ok(permissions) =>
        match Flatten(claims.act)
        case Err(e) => Err(e)
        case Ok(chain) =>
          if !env.stampOk(claims.exp) || !env.stampOk(claims.iat) then Err(InvalidToken)
          else Ok(Verified(Principal(p.id, kind, p.tenant, claims.roles, permissions), chain, claims.exp, claims.iat))
  }

  /** What a cache miss computes. */
  function Decode(env: Env, now: int, token: string, tenant: nat): Result<Verified, AuthError> {
    match env.decode(token)
    case Err(e) => Err(e)
    case Ok(claims) =>
      if LibraryExpired(env, now, claims.exp) then Err(TokenExpired)
      else if claims.principal.tenant != tenant then Err(InvalidToken)
      else IntoVerified(env, now, claims)
  }

  /** A known revocation epoch after the token was issued. A store that does not answer is passed over. */
  predicate IsRevoked(env: Env, now: int, v: Verified) {
    env.checksRevocation &&
    match env.epoch(now, v.principal.tenant, v.principal.id, TagOf(v.principal.kind))
    case Ok(Some(epoch)) => v.iat < epoch
    case _ => false
  }

  /** Verification without a cache. */
  function VerifyFresh(env: Env, now: int, token: string, tenant: nat): Result<Verified, AuthError> {
    if |token| > MAX_BEARER_TOKEN_BYTES then Err(BadTokenFormat)
    else
      match Decode(env, now, token, tenant)
      case Err(e) => Err(e)
      case Ok(v) => if IsRevoked(env, now, v) then Err(Revoked) else Ok(v)
  }

  /** The cache answers for `cacheTtl` after an entry was made. */
  predicate Live(env: Env, now: int, entry: Entry) {
    now < entry.at + env.cacheTtl
  }

  /** `TokenVerifier::verify`, as a function of the cache. */
  function Verify(env: Env, now: int, cache: Cache, token: string, tenant: nat): (Result<Verified, AuthError>, Cache) {
    if |token| > MAX_BEARER_TOKEN_BYTES then (Err(BadTokenFormat), cache)
    else if token in cache && Live(env, now, cache[token]) then
      var v := cache[token].verified;
      if v.principal.tenant != tenant then (Err(InvalidToken), cache - {token})
      else if CachedExpired(env, now, v.exp) then (Err(TokenExpired), cache - {token})
      else if IsRevoked(env, now, v) then (Err(Revoked), cache - {token})
      else (Ok(v), cache)
    else
      match Decode(env, now, token, tenant)
      case Err(e) => (Err(e), cache)
      case Ok(v) =>
        if IsRevoked(env, now, v) then (Err(Revoked), cache - {token})
        else (Ok(v), cache[token := Entry(v, now)])
  }

  /** `invalidate_principal`: every cached token of the principal goes. */
  function WithoutPrincipal(cache: Cache, id: nat): Cache {
    map token | token in cache && cache[token].verified.principal.id != id :: cache[token]
  }

  // ---- The verifier as the program keeps it ----

  class TokenVerifier {
    const env: Env
    var cache: Cache

    constructor (env: Env)
      ensures this.env == env && cache == map[]
    {
      this.env := env;
      cache := map[];
    }

    /** Look in the cache, and on a miss decode and remember; revocation is checked either way. */
    method VerifyToken(now: int, token: string, tenant: nat) returns (r: Result<Verified, AuthError>)
      modifies this
      ensures (r, cache) == Verify(env, now, old(cache), token, tenant)
    {
      if |token| > MAX_BEARER_TOKEN_BYTES {
        return Err(BadTokenFormat);
      }
      if token in cache && Live(env, now, cache[token]) {
        var v := cache[token].verified;
        if v.principal.tenant != tenant {
          cache := cache - {token};
          return Err(InvalidToken);
        }
        if CachedExpired(env, now, v.exp) {
          cache := cache - {token};
          return Err(TokenExpired);
        }
        if IsRevoked(env, now, v) {
          cache := cache - {token};
          return Err(Revoked);
        }
        return Ok(v);
      }
      r := Decode(env, now, token, tenant);
      if r.Ok? {
        cache := cache[token := Entry(r.value, now)];
        if IsRevoked(env, now, r.value) {
          cache := cache - {token};
          assert cache == old(cache) - {token};
          return Err(Revoked);
        }
      }
    }

    method Invalidate(token: string)
      modifies this
      ensures cache == old(cache) - {token}
    {
      cache := cache - {token};
    }

    /** Collect the principal's tokens, then remove them one by one. */
    method InvalidatePrincipal(id: nat)
      modifies this
      ensures cache == WithoutPrincipal(old(cache), id)
    {
      var tokens := set token | token in cache && cache[token].verified.principal.id == id;
      var left := tokens;
      while left != {}
        invariant left <= tokens && cache == old(cache) - (tokens - left)
        decreases left
      {
        var token :| token in left;
        cache := cache - {token};
        left := left - {token};
      }
      assert cache == WithoutPrincipal(old(cache), id);
    }
  }

  // ---- Sequential runs ----

  datatype Op =
    | DoVerify(token: string, tenant: nat)
    | DoInvalidate(token: string)
    | DoInvalidatePrincipal(id: nat)
    | Wait(milliseconds: nat)
    | Evict(token: string)  // the cache may drop an entry at any time

  datatype State = State(now: int, cache: Cache)

  function Step(env: Env, s: State, op: Op): State {
    match op
    case DoVerify(token, tenant) => s.(cache := Verify(env, s.now, s.cache, token, tenant).1)
    case DoInvalidate(token) => s.(cache := s.cache - {token})
    case DoInvalidatePrincipal(id) => s.(cache := WithoutPrincipal(s.cache, id))
    case Wait(milliseconds) => s.(now := s.now + milliseconds)
    case Evict(token) => s.(cache := s.cache - {token})
  }

  function Run(env: Env, start: int, ops: seq<Op>): State {
    if ops == [] then State(start, map[]) else Step(env, Run(env, start, ops[..|ops| - 1]), ops[|ops| - 1])
  }

  /** A cached token is what decoding it gave when it was entered, and no entry is from the future. */
  predicate CacheOk(env: Env, s: State) {
    forall token :: token in s.cache ==>
      var entry := s.cache[token];
      && |token| <= MAX_BEARER_TOKEN_BYTES && entry.at <= s.now
      && Decode(env, entry.at, token, entry.verified.principal.tenant) == Ok(entry.verified)
  }

  lemma DecodedTenant(env: Env, now: int, token: string, tenant: nat)
    requires Decode(env, now, token, tenant).Ok?
    ensures var v := Decode(env, now, token, tenant).value;
            && v.principal.tenant == tenant
            && env.decode(token).Ok? && v.exp == env.decode(token).value.exp && v.iat == env.decode(token).value.iat
            && TagOf(v.principal.kind) == env.decode(token).value.principal.kind
  {
  }

  lemma StepKeepsCacheOk(env: Env, s: State, op: Op)
    requires CacheOk(env, s)
    ensures CacheOk(env, Step(env, s, op)) && s.now <= Step(env, s, op).now
  {
    if op.DoVerify? && Decode(env, s.now, op.token, op.tenant).Ok? {
      DecodedTenant(env, s.now, op.token, op.tenant);
    }
  }

  lemma {:induction false} RunKeepsCacheOk(env: Env, start: int, ops: seq<Op>)
    ensures CacheOk(env, Run(env, start, ops))
  {
    hide Step, CacheOk;
    if ops != [] {
      RunKeepsCacheOk(env, start, ops[..|ops| - 1]);
      StepKeepsCacheOk(env, Run(env, start, ops[..|ops| - 1]), ops[|ops| - 1]);
    } else {
      EmptyCacheOk(env, start);
    }
  }

  lemma EmptyCacheOk(env: Env, start: int)
    ensures CacheOk(env, State(start, map[]))
  {
  }

  // ---- Cached against cacheless ----

  /** The two expiry checks: a token the cached check lets pass, the library lets pass; and the cached
      check is the stricter one exactly in the last part-second, the fraction the library rounds away. */
  lemma ExpiryChecks(env: Env, now: int, exp: int)
    requires env.skew <= MAX_SKEW
    ensures !CachedExpired(env, now, exp) ==> !LibraryExpired(env, now, exp)
    ensures CachedExpired(env, now, exp) && !LibraryExpired(env, now, exp) <==>
              exp * 1000 + env.skew < now < (exp + env.skew / 1000 + 1) * 1000
  {
  }

  /** The permission store answers for what the token asks, now. */
  predicate Resolves(env: Env, now: int, token: string) {
    match env.decode(token)
    case Ok(claims) => env.resolve(now, claims.principal.tenant, claims.roles).Ok?
    case Err(_) => true
  }

  /** Decoding at another time differs only by expiry and by the permissions resolved. */
  lemma DecodeLater(env: Env, then_: int, now: int, token: string, tenant: nat)
    requires Decode(env, then_, token, tenant).Ok? && Resolves(env, now, token)
    ensures var v := Decode(env, then_, token, tenant).value;
            var r := Decode(env, now, token, tenant);
            if LibraryExpired(env, now, v.exp) then r == Err(TokenExpired)
            else r.Ok? && IdentityOf(r.value) == IdentityOf(v)
  {
  }

  /** The permissions in `v` are what the store answered at time `at`. */
  predicate PermissionsAt(env: Env, at: int, v: Verified) {
    env.resolve(at, v.principal.tenant, v.principal.roles) == Ok(v.principal.permissions)
  }

  lemma DecodedPermissions(env: Env, now: int, token: string, tenant: nat)
    requires Decode(env, now, token, tenant).Ok?
    ensures PermissionsAt(env, now, Decode(env, now, token, tenant).value)
  {
  }

  /** A live entry against a fresh verification of the same token for the same tenant. */
  lemma HitAgrees(env: Env, s: State, token: string, tenant: nat)
    requires CacheOk(env, s) && env.skew <= MAX_SKEW && Resolves(env, s.now, token)
    requires token in s.cache && Live(env, s.now, s.cache[token])
    ensures var v := s.cache[token].verified;
            var cached, fresh_ := Verify(env, s.now, s.cache, token, tenant).0, VerifyFresh(env, s.now, token, tenant);
            && PermissionsAt(env, s.cache[token].at, v)
            && (cached.Ok? ==> cached.value == v && fresh_.Ok? && IdentityOf(v) == IdentityOf(fresh_.value))
            && (fresh_.Ok? && cached.Err? ==>
                  && cached == Err(TokenExpired) && v.exp == fresh_.value.exp
                  && v.exp * 1000 + env.skew < s.now < (v.exp + env.skew / 1000 + 1) * 1000)
  {
    hide IntoVerified;
    var entry := s.cache[token];
    var home := entry.verified.principal.tenant;
    DecodedTenant(env, entry.at, token, home);
    DecodeLater(env, entry.at, s.now, token, home);
    DecodedPermissions(env, entry.at, token, home);
    ExpiryChecks(env, s.now, entry.verified.exp);
    if tenant != home {
      ForeignTenantFails(env, s.now, token, tenant);
    }
  }

  lemma ForeignTenantFails(env: Env, now: int, token: string, tenant: nat)
    requires env.decode(token).Ok? && env.decode(token).value.principal.tenant != tenant
    ensures Decode(env, now, token, tenant).Err?
  {
  }

  /** The cache answers for this token, and its own expiry check has fired. */
  predicate HitExpired(env: Env, s: State, token: string) {
    token in s.cache && Live(env, s.now, s.cache[token]) && CachedExpired(env, s.now, s.cache[token].verified.exp)
  }

  lemma HitIsExact(env: Env, s: State, token: string, tenant: nat)
    requires CacheOk(env, s) && Resolves(env, s.now, token)
    requires token in s.cache && Live(env, s.now, s.cache[token])
    ensures var cached, fresh_ := Verify(env, s.now, s.cache, token, tenant).0, VerifyFresh(env, s.now, token, tenant);
            && (cached.Ok? <==> fresh_.Ok? && !HitExpired(env, s, token))
            && (cached.Ok? ==> IdentityOf(cached.value) == IdentityOf(fresh_.value))
  {
    hide IntoVerified;
    var entry := s.cache[token];
    var home := entry.verified.principal.tenant;
    DecodedTenant(env, entry.at, token, home);
    DecodeLater(env, entry.at, s.now, token, home);
    if env.skew <= MAX_SKEW {
      ExpiryChecks(env, s.now, entry.verified.exp);
    }
    if tenant != home {
      ForeignTenantFails(env, s.now, token, tenant);
    }
  }

  /** Cached verification agrees with verification without a cache. In every run, while the
      permission store answers: the cached verifier accepts if and only if a fresh verification does
      and the cache is not answering for the token after its own expiry check has fired; what it
      accepts has the same identity, chain and times. A token only the fresh one accepts is one in the
      part-second in which the cached check has fired and the library's has not. */
  lemma CacheAgrees(env: Env, start: int, ops: seq<Op>, token: string, tenant: nat)
    requires Resolves(env, Run(env, start, ops).now, token)
    ensures var s := Run(env, start, ops);
            var cached, fresh_ := Verify(env, s.now, s.cache, token, tenant).0, VerifyFresh(env, s.now, token, tenant);
            && (cached.Ok? <==> fresh_.Ok? && !HitExpired(env, s, token))
            && (cached.Ok? ==> IdentityOf(cached.value) == IdentityOf(fresh_.value))
            && (env.skew <= MAX_SKEW && fresh_.Ok? && cached.Err? ==>
                  && cached == Err(TokenExpired)
                  && fresh_.value.exp * 1000 + env.skew < s.now < (fresh_.value.exp + env.skew / 1000 + 1) * 1000)
  {
    hide Decode, CacheOk;
    RunKeepsCacheOk(env, start, ops);
    var s := Run(env, start, ops);
    if token in s.cache && Live(env, s.now, s.cache[token]) {
      HitIsExact(env, s, token, tenant);
      if env.skew <= MAX_SKEW {
        HitAgrees(env, s, token, tenant);
      }
    }
  }

  /** What `invalidate` is for: the next verification of that token is a fresh one. */
  lemma InvalidatedIsFresh(env: Env, now: int, cache: Cache, token: string, tenant: nat)
    ensures Verify(env, now, cache - {token}, token, tenant).0 == VerifyFresh(env, now, token, tenant)
  {
  }

  /** A world with one token, good until second 10, and no skew. */
  function OneToken(): Env {
    var claims := Claims(0, PrincipalRef(0, User, 0, None, []), [], None, 10, 0);
    Env(60_000, 0, _ => Ok(claims), _ => true, (_, _, _) => Ok(Permissions([])), false, (_, _, _, _) => Ok(None))
  }

  /** A run that disagrees: verify the token, wait half a second past its expiry, verify it again. */
  lemma CacheCanDisagree()
    ensures var env := OneToken();
            var s := Run(env, 0, [DoVerify("t", 0), Wait(10_500)]);
            && Verify(env, s.now, s.cache, "t", 0).0 == Err(TokenExpired)
            && VerifyFresh(env, s.now, "t", 0).Ok? && Resolves(env, s.now, "t")
  {
    var env := OneToken();
    var ops := [DoVerify("t", 0), Wait(10_500)];
    assert ops[..1] == [DoVerify("t", 0)] && ops[..1][..0] == [];
    var s0 := State(0, map[]);
    assert Run(env, 0, ops[..1][..0]) == s0;
    assert Decode(env, 0, "t", 0).Ok? && Decode(env, 0, "t", 0).value.exp == 10;
    assert Run(env, 0, ops[..1]) == Step(env, s0, ops[0]);
    assert Run(env, 0, ops) == Step(env, Step(env, s0, ops[0]), ops[1]);
  }

  /** Delegated tokens, end to end: once issued, and while the stores answer, such a token is taken by
      the verifier if and only if the last subject's card scope is absent or contains its card. */
  lemma IssuedTokenVerifies(env: Env, now: int, first: Claims, grants: seq<Grant>)
    requires first.act == None && ValidPrincipal(first.principal) && grants != [] && Delegate(first, grants).Ok?
    ensures var claims, subject := Delegate(first, grants).value, grants[|grants| - 1].subject;
            env.resolve(now, subject.tenant, claims.roles).Ok? && env.stampOk(claims.exp) && env.stampOk(claims.iat) ==>
              (IntoVerified(env, now, claims).Ok? <==> ScopeFits(subject))
  {
    hide Delegate, Flatten, WireKind, ScopeFits;
    IssuedSubjectVerifies(first, grants);
    DelegationsFlatten(first, grants);
    DelegateShape(first, grants);
  }

  /** Whatever the stores answer, an accepted token is of the expected tenant, within its expiry plus
      the skew (in whole seconds), not before a known revocation epoch, and carries permissions the
      store gave for its roles now or less than `cacheTtl` ago. */
  lemma AcceptedIsSafe(env: Env, start: int, ops: seq<Op>, token: string, tenant: nat)
    requires Verify(env, Run(env, start, ops).now, Run(env, start, ops).cache, token, tenant).0.Ok?
    ensures var s := Run(env, start, ops);
            var v := Verify(env, s.now, s.cache, token, tenant).0.value;
            && v.principal.tenant == tenant && env.decode(token).Ok?
            && (env.checksRevocation ==>
                  var kind := env.decode(token).value.principal.kind;
                  forall epoch :: env.epoch(s.now, tenant, v.principal.id, kind) == Ok(Some(epoch)) ==> v.iat >= epoch)
            && s.now / 1000 <= v.exp + env.skew / 1000
            && exists at :: (at == s.now || s.now - env.cacheTtl < at <= s.now) && PermissionsAt(env, at, v)
  {
    hide IntoVerified;
    RunKeepsCacheOk(env, start, ops);
    var s := Run(env, start, ops);
    if token in s.cache && Live(env, s.now, s.cache[token]) {
      var entry := s.cache[token];
      DecodedTenant(env, entry.at, token, entry.verified.principal.tenant);
      DecodedPermissions(env, entry.at, token, entry.verified.principal.tenant);
      ExpiryChecks(env, s.now, entry.verified.exp);
    } else {
      DecodedTenant(env, s.now, token, tenant);
      DecodedPermissions(env, s.now, token, tenant);
    }
  }
}
