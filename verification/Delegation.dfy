/** Token principals, delegation chains as the issuer builds them, and the chains the verifier
    flattens. */
module Delegation {
  import opened Wrappers

  const MAX_DELEGATION_DEPTH := 5

  datatype CardKind = ServiceCard | AgentCard | OtherCard

  /** A card reference; `uid` takes no part in identity. */
  datatype CardRef = CardRef(kind: CardKind, name: string, version: string, space: string, uid: Option<string>)

  datatype Tag = User | Service | Agent

  /** The principal a token carries on the wire. Principal ids and subjects are one type: the
      subject of a directly issued token is the text of its principal's id. */
  datatype PrincipalRef = PrincipalRef(id: nat, kind: Tag, tenant: nat, card: Option<CardRef>, scope: seq<CardRef>)

  /** A runtime principal kind. */
  datatype Kind =
    | UserKind
    | ServiceKind(card: CardRef, scope: seq<CardRef>)
    | AgentKind(card: CardRef, scope: seq<CardRef>)

  datatype ActClaim = ActClaim(sub: nat, principal: PrincipalRef, act: Option<ActClaim>)

  datatype Claims = Claims(
    sub: nat, principal: PrincipalRef, roles: seq<string>, act: Option<ActClaim>, exp: int, iat: int)

  datatype IssueError = InvalidCardRef | DepthExceeded | InvalidTtl

  /** `BadToken` is what decoding the text of a token may answer. */
  datatype AuthError =
    | BadTokenFormat | BadToken | InvalidToken | TokenExpired | CardRefInvalid | CardScopeMissingRoot
    | DelegationDepthExceeded | Revoked | VerifyUnavailable | PermissionsCorrupt

  datatype DelegationStep = DelegationStep(id: nat, kind: Kind)

  // ---- Card scopes ----

  predicate SameIdentity(a: CardRef, b: CardRef) {
    a.kind == b.kind && a.name == b.name && a.version == b.version && a.space == b.space
  }

  predicate Authorizes(scope: seq<CardRef>, card: CardRef) {
    exists i :: 0 <= i < |scope| && SameIdentity(scope[i], card)
  }

  /** `seed_scope`: an absent scope means the card itself; a present one must contain it. */
  function SeedScope(card: CardRef, scope: seq<CardRef>): Result<seq<CardRef>, AuthError> {
    if scope == [] then Ok([card])
    else if !Authorizes(scope, card) then Err(CardScopeMissingRoot)
    else Ok(scope)
  }

  /** `wire_kind_into_principal_kind`. */
  function WireKind(kind: Tag, card: Option<CardRef>, scope: seq<CardRef>): Result<Kind, AuthError> {
    match (kind, card)
    case (User, Some(_)) => Err(CardRefInvalid)
    case (User, None) => Ok(UserKind)
    case (Service, Some(c)) =>
      if c.kind != ServiceCard then Err(CardRefInvalid)
      else (match SeedScope(c, scope) case Ok(s) => Ok(ServiceKind(c, s)) case Err(e) => Err(e))
    case (Agent, Some(c)) =>
      if c.kind != AgentCard then Err(CardRefInvalid)
      else (match SeedScope(c, scope) case Ok(s) => Ok(AgentKind(c, s)) case Err(e) => Err(e))
    case (_, None) => Err(CardRefInvalid)
  }

  // ---- Issuing ----

  /** `validate_principal_ref`. */
  predicate ValidPrincipal(p: PrincipalRef) {
    match p.kind
    case User => p.card.None?
    case Service => p.card.Some? && p.card.value.kind == ServiceCard
    case Agent => p.card.Some? && p.card.value.kind == AgentCard
  }

  function ActDepth(act: Option<ActClaim>): nat {
    if act.None? then 0 else 1 + ActDepth(act.value.act)
  }

  /** `timestamps`, in whole seconds. */
  function Timestamps(now: int, ttl: int): Result<(int, int), IssueError> {
    if ttl <= 0 || now < 0 then Err(InvalidTtl) else Ok((now, now + ttl))
  }

  /** One request for a delegated token. */
  datatype Grant = Grant(subject: PrincipalRef, roles: seq<string>, now: int, ttl: int)

  /** `issue_delegated_access_token`, called with what a verified token says of its holder. */
  function IssueDelegated(caller: Claims, grant: Grant): Result<Claims, IssueError> {
    if !ValidPrincipal(grant.subject) then Err(InvalidCardRef)
    else if ActDepth(caller.act) + 1 > MAX_DELEGATION_DEPTH then Err(DepthExceeded)
    else
      match Timestamps(grant.now, grant.ttl)
      case Err(e) => Err(e)
      case Ok((iat, exp)) =>
        var act := ActClaim(caller.sub, caller.principal, caller.act);
        Ok(Claims(caller.sub, grant.subject, grant.roles, Some(act), exp, iat))
  }

  /** A run of delegations, each by the holder of the token before. */
  function Delegate(first: Claims, grants: seq<Grant>): Result<Claims, IssueError> {
    if grants == [] then Ok(first)
    else
      match Delegate(first, grants[..|grants| - 1])
      case Err(e) => Err(e)
      case Ok(caller) => IssueDelegated(caller, grants[|grants| - 1])
  }

  // ---- Flattening ----

  function StepOf(p: PrincipalRef): Result<DelegationStep, AuthError> {
    match WireKind(p.kind, p.card, [])
    case Ok(kind) => Ok(DelegationStep(p.id, kind))
    case Err(e) => Err(e)
  }

  /** The steps of a chain, newest first, when `taken` layers have been read already. */
  function Walk(act: Option<ActClaim>, taken: nat): Result<seq<DelegationStep>, AuthError> {
    match act
    case None => Ok([])
    case Some(layer) =>
      if taken >= MAX_DELEGATION_DEPTH then Err(DelegationDepthExceeded)
      else
        match StepOf(layer.principal)
        case Err(e) => Err(e)
        case Ok(step) =>
          match Walk(layer.act, taken + 1)
          case Err(e) => Err(e)
          case Ok(rest) => Ok([step] + rest)
  }

  function Reversed<T>(s: seq<T>): seq<T> {
    if s == [] then [] else Reversed(s[1..]) + [s[0]]
  }

  /** `flatten_act_chain`, as a function. */
  function Flatten(act: Option<ActClaim>): Result<seq<DelegationStep>, AuthError> {
    match Walk(act, 0)
    case Err(e) => Err(e)
    case Ok(steps) => Ok(Reversed(steps))
  }

  /** `flatten_act_chain` as it runs: push layer by layer, then reverse. */
  method FlattenActChain(act: Option<ActClaim>) returns (r: Result<seq<DelegationStep>, AuthError>)
    ensures r == Flatten(act)
  {
    var out: seq<DelegationStep> := [];
    var layer := act;
    assert Walk(act, 0).Ok? ==> [] + Walk(act, 0).value == Walk(act, 0).value;
    while layer.Some?
      invariant Walk(act, 0) == match Walk(layer, |out|) case Ok(rest) => Ok(out + rest) case Err(e) => Err(e)
      decreases layer
    {
      if |out| >= MAX_DELEGATION_DEPTH {
        return Err(DelegationDepthExceeded);
      }
      var kind := WireKind(layer.value.principal.kind, layer.value.principal.card, []);
      if kind.Err? {
        return Err(kind.error);
      }
      var step := DelegationStep(layer.value.principal.id, kind.value);
      ghost var rest := Walk(layer.value.act, |out| + 1);
      assert rest.Ok? ==> out + ([step] + rest.value) == out + [step] + rest.value;
      out := out + [step];
      layer := layer.value.act;
    }
    assert out + [] == out;
    out := Reverse(out);
    return Ok(out);
  }

  method Reverse<T>(s: seq<T>) returns (reversed: seq<T>)
    ensures reversed == Reversed(s)
  {
    reversed := [];
    for i := 0 to |s|
      invariant Reversed(s[i..]) + reversed == Reversed(s)
    {
      assert s[i..][1..] == s[i + 1..];
      assert Reversed(s[i + 1..]) + [s[i]] + reversed == Reversed(s[i + 1..]) + ([s[i]] + reversed);
      reversed := [s[i]] + reversed;
    }
  }

  // ---- Issued chains ----

  /** The principals of a run, oldest first: the direct holder, then each subject but the last. */
  function Earlier(first: Claims, grants: seq<Grant>): seq<PrincipalRef> {
    if grants == [] then []
    else if |grants| == 1 then [first.principal]
    else Earlier(first, grants[..|grants| - 1]) + [grants[|grants| - 2].subject]
  }

  predicate GoodGrant(g: Grant) {
    ValidPrincipal(g.subject) && g.ttl > 0 && g.now >= 0
  }

  /** The step a valid principal contributes: its id and its kind, scoped to its own card. */
  function OwnStep(p: PrincipalRef): DelegationStep
    requires ValidPrincipal(p)
  {
    DelegationStep(p.id, match p.kind
                         case User => UserKind
                         case Service => ServiceKind(p.card.value, [p.card.value])
                         case Agent => AgentKind(p.card.value, [p.card.value]))
  }

  /** The actor, roles and lifetime of a token are those the grant asked for. */
  predicate GrantedLast(claims: Claims, last: Grant) {
    && claims.principal == last.subject && claims.roles == last.roles
    && claims.iat == last.now && claims.exp == last.now + last.ttl
  }

  lemma {:induction false} DelegateShape(first: Claims, grants: seq<Grant>)
    requires first.act == None
    ensures var r := Delegate(first, grants);
            && (r.Ok? <==> |grants| <= MAX_DELEGATION_DEPTH && forall i :: 0 <= i < |grants| ==> GoodGrant(grants[i]))
            && (r.Ok? ==>
                  && ActDepth(r.value.act) == |grants| && r.value.sub == first.sub
                  && r.value.principal == if grants == [] then first.principal else grants[|grants| - 1].subject)
            && (r.Ok? && grants != [] ==> GrantedLast(r.value, grants[|grants| - 1]))
  {
    if grants == [] {
    } else {
      var before := grants[..|grants| - 1];
      DelegateShape(first, before);
      assert (forall i :: 0 <= i < |grants| ==> GoodGrant(grants[i])) <==>
             (forall i :: 0 <= i < |before| ==> GoodGrant(before[i])) && GoodGrant(grants[|grants| - 1]);
    }
  }

  lemma StepOfValid(p: PrincipalRef)
    requires ValidPrincipal(p)
    ensures StepOf(p) == Ok(OwnStep(p))
  {
  }

  function OwnSteps(ps: seq<PrincipalRef>): seq<DelegationStep>
    requires forall i :: 0 <= i < |ps| ==> ValidPrincipal(ps[i])
  {
    seq(|ps|, i requires 0 <= i < |ps| => OwnStep(ps[i]))
  }

  lemma {:induction false} EarlierAreValid(first: Claims, grants: seq<Grant>)
    requires ValidPrincipal(first.principal) && forall i :: 0 <= i < |grants| ==> ValidPrincipal(grants[i].subject)
    ensures |Earlier(first, grants)| == |grants|
    ensures forall i :: 0 <= i < |grants| ==>
              Earlier(first, grants)[i] == (if i == 0 then first.principal else grants[i - 1].subject)
    ensures forall i :: 0 <= i < |grants| ==> ValidPrincipal(Earlier(first, grants)[i])
  {
    if |grants| > 1 {
      EarlierAreValid(first, grants[..|grants| - 1]);
    }
  }

  lemma OwnStepsPush(ps: seq<PrincipalRef>, p: PrincipalRef)
    requires ValidPrincipal(p) && forall i :: 0 <= i < |ps| ==> ValidPrincipal(ps[i])
    ensures OwnSteps(ps + [p]) == OwnSteps(ps) + [OwnStep(p)]
    ensures Reversed(OwnSteps(ps + [p])) == [OwnStep(p)] + Reversed(OwnSteps(ps))
  {
    hide ValidPrincipal, Reversed;
    assert OwnSteps(ps + [p]) == OwnSteps(ps) + [OwnStep(p)];
    ReversedPush(OwnSteps(ps), OwnStep(p));
  }

  /** The last delegation wraps the chain before it in one more layer, that of its caller. */
  lemma LastLayer(first: Claims, grants: seq<Grant>)
    requires first.act == None && grants != [] && Delegate(first, grants).Ok?
    ensures var before := grants[..|grants| - 1];
            && Delegate(first, before).Ok?
            && Earlier(first, grants) == Earlier(first, before) + [Delegate(first, before).value.principal]
            && var caller := Delegate(first, before).value;
               Delegate(first, grants).value.act == Some(ActClaim(caller.sub, caller.principal, caller.act))
  {
    DelegateShape(first, grants[..|grants| - 1]);
  }

  lemma {:induction false} WalkIssued(first: Claims, grants: seq<Grant>, taken: nat)
    requires first.act == None && ValidPrincipal(first.principal) && Delegate(first, grants).Ok?
    requires taken + |grants| <= MAX_DELEGATION_DEPTH
    ensures forall i :: 0 <= i < |grants| ==> ValidPrincipal(grants[i].subject)
    ensures forall i :: 0 <= i < |Earlier(first, grants)| ==> ValidPrincipal(Earlier(first, grants)[i])
    ensures Walk(Delegate(first, grants).value.act, taken) == Ok(Reversed(OwnSteps(Earlier(first, grants))))
    decreases |grants|
  {
    DelegateShape(first, grants);
    EarlierAreValid(first, grants);
    if grants == [] {
    } else {
      var before := grants[..|grants| - 1];
      hide Delegate, Earlier, OwnSteps, OwnStep, StepOf, Reversed, ValidPrincipal, GoodGrant;
      LastLayer(first, grants);
      EarlierAreValid(first, before);
      WalkIssued(first, before, taken + 1);
      var caller := Delegate(first, before).value;
      DelegateShape(first, before);
      assert caller.principal == if before == [] then first.principal else grants[|before| - 1].subject;
      StepOfValid(caller.principal);
      OwnStepsPush(Earlier(first, before), caller.principal);
    }
  }

  lemma {:induction false} ReversedPush<T>(s: seq<T>, x: T)
    ensures Reversed(s + [x]) == [x] + Reversed(s)
  {
    if s == [] {
    } else {
      assert (s + [x])[1..] == s[1..] + [x];
      ReversedPush(s[1..], x);
    }
  }

  lemma {:induction false} ReversedTwice<T>(s: seq<T>)
    ensures Reversed(Reversed(s)) == s
  {
    if s == [] {
    } else {
      ReversedTwice(s[1..]);
      ReversedPush(Reversed(s[1..]), s[0]);
    }
  }

  /** Every run of delegations from a directly issued token: issuing succeeds if and only if all
      subjects and lifetimes are good and the chain stays within the depth limit; the verifier then
      accepts the chain and lists exactly the earlier principals, initiator first; the subject stays
      the initiator's, and the actor, its roles and the lifetime are those of the last grant. */
  lemma DelegationsFlatten(first: Claims, grants: seq<Grant>)
    requires first.act == None && ValidPrincipal(first.principal)
    ensures Delegate(first, grants).Ok?
       <==> |grants| <= MAX_DELEGATION_DEPTH && forall i :: 0 <= i < |grants| ==> GoodGrant(grants[i])
    ensures Delegate(first, grants).Ok? ==>
              var claims := Delegate(first, grants).value;
              && claims.sub == first.sub
              && (grants != [] ==> GrantedLast(claims, grants[|grants| - 1]))
              && Flatten(claims.act).Ok? && |Flatten(claims.act).value| == |grants|
              && forall i :: 0 <= i < |grants| ==>
                   var p := if i == 0 then first.principal else grants[i - 1].subject;
                   ValidPrincipal(p) && Flatten(claims.act).value[i] == OwnStep(p)
  {
    DelegateShape(first, grants);
    if Delegate(first, grants).Ok? {
      WalkIssued(first, grants, 0);
      EarlierAreValid(first, grants);
      ReversedTwice(OwnSteps(Earlier(first, grants)));
    }
  }

  /** The card scope a verifier takes from the wire: none, or one that contains the card. */
  predicate ScopeFits(p: PrincipalRef) {
    p.card.None? || p.scope == [] || Authorizes(p.scope, p.card.value)
  }

  /** The issuer does not look at a subject's card scope. Whatever the run of delegations, the
      verifier takes the principal of the token issued last if and only if that subject's scope is
      absent or contains its card. */
  lemma IssuedSubjectVerifies(first: Claims, grants: seq<Grant>)
    requires first.act == None && grants != [] && Delegate(first, grants).Ok?
    ensures var p, subject := Delegate(first, grants).value.principal, grants[|grants| - 1].subject;
            p == subject && (WireKind(p.kind, p.card, p.scope).Ok? <==> ScopeFits(subject))
  {
    hide Delegate;
    DelegateShape(first, grants);
    assert GoodGrant(grants[|grants| - 1]);
  }

  /** A token that is issued and then refused: a service whose scope holds another card only. */
  lemma IssuedThenRefused()
    ensures exists first: Claims, grant: Grant ::
              && first.act == None && ValidPrincipal(first.principal) && Delegate(first, [grant]).Ok?
              && var p := Delegate(first, [grant]).value.principal;
                 WireKind(p.kind, p.card, p.scope) == Err(CardScopeMissingRoot)
  {
    var own := CardRef(ServiceCard, "own", "1.0.0", "prod", None);
    var other := CardRef(ServiceCard, "other", "1.0.0", "prod", None);
    var first := Claims(0, PrincipalRef(0, User, 0, None, []), [], None, 60, 0);
    var grant := Grant(PrincipalRef(1, Service, 0, Some(own), [other]), [], 0, 60);
    assert [grant][..0] == [] && Delegate(first, []) == Ok(first);
    assert Delegate(first, [grant]) == IssueDelegated(first, grant);
    assert !Authorizes([other], own);
    var p := Delegate(first, [grant]).value.principal;
    assert WireKind(p.kind, p.card, p.scope) == Err(CardScopeMissingRoot);
  }
}
