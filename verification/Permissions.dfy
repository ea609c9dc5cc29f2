/** Resource/action permissions, the covering relation, and the collection that keeps only
    permissions not covered by another. */
module Permissions {

  /** A resource or an action: one name, a choice among several, or everything. */
  datatype Term<A> = Atom(name: A) | AnyOf(terms: seq<Term<A>>) | Wildcard

  datatype ResourceName =
    | Cards | Services | Operators | Evals | Drift | Artifacts | Audit | Policy | Triggers
    | ServiceAccounts | Users | Delegation | BifrostTable | BifrostRecord | BifrostQuery
    | BifrostTracePayload | BifrostLogPayload | BifrostGenAiPayload | BifrostAgentTracePayload
    | BifrostOraclePeer

  datatype ActionName = Read | Write | Delete | Invoke | Install | Lock | Run | Issue

  datatype Permission = Permission(resource: Term<ResourceName>, action: Term<ActionName>)

  /** `Resource::covers` and `Action::covers`. */
  predicate TermCovers<A(==)>(t: Term<A>, other: Term<A>) {
    match t
    case Wildcard => true
    case AnyOf(terms) => exists i :: 0 <= i < |terms| && TermCovers(terms[i], other)
    case Atom(_) => t == other
  }

  predicate Covers(p: Permission, required: Permission) {
    TermCovers(p.resource, required.resource) && TermCovers(p.action, required.action)
  }

  // ---- What covering comes down to ----

  predicate HasWildcard<A>(t: Term<A>) {
    match t
    case Wildcard => true
    case AnyOf(terms) => exists i :: 0 <= i < |terms| && HasWildcard(terms[i])
    case Atom(_) => false
  }

  predicate HasAtom<A(==)>(t: Term<A>, name: A) {
    match t
    case Wildcard => false
    case AnyOf(terms) => exists i :: 0 <= i < |terms| && HasAtom(terms[i], name)
    case Atom(n) => n == name
  }

  /** A term covers another exactly when a wildcard is somewhere in it, or the other is a single name
      found somewhere in it, however deep the choices are nested. */
  lemma {:induction false} CoversByContent<A>(t: Term<A>, other: Term<A>)
    ensures TermCovers(t, other) <==> HasWildcard(t) || (other.Atom? && HasAtom(t, other.name))
  {
    if t.AnyOf? {
      forall i | 0 <= i < |t.terms|
        ensures TermCovers(t.terms[i], other) <==>
                  HasWildcard(t.terms[i]) || (other.Atom? && HasAtom(t.terms[i], other.name))
      {
        CoversByContent(t.terms[i], other);
      }
    }
  }

  /** What a permission grants, by what its two terms hold: for the resource and for the action alike, a
      wildcard somewhere or the one name asked for somewhere. */
  predicate Grants(p: Permission, required: Permission) {
    && (HasWildcard(p.resource) || (required.resource.Atom? && HasAtom(p.resource, required.resource.name)))
    && (HasWildcard(p.action) || (required.action.Atom? && HasAtom(p.action, required.action.name)))
  }

  lemma CoversBoth(p: Permission, required: Permission)
    ensures Covers(p, required) <==> Grants(p, required)
  {
    CoversByContent(p.resource, required.resource);
    CoversByContent(p.action, required.action);
  }

  /** Some permission of a list grants it. */
  predicate SomeGrants(ps: seq<Permission>, required: Permission) {
    exists i :: 0 <= i < |ps| && Grants(ps[i], required)
  }

  lemma AnswersByContent(ps: seq<Permission>, required: Permission)
    ensures Answers(ps, required) <==> SomeGrants(ps, required)
  {
    hide Covers, Grants;
    forall i | 0 <= i < |ps| ensures Covers(ps[i], required) <==> Grants(ps[i], required) {
      CoversBoth(ps[i], required);
    }
  }

  lemma TermTransitive<A>(a: Term<A>, b: Term<A>, c: Term<A>)
    requires TermCovers(a, b) && TermCovers(b, c)
    ensures TermCovers(a, c)
  {
    CoversByContent(a, b);
    CoversByContent(b, c);
    CoversByContent(a, c);
  }

  /** Covering is transitive over nested choices. */
  lemma CoversTransitive(a: Permission, b: Permission, c: Permission)
    requires Covers(a, b) && Covers(b, c)
    ensures Covers(a, c)
  {
    TermTransitive(a.resource, b.resource, c.resource);
    TermTransitive(a.action, b.action, c.action);
  }

  /** Covering is not reflexive: a term covers itself exactly when it is a name or has a wildcard in
      it, so a choice of names does not. */
  lemma CoversItself<A>(t: Term<A>)
    ensures TermCovers(t, t) <==> t.Atom? || HasWildcard(t)
  {
    CoversByContent(t, t);
  }

  // ---- The collection ----

  predicate Answers(set_: seq<Permission>, required: Permission) {
    exists i :: 0 <= i < |set_| && Covers(set_[i], required)
  }

  /** The members `p` does not cover, in order. */
  function Retain(set_: seq<Permission>, p: Permission): seq<Permission> {
    if set_ == [] then []
    else
      var n := |set_| - 1;
      Retain(set_[..n], p) + if Covers(p, set_[n]) then [] else [set_[n]]
  }

  /** `PermissionSet::insert`. */
  function Inserted(set_: seq<Permission>, p: Permission): seq<Permission> {
    if Answers(set_, p) then set_ else Retain(set_, p) + [p]
  }

  /** `PermissionSet::from_iter`. */
  function FromSeq(ps: seq<Permission>): seq<Permission> {
    if ps == [] then [] else Inserted(FromSeq(ps[..|ps| - 1]), ps[|ps| - 1])
  }

  /** No member covers another at a different position. */
  predicate Minimal(set_: seq<Permission>) {
    forall i, j :: 0 <= i < |set_| && 0 <= j < |set_| && i != j ==> !Covers(set_[i], set_[j])
  }

  /** Where the retained members come from: positions in order, all and only the uncovered ones. */
  lemma {:induction false} RetainPicks(set_: seq<Permission>, p: Permission) returns (from: seq<nat>)
    ensures var kept := Retain(set_, p);
            && |from| == |kept|
            && (forall i :: 0 <= i < |from| ==> from[i] < |set_| && kept[i] == set_[from[i]] && !Covers(p, kept[i]))
            && (forall i, j :: 0 <= i < j < |from| ==> from[i] < from[j])
            && (forall k :: 0 <= k < |set_| && !Covers(p, set_[k]) ==> k in from)
  {
    if set_ == [] {
      return [];
    }
    var n := |set_| - 1;
    from := RetainPicks(set_[..n], p);
    if !Covers(p, set_[n]) {
      from := from + [n];
    }
  }

  /** An insertion adds to what is answered exactly what the new permission covers. */
  lemma InsertAnswers(set_: seq<Permission>, p: Permission, r: Permission)
    ensures Answers(Inserted(set_, p), r) <==> Answers(set_, r) || Covers(p, r)
  {
    if Answers(set_, p) {
      if Covers(p, r) {
        var i :| 0 <= i < |set_| && Covers(set_[i], p);
        CoversTransitive(set_[i], p, r);
      }
    } else {
      var kept := Retain(set_, p);
      var from := RetainPicks(set_, p);
      assert (kept + [p])[|kept|] == p;
      if Answers(set_, r) {
        var k :| 0 <= k < |set_| && Covers(set_[k], r);
        if Covers(p, set_[k]) {
          CoversTransitive(p, set_[k], r);
        } else {
          var i :| 0 <= i < |from| && from[i] == k;
          assert (kept + [p])[i] == set_[k];
        }
      }
      if Answers(kept + [p], r) && !Covers(p, r) {
        var i :| 0 <= i < |kept + [p]| && Covers((kept + [p])[i], r);
        assert set_[from[i]] == kept[i];
      }
    }
  }

  /** What an insertion leaves: everything, if the new permission is granted already; otherwise, in their
      order, those it does not grant, and then itself. */
  lemma InsertExactly(set_: seq<Permission>, p: Permission)
    ensures if SomeGrants(set_, p) then Inserted(set_, p) == set_
            else exists from: seq<nat> ::
                   PicksUngranted(set_, p, from) && Inserted(set_, p) == Picked(set_, from) + [p]
  {
    AnswersByContent(set_, p);
    var from := RetainPicks(set_, p);
    hide Covers, Grants;
    forall k | 0 <= k < |set_| ensures Covers(p, set_[k]) <==> Grants(p, set_[k]) {
      CoversBoth(p, set_[k]);
    }
    assert PicksUngranted(set_, p, from);
    assert Retain(set_, p) == Picked(set_, from);
  }

  /** The members at the positions given. */
  function Picked(set_: seq<Permission>, from: seq<nat>): seq<Permission>
    requires forall i :: 0 <= i < |from| ==> from[i] < |set_|
  {
    seq(|from|, i requires 0 <= i < |from| => set_[from[i]])
  }

  /** Exactly the positions of members that `p` does not grant, in order. */
  predicate PicksUngranted(set_: seq<Permission>, p: Permission, from: seq<nat>) {
    && (forall i :: 0 <= i < |from| ==> from[i] < |set_| && !Grants(p, set_[from[i]]))
    && (forall i, j :: 0 <= i < j < |from| ==> from[i] < from[j])
    && (forall k :: 0 <= k < |set_| && !Grants(p, set_[k]) ==> k in from)
  }

  lemma InsertKeepsMinimal(set_: seq<Permission>, p: Permission)
    requires Minimal(set_)
    ensures Minimal(Inserted(set_, p))
  {
    if !Answers(set_, p) {
      var kept := Retain(set_, p);
      var from := RetainPicks(set_, p);
      forall i, j | 0 <= i < |kept + [p]| && 0 <= j < |kept + [p]| && i != j
        ensures !Covers((kept + [p])[i], (kept + [p])[j])
      {
        if i < |kept| && j < |kept| {
          assert from[i] != from[j];
          assert !Covers(set_[from[i]], set_[from[j]]);
        } else if i < |kept| {
          assert !Covers(set_[from[i]], p);
        }
      }
    }
  }

  lemma AnswersPush(ps: seq<Permission>, p: Permission, r: Permission)
    ensures Answers(ps + [p], r) <==> Answers(ps, r) || Covers(p, r)
  {
    hide Covers;
    assert (ps + [p])[|ps|] == p;
    if Answers(ps, r) {
      var i :| 0 <= i < |ps| && Covers(ps[i], r);
      assert Covers((ps + [p])[i], r);
    }
  }

  /** The collection built from any list answers exactly what some listed permission grants. */
  lemma SetAnswers(ps: seq<Permission>, r: Permission)
    ensures Answers(FromSeq(ps), r) <==> SomeGrants(ps, r)
  {
    hide Answers, SomeGrants;
    SetAnswersListed(ps, r);
    AnswersByContent(ps, r);
  }

  lemma {:induction false} SetAnswersListed(ps: seq<Permission>, r: Permission)
    ensures Answers(FromSeq(ps), r) <==> Answers(ps, r)
  {
    hide Covers, Inserted, Answers;
    if ps == [] {
    } else {
      var n := |ps| - 1;
      SetAnswersListed(ps[..n], r);
      InsertAnswers(FromSeq(ps[..n]), ps[n], r);
      AnswersPush(ps[..n], ps[n], r);
      assert ps == ps[..n] + [ps[n]];
    }
  }

  /** No permission stored in it covers another. */
  lemma {:induction false} SetIsMinimal(ps: seq<Permission>)
    ensures Minimal(FromSeq(ps))
  {
    hide Covers, Inserted;
    if ps == [] {
    } else {
      SetIsMinimal(ps[..|ps| - 1]);
      InsertKeepsMinimal(FromSeq(ps[..|ps| - 1]), ps[|ps| - 1]);
    }
  }

  /** The order of insertion does not matter to any answer. */
  lemma OrderDoesNotMatter(ps: seq<Permission>, qs: seq<Permission>, r: Permission)
    requires multiset(ps) == multiset(qs)
    ensures Answers(FromSeq(ps), r) <==> Answers(FromSeq(qs), r)
  {
    hide Grants;
    SetAnswers(ps, r);
    SetAnswers(qs, r);
    forall i | 0 <= i < |ps| ensures ps[i] in qs {
      assert ps[i] in multiset(ps);
    }
    forall i | 0 <= i < |qs| ensures qs[i] in ps {
      assert qs[i] in multiset(qs);
    }
  }

  /** The collection as the program keeps it. */
  class PermissionSet {
    var members: seq<Permission>

    constructor ()
      ensures members == []
    {
      members := [];
    }

    /** Build a set from a list, one insertion after another. */
    constructor FromIter(ps: seq<Permission>)
      ensures members == FromSeq(ps)
    {
      members := [];
      new;
      for i := 0 to |ps|
        invariant members == FromSeq(ps[..i])
      {
        assert ps[..i + 1][..i] == ps[..i];
        Insert(ps[i]);
      }
      assert ps[..|ps|] == ps;
    }

    method Insert(p: Permission)
      modifies this
      ensures members == Inserted(old(members), p)
    {
      var covered := Contains(p);
      AnswersByContent(members, p);
      if covered {
        return;
      }
      var kept: seq<Permission> := [];
      for i := 0 to |members|
        invariant members == old(members) && kept == Retain(members[..i], p)
      {
        assert members[..i + 1][..i] == members[..i];
        if !Covers(p, members[i]) {
          kept := kept + [members[i]];
        }
      }
      assert members[..|members|] == members;
      members := kept + [p];
    }

    method Contains(required: Permission) returns (yes: bool)
      ensures yes <==> SomeGrants(members, required)
    {
      AnswersByContent(members, required);
      for i := 0 to |members|
        invariant forall j :: 0 <= j < i ==> !Covers(members[j], required)
      {
        if Covers(members[i], required) {
          return true;
        }
      }
      return false;
    }
  }
}
