/** When the mapper ends: exactly when following references never leads back to a definition, along the
    positions it actually looks at. */
module JsonCycles {
  import opened Wrappers
  import opened ArrowTypes
  import opened JsonSchema
  import opened JsonInline
  import opened JsonRender
  import opened JsonExact

  // ---- More hops change no answer ----

  lemma {:induction false} OneHopMore(v: Json, defs: map<string, Json>, n: nat)
    ensures MapWithin(v, defs, n).Some? ==> MapWithin(v, defs, n + 1) == MapWithin(v, defs, n)
    decreases n, Size(v), 0
  {
    if StrAt(v, "$ref").Some? {
      if TargetIn(v, defs).Some? && n > 0 {
        OneHopMore(defs[TargetIn(v, defs).value], defs, n - 1);
      }
    } else if Get(v, "anyOf").Some? && Get(v, "anyOf").value.Arr? {
      var branch := FirstNonNull(Get(v, "anyOf").value.items);
      if branch.Some? {
        OneHopMore(branch.value, defs, n);
      }
    } else if StrAt(v, "type") == Some("array") {
      if Get(v, "items").Some? {
        OneHopMore(Get(v, "items").value, defs, n);
      }
    } else if StrAt(v, "type") == Some("object") {
      if Get(v, "properties").Some? && Get(v, "properties").value.Obj? {
        OneHopMoreProps(Get(v, "properties").value.members, Required(v), defs, n);
      }
    }
  }

  lemma {:induction false} OneHopMoreProps(
    props: seq<Member>, required: Option<set<string>>, defs: map<string, Json>, n: nat)
    ensures PropsWithin(props, required, defs, n).Some? ==>
              PropsWithin(props, required, defs, n + 1) == PropsWithin(props, required, defs, n)
    decreases n, SizeMembers(props), 0
  {
    if props == [] {
    } else {
      OneHopMore(props[0].value, defs, n);
      OneHopMoreProps(props[1..], required, defs, n);
    }
  }

  lemma {:induction false} MoreHops(v: Json, defs: map<string, Json>, n: nat, m: nat)
    requires n <= m && MapWithin(v, defs, n).Some?
    ensures MapWithin(v, defs, m) == MapWithin(v, defs, n)
    decreases m - n
  {
    hide MapWithin;
    if n < m {
      OneHopMore(v, defs, n);
      MoreHops(v, defs, n + 1, m);
    }
  }

  lemma {:induction false} MoreHopsProps(
    props: seq<Member>, required: Option<set<string>>, defs: map<string, Json>, n: nat, m: nat)
    requires n <= m && PropsWithin(props, required, defs, n).Some?
    ensures PropsWithin(props, required, defs, m) == PropsWithin(props, required, defs, n)
    decreases m - n
  {
    hide PropsWithin;
    if n < m {
      OneHopMoreProps(props, required, defs, n);
      MoreHopsProps(props, required, defs, n + 1, m);
    }
  }

  // ---- On ranked definitions the rank is enough ----

  /** Where definitions are ranked, as many hops as the rank give the answer of the ranked mapper. */
  lemma {:induction false} RankedEnds(v: Json, sc: Scope, r: nat)
    requires Acyclic(sc) && Below(v, sc, r)
    ensures MapWithin(v, sc.defs, r) == Some(MapType(v, sc, r))
    decreases r, Size(v), 0
  {
    if StrAt(v, "$ref").Some? {
      if Target(v, sc).Some? {
        var name := Target(v, sc).value;
        RankedEnds(sc.defs[name], sc, sc.rank(name));
        MoreHops(sc.defs[name], sc.defs, sc.rank(name), r - 1);
      }
    } else if Get(v, "anyOf").Some? && Get(v, "anyOf").value.Arr? {
      var items := Get(v, "anyOf").value.items;
      BelowLookup(v.members, "anyOf", sc, r);
      if FirstNonNull(items).Some? {
        BelowFirstNonNull(items, sc, r);
        RankedEnds(FirstNonNull(items).value, sc, r);
      }
    } else if StrAt(v, "type") == Some("array") {
      if Get(v, "items").Some? {
        BelowLookup(v.members, "items", sc, r);
        RankedEnds(Get(v, "items").value, sc, r);
      }
    } else if StrAt(v, "type") == Some("object") {
      if Get(v, "properties").Some? && Get(v, "properties").value.Obj? {
        BelowLookup(v.members, "properties", sc, r);
        RankedPropsEnd(Get(v, "properties").value.members, Required(v), sc, r);
      }
    }
  }

  lemma {:induction false} RankedPropsEnd(props: seq<Member>, required: Option<set<string>>, sc: Scope, r: nat)
    requires Acyclic(sc) && BelowProps(props, sc, r)
    ensures PropsWithin(props, required, sc.defs, r) == Some(MapProps(props, required, sc, r))
    decreases r, SizeMembers(props), 0
  {
    if props == [] {
    } else {
      RankedEnds(props[0].value, sc, r);
      RankedPropsEnd(props[1..], required, sc, r);
    }
  }

  // ---- What the mapper follows ----

  ghost predicate Ends(v: Json, defs: map<string, Json>) {
    exists n: nat :: MapWithin(v, defs, n).Some?
  }

  ghost predicate PropsEnd(props: seq<Member>, required: Option<set<string>>, defs: map<string, Json>) {
    exists n: nat :: PropsWithin(props, required, defs, n).Some?
  }

  ghost predicate Maps(v: Json, defs: map<string, Json>) {
    exists n: nat :: MapWithin(v, defs, n).Some? && MapWithin(v, defs, n).value.Ok?
  }

  /** The definitions mapping a node turns to, before any of theirs: the one it refers to; those of its
      first branch that is not null; those of its items; those of its properties, up to and including
      the first that does not map. */
  ghost function Asks(v: Json, defs: map<string, Json>): set<string>
    decreases Size(v), 0
  {
    if StrAt(v, "$ref").Some? then (if TargetIn(v, defs).Some? then {TargetIn(v, defs).value} else {})
    else if Get(v, "anyOf").Some? && Get(v, "anyOf").value.Arr? then
      match FirstNonNull(Get(v, "anyOf").value.items)
      case None => {}
      case Some(branch) => Asks(branch, defs)
    else if StrAt(v, "type") == Some("array") then
      match Get(v, "items")
      case None => {}
      case Some(items) => Asks(items, defs)
    else if StrAt(v, "type") == Some("object") then
      match Get(v, "properties")
      case Some(Obj(props)) => AsksProps(props, defs)
      case _ => {}
    else {}
  }

  ghost function AsksProps(props: seq<Member>, defs: map<string, Json>): set<string>
    decreases SizeMembers(props), 0
  {
    if props == [] then {}
    else Asks(props[0].value, defs) + if Maps(props[0].value, defs) then AsksProps(props[1..], defs) else {}
  }

  lemma MapsAt(v: Json, defs: map<string, Json>, n: nat)
    requires Maps(v, defs) && MapWithin(v, defs, n).Some?
    ensures MapWithin(v, defs, n).value.Ok?
  {
    hide MapWithin;
    var m: nat :| MapWithin(v, defs, m).Some? && MapWithin(v, defs, m).value.Ok?;
    if n <= m {
      MoreHops(v, defs, n, m);
    } else {
      MoreHops(v, defs, m, n);
    }
  }

  /** If mapping a node ends, so does mapping each definition it turns to, with a hop less. */
  lemma {:induction false} AskedEnds(v: Json, defs: map<string, Json>, n: nat, name: string)
    requires MapWithin(v, defs, n).Some? && name in Asks(v, defs)
    ensures name in defs && n > 0 && MapWithin(defs[name], defs, n - 1).Some?
    decreases Size(v), 0
  {
    if StrAt(v, "$ref").Some? {
    } else if Get(v, "anyOf").Some? && Get(v, "anyOf").value.Arr? {
      AskedEnds(FirstNonNull(Get(v, "anyOf").value.items).value, defs, n, name);
    } else if StrAt(v, "type") == Some("array") {
      AskedEnds(Get(v, "items").value, defs, n, name);
    } else {
      AskedPropsEnd(Get(v, "properties").value.members, Required(v), defs, n, name);
    }
  }

  lemma {:induction false} AskedPropsEnd(
    props: seq<Member>, required: Option<set<string>>, defs: map<string, Json>, n: nat, name: string)
    requires PropsWithin(props, required, defs, n).Some? && name in AsksProps(props, defs)
    ensures name in defs && n > 0 && MapWithin(defs[name], defs, n - 1).Some?
    decreases SizeMembers(props), 0
  {
    if name in Asks(props[0].value, defs) {
      AskedEnds(props[0].value, defs, n, name);
    } else {
      MapsAt(props[0].value, defs, n);
      AskedPropsEnd(props[1..], required, defs, n, name);
    }
  }

  /** If it does not end, neither does mapping one of the definitions it turns to. */
  lemma {:induction false} EndlessAsks(v: Json, defs: map<string, Json>) returns (name: string)
    requires !Ends(v, defs)
    ensures name in Asks(v, defs) && name in defs && !Ends(defs[name], defs)
    decreases Size(v), 0
  {
    assert MapWithin(v, defs, 0).None?;
    if StrAt(v, "$ref").Some? {
      name := TargetIn(v, defs).value;
      forall n: nat ensures MapWithin(defs[name], defs, n).None? {
        assert MapWithin(v, defs, n + 1).None?;
      }
    } else if Get(v, "anyOf").Some? && Get(v, "anyOf").value.Arr? {
      var branch := FirstNonNull(Get(v, "anyOf").value.items).value;
      forall n: nat ensures MapWithin(branch, defs, n).None? {
        assert MapWithin(v, defs, n).None?;
      }
      name := EndlessAsks(branch, defs);
    } else if StrAt(v, "type") == Some("array") {
      var items := Get(v, "items").value;
      forall n: nat ensures MapWithin(items, defs, n).None? {
        assert MapWithin(v, defs, n).None?;
      }
      name := EndlessAsks(items, defs);
    } else {
      assert BuildWithin(v, defs, 0).None?;
      var props := Get(v, "properties").value.members;
      forall n: nat ensures PropsWithin(props, Required(v), defs, n).None? {
        assert MapWithin(v, defs, n).None?;
        assert BuildWithin(v, defs, n).None?;
      }
      name := EndlessPropsAsk(props, Required(v), defs);
    }
  }

  lemma {:induction false} EndlessPropsAsk(props: seq<Member>, required: Option<set<string>>, defs: map<string, Json>)
    returns (name: string)
    requires !PropsEnd(props, required, defs)
    ensures name in AsksProps(props, defs) && name in defs && !Ends(defs[name], defs)
    decreases SizeMembers(props), 0
  {
    assert PropsWithin(props, required, defs, 0).None?;
    if !Ends(props[0].value, defs) {
      name := EndlessAsks(props[0].value, defs);
    } else {
      FirstMaps(props, required, defs);
      name := EndlessPropsAsk(props[1..], required, defs);
    }
  }

  lemma FirstMaps(props: seq<Member>, required: Option<set<string>>, defs: map<string, Json>)
    requires props != [] && Ends(props[0].value, defs) && !PropsEnd(props, required, defs)
    ensures Maps(props[0].value, defs) && !PropsEnd(props[1..], required, defs)
  {
    var n: nat :| MapWithin(props[0].value, defs, n).Some?;
    assert PropsWithin(props, required, defs, n).None?;
    assert MapWithin(props[0].value, defs, n).value.Ok?;
    forall m: nat ensures PropsWithin(props[1..], required, defs, m).None? {
      if PropsWithin(props[1..], required, defs, m).Some? {
        var k := if n < m then m else n;
        MoreHops(props[0].value, defs, n, k);
        MoreHopsProps(props[1..], required, defs, m, k);
        assert PropsWithin(props, required, defs, k).None?;
      }
    }
  }

  // ---- Paths ----

  /** A path of definitions, each one turned to in mapping the one before. */
  ghost predicate Follows(v: Json, defs: map<string, Json>, path: seq<string>)
    decreases |path|
  {
    path == [] || (path[0] in Asks(v, defs) && path[0] in defs && Follows(defs[path[0]], defs, path[1..]))
  }

  ghost predicate Revisits(path: seq<string>) {
    exists i, j :: 0 <= i < j < |path| && path[i] == path[j]
  }

  lemma {:induction false} PathEnds(v: Json, defs: map<string, Json>, n: nat, path: seq<string>, k: nat)
    requires MapWithin(v, defs, n).Some? && Follows(v, defs, path) && k < |path|
    ensures k < n && path[k] in defs && MapWithin(defs[path[k]], defs, n - 1 - k).Some?
    decreases k
  {
    hide MapWithin, Asks;
    AskedEnds(v, defs, n, path[0]);
    if k > 0 {
      PathEnds(defs[path[0]], defs, n - 1, path[1..], k - 1);
    }
  }

  lemma {:induction false} PathFrom(v: Json, defs: map<string, Json>, path: seq<string>, i: nat)
    requires Follows(v, defs, path) && i < |path|
    ensures path[i] in defs && Follows(defs[path[i]], defs, path[i + 1..])
    decreases i
  {
    hide Asks;
    if i > 0 {
      PathFrom(defs[path[0]], defs, path[1..], i - 1);
      assert path[1..][i..] == path[i + 1..];
    }
  }

  lemma {:induction false} PathUpTo(v: Json, defs: map<string, Json>, path: seq<string>, m: nat)
    requires Follows(v, defs, path) && m <= |path|
    ensures Follows(v, defs, path[..m])
    decreases m
  {
    hide Asks;
    if m > 0 {
      PathUpTo(defs[path[0]], defs, path[1..], m - 1);
      assert path[..m][1..] == path[1..][..m - 1];
    }
  }

  /** A definition that leads back to itself is mapped within no number of hops. */
  lemma {:induction false} LoopNeverEnds(name: string, defs: map<string, Json>, path: seq<string>, n: nat)
    requires name in defs && path != [] && path[|path| - 1] == name && Follows(defs[name], defs, path)
    ensures MapWithin(defs[name], defs, n).None?
    decreases n
  {
    hide MapWithin, Follows;
    if MapWithin(defs[name], defs, n).Some? {
      PathEnds(defs[name], defs, n, path, |path| - 1);
      LoopNeverEnds(name, defs, path, n - |path|);
    }
  }

  lemma {:induction false} LongPath(v: Json, defs: map<string, Json>, k: nat) returns (path: seq<string>)
    requires !Ends(v, defs)
    ensures |path| == k && Follows(v, defs, path)
    decreases k
  {
    hide Ends, Asks;
    if k == 0 {
      path := [];
    } else {
      var name := EndlessAsks(v, defs);
      var rest := LongPath(defs[name], defs, k - 1);
      path := [name] + rest;
      assert path[1..] == rest;
    }
  }

  lemma {:induction false} OnePerName(path: seq<string>, names: set<string>)
    requires !Revisits(path) && forall k :: 0 <= k < |path| ==> path[k] in names
    ensures |path| <= |names|
    decreases |path|
  {
    if path == [] {
    } else {
      var rest := path[1..];
      forall k | 0 <= k < |rest| ensures rest[k] in names - {path[0]} {
        assert path[k + 1] == rest[k] && path[0] != path[k + 1];
      }
      assert forall i, j :: 0 <= i < j < |rest| ==> path[i + 1] == rest[i] && path[j + 1] == rest[j];
      OnePerName(rest, names - {path[0]});
    }
  }

  lemma {:induction false} PathIsOfDefs(v: Json, defs: map<string, Json>, path: seq<string>)
    requires Follows(v, defs, path)
    ensures forall k :: 0 <= k < |path| ==> path[k] in defs
    decreases |path|
  {
    hide Asks;
    if path == [] {
    } else {
      PathIsOfDefs(defs[path[0]], defs, path[1..]);
      assert forall k :: 1 <= k < |path| ==> path[k] == path[1..][k - 1];
    }
  }

  /** Mapping a node ends if and only if no path of definitions it follows comes to one of them twice.
      Along positions it does not look at, references may go round as they please. */
  lemma EndsUnlessRevisiting(v: Json, defs: map<string, Json>)
    ensures Ends(v, defs) <==> !exists path :: Follows(v, defs, path) && Revisits(path)
  {
    hide Follows, Revisits, MapWithin;
    if Ends(v, defs) {
      var n: nat :| MapWithin(v, defs, n).Some?;
      forall path | Follows(v, defs, path) ensures !Revisits(path) {
        if Revisits(path) {
          RevisitNeverEnds(v, defs, path, n);
        }
      }
    } else {
      var path := LongPath(v, defs, |defs.Keys| + 1);
      PathIsOfDefs(v, defs, path);
      if !Revisits(path) {
        OnePerName(path, defs.Keys);
      }
    }
  }

  lemma RevisitNeverEnds(v: Json, defs: map<string, Json>, path: seq<string>, n: nat)
    requires Follows(v, defs, path) && Revisits(path)
    ensures MapWithin(v, defs, n).None?
  {
    hide Follows, MapWithin;
    var i, j :| 0 <= i < j < |path| && path[i] == path[j];
    PathFrom(v, defs, path, i);
    var loop := path[i + 1..][..j - i];
    PathUpTo(defs[path[i]], defs, path[i + 1..], j - i);
    assert loop[|loop| - 1] == path[j];
    if MapWithin(v, defs, n).Some? {
      PathEnds(v, defs, n, path, i);
      LoopNeverEnds(path[i], defs, loop, n - 1 - i);
    }
  }

  // ---- Two inputs ----

  lemma {:induction false} SelfRefWithin(n: nat)
    ensures MapWithin(Ref("N"), map["N" := Ref("N")], n).None?
    decreases n
  {
    RefShows("N", Scope(map["N" := Ref("N")], _ => 0));
    if n == 0 {
    } else {
      SelfRefWithin(n - 1);
    }
  }

  /** A definition that is a reference to itself is never mapped. */
  lemma SelfRefNeverEnds()
    ensures !Ends(Ref("N"), map["N" := Ref("N")])
  {
    forall n: nat ensures MapWithin(Ref("N"), map["N" := Ref("N")], n).None? {
      SelfRefWithin(n);
    }
  }

  /** A definition that refers to itself where the mapper does not look is mapped at once, although no
      ranking makes it acyclic. */
  lemma SkippedRefEnds()
    ensures var defs := map["N" := ChoiceOf(Typed("string"), Ref("N"))];
            && MapWithin(Ref("N"), defs, 1) == Some(Ok(Utf8))
            && forall rank: string -> nat :: !Acyclic(Scope(defs, rank))
  {
    var def := ChoiceOf(Typed("string"), Ref("N"));
    var defs := map["N" := def];
    var sc := Scope(defs, _ => 0);
    RefShows("N", sc);
    TypedShows("string", sc, 0);
    ChoiceShows(Typed("string"), Ref("N"));
    assert MapWithin(Typed("string"), defs, 0) == Some(Ok(Utf8));
    assert MapWithin(def, defs, 0) == Some(Ok(Utf8));
    forall rank: string -> nat ensures !Acyclic(Scope(defs, rank)) {
      SelfChoiceIsCyclic(Scope(defs, rank));
    }
  }

  lemma SelfChoiceIsCyclic(sc: Scope)
    requires sc.defs == map["N" := ChoiceOf(Typed("string"), Ref("N"))]
    ensures !Acyclic(sc)
  {
    var def, r := sc.defs["N"], sc.rank("N");
    RefShows("N", sc);
    TwoItems(Typed("string"), Ref("N"), sc, r);
    OneMember(Member("anyOf", Arr([Typed("string"), Ref("N")])), sc, r);
    assert !Below(Ref("N"), sc, r);
    assert !Below(def, sc, r);
  }
}
