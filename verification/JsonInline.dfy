/** Inlining `$defs` before mapping gives the same column types as resolving references while mapping. */
module JsonInline {
  import opened Wrappers
  import opened ArrowTypes
  import opened JsonSchema

  // ---- Inlining ----

  /** Replace every resolving reference in schema position by its definition, inlined in turn. */
  function Inline(v: Json, sc: Scope, r: nat): Json
    requires Acyclic(sc) && Below(v, sc, r)
    decreases r, Size(v), 1
  {
    if Target(v, sc).Some? then
      var name := Target(v, sc).value;
      Inline(sc.defs[name], sc, sc.rank(name))
    else if v.Obj? then Obj(InlineMembers(v.members, sc, r))
    else v
  }

  function InlineMembers(members: seq<Member>, sc: Scope, r: nat): seq<Member>
    requires Acyclic(sc) && BelowMembers(members, sc, r)
    decreases r, SizeMembers(members), 0
  {
    if members == [] then [] else [InlineMember(members[0], sc, r)] + InlineMembers(members[1..], sc, r)
  }

  function InlineMember(m: Member, sc: Scope, r: nat): Member
    requires Acyclic(sc) && BelowMember(m, sc, r)
    decreases r, Size(m.value), 2
  {
    if m.key == "anyOf" && m.value.Arr? then Member(m.key, Arr(InlineAll(m.value.items, sc, r)))
    else if m.key == "items" then Member(m.key, Inline(m.value, sc, r))
    else if m.key == "properties" && m.value.Obj? then Member(m.key, Obj(InlineProps(m.value.members, sc, r)))
    else m
  }

  function InlineAll(items: seq<Json>, sc: Scope, r: nat): seq<Json>
    requires Acyclic(sc) && BelowAll(items, sc, r)
    decreases r, SizeAll(items), 2
  {
    if items == [] then [] else [Inline(items[0], sc, r)] + InlineAll(items[1..], sc, r)
  }

  function InlineProps(props: seq<Member>, sc: Scope, r: nat): seq<Member>
    requires Acyclic(sc) && BelowProps(props, sc, r)
    decreases r, SizeMembers(props), 0
  {
    if props == [] then [] else [Member(props[0].key, Inline(props[0].value, sc, r))] + InlineProps(props[1..], sc, r)
  }

  // ---- Where it is sound ----

  /** In schema position, a node that is a reference is nothing but a reference. */
  predicate Bare(v: Json)
    decreases Size(v), 1
  {
    v.Obj? ==> (StrAt(v, "$ref").Some? ==> |v.members| == 1) && BareMembers(v.members)
  }

  predicate BareMembers(members: seq<Member>)
    decreases SizeMembers(members), 0
  {
    members == [] || (BareMember(members[0]) && BareMembers(members[1..]))
  }

  predicate BareMember(m: Member)
    decreases Size(m.value), 2
  {
    if m.key == "anyOf" then m.value.Arr? ==> BareAll(m.value.items)
    else if m.key == "items" then Bare(m.value)
    else if m.key == "properties" then m.value.Obj? ==> BareProps(m.value.members)
    else true
  }

  predicate BareAll(items: seq<Json>)
    decreases SizeAll(items), 2
  {
    items == [] || (Bare(items[0]) && BareAll(items[1..]))
  }

  predicate BareProps(props: seq<Member>)
    decreases SizeMembers(props), 0
  {
    props == [] || (Bare(props[0].value) && BareProps(props[1..]))
  }

  ghost predicate BareDefs(sc: Scope) {
    forall name :: name in sc.defs ==> Bare(sc.defs[name])
  }

  /** No definition is the null type, and none that maps is an optional: those the mapper recognises
      only where they stand, not behind a reference. */
  ghost predicate Transparent(sc: Scope)
    requires Acyclic(sc)
  {
    forall name :: name in sc.defs ==>
      && !IsNullTyped(sc.defs[name])
      && (MapType(sc.defs[name], sc, sc.rank(name)).Ok? ==> !IsOptional(sc.defs[name]))
  }

  ghost predicate Good(sc: Scope) {
    Acyclic(sc) && BareDefs(sc) && Transparent(sc)
  }

  // ---- What a node shows before and after ----

  lemma {:induction false} LookupInlined(members: seq<Member>, key: string, sc: Scope, r: nat)
    requires Acyclic(sc) && BelowMembers(members, sc, r)
    ensures Lookup(members, key).None? ==> Lookup(InlineMembers(members, sc, r), key).None?
    ensures Lookup(members, key).Some? ==>
              && BelowMember(Member(key, Lookup(members, key).value), sc, r)
              && Lookup(InlineMembers(members, sc, r), key)
                 == Some(InlineMember(Member(key, Lookup(members, key).value), sc, r).value)
    decreases |members|
  {
    if members == [] {
    } else {
      var rest := InlineMembers(members[1..], sc, r);
      assert ([InlineMember(members[0], sc, r)] + rest)[1..] == rest;
      assert members[0] == Member(members[0].key, members[0].value);
      if members[0].key != key {
        LookupInlined(members[1..], key, sc, r);
      }
    }
  }

  /** Members the inliner does not rewrite. */
  predicate Untouched(key: string) {
    key != "anyOf" && key != "items" && key != "properties"
  }

  lemma GetInlined(v: Json, key: string, sc: Scope, r: nat)
    requires Acyclic(sc) && Below(v, sc, r) && Target(v, sc).None?
    ensures Untouched(key) ==> Get(Inline(v, sc, r), key) == Get(v, key)
    ensures Get(v, key).None? <==> Get(Inline(v, sc, r), key).None?
    ensures Get(v, key).Some? ==>
              && v.Obj? && BelowMember(Member(key, Get(v, key).value), sc, r)
              && Get(Inline(v, sc, r), key) == Some(InlineMember(Member(key, Get(v, key).value), sc, r).value)
  {
    if v.Obj? {
      LookupInlined(v.members, key, sc, r);
    }
  }

  /** A reference node shows no type and no branches. */
  lemma RefShowsNothing(v: Json, key: string)
    requires Bare(v) && StrAt(v, "$ref").Some? && key != "$ref"
    ensures Get(v, key).None?
  {
    assert v.members[1..] == [];
    assert Lookup(v.members[1..], "$ref").None? && Lookup(v.members[1..], key).None?;
  }

  lemma {:induction false} NullTypeInlined(v: Json, sc: Scope, r: nat)
    requires Good(sc) && Below(v, sc, r) && Bare(v)
    ensures IsNullTyped(Inline(v, sc, r)) == IsNullTyped(v)
    decreases r
  {
    if Target(v, sc).Some? {
      var name := Target(v, sc).value;
      RefShowsNothing(v, "type");
      NullTypeInlined(sc.defs[name], sc, sc.rank(name));
    } else {
      GetInlined(v, "type", sc, r);
    }
  }

  lemma {:induction false} AnyNullInlined(items: seq<Json>, sc: Scope, r: nat)
    requires Good(sc) && BelowAll(items, sc, r) && BareAll(items)
    ensures AnyNull(InlineAll(items, sc, r)) == AnyNull(items)
    decreases |items|
  {
    if items == [] {
    } else {
      var rest := InlineAll(items[1..], sc, r);
      assert ([Inline(items[0], sc, r)] + rest)[1..] == rest;
      NullTypeInlined(items[0], sc, r);
      AnyNullInlined(items[1..], sc, r);
    }
  }

  lemma {:induction false} BareLookup(members: seq<Member>, key: string)
    requires BareMembers(members) && Lookup(members, key).Some?
    ensures BareMember(Member(key, Lookup(members, key).value))
  {
    if members[0].key != key {
      BareLookup(members[1..], key);
    } else {
      assert members[0] == Member(key, members[0].value);
    }
  }

  /** A node that maps is an optional after inlining exactly when it was one before. */
  lemma {:induction false} OptionalInlined(v: Json, sc: Scope, r: nat)
    requires Good(sc) && Below(v, sc, r) && Bare(v) && MapType(v, sc, r).Ok?
    ensures IsOptional(Inline(v, sc, r)) == IsOptional(v)
    decreases r
  {
    if Target(v, sc).Some? {
      var name := Target(v, sc).value;
      RefShowsNothing(v, "anyOf");
      OptionalInlined(sc.defs[name], sc, sc.rank(name));
    } else {
      GetInlined(v, "anyOf", sc, r);
      if Get(v, "anyOf").Some? && Get(v, "anyOf").value.Arr? {
        BareLookup(v.members, "anyOf");
        AnyNullInlined(Get(v, "anyOf").value.items, sc, r);
      }
    }
  }

  lemma {:induction false} FirstNonNullInlined(items: seq<Json>, sc: Scope, r: nat)
    requires Good(sc) && BelowAll(items, sc, r) && BareAll(items)
    ensures match FirstNonNull(items)
            case None => FirstNonNull(InlineAll(items, sc, r)) == None
            case Some(b) =>
              && Below(b, sc, r) && Bare(b)
              && FirstNonNull(InlineAll(items, sc, r)) == Some(Inline(b, sc, r))
    decreases |items|
  {
    if items == [] {
    } else {
      var rest := InlineAll(items[1..], sc, r);
      assert ([Inline(items[0], sc, r)] + rest)[1..] == rest;
      NullTypeInlined(items[0], sc, r);
      FirstNonNullInlined(items[1..], sc, r);
    }
  }

  // ---- Without definitions nothing is below anything: every node fits ----

  lemma {:induction false} EverythingBelow(v: Json)
    ensures Below(v, NO_DEFS, 0)
    decreases Size(v), 1
  {
    if v.Obj? {
      EverythingBelowMembers(v.members);
    }
  }

  lemma {:induction false} EverythingBelowMembers(members: seq<Member>)
    ensures BelowMembers(members, NO_DEFS, 0)
    decreases SizeMembers(members), 0
  {
    if members == [] {
    } else {
      EverythingBelowMember(members[0]);
      EverythingBelowMembers(members[1..]);
    }
  }

  lemma {:induction false} EverythingBelowMember(m: Member)
    ensures BelowMember(m, NO_DEFS, 0)
    decreases Size(m.value), 2
  {
    if m.key == "anyOf" && m.value.Arr? {
      EverythingBelowAll(m.value.items);
    } else if m.key == "items" {
      EverythingBelow(m.value);
    } else if m.key == "properties" && m.value.Obj? {
      EverythingBelowProps(m.value.members);
    }
  }

  lemma {:induction false} EverythingBelowAll(items: seq<Json>)
    ensures BelowAll(items, NO_DEFS, 0)
    decreases SizeAll(items), 2
  {
    if items == [] {
    } else {
      EverythingBelow(items[0]);
      EverythingBelowAll(items[1..]);
    }
  }

  lemma {:induction false} EverythingBelowProps(props: seq<Member>)
    ensures BelowProps(props, NO_DEFS, 0)
    decreases SizeMembers(props), 0
  {
    if props == [] {
    } else {
      EverythingBelow(props[0].value);
      EverythingBelowProps(props[1..]);
    }
  }

  // ---- The theorem ----

  /** What mapping gives after inlining, with no definitions in scope. */
  function MapInlined(v: Json, sc: Scope, r: nat): Result<Spec, SchemaError>
    requires Acyclic(sc) && Below(v, sc, r)
  {
    EverythingBelow(Inline(v, sc, r));
    MapType(Inline(v, sc, r), NO_DEFS, 0)
  }

  /** Inlining preserves the mapping, for acyclic and transparent definitions and bare references:
      the inlined schema without `$defs` maps to the same type, nested nullability included, or both
      are refused. */
  lemma {:induction false} InliningKeepsTypes(v: Json, sc: Scope, r: nat)
    requires Good(sc) && Below(v, sc, r) && Bare(v)
    ensures MapInlined(v, sc, r) == MapType(v, sc, r)
    decreases r, Size(v), 0
  {
    EverythingBelow(Inline(v, sc, r));
    if Target(v, sc).Some? {
      var name := Target(v, sc).value;
      InliningKeepsTypes(sc.defs[name], sc, sc.rank(name));
    } else {
      var w := Inline(v, sc, r);
      GetInlined(v, "$ref", sc, r);
      GetInlined(v, "anyOf", sc, r);
      if StrAt(v, "$ref").Some? {
      } else if Get(v, "anyOf").Some? && Get(v, "anyOf").value.Arr? {
        AnyOfKeepsTypes(v, sc, r);
      } else {
        TypedKeepsTypes(v, sc, r);
      }
    }
  }

  lemma {:induction false} TypedKeepsTypes(v: Json, sc: Scope, r: nat)
    requires Good(sc) && Below(v, sc, r) && Bare(v) && Target(v, sc).None? && StrAt(v, "$ref").None?
    requires !(Get(v, "anyOf").Some? && Get(v, "anyOf").value.Arr?)
    ensures MapInlined(v, sc, r) == MapType(v, sc, r)
    decreases r, Size(v) - 1, 10
  {
    hide Below, Bare, BelowMember, Inline, LeafType;
    EverythingBelow(Inline(v, sc, r));
    GetInlined(v, "$ref", sc, r);
    GetInlined(v, "anyOf", sc, r);
    GetInlined(v, "type", sc, r);
    LeafInlined(v, sc, r);
    if StrAt(v, "type") == Some("array") {
      ItemsKeepTypes(v, sc, r);
    } else if StrAt(v, "type") == Some("object") {
      InliningKeepsFields(v, sc, r);
    }
  }

  lemma LeafInlined(v: Json, sc: Scope, r: nat)
    requires Acyclic(sc) && Below(v, sc, r) && Target(v, sc).None?
    ensures LeafType(Inline(v, sc, r)) == LeafType(v)
  {
    GetInlined(v, "type", sc, r);
    GetInlined(v, "enum", sc, r);
    GetInlined(v, "format", sc, r);
  }

  lemma {:induction false} AnyOfKeepsTypes(v: Json, sc: Scope, r: nat)
    requires Good(sc) && Below(v, sc, r) && Bare(v) && Target(v, sc).None? && StrAt(v, "$ref").None?
    requires Get(v, "anyOf").Some? && Get(v, "anyOf").value.Arr?
    ensures MapInlined(v, sc, r) == MapType(v, sc, r)
    decreases r, Size(v) - 1, 9
  {
    var items := Get(v, "anyOf").value.items;
    EverythingBelow(Inline(v, sc, r));
    GetInlined(v, "$ref", sc, r);
    GetInlined(v, "anyOf", sc, r);
    BareLookup(v.members, "anyOf");
    FirstNonNullInlined(items, sc, r);
    match FirstNonNull(items) {
      case None =>
      case Some(b) =>
        EverythingBelow(Inline(b, sc, r));
        InliningKeepsTypes(b, sc, r);
    }
  }

  lemma {:induction false} ItemsKeepTypes(v: Json, sc: Scope, r: nat)
    requires Good(sc) && Below(v, sc, r) && Bare(v) && Target(v, sc).None?
    ensures var w := Inline(v, sc, r);
            match Get(v, "items")
            case None => Get(w, "items") == None
            case Some(items) =>
              && Below(items, sc, r) && Get(w, "items") == Some(Inline(items, sc, r))
              && Below(Inline(items, sc, r), NO_DEFS, 0)
              && MapType(Inline(items, sc, r), NO_DEFS, 0) == MapType(items, sc, r)
    decreases r, Size(v) - 1, 9
  {
    GetInlined(v, "items", sc, r);
    if Get(v, "items").Some? {
      BareLookup(v.members, "items");
      EverythingBelow(Inline(Get(v, "items").value, sc, r));
      InliningKeepsTypes(Get(v, "items").value, sc, r);
    }
  }

  /** The same for a whole object schema, field by field: names, types, nullability and order. */
  lemma {:induction false} InliningKeepsFields(v: Json, sc: Scope, r: nat)
    requires Good(sc) && Below(v, sc, r) && Bare(v) && Target(v, sc).None?
    ensures Below(Inline(v, sc, r), NO_DEFS, 0) && BuildFields(Inline(v, sc, r), NO_DEFS, 0) == BuildFields(v, sc, r)
    decreases r, Size(v) - 1, 9
  {
    EverythingBelow(Inline(v, sc, r));
    GetInlined(v, "properties", sc, r);
    GetInlined(v, "required", sc, r);
    if Get(v, "properties").Some? && Get(v, "properties").value.Obj? {
      BareLookup(v.members, "properties");
      PropsKeepTypes(Get(v, "properties").value.members, Required(v), sc, r);
    }
  }

  lemma {:induction false} PropsKeepTypes(props: seq<Member>, required: Option<set<string>>, sc: Scope, r: nat)
    requires Good(sc) && BelowProps(props, sc, r) && BareProps(props)
    ensures BelowProps(InlineProps(props, sc, r), NO_DEFS, 0)
    ensures MapProps(InlineProps(props, sc, r), required, NO_DEFS, 0) == MapProps(props, required, sc, r)
    decreases r, SizeMembers(props), 0
  {
    EverythingBelowProps(InlineProps(props, sc, r));
    if props == [] {
    } else {
      var rest := InlineProps(props[1..], sc, r);
      var first := Member(props[0].key, Inline(props[0].value, sc, r));
      assert ([first] + rest)[1..] == rest;
      EverythingBelow(Inline(props[0].value, sc, r));
      InliningKeepsTypes(props[0].value, sc, r);
      if MapType(props[0].value, sc, r).Ok? {
        OptionalInlined(props[0].value, sc, r);
      }
      PropsKeepTypes(props[1..], required, sc, r);
    }
  }

  /** The fields built after inlining, with no definitions in scope. */
  function FieldsInlined(v: Json, sc: Scope, r: nat): Result<seq<FieldSpec>, SchemaError>
    requires Acyclic(sc) && Below(v, sc, r)
  {
    EverythingBelow(Inline(v, sc, r));
    BuildFields(Inline(v, sc, r), NO_DEFS, 0)
  }

  // ---- Nodes to build with ----

  function Ref(name: string): Json {
    Obj([Member("$ref", Str(DEFS + name))])
  }

  function Typed(name: string): Json {
    Obj([Member("type", Str(name))])
  }
}
