/** Exactly when inlining preserves the mapping: the two kinds of definition that a reference hides,
    and the schemas that show it. */
module JsonExact {
  import opened Wrappers
  import opened ArrowTypes
  import opened JsonSchema
  import opened JsonInline
  import opened JsonRender

  /** A node keeps its type, and unless it is a reference its fields, when references are inlined. */
  ghost predicate Kept(v: Json, sc: Scope, r: nat)
    requires Acyclic(sc) && Below(v, sc, r)
  {
    && MapInlined(v, sc, r) == MapType(v, sc, r)
    && (Target(v, sc).None? ==> FieldsInlined(v, sc, r) == BuildFields(v, sc, r))
  }

  ghost predicate AllKept(sc: Scope)
    requires Acyclic(sc)
  {
    forall v: Json, r: nat :: Below(v, sc, r) && Bare(v) ==> Kept(v, sc, r)
  }

  // ---- One more in front ----

  lemma MemberInFront(m: Member, rest: seq<Member>, sc: Scope, r: nat)
    ensures BelowMembers([m] + rest, sc, r) <==> BelowMember(m, sc, r) && BelowMembers(rest, sc, r)
    ensures BareMembers([m] + rest) <==> BareMember(m) && BareMembers(rest)
    ensures Acyclic(sc) && BelowMember(m, sc, r) && BelowMembers(rest, sc, r) ==>
              InlineMembers([m] + rest, sc, r) == [InlineMember(m, sc, r)] + InlineMembers(rest, sc, r)
  {
    assert ([m] + rest)[1..] == rest;
  }

  lemma OneMember(m: Member, sc: Scope, r: nat)
    ensures BelowMembers([m], sc, r) <==> BelowMember(m, sc, r)
    ensures BareMembers([m]) <==> BareMember(m)
    ensures Acyclic(sc) && BelowMember(m, sc, r) ==> InlineMembers([m], sc, r) == [InlineMember(m, sc, r)]
  {
    MemberInFront(m, [], sc, r);
    assert [m] + [] == [m];
    assert BelowMembers([], sc, r) && BareMembers([]);
  }

  lemma OneProp(p: Member, sc: Scope, r: nat)
    ensures BelowProps([p], sc, r) <==> Below(p.value, sc, r)
    ensures BareProps([p]) <==> Bare(p.value)
    ensures Acyclic(sc) && Below(p.value, sc, r) ==> InlineProps([p], sc, r) == [Member(p.key, Inline(p.value, sc, r))]
  {
    assert [p][1..] == [];
    assert BelowProps([], sc, r) && BareProps([]);
    if Acyclic(sc) {
      assert InlineProps([], sc, r) == [];
    }
  }

  lemma TwoItems(a: Json, b: Json, sc: Scope, r: nat)
    ensures BelowAll([a, b], sc, r) <==> Below(a, sc, r) && Below(b, sc, r)
    ensures BareAll([a, b]) <==> Bare(a) && Bare(b)
    ensures Acyclic(sc) && Below(a, sc, r) && Below(b, sc, r) ==>
              InlineAll([a, b], sc, r) == [Inline(a, sc, r), Inline(b, sc, r)]
  {
    assert [a, b][1..] == [b] && [b][1..] == [];
    assert BelowAll([], sc, r) && BareAll([]);
    assert (BelowAll([b], sc, r) <==> Below(b, sc, r)) && (BareAll([b]) <==> Bare(b));
    if Acyclic(sc) && Below(a, sc, r) && Below(b, sc, r) {
      assert InlineAll([], sc, r) == [];
      assert InlineAll([b], sc, r) == [Inline(b, sc, r)];
    }
  }

  // ---- References ----

  lemma RefShows(name: string, sc: Scope)
    requires name in sc.defs
    ensures Target(Ref(name), sc) == Some(name) && StrAt(Ref(name), "$ref").Some?
    ensures !IsNullTyped(Ref(name)) && !IsOptional(Ref(name))
    ensures Bare(Ref(name)) && Below(Ref(name), sc, sc.rank(name) + 1)
  {
    var m := Member("$ref", Str(DEFS + name));
    LookupOne(m, "$ref");
    LookupOne(m, "type");
    LookupOne(m, "anyOf");
    assert (DEFS + name)[|DEFS|..] == name;
    assert [m][1..] == [];
  }

  lemma TypedShows(name: string, sc: Scope, r: nat)
    ensures Bare(Typed(name)) && Below(Typed(name), sc, r)
    ensures StrAt(Typed(name), "type") == Some(name)
    ensures Get(Typed(name), "$ref").None? && Get(Typed(name), "anyOf").None?
    ensures Get(Typed(name), "enum").None? && Get(Typed(name), "format").None?
    ensures Acyclic(sc) ==> Inline(Typed(name), sc, r) == Typed(name)
  {
    var m := Member("type", Str(name));
    LookupOne(m, "type");
    LookupOne(m, "$ref");
    LookupOne(m, "anyOf");
    LookupOne(m, "enum");
    LookupOne(m, "format");
    assert [m][1..] == [];
    if Acyclic(sc) {
      assert InlineMembers([m], sc, r) == [InlineMember(m, sc, r)] + InlineMembers([m][1..], sc, r);
    }
  }

  // ---- What inlining brings to light stays in the light ----

  lemma NullTypeStays(v: Json, sc: Scope, r: nat)
    requires Acyclic(sc) && Below(v, sc, r) && Bare(v) && IsNullTyped(v)
    ensures IsNullTyped(Inline(v, sc, r))
  {
    if StrAt(v, "$ref").Some? {
      RefShowsNothing(v, "type");
    } else {
      GetInlined(v, "type", sc, r);
    }
  }

  lemma {:induction false} AnyNullStays(items: seq<Json>, sc: Scope, r: nat)
    requires Acyclic(sc) && BelowAll(items, sc, r) && BareAll(items) && AnyNull(items)
    ensures AnyNull(InlineAll(items, sc, r))
    decreases |items|
  {
    var rest := InlineAll(items[1..], sc, r);
    assert ([Inline(items[0], sc, r)] + rest)[1..] == rest;
    if IsNullTyped(items[0]) {
      NullTypeStays(items[0], sc, r);
    } else {
      AnyNullStays(items[1..], sc, r);
    }
  }

  lemma OptionalStays(v: Json, sc: Scope, r: nat)
    requires Acyclic(sc) && Below(v, sc, r) && Bare(v) && IsOptional(v)
    ensures IsOptional(Inline(v, sc, r))
  {
    if StrAt(v, "$ref").Some? {
      RefShowsNothing(v, "anyOf");
    } else {
      GetInlined(v, "anyOf", sc, r);
      BareLookup(v.members, "anyOf");
      AnyNullStays(Get(v, "anyOf").value.items, sc, r);
    }
  }

  // ---- A choice between a reference and a type ----

  function ChoiceOf(a: Json, b: Json): Json {
    Obj([Member("anyOf", Arr([a, b]))])
  }

  lemma ChoiceShows(a: Json, b: Json)
    ensures Get(ChoiceOf(a, b), "anyOf") == Some(Arr([a, b])) && Get(ChoiceOf(a, b), "$ref").None?
    ensures FirstNonNull([a, b]) == if !IsNullTyped(a) then Some(a) else if !IsNullTyped(b) then Some(b) else None
  {
    var m := Member("anyOf", Arr([a, b]));
    LookupOne(m, "anyOf");
    LookupOne(m, "$ref");
    assert [a, b][1..] == [b] && [b][1..] == [];
  }

  lemma ChoiceFits(a: Json, b: Json, sc: Scope, r: nat)
    requires Below(a, sc, r) && Below(b, sc, r)
    ensures Below(ChoiceOf(a, b), sc, r) && (Bare(a) && Bare(b) ==> Bare(ChoiceOf(a, b)))
    ensures Acyclic(sc) ==> Inline(ChoiceOf(a, b), sc, r) == ChoiceOf(Inline(a, sc, r), Inline(b, sc, r))
  {
    ChoiceShows(a, b);
    TwoItems(a, b, sc, r);
    OneMember(Member("anyOf", Arr([a, b])), sc, r);
  }

  /** A choice between a reference and a plain type maps to what the definition maps to. */
  lemma ChoiceMaps(name: string, t: string, sc: Scope)
    requires Acyclic(sc) && name in sc.defs
    ensures var v, r := ChoiceOf(Ref(name), Typed(t)), sc.rank(name) + 1;
            && Below(v, sc, r) && Bare(v) && Target(v, sc).None?
            && MapType(v, sc, r) == MapType(sc.defs[name], sc, sc.rank(name))
  {
    var r := sc.rank(name) + 1;
    RefShows(name, sc);
    TypedShows(t, sc, r);
    ChoiceFits(Ref(name), Typed(t), sc, r);
    ChoiceShows(Ref(name), Typed(t));
    assert MapType(Ref(name), sc, r) == MapType(sc.defs[name], sc, sc.rank(name));
  }

  /** Inlined, with a definition that is the null type, it maps to the plain type. */
  lemma ChoiceInlined(name: string, t: string, sc: Scope)
    requires Acyclic(sc) && name in sc.defs && Bare(sc.defs[name]) && IsNullTyped(sc.defs[name])
    requires t in {"string", "integer"}
    ensures var v, r := ChoiceOf(Ref(name), Typed(t)), sc.rank(name) + 1;
            Below(v, sc, r) && MapInlined(v, sc, r) == Ok(if t == "string" then Utf8 else Int64)
  {
    var r := sc.rank(name) + 1;
    RefShows(name, sc);
    TypedShows(t, sc, r);
    ChoiceFits(Ref(name), Typed(t), sc, r);
    var def := Inline(sc.defs[name], sc, sc.rank(name));
    NullTypeStays(sc.defs[name], sc, sc.rank(name));
    RefMaps(name, sc, r);
    hide MapType, IsNullTyped, Below, Bare, Inline, Typed, Ref;
    PlainMaps(t);
    EverythingBelow(def);
    EverythingBelow(ChoiceOf(def, Typed(t)));
    SecondIsTaken(def, Typed(t));
  }

  lemma PlainMaps(t: string)
    requires t in {"string", "integer"}
    ensures Below(Typed(t), NO_DEFS, 0) && !IsNullTyped(Typed(t))
    ensures MapType(Typed(t), NO_DEFS, 0) == Ok(if t == "string" then Utf8 else Int64)
  {
    TypedShows(t, NO_DEFS, 0);
  }

  lemma SecondIsTaken(a: Json, b: Json)
    requires Below(b, NO_DEFS, 0) && Below(ChoiceOf(a, b), NO_DEFS, 0) && IsNullTyped(a) && !IsNullTyped(b)
    ensures MapType(ChoiceOf(a, b), NO_DEFS, 0) == MapType(b, NO_DEFS, 0)
  {
    ChoiceShows(a, b);
  }

  /** So a definition that is the null type is never transparent: one of two choices tells. */
  lemma NullDefTells(sc: Scope, name: string)
    requires Acyclic(sc) && name in sc.defs && Bare(sc.defs[name]) && IsNullTyped(sc.defs[name])
    ensures !AllKept(sc)
  {
    var r := sc.rank(name) + 1;
    var t := if MapType(sc.defs[name], sc, sc.rank(name)) == Ok(Utf8) then "integer" else "string";
    ChoiceMaps(name, t, sc);
    ChoiceInlined(name, t, sc);
    assert !Kept(ChoiceOf(Ref(name), Typed(t)), sc, r);
  }

  // ---- An object with one required property ----

  function ObjectOf(prop: Json): Json {
    Obj([Member("type", Str("object")),
         Member("properties", Obj([Member("p", prop)])),
         Member("required", Arr([Str("p")]))])
  }

  lemma ObjectShows(prop: Json)
    ensures var v := ObjectOf(prop);
            && StrAt(v, "type") == Some("object") && Get(v, "$ref").None? && Get(v, "anyOf").None?
            && Get(v, "properties") == Some(Obj([Member("p", prop)])) && Required(v) == Some({"p"})
  {
    hide Lookup;
    var m := ObjectOf(prop).members;
    SmallLookup(m, "type");
    SmallLookup(m, "$ref");
    SmallLookup(m, "anyOf");
    SmallLookup(m, "properties");
    SmallLookup(m, "required");
    OneString("p");
  }

  lemma OneString(s: string)
    ensures Strings([Str(s)]) == {s}
  {
    assert [Str(s)][1..] == [];
    assert Strings([]) == {};
  }

  lemma ObjectFits(prop: Json, sc: Scope, r: nat)
    requires Below(prop, sc, r)
    ensures Below(ObjectOf(prop), sc, r) && (Bare(prop) ==> Bare(ObjectOf(prop)))
    ensures Acyclic(sc) ==> Inline(ObjectOf(prop), sc, r) == ObjectOf(Inline(prop, sc, r))
  {
    ObjectShows(prop);
    var m := ObjectOf(prop).members;
    OneProp(Member("p", prop), sc, r);
    OneMember(m[2], sc, r);
    MemberInFront(m[1], [m[2]], sc, r);
    MemberInFront(m[0], [m[1], m[2]], sc, r);
    assert m == [m[0]] + [m[1], m[2]] && [m[1], m[2]] == [m[1]] + [m[2]];
  }

  /** It maps to a struct whose one field is nullable exactly if the property is seen to be optional. */
  lemma ObjectMaps(prop: Json, sc: Scope, r: nat)
    requires Acyclic(sc) && Below(prop, sc, r)
    ensures Below(ObjectOf(prop), sc, r)
    ensures MapType(ObjectOf(prop), sc, r) == match MapType(prop, sc, r)
              case Ok(s) => Ok(Struct([FieldSpec("p", s, IsOptional(prop))]))
              case Err(e) => Err(e)
  {
    ObjectFits(prop, sc, r);
    ObjectShows(prop);
    var p := [Member("p", prop)];
    OneProp(p[0], sc, r);
    PropMaps(p[0], sc, r);
    assert BuildFields(ObjectOf(prop), sc, r) == MapProps(p, Some({"p"}), sc, r);
  }

  lemma PropMaps(p: Member, sc: Scope, r: nat)
    requires Acyclic(sc) && Below(p.value, sc, r) && BelowProps([p], sc, r)
    ensures MapProps([p], Some({p.key}), sc, r) == match MapType(p.value, sc, r)
              case Ok(s) => Ok([FieldSpec(p.key, s, IsOptional(p.value))])
              case Err(e) => Err(e)
  {
    var props, required := [p], Some({p.key});
    assert props[1..] == [];
    assert MapProps(props[1..], required, sc, r) == Ok([]);
    assert Nullable(p.key, p.value, required) == IsOptional(p.value);
    assert forall f: FieldSpec :: [f] + [] == [f];
  }

  /** An optional definition that maps is never transparent: as a required property it is not
      nullable, inlined it is. */
  lemma OptionalDefTells(sc: Scope, name: string)
    requires Acyclic(sc) && name in sc.defs && Bare(sc.defs[name]) && IsOptional(sc.defs[name])
    requires MapType(sc.defs[name], sc, sc.rank(name)).Ok?
    ensures !AllKept(sc)
  {
    hide BuildFields, MapProps, BelowMembers, BareMembers;
    var v, r := ObjectOf(Ref(name)), sc.rank(name) + 1;
    var def := Inline(sc.defs[name], sc, sc.rank(name));
    RefShows(name, sc);
    ObjectFits(Ref(name), sc, r);
    ObjectMaps(Ref(name), sc, r);
    OptionalStays(sc.defs[name], sc, sc.rank(name));
    EverythingBelow(def);
    ObjectMaps(def, NO_DEFS, 0);
    ObjectsDiffer(sc, name, r);
  }

  lemma ObjectsDiffer(sc: Scope, name: string, r: nat)
    requires Acyclic(sc) && name in sc.defs && Below(ObjectOf(Ref(name)), sc, r) && Bare(ObjectOf(Ref(name)))
    requires MapInlined(ObjectOf(Ref(name)), sc, r) != MapType(ObjectOf(Ref(name)), sc, r)
    ensures !AllKept(sc)
  {
    assert !Kept(ObjectOf(Ref(name)), sc, r);
  }

  // ---- The exact condition ----

  /** Inlining keeps every type and every field list, for acyclic definitions and bare references, if
      and only if no definition is the null type and none that maps is an optional. */
  lemma InliningIsExact(sc: Scope)
    requires Acyclic(sc) && BareDefs(sc)
    ensures AllKept(sc) <==> Transparent(sc)
  {
    if Transparent(sc) {
      forall v: Json, r: nat | Below(v, sc, r) && Bare(v) ensures Kept(v, sc, r) {
        InliningKeepsTypes(v, sc, r);
        if Target(v, sc).None? {
          InliningKeepsFields(v, sc, r);
        }
      }
    } else {
      var name :| name in sc.defs
        && (IsNullTyped(sc.defs[name])
            || (MapType(sc.defs[name], sc, sc.rank(name)).Ok? && IsOptional(sc.defs[name])));
      if IsNullTyped(sc.defs[name]) {
        NullDefTells(sc, name);
      } else {
        OptionalDefTells(sc, name);
      }
    }
  }

  // ---- Two schemas that change ----

  function OneDef(v: Json): Scope {
    Scope(map["N" := v], _ => 0)
  }

  /** The null type behind a reference: `anyOf [N, string]` is refused; inlined it is text. */
  lemma NullBehindRef()
    ensures var sc, v := OneDef(Typed("null")), ChoiceOf(Ref("N"), Typed("string"));
            && Acyclic(sc) && Below(v, sc, 1) && Bare(v)
            && MapType(v, sc, 1).Err? && MapInlined(v, sc, 1) == Ok(Utf8)
  {
    hide MapType, MapInlined, Below, Bare, IsNullTyped, Typed, ChoiceOf, Ref;
    var sc := OneDef(Typed("null"));
    NullNode(sc, 0);
    assert sc.rank("N") == 0 && sc.defs["N"] == Typed("null");
    ChoiceMaps("N", "string", sc);
    ChoiceInlined("N", "string", sc);
  }

  lemma NullNode(sc: Scope, r: nat)
    ensures var def := Typed("null");
            Below(def, sc, r) && Bare(def) && IsNullTyped(def) && (Acyclic(sc) ==> MapType(def, sc, r).Err?)
  {
    TypedShows("null", sc, r);
  }

  /** An optional behind a reference: a required property is not nullable; inlined it is. */
  lemma OptionalBehindRef()
    ensures var sc, v := OneDef(ChoiceOf(Typed("string"), Typed("null"))), ObjectOf(Ref("N"));
            && Acyclic(sc) && Below(v, sc, 1) && Bare(v)
            && MapType(v, sc, 1) == Ok(Struct([FieldSpec("p", Utf8, false)]))
            && MapInlined(v, sc, 1) == Ok(Struct([FieldSpec("p", Utf8, true)]))
  {
    hide MapType, Below, Bare, IsOptional, Typed, ChoiceOf, Ref, ObjectOf;
    var def := ChoiceOf(Typed("string"), Typed("null"));
    var sc := OneDef(def);
    OptionalNode(sc, 0);
    assert sc.rank("N") == 0 && sc.defs["N"] == def;
    OptionalNode(NO_DEFS, 0);
    RefShows("N", sc);
    ObjectFits(Ref("N"), sc, 1);
    ObjectMaps(Ref("N"), sc, 1);
    RefMaps("N", sc, 1);
    EverythingBelow(def);
    ObjectMaps(def, NO_DEFS, 0);
  }

  lemma RefMaps(name: string, sc: Scope, r: nat)
    requires Acyclic(sc) && name in sc.defs && sc.rank(name) < r
    ensures Below(Ref(name), sc, r)
    ensures MapType(Ref(name), sc, r) == MapType(sc.defs[name], sc, sc.rank(name))
    ensures Inline(Ref(name), sc, r) == Inline(sc.defs[name], sc, sc.rank(name))
  {
    RefShows(name, sc);
    assert [Member("$ref", Str(DEFS + name))][1..] == [];
  }

  lemma OptionalNode(sc: Scope, r: nat)
    ensures var def := ChoiceOf(Typed("string"), Typed("null"));
            && Below(def, sc, r) && IsOptional(def) && Bare(def)
            && (Acyclic(sc) ==> Inline(def, sc, r) == def && MapType(def, sc, r) == Ok(Utf8))
  {
    TypedShows("string", sc, r);
    TypedShows("null", sc, r);
    ChoiceFits(Typed("string"), Typed("null"), sc, r);
    ChoiceShows(Typed("string"), Typed("null"));
    var items := [Typed("string"), Typed("null")];
    assert items[1..] == [Typed("null")] && AnyNull(items[1..]);
  }
}
