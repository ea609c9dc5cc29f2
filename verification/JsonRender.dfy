/** Which column types a JSON Schema can name, and the schema that names each: the mapper read
    backwards. */
module JsonRender {
  import opened Wrappers
  import opened ArrowTypes
  import opened JsonSchema
  import opened JsonInline

  /** How a nullable field is written: left out of `required`, or as a choice with null. */
  datatype Style = Unlisted | ChoiceWithNull

  /** The types the mapper can return, at every depth. */
  predicate JsonTyped(s: Spec) {
    match s
    case List(item) => JsonTyped(item)
    case Struct(fields) => JsonFields(fields)
    case _ => s in {Bool, Int64, Float64, Utf8, Date32, Timestamp(Microsecond, InZone("UTC"))}
  }

  predicate JsonFields(fields: seq<FieldSpec>) {
    fields == [] || (JsonTyped(fields[0].spec) && JsonFields(fields[1..]))
  }

  predicate HasField(fields: seq<FieldSpec>, name: string) {
    fields != [] && (fields[0].name == name || HasField(fields[1..], name))
  }

  /** No struct has two fields of one name. */
  predicate Distinct(s: Spec) {
    match s
    case List(item) => Distinct(item)
    case Struct(fields) => DistinctFields(fields)
    case _ => true
  }

  predicate DistinctFields(fields: seq<FieldSpec>) {
    fields == [] || (Distinct(fields[0].spec) && !HasField(fields[1..], fields[0].name) && DistinctFields(fields[1..]))
  }

  function TypeName(s: Spec): string {
    match s
    case Bool => "boolean"
    case Int64 => "integer"
    case Float64 => "number"
    case List(_) => "array"
    case Struct(_) => "object"
    case _ => "string"
  }

  /** The schema node that names a type. */
  function Render(s: Spec, style: Style): Json
    decreases s, 1
  {
    Obj([Member("type", Str(TypeName(s)))] + Details(s, style))
  }

  /** What it says beside the type's name. */
  function Details(s: Spec, style: Style): (m: seq<Member>)
    ensures |m| <= 2
    decreases s, 0
  {
    match s
    case Date32 => [Member("format", Str("date"))]
    case Timestamp(_, _) => [Member("format", Str("date-time"))]
    case List(item) => [Member("items", Render(item, style))]
    case Struct(fields) =>
      [Member("properties", Obj(RenderProps(fields, style))), Member("required", Arr(RenderRequired(fields, style)))]
    case _ => []
  }

  function RenderProps(fields: seq<FieldSpec>, style: Style): seq<Member> {
    if fields == [] then []
    else [Member(fields[0].name, RenderField(fields[0], style))] + RenderProps(fields[1..], style)
  }

  function RenderField(f: FieldSpec, style: Style): Json {
    var node := Render(f.spec, style);
    if f.nullable && style.ChoiceWithNull? then Obj([Member("anyOf", Arr([node, Typed("null")]))]) else node
  }

  function RenderRequired(fields: seq<FieldSpec>, style: Style): seq<Json> {
    if fields == [] then []
    else
      (if style.Unlisted? && fields[0].nullable then [] else [Str(fields[0].name)])
      + RenderRequired(fields[1..], style)
  }

  lemma {:induction false} RequiredLists(fields: seq<FieldSpec>, style: Style, name: string)
    ensures name in Strings(RenderRequired(fields, style)) ==> HasField(fields, name)
    decreases |fields|
  {
    if fields == [] {
    } else {
      RequiredLists(fields[1..], style, name);
      var rest := RenderRequired(fields[1..], style);
      if !(style.Unlisted? && fields[0].nullable) {
        assert ([Str(fields[0].name)] + rest)[1..] == rest;
      } else {
        assert [] + rest == rest;
      }
    }
  }

  lemma RequiredOfFirst(fields: seq<FieldSpec>, style: Style)
    requires fields != []
    ensures var rest, all := Strings(RenderRequired(fields[1..], style)), Strings(RenderRequired(fields, style));
            all == if style.Unlisted? && fields[0].nullable then rest else {fields[0].name} + rest
  {
    var rest := RenderRequired(fields[1..], style);
    assert ([Str(fields[0].name)] + rest)[1..] == rest;
    assert [] + rest == rest;
  }

  lemma LookupOne(a: Member, key: string)
    ensures Lookup([a], key) == if a.key == key then Some(a.value) else None
  {
    assert [a][1..] == [];
  }

  lemma LookupTwo(a: Member, b: Member, key: string)
    ensures Lookup([a, b], key) == if a.key == key then Some(a.value) else Lookup([b], key)
  {
    assert [a, b][1..] == [b];
  }

  lemma LookupThree(a: Member, b: Member, c: Member, key: string)
    ensures Lookup([a, b, c], key) == if a.key == key then Some(a.value) else Lookup([b, c], key)
  {
    assert [a, b, c][1..] == [b, c];
  }

  lemma SmallLookup(m: seq<Member>, key: string)
    requires 1 <= |m| <= 3
    ensures Lookup(m, key) ==
            if m[0].key == key then Some(m[0].value)
            else if |m| >= 2 && m[1].key == key then Some(m[1].value)
            else if |m| == 3 && m[2].key == key then Some(m[2].value)
            else None
  {
    hide Lookup;
    if |m| == 1 {
      assert m == [m[0]];
    } else if |m| == 2 {
      assert m == [m[0], m[1]];
      LookupTwo(m[0], m[1], key);
    } else {
      assert m == [m[0], m[1], m[2]];
      LookupThree(m[0], m[1], m[2], key);
      LookupTwo(m[1], m[2], key);
    }
    LookupOne(m[|m| - 1], key);
  }

  /** What a rendered node shows: nothing that would be read before its type. */
  lemma RenderShows(s: Spec, style: Style)
    ensures var v := Render(s, style);
            && v.Obj? && Get(v, "$ref").None? && Get(v, "anyOf").None? && !IsNullTyped(v) && !IsOptional(v)
            && StrAt(v, "type") == Some(TypeName(s))
            && (s.List? ==> Get(v, "items") == Some(Render(s.item, style)))
            && (s.Struct? ==> Get(v, "properties") == Some(Obj(RenderProps(s.fields, style)))
                              && Get(v, "required") == Some(Arr(RenderRequired(s.fields, style))))
            && (s.Date32? ==> StrAt(v, "format") == Some("date"))
            && (s.Timestamp? ==> StrAt(v, "format") == Some("date-time"))
            && (!s.Date32? && !s.Timestamp? ==> Get(v, "format").None?)
  {
    var v := Render(s, style);
    hide RenderProps, RenderRequired, Lookup, Render;
    RenderLookup(s, style, "$ref");
    RenderLookup(s, style, "anyOf");
    RenderLookup(s, style, "type");
    RenderLookup(s, style, "items");
    RenderLookup(s, style, "properties");
    RenderLookup(s, style, "required");
    RenderLookup(s, style, "format");
  }

  /** The members of a rendered node, as a table. */
  function Shown(s: Spec, style: Style, key: string): Option<Json> {
    if key == "type" then Some(Str(TypeName(s)))
    else if key == "items" && s.List? then Some(Render(s.item, style))
    else if key == "properties" && s.Struct? then Some(Obj(RenderProps(s.fields, style)))
    else if key == "required" && s.Struct? then Some(Arr(RenderRequired(s.fields, style)))
    else if key == "format" && s.Date32? then Some(Str("date"))
    else if key == "format" && s.Timestamp? then Some(Str("date-time"))
    else None
  }

  lemma LookupInFront(a: Member, rest: seq<Member>, key: string)
    ensures Lookup([a] + rest, key) == if a.key == key then Some(a.value) else Lookup(rest, key)
  {
    assert ([a] + rest)[1..] == rest;
  }

  lemma DetailLookup(s: Spec, style: Style, key: string)
    requires key != "type"
    ensures Lookup(Details(s, style), key) == Shown(s, style, key)
  {
    hide RenderProps, RenderRequired, Lookup, Render, TypeName;
    var d := Details(s, style);
    match s {
      case Date32 => LookupOne(d[0], key);
      case Timestamp(_, _) => LookupOne(d[0], key);
      case List(item) => LookupOne(d[0], key);
      case Struct(fields) =>
        LookupTwo(d[0], d[1], key);
        LookupOne(d[1], key);
      case _ => NoLookup(key);
    }
  }

  lemma NoLookup(key: string)
    ensures Lookup([], key) == None
  {
  }

  lemma RenderLookup(s: Spec, style: Style, key: string)
    ensures Render(s, style).Obj? && Get(Render(s, style), key) == Shown(s, style, key)
  {
    hide RenderProps, RenderRequired, Lookup, TypeName, Details;
    LookupInFront(Member("type", Str(TypeName(s))), Details(s, style), key);
    if key != "type" {
      DetailLookup(s, style, key);
    }
  }

  /** Every type in reach is named by its rendering, in both styles of nullability: the mapper undoes
      the rendering. */
  lemma {:induction false} RenderedMapsBack(s: Spec, style: Style)
    requires JsonTyped(s) && Distinct(s)
    ensures Below(Render(s, style), NO_DEFS, 0)
    ensures MapType(Render(s, style), NO_DEFS, 0) == Ok(s)
    decreases s, 0
  {
    var v := Render(s, style);
    EverythingBelow(v);
    RenderShows(s, style);
    hide Lookup, Below, BelowMembers, Strings, RenderRequired, IsOptional;
    match s {
      case List(item) => RenderedMapsBack(item, style);
      case Struct(fields) => FieldsMapBack(fields, style, Strings(RenderRequired(fields, style)));
      case _ =>
    }
  }

  lemma {:induction false} FieldsMapBack(fields: seq<FieldSpec>, style: Style, required: set<string>)
    requires JsonFields(fields) && DistinctFields(fields)
    requires forall name :: HasField(fields, name) ==>
               (name in required <==> name in Strings(RenderRequired(fields, style)))
    ensures BelowProps(RenderProps(fields, style), NO_DEFS, 0)
    ensures MapProps(RenderProps(fields, style), Some(required), NO_DEFS, 0) == Ok(fields)
    decreases fields, 1
  {
    if fields == [] {
    } else {
      var first, rest := fields[0], fields[1..];
      var tail := RenderProps(rest, style);
      assert ([Member(first.name, RenderField(first, style))] + tail)[1..] == tail;
      RequiredOfFirst(fields, style);
      RequiredLists(rest, style, first.name);
      FieldsMapBack(rest, style, required);
      FieldMapsBack(first, style);
      assert first.name in required <==> !(style.Unlisted? && first.nullable);
      assert [first] + rest == fields;
    }
  }

  lemma {:induction false} FieldMapsBack(f: FieldSpec, style: Style)
    requires JsonTyped(f.spec) && Distinct(f.spec)
    ensures var v := RenderField(f, style);
            && Below(v, NO_DEFS, 0) && MapType(v, NO_DEFS, 0) == Ok(f.spec)
            && (IsOptional(v) <==> f.nullable && style.ChoiceWithNull?)
    decreases f, 0
  {
    RenderedMapsBack(f.spec, style);
    RenderShows(f.spec, style);
    var v, node := RenderField(f, style), Render(f.spec, style);
    EverythingBelow(v);
    hide Below, BelowMembers, Render, Lookup, JsonTyped, Distinct;
    if f.nullable && style.ChoiceWithNull? {
      var items := [node, Typed("null")];
      NullShows();
      assert items[1..][0] == Typed("null");
      LookupOne(v.members[0], "anyOf");
      LookupOne(v.members[0], "$ref");
      assert AnyNull(items[1..]) && AnyNull(items);
      assert FirstNonNull(items) == Some(node);
    }
  }

  lemma NullShows()
    ensures IsNullTyped(Typed("null"))
  {
    LookupOne(Member("type", Str("null")), "type");
  }

  lemma LeafIsJsonTyped(v: Json)
    ensures LeafType(v).Ok? ==> JsonTyped(LeafType(v).value)
  {
  }

  lemma NestedIsJsonTyped(item: Spec, fields: seq<FieldSpec>)
    ensures JsonTyped(List(item)) <==> JsonTyped(item)
    ensures JsonTyped(Struct(fields)) <==> JsonFields(fields)
  {
  }

  /** And no other type is: whatever the mapper returns, under any definitions, cyclic or not, is in
      reach. */
  lemma {:induction false} MappedIsJsonTyped(v: Json, defs: map<string, Json>, hops: nat)
    ensures var r := MapWithin(v, defs, hops); r.Some? && r.value.Ok? ==> JsonTyped(r.value.value)
    decreases hops, Size(v), 0
  {
    hide LeafType, JsonTyped, JsonFields;
    LeafIsJsonTyped(v);
    if StrAt(v, "$ref").Some? {
      if TargetIn(v, defs).Some? && hops > 0 {
        MappedIsJsonTyped(defs[TargetIn(v, defs).value], defs, hops - 1);
      }
    } else if Get(v, "anyOf").Some? && Get(v, "anyOf").value.Arr? {
      var branch := FirstNonNull(Get(v, "anyOf").value.items);
      if branch.Some? {
        MappedIsJsonTyped(branch.value, defs, hops);
      }
    } else if StrAt(v, "type") == Some("array") {
      if Get(v, "items").Some? {
        var items := Get(v, "items").value;
        MappedIsJsonTyped(items, defs, hops);
        var r := MapWithin(items, defs, hops);
        if r.Some? && r.value.Ok? {
          NestedIsJsonTyped(r.value.value, []);
        }
      }
    } else if StrAt(v, "type") == Some("object") {
      if Get(v, "properties").Some? && Get(v, "properties").value.Obj? {
        var props := Get(v, "properties").value.members;
        MappedAreJsonFields(props, Required(v), defs, hops);
        var r := PropsWithin(props, Required(v), defs, hops);
        if r.Some? && r.value.Ok? {
          NestedIsJsonTyped(Bool, r.value.value);
        }
      }
    }
  }

  lemma {:induction false} MappedAreJsonFields(
    props: seq<Member>, required: Option<set<string>>, defs: map<string, Json>, hops: nat)
    ensures var r := PropsWithin(props, required, defs, hops); r.Some? && r.value.Ok? ==> JsonFields(r.value.value)
    decreases hops, SizeMembers(props), 0
  {
    if props == [] {
    } else {
      MappedIsJsonTyped(props[0].value, defs, hops);
      MappedAreJsonFields(props[1..], required, defs, hops);
      var r, tail := PropsWithin(props, required, defs, hops), PropsWithin(props[1..], required, defs, hops);
      assert r.Some? && r.value.Ok? ==> r.value.value[1..] == tail.value.value;
    }
  }
}
