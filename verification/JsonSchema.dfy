/** JSON-Schema nodes mapped to wire column types, with `$ref` resolution into `$defs`. */
module JsonSchema {
  import opened Wrappers
  import opened ArrowTypes

  datatype Json =
    | Null
    | Boolean(b: bool)
    | Number(n: int)
    | Str(s: string)
    | Arr(items: seq<Json>)
    | Obj(members: seq<Member>)

  datatype Member = Member(key: string, value: Json)

  datatype SchemaError = SchemaParse

  function Size(v: Json): nat {
    match v
    case Arr(items) => 1 + SizeAll(items)
    case Obj(members) => 1 + SizeMembers(members)
    case _ => 1
  }

  function SizeAll(items: seq<Json>): nat {
    if items == [] then 0 else Size(items[0]) + SizeAll(items[1..])
  }

  function SizeMembers(members: seq<Member>): nat {
    if members == [] then 0 else 1 + Size(members[0].value) + SizeMembers(members[1..])
  }

  function Lookup(members: seq<Member>, key: string): (r: Option<Json>)
    ensures r.Some? ==> Size(r.value) < SizeMembers(members)
  {
    if members == [] then None
    else if members[0].key == key then Some(members[0].value)
    else Lookup(members[1..], key)
  }

  /** `Value::get`: the member of an object, nothing for any other value. */
  function Get(v: Json, key: string): (r: Option<Json>)
    ensures r.Some? ==> v.Obj? && Size(r.value) + 1 < Size(v)
  {
    if v.Obj? then Lookup(v.members, key) else None
  }

  function StrAt(v: Json, key: string): Option<string> {
    match Get(v, key)
    case Some(Str(s)) => Some(s)
    case _ => None
  }

  const DEFS := "#/$defs/"

  /** The definitions in scope. `rank` orders them, so that references can be required to point to
      lower ones (`Acyclic`); it serves termination only. */
  datatype Scope = Scope(defs: map<string, Json>, rank: string -> nat)

  const NO_DEFS := Scope(map[], _ => 0)

  /** `resolve_ref`, as far as the name: the text after the prefix. */
  function RefName(reference: string): Option<string> {
    if DEFS <= reference then Some(reference[|DEFS|..]) else None
  }

  /** The definition a node refers to, if it is a reference that resolves. */
  function TargetIn(v: Json, defs: map<string, Json>): Option<string> {
    match StrAt(v, "$ref")
    case None => None
    case Some(reference) =>
      match RefName(reference)
      case Some(name) => if name in defs then Some(name) else None
      case None => None
  }

  function Target(v: Json, sc: Scope): Option<string> {
    TargetIn(v, sc.defs)
  }

  // ---- Acyclic definitions: every reference in schema position points below `r` ----

  predicate Below(v: Json, sc: Scope, r: nat)
    decreases Size(v), 1
  {
    v.Obj? ==> (Target(v, sc).Some? ==> sc.rank(Target(v, sc).value) < r) && BelowMembers(v.members, sc, r)
  }

  predicate BelowMembers(members: seq<Member>, sc: Scope, r: nat)
    decreases SizeMembers(members), 0
  {
    members == [] || (BelowMember(members[0], sc, r) && BelowMembers(members[1..], sc, r))
  }

  /** The schema positions of a node: the branches of `anyOf`, `items`, and the values of `properties`. */
  predicate BelowMember(m: Member, sc: Scope, r: nat)
    decreases Size(m.value), 2
  {
    if m.key == "anyOf" then m.value.Arr? ==> BelowAll(m.value.items, sc, r)
    else if m.key == "items" then Below(m.value, sc, r)
    else if m.key == "properties" then m.value.Obj? ==> BelowProps(m.value.members, sc, r)
    else true
  }

  predicate BelowAll(items: seq<Json>, sc: Scope, r: nat)
    decreases SizeAll(items), 2
  {
    items == [] || (Below(items[0], sc, r) && BelowAll(items[1..], sc, r))
  }

  predicate BelowProps(props: seq<Member>, sc: Scope, r: nat)
    decreases SizeMembers(props), 0
  {
    props == [] || (Below(props[0].value, sc, r) && BelowProps(props[1..], sc, r))
  }

  ghost predicate Acyclic(sc: Scope) {
    forall name :: name in sc.defs ==> Below(sc.defs[name], sc, sc.rank(name))
  }

  lemma {:induction false} BelowLookup(members: seq<Member>, key: string, sc: Scope, r: nat)
    requires BelowMembers(members, sc, r) && Lookup(members, key).Some?
    ensures BelowMember(Member(key, Lookup(members, key).value), sc, r)
  {
    if members[0].key != key {
      BelowLookup(members[1..], key, sc, r);
    } else {
      assert members[0] == Member(key, members[0].value);
    }
  }

  // ---- Mapping ----

  predicate IsNullTyped(v: Json) {
    StrAt(v, "type") == Some("null")
  }

  predicate AnyNull(items: seq<Json>) {
    items != [] && (IsNullTyped(items[0]) || AnyNull(items[1..]))
  }

  /** `is_optional`: an `anyOf` with a null branch, looked for on the node itself only. */
  predicate IsOptional(v: Json) {
    match Get(v, "anyOf")
    case Some(Arr(items)) => AnyNull(items)
    case _ => false
  }

  /** The strings among the values of `required`. */
  function Strings(items: seq<Json>): set<string> {
    if items == [] then {} else (if items[0].Str? then {items[0].s} else {}) + Strings(items[1..])
  }

  /** The names a schema lists as required, or nothing if it has no such list. */
  function Required(v: Json): Option<set<string>> {
    match Get(v, "required")
    case Some(Arr(items)) => Some(Strings(items))
    case _ => None
  }

  predicate Nullable(name: string, prop: Json, required: Option<set<string>>) {
    IsOptional(prop) || required == None || name !in required.value
  }

  /** The first branch of an `anyOf` that is not the null type. */
  function FirstNonNull(items: seq<Json>): (b: Option<Json>)
    ensures b.Some? ==> Size(b.value) <= SizeAll(items)
  {
    if items == [] then None
    else if !IsNullTyped(items[0]) then Some(items[0])
    else FirstNonNull(items[1..])
  }

  lemma {:induction false} BelowFirstNonNull(items: seq<Json>, sc: Scope, r: nat)
    requires BelowAll(items, sc, r) && FirstNonNull(items).Some?
    ensures Below(FirstNonNull(items).value, sc, r)
  {
    if IsNullTyped(items[0]) {
      BelowFirstNonNull(items[1..], sc, r);
    }
  }

  function StringType(v: Json): Spec {
    match StrAt(v, "format")
    case Some("date-time") => Timestamp(Microsecond, InZone("UTC"))
    case Some("date") => Date32
    case _ => Utf8
  }

  /** The types that hold no others; a bare enumeration is text. */
  function LeafType(v: Json): Result<Spec, SchemaError> {
    if Get(v, "type").None? && Get(v, "enum").Some? then Ok(Utf8)
    else
      match StrAt(v, "type")
      case Some("integer") => Ok(Int64)
      case Some("number") => Ok(Float64)
      case Some("boolean") => Ok(Bool)
      case Some("string") => Ok(StringType(v))
      case _ => Err(SchemaParse)
  }

  // ---- The mapper on any definitions ----

  /** `map_type`, following at most `hops` references inside one another; nothing if it would need more.
      The program has no such limit: what it returns is what some limit returns. */
  function MapWithin(v: Json, defs: map<string, Json>, hops: nat): Option<Result<Spec, SchemaError>>
    decreases hops, Size(v), 0
  {
    if StrAt(v, "$ref").Some? then
      match TargetIn(v, defs)
      case None => Some(Err(SchemaParse))
      case Some(name) => if hops == 0 then None else MapWithin(defs[name], defs, hops - 1)
    else if Get(v, "anyOf").Some? && Get(v, "anyOf").value.Arr? then
      match FirstNonNull(Get(v, "anyOf").value.items)
      case None => Some(Err(SchemaParse))
      case Some(branch) => MapWithin(branch, defs, hops)
    else if StrAt(v, "type") == Some("array") then
      match Get(v, "items")
      case None => Some(Err(SchemaParse))
      case Some(items) =>
        match MapWithin(items, defs, hops)
        case None => None
        case Some(Ok(item)) => Some(Ok(List(item)))
        case Some(Err(e)) => Some(Err(e))
    else if StrAt(v, "type") == Some("object") then
      match BuildWithin(v, defs, hops)
      case None => None
      case Some(Ok(fields)) => Some(Ok(Struct(fields)))
      case Some(Err(e)) => Some(Err(e))
    else Some(LeafType(v))
  }

  /** `build_fields`. */
  function BuildWithin(v: Json, defs: map<string, Json>, hops: nat): Option<Result<seq<FieldSpec>, SchemaError>>
    decreases hops, Size(v) - 1, 1
  {
    match Get(v, "properties")
    case Some(Obj(props)) => PropsWithin(props, Required(v), defs, hops)
    case _ => Some(Err(SchemaParse))
  }

  function PropsWithin(props: seq<Member>, required: Option<set<string>>, defs: map<string, Json>, hops: nat)
    : Option<Result<seq<FieldSpec>, SchemaError>>
    decreases hops, SizeMembers(props), 0
  {
    if props == [] then Some(Ok([]))
    else
      match MapWithin(props[0].value, defs, hops)
      case None => None
      case Some(Err(e)) => Some(Err(e))
      case Some(Ok(spec)) =>
        match PropsWithin(props[1..], required, defs, hops)
        case None => None
        case Some(Err(e)) => Some(Err(e))
        case Some(Ok(rest)) =>
          Some(Ok([FieldSpec(props[0].key, spec, Nullable(props[0].key, props[0].value, required))] + rest))
  }

  /** Fields already built, in front of what the rest come to. */
  function Behind(out: seq<FieldSpec>, rest: Option<Result<seq<FieldSpec>, SchemaError>>)
    : Option<Result<seq<FieldSpec>, SchemaError>>
  {
    match rest
    case Some(Ok(fields)) => Some(Ok(out + fields))
    case _ => rest
  }

  lemma OneBehind(out: seq<FieldSpec>, field: FieldSpec, rest: Option<Result<seq<FieldSpec>, SchemaError>>)
    ensures Behind(out, Behind([field], rest)) == Behind(out + [field], rest)
  {
    if rest.Some? && rest.value.Ok? {
      assert out + ([field] + rest.value.value) == out + [field] + rest.value.value;
    }
  }

  lemma NoneBehind(rest: Option<Result<seq<FieldSpec>, SchemaError>>, out: seq<FieldSpec>)
    ensures Behind([], rest) == rest && Behind(out, Some(Ok([]))) == Some(Ok(out))
  {
    if rest.Some? && rest.value.Ok? {
      assert [] + rest.value.value == rest.value.value;
    }
    assert out + [] == out;
  }

  /** The field loop as it runs: push one field after another, stop at the first that does not map. */
  method PushFields(props: seq<Member>, required: Option<set<string>>, defs: map<string, Json>, hops: nat)
    returns (result: Option<Result<seq<FieldSpec>, SchemaError>>)
    ensures result == PropsWithin(props, required, defs, hops)
  {
    hide MapWithin, Nullable;
    var out: seq<FieldSpec> := [];
    var rest := props;
    NoneBehind(PropsWithin(props, required, defs, hops), []);
    while rest != []
      invariant PropsWithin(props, required, defs, hops) == Behind(out, PropsWithin(rest, required, defs, hops))
      decreases |rest|
    {
      var prop := rest[0];
      var mapped := MapWithin(prop.value, defs, hops);
      if mapped.None? {
        return None;
      }
      if mapped.value.Err? {
        return Some(Err(mapped.value.error));
      }
      var field := FieldSpec(prop.key, mapped.value.value, Nullable(prop.key, prop.value, required));
      OneBehind(out, field, PropsWithin(rest[1..], required, defs, hops));
      out := out + [field];
      rest := rest[1..];
    }
    NoneBehind(None, out);
    return Some(Ok(out));
  }

  // ---- The mapper on ranked definitions ----

  /** `map_type` where definitions are ranked, and so always answers. `r` bounds the rank of the
      references below `v`; it serves termination only. */
  function MapType(v: Json, sc: Scope, r: nat): Result<Spec, SchemaError>
    requires Acyclic(sc) && Below(v, sc, r)
    decreases r, Size(v), 0
  {
    if StrAt(v, "$ref").Some? then
      match Target(v, sc)
      case None => Err(SchemaParse)
      case Some(name) => MapType(sc.defs[name], sc, sc.rank(name))
    else if Get(v, "anyOf").Some? && Get(v, "anyOf").value.Arr? then
      var items := Get(v, "anyOf").value.items;
      BelowLookup(v.members, "anyOf", sc, r);
      match FirstNonNull(items)
      case None => Err(SchemaParse)
      case Some(branch) =>
        BelowFirstNonNull(items, sc, r);
        MapType(branch, sc, r)
    else if StrAt(v, "type") == Some("array") then
      match Get(v, "items")
      case None => Err(SchemaParse)
      case Some(items) =>
        BelowLookup(v.members, "items", sc, r);
        match MapType(items, sc, r)
        case Ok(item) => Ok(List(item))
        case Err(e) => Err(e)
    else if StrAt(v, "type") == Some("object") then
      match BuildFields(v, sc, r)
      case Ok(fields) => Ok(Struct(fields))
      case Err(e) => Err(e)
    else LeafType(v)
  }

  /** `build_fields`, likewise. */
  function BuildFields(v: Json, sc: Scope, r: nat): Result<seq<FieldSpec>, SchemaError>
    requires Acyclic(sc) && Below(v, sc, r)
    decreases r, Size(v) - 1, 1
  {
    match Get(v, "properties")
    case Some(Obj(props)) =>
      BelowLookup(v.members, "properties", sc, r);
      MapProps(props, Required(v), sc, r)
    case _ => Err(SchemaParse)
  }

  function MapProps(props: seq<Member>, required: Option<set<string>>, sc: Scope, r: nat)
    : Result<seq<FieldSpec>, SchemaError>
    requires Acyclic(sc) && BelowProps(props, sc, r)
    decreases r, SizeMembers(props), 0
  {
    if props == [] then Ok([])
    else
      match MapType(props[0].value, sc, r)
      case Err(e) => Err(e)
      case Ok(spec) =>
        match MapProps(props[1..], required, sc, r)
        case Err(e) => Err(e)
        case Ok(rest) => Ok([FieldSpec(props[0].key, spec, Nullable(props[0].key, props[0].value, required))] + rest)
  }
}
