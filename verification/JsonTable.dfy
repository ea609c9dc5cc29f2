/** The mapper against a reading of schemas that does not run: which type a node names, told from the node
    its references and choices lead to; and which nodes are refused. */
module JsonTable {
  import opened Wrappers
  import opened ArrowTypes
  import opened JsonSchema
  import opened JsonInline
  import opened JsonRender
  import opened JsonExact
  import opened JsonCycles

  // ---- Schemas read independently ----

  /** A list of branches, whatever stands in front of it. */
  predicate Chooses(v: Json) {
    Get(v, "anyOf").Some? && Get(v, "anyOf").value.Arr?
  }

  function Branches(v: Json): seq<Json>
    requires Chooses(v)
  {
    Get(v, "anyOf").value.items
  }

  /** A node leads to the definition its reference names or, without a reference, to the first of its
      branches that is not of type null. */
  ghost predicate Leads(v: Json, w: Json, defs: map<string, Json>) {
    if StrAt(v, "$ref").Some? then
      exists name :: name in defs && StrAt(v, "$ref").value == "#/$defs/" + name && w == defs[name]
    else
      && Chooses(v)
      && exists i :: 0 <= i < |Branches(v)| && w == Branches(v)[i] && StrAt(w, "type") != Some("null")
                     && forall j :: 0 <= j < i ==> StrAt(Branches(v)[j], "type") == Some("null")
  }

  /** A node that leads nowhere although it should: an unknown or wrongly prefixed reference, or a list of
      null branches only. */
  predicate Stuck(v: Json, defs: map<string, Json>) {
    if StrAt(v, "$ref").Some? then forall name | name in defs :: StrAt(v, "$ref").value != "#/$defs/" + name
    else Chooses(v) && forall j :: 0 <= j < |Branches(v)| ==> StrAt(Branches(v)[j], "type") == Some("null")
  }

  /** A node that is read as it stands. */
  predicate Plain(v: Json) {
    StrAt(v, "$ref").None? && !Chooses(v)
  }

  ghost predicate Chain(chain: seq<Json>, v: Json, w: Json, defs: map<string, Json>) {
    && chain != [] && chain[0] == v && chain[|chain| - 1] == w
    && forall k :: 0 <= k < |chain| - 1 ==> Leads(chain[k], chain[k + 1], defs)
  }

  ghost predicate Reaches(v: Json, w: Json, defs: map<string, Json>) {
    exists chain :: Chain(chain, v, w, defs)
  }

  /** A field may be null: its node has a branch of type null, or the schema lists no required fields, or
      not this one. */
  predicate MayBeNull(owner: Json, name: string, prop: Json) {
    || (Chooses(prop) && exists i :: 0 <= i < |Branches(prop)| && StrAt(Branches(prop)[i], "type") == Some("null"))
    || Get(owner, "required").None? || !Get(owner, "required").value.Arr?
    || Str(name) !in Get(owner, "required").value.items
  }

  /** The type a plain node names. */
  ghost predicate Tells(v: Json, s: Spec, defs: map<string, Json>)
    decreases s, 0
  {
    var t, format := StrAt(v, "type"), StrAt(v, "format");
    match s
    case Utf8 =>
      || (Get(v, "type").None? && Get(v, "enum").Some?)
      || (t == Some("string") && format != Some("date-time") && format != Some("date"))
    case Timestamp(unit, zone) =>
      t == Some("string") && format == Some("date-time") && unit == Microsecond && zone == InZone("UTC")
    case Date32 => t == Some("string") && format == Some("date")
    case Int64 => t == Some("integer")
    case Float64 => t == Some("number")
    case Bool => t == Some("boolean")
    case List(item) => t == Some("array") && Get(v, "items").Some? && Names(Get(v, "items").value, item, defs)
    case Struct(fields) =>
      && t == Some("object") && Get(v, "properties").Some? && Get(v, "properties").value.Obj?
      && NamesAll(v, Get(v, "properties").value.members, fields, defs)
    case _ => false
  }

  /** A node names a type if the plain node it leads to tells it. */
  ghost predicate Names(v: Json, s: Spec, defs: map<string, Json>)
    decreases s, 1
  {
    exists w :: Reaches(v, w, defs) && Plain(w) && Tells(w, s, defs)
  }

  /** One field a property, in order. */
  ghost predicate NamesAll(owner: Json, props: seq<Member>, fields: seq<FieldSpec>, defs: map<string, Json>)
    decreases fields, 2
  {
    && |fields| == |props|
    && forall i :: 0 <= i < |fields| ==>
         && fields[i].name == props[i].key
         && fields[i].nullable == MayBeNull(owner, props[i].key, props[i].value)
         && Names(props[i].value, fields[i].spec, defs)
  }

  /** A node is refused, at most `k` levels down, if it leads to one that is stuck, or to a plain one that
      is an array without items or with refused ones; an object without a properties object or with a
      refused property behind properties that name types; or of no known type, and no bare enumeration. */
  ghost predicate Refused(v: Json, defs: map<string, Json>, k: nat)
    decreases k
  {
    exists w :: Reaches(v, w, defs) && (Stuck(w, defs) || (Plain(w) && RefusedPlain(w, defs, k)))
  }

  ghost predicate NamesSome(v: Json, defs: map<string, Json>) {
    exists s :: Names(v, s, defs)
  }

  ghost predicate AllName(props: seq<Member>, defs: map<string, Json>) {
    forall j :: 0 <= j < |props| ==> NamesSome(props[j].value, defs)
  }

  ghost predicate RefusedPlain(w: Json, defs: map<string, Json>, k: nat)
    decreases k, 0
  {
    var t := StrAt(w, "type");
    if t == Some("array") then
      Get(w, "items").None? || (k > 0 && Refused(Get(w, "items").value, defs, k - 1))
    else if t == Some("object") then
      || Get(w, "properties").None? || !Get(w, "properties").value.Obj?
      || (k > 0 && exists i ::
            && 0 <= i < |Get(w, "properties").value.members|
            && Refused(Get(w, "properties").value.members[i].value, defs, k - 1)
            && AllName(Get(w, "properties").value.members[..i], defs))
    else
      && t !in {Some("string"), Some("integer"), Some("number"), Some("boolean")}
      && !(Get(w, "type").None? && Get(w, "enum").Some?)
  }

  // ---- Answers, whatever the number of hops ----

  type Verdict = Result<Spec, SchemaError>

  ghost predicate Answers(v: Json, defs: map<string, Json>, r: Verdict) {
    exists n: nat :: MapWithin(v, defs, n) == Some(r)
  }

  ghost predicate PropsAnswer(
    props: seq<Member>, required: Option<set<string>>, defs: map<string, Json>, r: Result<seq<FieldSpec>, SchemaError>)
  {
    exists n: nat :: PropsWithin(props, required, defs, n) == Some(r)
  }

  lemma OneAnswer(v: Json, defs: map<string, Json>, a: Verdict, b: Verdict)
    requires Answers(v, defs, a) && Answers(v, defs, b)
    ensures a == b
  {
    hide MapWithin;
    var n: nat :| MapWithin(v, defs, n) == Some(a);
    var m: nat :| MapWithin(v, defs, m) == Some(b);
    if n <= m {
      MoreHops(v, defs, n, m);
    } else {
      MoreHops(v, defs, m, n);
    }
  }

  // ---- One step, and a chain of them ----

  lemma {:induction false} FirstBranch(items: seq<Json>, i: nat)
    requires i < |items| && StrAt(items[i], "type") != Some("null")
    requires forall j :: 0 <= j < i ==> StrAt(items[j], "type") == Some("null")
    ensures FirstNonNull(items) == Some(items[i])
    decreases i
  {
    if i > 0 {
      FirstBranch(items[1..], i - 1);
    }
  }

  lemma {:induction false} NoBranch(items: seq<Json>)
    ensures FirstNonNull(items).None? <==> forall j :: 0 <= j < |items| ==> StrAt(items[j], "type") == Some("null")
    ensures FirstNonNull(items).Some? ==> exists i ::
              && 0 <= i < |items| && items[i] == FirstNonNull(items).value && StrAt(items[i], "type") != Some("null")
              && forall j :: 0 <= j < i ==> StrAt(items[j], "type") == Some("null")
  {
    if items != [] && IsNullTyped(items[0]) {
      var rest := items[1..];
      NoBranch(rest);
      if FirstNonNull(rest).Some? {
        var i :| && 0 <= i < |rest| && rest[i] == FirstNonNull(rest).value && StrAt(rest[i], "type") != Some("null")
                 && forall j :: 0 <= j < i ==> StrAt(rest[j], "type") == Some("null");
        assert items[i + 1] == rest[i];
        forall j | 0 <= j < i + 1 ensures StrAt(items[j], "type") == Some("null") {
          if j > 0 { assert items[j] == rest[j - 1]; }
        }
      } else {
        assert forall j :: 0 < j < |items| ==> items[j] == rest[j - 1];
      }
    }
  }

  lemma NameOf(reference: string, name: string)
    requires reference == "#/$defs/" + name
    ensures RefName(reference) == Some(name)
  {
  }

  lemma LeadsOnce(v: Json, w: Json, defs: map<string, Json>, n: nat)
    requires Leads(v, w, defs)
    ensures StrAt(v, "$ref").Some? ==> MapWithin(v, defs, n + 1) == MapWithin(w, defs, n) && MapWithin(v, defs, 0).None?
    ensures StrAt(v, "$ref").None? ==> MapWithin(v, defs, n) == MapWithin(w, defs, n)
  {
    if StrAt(v, "$ref").Some? {
      var name :| name in defs && StrAt(v, "$ref").value == "#/$defs/" + name && w == defs[name];
      NameOf(StrAt(v, "$ref").value, name);
    } else {
      var i :| && 0 <= i < |Branches(v)| && w == Branches(v)[i] && StrAt(w, "type") != Some("null")
               && forall j :: 0 <= j < i ==> StrAt(Branches(v)[j], "type") == Some("null");
      FirstBranch(Branches(v), i);
    }
  }

  lemma LeadsAnswers(v: Json, w: Json, defs: map<string, Json>, r: Verdict)
    requires Leads(v, w, defs)
    ensures Answers(v, defs, r) <==> Answers(w, defs, r)
  {
    hide MapWithin, Leads;
    if Answers(v, defs, r) {
      var n: nat :| MapWithin(v, defs, n) == Some(r);
      LeadsOnce(v, w, defs, n);
      if StrAt(v, "$ref").Some? {
        assert n > 0;
        LeadsOnce(v, w, defs, n - 1);
      }
    }
    if Answers(w, defs, r) {
      var n: nat :| MapWithin(w, defs, n) == Some(r);
      LeadsOnce(v, w, defs, n);
    }
  }

  lemma {:induction false} ChainAnswers(chain: seq<Json>, v: Json, w: Json, defs: map<string, Json>, r: Verdict)
    requires Chain(chain, v, w, defs)
    ensures Answers(v, defs, r) <==> Answers(w, defs, r)
    decreases |chain|
  {
    hide Leads, Answers;
    if |chain| > 1 {
      assert Leads(chain[0], chain[1], defs);
      LeadsAnswers(v, chain[1], defs, r);
      var rest := chain[1..];
      assert forall k :: 0 <= k < |rest| ==> rest[k] == chain[k + 1];
      ChainAnswers(rest, chain[1], w, defs, r);
    }
  }

  lemma ReachedAnswers(v: Json, w: Json, defs: map<string, Json>, r: Verdict)
    requires Reaches(v, w, defs)
    ensures Answers(v, defs, r) <==> Answers(w, defs, r)
  {
    hide Chain, Answers;
    var chain :| Chain(chain, v, w, defs);
    ChainAnswers(chain, v, w, defs, r);
  }

  lemma StuckFails(v: Json, defs: map<string, Json>)
    requires Stuck(v, defs)
    ensures Answers(v, defs, Err(SchemaParse))
  {
    if StrAt(v, "$ref").Some? {
      var reference := StrAt(v, "$ref").value;
      if RefName(reference).Some? {
        assert reference == "#/$defs/" + RefName(reference).value;
      }
    } else {
      NoBranch(Branches(v));
    }
    assert MapWithin(v, defs, 0) == Some(Err(SchemaParse));
  }

  /** A node that is neither stuck nor plain leads on. */
  lemma LeadsOn(v: Json, defs: map<string, Json>) returns (w: Json)
    requires !Stuck(v, defs) && !Plain(v)
    ensures Leads(v, w, defs) && (StrAt(v, "$ref").None? ==> Size(w) < Size(v))
  {
    if StrAt(v, "$ref").Some? {
      var name :| name in defs && StrAt(v, "$ref").value == "#/$defs/" + name;
      w := defs[name];
    } else {
      NoBranch(Branches(v));
      w := FirstNonNull(Branches(v)).value;
    }
  }

  lemma ChainFront(v: Json, next: Json, w: Json, defs: map<string, Json>)
    requires Leads(v, next, defs) && Reaches(next, w, defs)
    ensures Reaches(v, w, defs)
  {
    hide Leads;
    var rest :| Chain(rest, next, w, defs);
    var chain := [v] + rest;
    assert forall k :: 0 < k < |chain| ==> chain[k] == rest[k - 1];
    assert Chain(chain, v, w, defs);
  }

  /** If mapping ends, the chain does: at a stuck node or a plain one, which is mapped alike. */
  lemma {:induction false} ChainEnds(v: Json, defs: map<string, Json>, n: nat) returns (w: Json, m: nat)
    requires MapWithin(v, defs, n).Some?
    ensures Reaches(v, w, defs) && (Stuck(w, defs) || Plain(w))
    ensures MapWithin(w, defs, m) == MapWithin(v, defs, n) && (m < n || (m == n && Size(w) <= Size(v)))
    decreases n, Size(v)
  {
    hide MapWithin, Stuck, Plain, Leads;
    if Stuck(v, defs) || Plain(v) {
      assert Chain([v], v, v, defs);
      return v, n;
    }
    var next := LeadsOn(v, defs);
    LeadsOnce(v, next, defs, if n > 0 then n - 1 else 0);
    LeadsOnce(v, next, defs, n);
    if StrAt(v, "$ref").Some? {
      w, m := ChainEnds(next, defs, n - 1);
    } else {
      w, m := ChainEnds(next, defs, n);
    }
    ChainFront(v, next, w, defs);
  }

  // ---- Plain nodes ----

  lemma LeafAnswers(w: Json, defs: map<string, Json>, r: Verdict)
    requires Plain(w) && StrAt(w, "type") !in {Some("array"), Some("object")}
    ensures Answers(w, defs, r) <==> r == LeafType(w)
  {
    assert MapWithin(w, defs, 0) == Some(LeafType(w));
  }

  lemma ArrayAnswers(w: Json, defs: map<string, Json>, r: Verdict)
    requires Plain(w) && StrAt(w, "type") == Some("array")
    ensures Get(w, "items").None? ==> (Answers(w, defs, r) <==> r == Err(SchemaParse))
    ensures Get(w, "items").Some? ==>
              (Answers(w, defs, r) <==>
               match r
               case Ok(s) => s.List? && Answers(Get(w, "items").value, defs, Ok(s.item))
               case Err(e) => Answers(Get(w, "items").value, defs, Err(e)))
  {
    if Get(w, "items").None? {
      assert MapWithin(w, defs, 0) == Some(Err(SchemaParse));
    } else {
      var items := Get(w, "items").value;
      if Answers(w, defs, r) {
        var n: nat :| MapWithin(w, defs, n) == Some(r);
        assert MapWithin(items, defs, n).Some?;
      }
      if r.Ok? && r.value.List? && Answers(items, defs, Ok(r.value.item)) {
        var n: nat :| MapWithin(items, defs, n) == Some(Ok(r.value.item));
        assert MapWithin(w, defs, n) == Some(r);
      }
      if r.Err? && Answers(items, defs, Err(r.error)) {
        var n: nat :| MapWithin(items, defs, n) == Some(Err(r.error));
        assert MapWithin(w, defs, n) == Some(r);
      }
    }
  }

  predicate HasProps(w: Json) {
    Get(w, "properties").Some? && Get(w, "properties").value.Obj?
  }

  lemma ObjectAnswers(w: Json, defs: map<string, Json>, r: Verdict)
    requires Plain(w) && StrAt(w, "type") == Some("object")
    ensures !HasProps(w) ==> (Answers(w, defs, r) <==> r == Err(SchemaParse))
    ensures HasProps(w) ==>
              (Answers(w, defs, r) <==>
               match r
               case Ok(s) =>
                 s.Struct? && PropsAnswer(Get(w, "properties").value.members, Required(w), defs, Ok(s.fields))
               case Err(e) => PropsAnswer(Get(w, "properties").value.members, Required(w), defs, Err(e)))
  {
    if !HasProps(w) {
      forall n: nat ensures MapWithin(w, defs, n) == Some(Err(SchemaParse)) {
        assert BuildWithin(w, defs, n) == Some(Err(SchemaParse));
      }
      assert MapWithin(w, defs, 0) == Some(Err(SchemaParse));
    } else {
      var props := Get(w, "properties").value.members;
      if Answers(w, defs, r) {
        var n: nat :| MapWithin(w, defs, n) == Some(r);
        assert PropsWithin(props, Required(w), defs, n) == BuildWithin(w, defs, n);
      }
      var q: Result<seq<FieldSpec>, SchemaError> :=
        if r.Err? then Err(r.error) else if r.value.Struct? then Ok(r.value.fields) else Ok([]);
      if (r.Err? || r.value.Struct?) && PropsAnswer(props, Required(w), defs, q) {
        var n: nat :| PropsWithin(props, Required(w), defs, n) == Some(q);
        assert BuildWithin(w, defs, n) == Some(q);
        assert MapWithin(w, defs, n) == Some(r);
      }
    }
  }

  /** A list of properties: the first is mapped, and then the rest. */
  lemma PropsStep(props: seq<Member>, required: Option<set<string>>, defs: map<string, Json>, fields: seq<FieldSpec>)
    requires props != []
    ensures PropsAnswer(props, required, defs, Ok(fields)) <==>
              && fields != [] && fields[0].name == props[0].key
              && fields[0].nullable == Nullable(props[0].key, props[0].value, required)
              && Answers(props[0].value, defs, Ok(fields[0].spec))
              && PropsAnswer(props[1..], required, defs, Ok(fields[1..]))
  {
    hide MapWithin, Nullable;
    if PropsAnswer(props, required, defs, Ok(fields)) {
      var n: nat :| PropsWithin(props, required, defs, n) == Some(Ok(fields));
      var rest := PropsWithin(props[1..], required, defs, n);
      assert fields[1..] == rest.value.value;
      assert MapWithin(props[0].value, defs, n) == Some(Ok(fields[0].spec));
      assert PropsWithin(props[1..], required, defs, n) == Some(Ok(fields[1..]));
    }
    if fields != [] && fields[0].name == props[0].key
       && fields[0].nullable == Nullable(props[0].key, props[0].value, required)
       && Answers(props[0].value, defs, Ok(fields[0].spec)) && PropsAnswer(props[1..], required, defs, Ok(fields[1..]))
    {
      var n: nat :| MapWithin(props[0].value, defs, n) == Some(Ok(fields[0].spec));
      var m: nat :| PropsWithin(props[1..], required, defs, m) == Some(Ok(fields[1..]));
      var k := if n < m then m else n;
      MoreHops(props[0].value, defs, n, k);
      MoreHopsProps(props[1..], required, defs, m, k);
      assert [fields[0]] + fields[1..] == fields;
      assert fields[0] == FieldSpec(props[0].key, fields[0].spec, Nullable(props[0].key, props[0].value, required));
      assert PropsWithin(props, required, defs, k) == Some(Ok(fields));
    }
  }

  lemma NoProps(required: Option<set<string>>, defs: map<string, Json>, fields: seq<FieldSpec>)
    ensures PropsAnswer([], required, defs, Ok(fields)) <==> fields == []
  {
    assert PropsWithin([], required, defs, 0) == Some(Ok([]));
  }

  // ---- Nullability ----

  lemma {:induction false} SomeNull(items: seq<Json>)
    ensures AnyNull(items) <==> exists i :: 0 <= i < |items| && StrAt(items[i], "type") == Some("null")
  {
    if items != [] {
      SomeNull(items[1..]);
      if i :| 0 <= i < |items[1..]| && StrAt(items[1..][i], "type") == Some("null") {
        assert items[i + 1] == items[1..][i];
      }
    }
  }

  lemma {:induction false} ListedStrings(items: seq<Json>, name: string)
    ensures name in Strings(items) <==> Str(name) in items
  {
    if items != [] {
      ListedStrings(items[1..], name);
      assert items == [items[0]] + items[1..];
    }
  }

  lemma NullableIsTold(owner: Json, name: string, prop: Json)
    ensures Nullable(name, prop, Required(owner)) == MayBeNull(owner, name, prop)
  {
    if Chooses(prop) {
      SomeNull(Branches(prop));
    }
    if Get(owner, "required").Some? && Get(owner, "required").value.Arr? {
      ListedStrings(Get(owner, "required").value.items, name);
    }
  }

  // ---- Types ----

  lemma LeafTells(w: Json, s: Spec, defs: map<string, Json>)
    requires StrAt(w, "type") !in {Some("array"), Some("object")} && !s.List? && !s.Struct?
    ensures Tells(w, s, defs) <==> LeafType(w) == Ok(s)
  {
    assert StrAt(w, "type").Some? ==> Get(w, "type").Some?;
  }

  lemma {:induction false} TellsAnswer(w: Json, s: Spec, defs: map<string, Json>)
    requires Plain(w)
    ensures Tells(w, s, defs) <==> Answers(w, defs, Ok(s))
    decreases s, 0
  {
    hide Answers, Plain, MapWithin, LeafType;
    var t := StrAt(w, "type");
    if t == Some("array") {
      ArrayAnswers(w, defs, Ok(s));
      if s.List? && Get(w, "items").Some? {
        NamedExactly(Get(w, "items").value, s.item, defs);
      }
    } else if t == Some("object") {
      ObjectAnswers(w, defs, Ok(s));
      if s.Struct? && HasProps(w) {
        hide Names;
        AllNamedExactly(w, Get(w, "properties").value.members, s.fields, defs);
      }
    } else {
      LeafAnswers(w, defs, Ok(s));
      if !s.List? && !s.Struct? {
        LeafTells(w, s, defs);
      } else {
        LeafIsFlat(w);
      }
    }
  }

  lemma LeafIsFlat(w: Json)
    ensures LeafType(w).Ok? ==> !LeafType(w).value.List? && !LeafType(w).value.Struct?
  {
  }

  lemma {:induction false} AllNamedExactly(
    owner: Json, props: seq<Member>, fields: seq<FieldSpec>, defs: map<string, Json>)
    ensures NamesAll(owner, props, fields, defs) <==> PropsAnswer(props, Required(owner), defs, Ok(fields))
    decreases fields, 2
  {
    hide Names, PropsAnswer, Answers, MayBeNull, Nullable;
    if props == [] {
      NoProps(Required(owner), defs, fields);
    } else {
      PropsStep(props, Required(owner), defs, fields);
      if fields != [] {
        NullableIsTold(owner, props[0].key, props[0].value);
        NamedExactly(props[0].value, fields[0].spec, defs);
        AllNamedExactly(owner, props[1..], fields[1..], defs);
        TailNamed(owner, props, fields, defs);
      }
    }
  }

  lemma TailNamed(owner: Json, props: seq<Member>, fields: seq<FieldSpec>, defs: map<string, Json>)
    requires props != [] && fields != []
    ensures NamesAll(owner, props, fields, defs) <==>
              && fields[0].name == props[0].key
              && fields[0].nullable == MayBeNull(owner, props[0].key, props[0].value)
              && Names(props[0].value, fields[0].spec, defs)
              && NamesAll(owner, props[1..], fields[1..], defs)
  {
    hide Names, MayBeNull;
    var ps, fs := props[1..], fields[1..];
    if NamesAll(owner, ps, fs, defs) {
      assert forall i :: 0 < i < |fields| ==> fields[i] == fs[i - 1] && props[i] == ps[i - 1];
    }
    assert forall i :: 0 <= i < |fs| && |fields| == |props| ==> fs[i] == fields[i + 1] && ps[i] == props[i + 1];
  }

  /** The mapper against the reading: within some number of references followed it answers with a type
      exactly when the node names that type. */
  lemma {:induction false} NamedExactly(v: Json, s: Spec, defs: map<string, Json>)
    ensures Names(v, s, defs) <==> Answers(v, defs, Ok(s))
    decreases s, 1
  {
    hide MapWithin, Tells, Plain, Stuck, Reaches, Answers;
    if w :| Reaches(v, w, defs) && Plain(w) && Tells(w, s, defs) {
      TellsAnswer(w, s, defs);
      ReachedAnswers(v, w, defs, Ok(s));
    }
    if Answers(v, defs, Ok(s)) {
      var w := AnswerChain(v, s, defs);
      TellsAnswer(w, s, defs);
    }
  }

  /** A node that is mapped leads to a plain one, mapped alike. */
  lemma AnswerChain(v: Json, s: Spec, defs: map<string, Json>) returns (w: Json)
    requires Answers(v, defs, Ok(s))
    ensures Reaches(v, w, defs) && Plain(w) && Answers(w, defs, Ok(s))
  {
    hide MapWithin, Plain, Stuck, Reaches;
    var n: nat :| MapWithin(v, defs, n) == Some(Ok(s));
    var m: nat;
    w, m := ChainEnds(v, defs, n);
    assert Answers(w, defs, Ok(s));
    if Stuck(w, defs) {
      StuckFails(w, defs);
      OneAnswer(w, defs, Ok(s), Err(SchemaParse));
    }
  }

  /** Two types are never named by one node. */
  lemma NamesOnce(v: Json, s: Spec, t: Spec, defs: map<string, Json>)
    requires Names(v, s, defs) && Names(v, t, defs)
    ensures s == t
  {
    hide Names, Answers;
    NamedExactly(v, s, defs);
    NamedExactly(v, t, defs);
    OneAnswer(v, defs, Ok(s), Ok(t));
  }

  /** A node without a reference and without a list of branches that has an enumeration and no type is
      text, whatever else it holds. */
  lemma BareEnumIsText(v: Json, defs: map<string, Json>, hops: nat)
    requires StrAt(v, "$ref").None? && !Chooses(v) && Get(v, "enum").Some? && Get(v, "type").None?
    ensures MapWithin(v, defs, hops) == Some(Ok(Utf8))
  {
  }

  // ---- Refusals ----

  ghost predicate Mapped(v: Json, defs: map<string, Json>) {
    exists s :: Answers(v, defs, Ok(s))
  }

  lemma {:induction false} PropsFailAt(
    props: seq<Member>, required: Option<set<string>>, defs: map<string, Json>, i: nat)
    requires i < |props| && Answers(props[i].value, defs, Err(SchemaParse))
    requires forall j :: 0 <= j < i ==> Mapped(props[j].value, defs)
    ensures PropsAnswer(props, required, defs, Err(SchemaParse))
    decreases i
  {
    if i == 0 {
      var n: nat :| MapWithin(props[0].value, defs, n) == Some(Err(SchemaParse));
      assert PropsWithin(props, required, defs, n) == Some(Err(SchemaParse));
    } else {
      hide MapWithin, Answers;
      assert Mapped(props[0].value, defs);
      forall j | 0 <= j < i - 1 ensures Mapped(props[1..][j].value, defs) {
        assert props[1..][j] == props[j + 1];
      }
      PropsFailAt(props[1..], required, defs, i - 1);
      var s :| Answers(props[0].value, defs, Ok(s));
      FailBehind(props, required, defs, s);
    }
  }

  lemma FailBehind(props: seq<Member>, required: Option<set<string>>, defs: map<string, Json>, s: Spec)
    requires props != [] && Answers(props[0].value, defs, Ok(s))
    requires PropsAnswer(props[1..], required, defs, Err(SchemaParse))
    ensures PropsAnswer(props, required, defs, Err(SchemaParse))
  {
    hide MapWithin;
    var n: nat :| MapWithin(props[0].value, defs, n) == Some(Ok(s));
    var m: nat :| PropsWithin(props[1..], required, defs, m) == Some(Err(SchemaParse));
    var k := if n < m then m else n;
    MoreHops(props[0].value, defs, n, k);
    MoreHopsProps(props[1..], required, defs, m, k);
    assert PropsWithin(props, required, defs, k) == Some(Err(SchemaParse));
  }

  lemma {:induction false} RefusedFails(v: Json, defs: map<string, Json>, k: nat)
    requires Refused(v, defs, k)
    ensures Answers(v, defs, Err(SchemaParse))
    decreases k, 1
  {
    hide Answers, Stuck, Plain, Reaches, RefusedPlain;
    var w :| Reaches(v, w, defs) && (Stuck(w, defs) || (Plain(w) && RefusedPlain(w, defs, k)));
    ReachedAnswers(v, w, defs, Err(SchemaParse));
    if Stuck(w, defs) {
      StuckFails(w, defs);
    } else {
      RefusedPlainFails(w, defs, k);
    }
  }

  lemma {:induction false} RefusedPlainFails(w: Json, defs: map<string, Json>, k: nat)
    requires Plain(w) && RefusedPlain(w, defs, k)
    ensures Answers(w, defs, Err(SchemaParse))
    decreases k, 0
  {
    hide Answers, Plain, Refused, Names, PropsAnswer;
    var t := StrAt(w, "type");
    if t == Some("array") {
      ArrayAnswers(w, defs, Err(SchemaParse));
      if Get(w, "items").Some? {
        RefusedFails(Get(w, "items").value, defs, k - 1);
      }
    } else if t == Some("object") {
      ObjectAnswers(w, defs, Err(SchemaParse));
      if HasProps(w) {
        var props := Get(w, "properties").value.members;
        var i :| 0 <= i < |props| && Refused(props[i].value, defs, k - 1) && AllName(props[..i], defs);
        RefusedFails(props[i].value, defs, k - 1);
        forall j | 0 <= j < i ensures Mapped(props[j].value, defs) {
          assert props[..i][j] == props[j];
          var s :| Names(props[j].value, s, defs);
          NamedExactly(props[j].value, s, defs);
        }
        PropsFailAt(props, Required(w), defs, i);
      }
    } else {
      LeafAnswers(w, defs, Err(SchemaParse));
    }
  }

  /** A failing list of properties has a first one that fails, behind ones that map. */
  lemma {:induction false} FirstFailing(
    props: seq<Member>, required: Option<set<string>>, defs: map<string, Json>, n: nat) returns (i: nat)
    requires PropsWithin(props, required, defs, n) == Some(Err(SchemaParse))
    ensures i < |props| && MapWithin(props[i].value, defs, n) == Some(Err(SchemaParse))
    ensures AllName(props[..i], defs)
    decreases |props|
  {
    hide MapWithin, NamesSome;
    if MapWithin(props[0].value, defs, n).value.Err? {
      i := 0;
    } else {
      var below := FirstFailing(props[1..], required, defs, n);
      i := below + 1;
      MappedNames(props[0].value, defs, n);
      assert props[..i] == [props[0]] + props[1..][..below];
    }
  }

  lemma MappedNames(v: Json, defs: map<string, Json>, n: nat)
    requires MapWithin(v, defs, n).Some? && MapWithin(v, defs, n).value.Ok?
    ensures NamesSome(v, defs)
  {
    hide Names, MapWithin;
    var s := MapWithin(v, defs, n).value.value;
    assert Answers(v, defs, Ok(s));
    NamedExactly(v, s, defs);
  }

  lemma PropIsSmaller(props: seq<Member>, i: nat)
    requires i < |props|
    ensures Size(props[i].value) < SizeMembers(props)
    decreases i
  {
    if i > 0 {
      PropIsSmaller(props[1..], i - 1);
    }
  }

  lemma {:induction false} FailsRefused(v: Json, defs: map<string, Json>, n: nat) returns (k: nat)
    requires MapWithin(v, defs, n) == Some(Err(SchemaParse))
    ensures Refused(v, defs, k)
    decreases n, Size(v), 1
  {
    hide MapWithin, Stuck, Plain, Reaches, RefusedPlain, Size;
    var w, m := ChainEnds(v, defs, n);
    k := 0;
    if !Stuck(w, defs) {
      k := FailsRefusedPlain(w, defs, m);
    }
    assert Refused(v, defs, k);
  }

  lemma {:induction false} FailsRefusedPlain(w: Json, defs: map<string, Json>, n: nat) returns (k: nat)
    requires Plain(w) && MapWithin(w, defs, n) == Some(Err(SchemaParse))
    ensures RefusedPlain(w, defs, k)
    decreases n, Size(w), 0
  {
    hide Refused, AllName, Required, PropsWithin, Lookup;
    var t := StrAt(w, "type");
    k := 0;
    if t == Some("array") {
      if Get(w, "items").Some? {
        k := FailsRefused(Get(w, "items").value, defs, n);
        k := k + 1;
      }
    } else if t == Some("object") {
      if HasProps(w) {
        var props := Get(w, "properties").value.members;
        assert BuildWithin(w, defs, n) == Some(Err(SchemaParse));
        var i := FirstFailing(props, Required(w), defs, n);
        PropIsSmaller(props, i);
        k := FailsRefused(props[i].value, defs, n);
        k := k + 1;
      }
    }
  }

  /** A node is refused exactly when one of these holds somewhere along what the mapper reads: the
      reference is unknown or wrongly prefixed, all branches are null, an array has no items, an object
      no properties object, or the type is unknown or missing without an enumeration. */
  lemma RefusedExactly(v: Json, defs: map<string, Json>)
    ensures (exists k: nat :: Refused(v, defs, k)) <==> Answers(v, defs, Err(SchemaParse))
  {
    hide Refused, MapWithin;
    if k: nat :| Refused(v, defs, k) {
      RefusedFails(v, defs, k);
    }
    if Answers(v, defs, Err(SchemaParse)) {
      var n: nat :| MapWithin(v, defs, n) == Some(Err(SchemaParse));
      var k := FailsRefused(v, defs, n);
    }
  }
}
