/** Column types: the wire form, the Arrow form, and the two directions between them. */
module ArrowTypes {

  datatype TimeUnit = Second | Millisecond | Microsecond | Nanosecond

  datatype ArrowTimeUnit = ArrowSecond | ArrowMillisecond | ArrowMicrosecond | ArrowNanosecond

  datatype Zone = NoZone | InZone(name: string)

  /** The wire type of a column. */
  datatype Spec =
    | Bool | Int8 | Int16 | Int32 | Int64 | UInt8 | UInt16 | UInt32 | UInt64
    | Float32 | Float64 | Utf8 | LargeUtf8 | Binary | LargeBinary
    | FixedSizeBinary(len: int) | Date32 | Date64
    | Timestamp(unit: TimeUnit, tz: Zone) | Time32(unit: TimeUnit) | Time64(unit: TimeUnit)
    | Decimal128(precision: nat, scale: int)
    | List(item: Spec)
    | Struct(fields: seq<FieldSpec>)

  /** A wire field. Its metadata map is always written empty and is left out. */
  datatype FieldSpec = FieldSpec(name: string, spec: Spec, nullable: bool)

  datatype Arrow =
    | ABoolean | AInt8 | AInt16 | AInt32 | AInt64 | AUInt8 | AUInt16 | AUInt32 | AUInt64
    | AFloat32 | AFloat64 | AUtf8 | ALargeUtf8 | ABinary | ALargeBinary
    | AFixedSizeBinary(len: int) | ADate32 | ADate64
    | ATimestamp(aunit: ArrowTimeUnit, tz: Zone) | ATime32(aunit: ArrowTimeUnit) | ATime64(aunit: ArrowTimeUnit)
    | ADecimal128(precision: nat, scale: int)
    | AList(element: AField)
    | AStruct(afields: seq<AField>)
    | AUnlisted(description: string)  // any type outside the accepted set

  datatype AField = AField(name: string, arrow: Arrow, nullable: bool)

  function UnitToArrow(u: TimeUnit): ArrowTimeUnit {
    match u
    case Second => ArrowSecond
    case Millisecond => ArrowMillisecond
    case Microsecond => ArrowMicrosecond
    case Nanosecond => ArrowNanosecond
  }

  function UnitFromArrow(u: ArrowTimeUnit): TimeUnit {
    match u
    case ArrowSecond => Second
    case ArrowMillisecond => Millisecond
    case ArrowMicrosecond => Microsecond
    case ArrowNanosecond => Nanosecond
  }

  /** `data_type_to_arrow`. */
  function ToArrow(s: Spec): Arrow {
    match s
    case Bool => ABoolean
    case Int8 => AInt8
    case Int16 => AInt16
    case Int32 => AInt32
    case Int64 => AInt64
    case UInt8 => AUInt8
    case UInt16 => AUInt16
    case UInt32 => AUInt32
    case UInt64 => AUInt64
    case Float32 => AFloat32
    case Float64 => AFloat64
    case Utf8 => AUtf8
    case LargeUtf8 => ALargeUtf8
    case Binary => ABinary
    case LargeBinary => ALargeBinary
    case FixedSizeBinary(len) => AFixedSizeBinary(len)
    case Date32 => ADate32
    case Date64 => ADate64
    case Timestamp(unit, tz) => ATimestamp(UnitToArrow(unit), tz)
    case Time32(unit) => ATime32(UnitToArrow(unit))
    case Time64(unit) => ATime64(UnitToArrow(unit))
    case Decimal128(precision, scale) => ADecimal128(precision, scale)
    case List(item) => AList(AField("item", ToArrow(item), true))
    case Struct(fields) => AStruct(FieldsToArrow(fields))
  }

  /** `fieldspec_to_arrow`. */
  function FieldsToArrow(fields: seq<FieldSpec>): seq<AField> {
    if fields == [] then []
    else [AField(fields[0].name, ToArrow(fields[0].spec), fields[0].nullable)] + FieldsToArrow(fields[1..])
  }

  /** `dtspec_from_arrow`; a type outside the accepted set becomes `Utf8`. */
  function FromArrow(a: Arrow): Spec {
    match a
    case ABoolean => Bool
    case AInt8 => Int8
    case AInt16 => Int16
    case AInt32 => Int32
    case AInt64 => Int64
    case AUInt8 => UInt8
    case AUInt16 => UInt16
    case AUInt32 => UInt32
    case AUInt64 => UInt64
    case AFloat32 => Float32
    case AFloat64 => Float64
    case AUtf8 => Utf8
    case ALargeUtf8 => LargeUtf8
    case ABinary => Binary
    case ALargeBinary => LargeBinary
    case AFixedSizeBinary(len) => FixedSizeBinary(len)
    case ADate32 => Date32
    case ADate64 => Date64
    case ATimestamp(unit, tz) => Timestamp(UnitFromArrow(unit), tz)
    case ATime32(unit) => Time32(UnitFromArrow(unit))
    case ATime64(unit) => Time64(UnitFromArrow(unit))
    case ADecimal128(precision, scale) => Decimal128(precision, scale)
    case AList(element) => List(FromArrow(element.arrow))
    case AStruct(fields) => Struct(FieldsFromArrow(fields))
    case AUnlisted(_) => Utf8
  }

  /** `arrow_schema_to_fieldspec`. */
  function FieldsFromArrow(fields: seq<AField>): seq<FieldSpec> {
    if fields == [] then []
    else [FieldSpec(fields[0].name, FromArrow(fields[0].arrow), fields[0].nullable)] + FieldsFromArrow(fields[1..])
  }

  /** The Arrow types that survive: accepted types whose list elements are nullable and named "item",
      at every depth. */
  predicate Faithful(a: Arrow) {
    match a
    case AUnlisted(_) => false
    case AList(element) => element.name == "item" && element.nullable && Faithful(element.arrow)
    case AStruct(fields) => FaithfulFields(fields)
    case _ => true
  }

  predicate FaithfulFields(fields: seq<AField>) {
    fields == [] || (Faithful(fields[0].arrow) && FaithfulFields(fields[1..]))
  }

  /** Wire to Arrow and back is the identity, for every nesting of lists and structs. */
  lemma {:induction false} SpecRoundTrips(s: Spec)
    ensures FromArrow(ToArrow(s)) == s && Faithful(ToArrow(s))
  {
    match s {
      case List(item) => SpecRoundTrips(item);
      case Struct(fields) => FieldsRoundTrip(fields);
      case Timestamp(unit, _) => assert UnitFromArrow(UnitToArrow(unit)) == unit;
      case Time32(unit) => assert UnitFromArrow(UnitToArrow(unit)) == unit;
      case Time64(unit) => assert UnitFromArrow(UnitToArrow(unit)) == unit;
      case _ =>
    }
  }

  lemma {:induction false} FieldsRoundTrip(fields: seq<FieldSpec>)
    ensures FieldsFromArrow(FieldsToArrow(fields)) == fields && FaithfulFields(FieldsToArrow(fields))
  {
    if fields == [] {
    } else {
      SpecRoundTrips(fields[0].spec);
      FieldsRoundTrip(fields[1..]);
      var a := FieldsToArrow(fields);
      assert a[1..] == FieldsToArrow(fields[1..]);
      assert fields == [fields[0]] + fields[1..];
    }
  }

  lemma FlatRoundTrips(a: Arrow)
    requires !a.AList? && !a.AStruct?
    ensures ToArrow(FromArrow(a)) == a <==> Faithful(a)
  {
    if a.ATimestamp? || a.ATime32? || a.ATime64? {
      assert UnitToArrow(UnitFromArrow(a.aunit)) == a.aunit;
    }
  }

  lemma ListUnfolds(element: AField)
    ensures ToArrow(FromArrow(AList(element))) == AList(AField("item", ToArrow(FromArrow(element.arrow)), true))
    ensures Faithful(AList(element)) <==> element.name == "item" && element.nullable && Faithful(element.arrow)
  {
  }

  /** Arrow to wire and back is the identity exactly on the faithful types. */
  lemma {:induction false} ArrowRoundTrips(a: Arrow)
    ensures ToArrow(FromArrow(a)) == a <==> Faithful(a)
  {
    if a.AList? {
      ListUnfolds(a.element);
      hide ToArrow, FromArrow, Faithful;
      ArrowRoundTrips(a.element.arrow);
    } else if a.AStruct? {
      ArrowFieldsRoundTrip(a.afields);
    } else {
      FlatRoundTrips(a);
    }
  }

  lemma {:induction false} ArrowFieldsRoundTrip(fields: seq<AField>)
    ensures FieldsToArrow(FieldsFromArrow(fields)) == fields <==> FaithfulFields(fields)
  {
    if fields == [] {
    } else {
      ArrowRoundTrips(fields[0].arrow);
      ArrowFieldsRoundTrip(fields[1..]);
      var back := FieldsToArrow(FieldsFromArrow(fields));
      var first := AField(fields[0].name, ToArrow(FromArrow(fields[0].arrow)), fields[0].nullable);
      assert FieldsFromArrow(fields)[1..] == FieldsFromArrow(fields[1..]);
      assert back == [first] + FieldsToArrow(FieldsFromArrow(fields[1..]));
      assert fields == [fields[0]] + fields[1..];
      assert back[0] == first && back[1..] == FieldsToArrow(FieldsFromArrow(fields[1..]));
    }
  }
}
