/** Reading access-token claims that may name the system owner. Its tenant id, the nil UUID, is one
    the strict reader refuses; it is swapped for a fresh marker before reading and back after. */
module TenantMarkers {
  import opened Wrappers

  const NIL := "00000000-0000-0000-0000-000000000000"

  datatype TenantId = SystemOwner | Tenant(n: nat)

  datatype RawId = NoId | NotText | Text(s: string)

  datatype RawPrincipal = NoPrincipal | NotFields | Fields(tenantId: RawId, other: string)

  /** One layer of the raw claims, the outermost first; `other` is everything but the principal and
      the next layer. */
  datatype RawLayer = RawLayer(principal: RawPrincipal, other: string)

  /** What stands after the last layer. */
  datatype Ending = NoMore | NotALayer

  datatype Layer = Layer(tenantId: TenantId, principal: string, other: string)

  /** The strict reader: which texts are public tenant ids, how one is written, and which remaining
      fields it accepts. Several texts may name one id; the nil text names none. */
  datatype Reader = Reader(
    id: string -> Option<nat>, write: nat -> string, principalOk: string -> bool, otherOk: string -> bool)

  predicate Sound(reader: Reader) {
    reader.id(NIL).None?
  }

  /** A marker reads back as itself. */
  predicate IsMarker(reader: Reader, marker: nat) {
    reader.id(reader.write(marker)) == Some(marker)
  }

  /** One layer under a given reading of tenant-id texts. */
  function ReadLayer(reader: Reader, raw: RawLayer, id: string -> Option<TenantId>): Option<Layer> {
    match raw.principal
    case Fields(Text(s), other) =>
      if id(s).None? || !reader.principalOk(other) || !reader.otherOk(raw.other) then None
      else Some(Layer(id(s).value, other, raw.other))
    case _ => None
  }

  function ReadLayers(reader: Reader, raw: seq<RawLayer>, id: string -> Option<TenantId>): (r: Option<seq<Layer>>)
    ensures r.Some? ==> |r.value| == |raw| && forall i :: 0 <= i < |raw| ==>
              ReadLayer(reader, raw[i], id) == Some(r.value[i])
    ensures r.None? ==> exists i :: 0 <= i < |raw| && ReadLayer(reader, raw[i], id).None?
  {
    if raw == [] then Some([])
    else
      match (ReadLayer(reader, raw[0], id), ReadLayers(reader, raw[1..], id))
      case (Some(layer), Some(rest)) => Some([layer] + rest)
      case (None, _) => None
      case (_, None) =>
        var i :| 0 <= i < |raw[1..]| && ReadLayer(reader, raw[1..][i], id).None?;
        assert ReadLayer(reader, raw[i + 1], id).None?;
        None
  }

  /** Strict reading: public tenant ids only. */
  function StrictId(reader: Reader): string -> Option<TenantId> {
    s => if reader.id(s).Some? then Some(Tenant(reader.id(s).value)) else None
  }

  /** The reading meant: the nil text names the system owner, every other text is read strictly. */
  function OwnerOrStrictId(reader: Reader): string -> Option<TenantId> {
    s => if s == NIL then Some(SystemOwner) else StrictId(reader)(s)
  }

  function Decode(reader: Reader, raw: seq<RawLayer>, ending: Ending, id: string -> Option<TenantId>)
    : Option<seq<Layer>>
  {
    if raw == [] || ending.NotALayer? then None else ReadLayers(reader, raw, id)
  }

  function Marked(reader: Reader, raw: RawLayer, marker: nat): RawLayer {
    match raw.principal
    case Fields(Text(s), other) =>
      if s == NIL then raw.(principal := Fields(Text(reader.write(marker)), other)) else raw
    case _ => raw
  }

  function Restored(layer: Layer, marker: nat): Layer {
    if layer.tenantId == Tenant(marker) then layer.(tenantId := SystemOwner) else layer
  }

  /** Some layer already carries the marker. */
  predicate Carries(reader: Reader, raw: seq<RawLayer>, marker: nat) {
    exists i :: 0 <= i < |raw| && CarriesMarker(reader, raw[i], marker)
  }

  predicate CarriesMarker(reader: Reader, raw: RawLayer, marker: nat) {
    raw.principal.Fields? && raw.principal.tenantId.Text? && reader.id(raw.principal.tenantId.s) == Some(marker)
  }

  /** `replace_system_owner_tenant_ids`, walking the layers in place. */
  method ReplaceSystemOwnerTenantIds(reader: Reader, raw: array<RawLayer>, marker: nat)
    modifies raw
    ensures forall i :: 0 <= i < raw.Length ==> raw[i] == Marked(reader, old(raw[i]), marker)
  {
    var at := 0;
    while at < raw.Length
      invariant at <= raw.Length
      invariant forall i :: 0 <= i < raw.Length ==>
                  raw[i] == if i < at then Marked(reader, old(raw[i]), marker) else old(raw[i])
    {
      var principal := raw[at].principal;
      if principal.Fields? && principal.tenantId == Text(NIL) {
        raw[at] := raw[at].(principal := principal.(tenantId := Text(reader.write(marker))));
      }
      at := at + 1;
    }
  }

  /** `restore_system_owner_tenant_ids`. */
  method RestoreSystemOwnerTenantIds(claims: array<Layer>, marker: nat)
    modifies claims
    ensures forall i :: 0 <= i < claims.Length ==> claims[i] == Restored(old(claims[i]), marker)
  {
    var at := 0;
    while at < claims.Length
      invariant at <= claims.Length
      invariant forall i :: 0 <= i < claims.Length ==>
                  claims[i] == if i < at then Restored(old(claims[i]), marker) else old(claims[i])
    {
      if claims[at].tenantId == Tenant(marker) {
        claims[at] := claims[at].(tenantId := SystemOwner);
      }
      at := at + 1;
    }
  }

  /** One layer, marked, read strictly and restored. */
  lemma LayerReadsAsMeant(reader: Reader, raw: RawLayer, marker: nat)
    requires Sound(reader) && IsMarker(reader, marker)
    ensures var strict := ReadLayer(reader, Marked(reader, raw, marker), StrictId(reader));
            var meant := ReadLayer(reader, raw, OwnerOrStrictId(reader));
            && (strict.Some? <==> meant.Some?)
            && (strict.Some? ==>
                  (Restored(strict.value, marker) == meant.value <==> !CarriesMarker(reader, raw, marker)))
  {
  }

  function RestoredAll(layers: seq<Layer>, marker: nat): (r: seq<Layer>)
    ensures |r| == |layers| && forall i :: 0 <= i < |r| ==> r[i] == Restored(layers[i], marker)
  {
    seq(|layers|, i requires 0 <= i < |layers| => Restored(layers[i], marker))
  }

  lemma LayersReadAsMeant(reader: Reader, raw: seq<RawLayer>, marked: seq<RawLayer>, marker: nat)
    requires Sound(reader) && IsMarker(reader, marker)
    requires |marked| == |raw| && forall i :: 0 <= i < |raw| ==> marked[i] == Marked(reader, raw[i], marker)
    ensures var strict := ReadLayers(reader, marked, StrictId(reader));
            var meant := ReadLayers(reader, raw, OwnerOrStrictId(reader));
            && (strict.Some? <==> meant.Some?)
            && (strict.Some? ==> (RestoredAll(strict.value, marker) == meant.value <==> !Carries(reader, raw, marker)))
  {
    hide ReadLayer, Marked, CarriesMarker, Restored;
    var strict, meant := ReadLayers(reader, marked, StrictId(reader)), ReadLayers(reader, raw, OwnerOrStrictId(reader));
    forall i | 0 <= i < |raw|
      ensures var s := ReadLayer(reader, marked[i], StrictId(reader));
              var m := ReadLayer(reader, raw[i], OwnerOrStrictId(reader));
              && (s.Some? <==> m.Some?)
              && (s.Some? ==> (Restored(s.value, marker) == m.value <==> !CarriesMarker(reader, raw[i], marker)))
    {
      LayerReadsAsMeant(reader, raw[i], marker);
    }
    if strict.Some? && meant.Some? {
      var restored := RestoredAll(strict.value, marker);
      assert forall i :: 0 <= i < |raw| ==> (restored[i] == meant.value[i] <==> !CarriesMarker(reader, raw[i], marker));
      if !Carries(reader, raw, marker) {
        assert restored == meant.value;
      }
    }
  }

  /** The detour over the marker reads exactly what is meant: the same claims are refused, and the
      claims accepted come out the same if and only if none of them carried the marker beforehand. */
  method DecodeClaims(reader: Reader, layers: seq<RawLayer>, ending: Ending, marker: nat)
    returns (r: Option<seq<Layer>>)
    requires Sound(reader) && IsMarker(reader, marker)
    ensures r.Some? <==> Decode(reader, layers, ending, OwnerOrStrictId(reader)).Some?
    ensures r.Some? ==>
              (r == Decode(reader, layers, ending, OwnerOrStrictId(reader)) <==> !Carries(reader, layers, marker))
  {
    hide ReadLayers, Marked, Carries, Restored;
    var raw := new RawLayer[|layers|](i requires 0 <= i < |layers| => layers[i]);
    ReplaceSystemOwnerTenantIds(reader, raw, marker);
    LayersReadAsMeant(reader, layers, raw[..], marker);
    var strict := Decode(reader, raw[..], ending, StrictId(reader));
    if strict.None? {
      return None;
    }
    var claims := new Layer[|strict.value|](i requires 0 <= i < |strict.value| => strict.value[i]);
    RestoreSystemOwnerTenantIds(claims, marker);
    assert claims[..] == RestoredAll(strict.value, marker);
    return Some(claims[..]);
  }
}
