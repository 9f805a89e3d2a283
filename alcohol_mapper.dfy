/** The alcohol-grant mapper: the areas where a store may sell alcohol. */
module AlcoholMapper {
  import opened Options
  import opened Dicts
  import opened JsValues

  datatype Municipality = Municipality(id: JsValue, name: JsValue)

  /** An area; `municipality` is absent (`undefined`) when the stored area has none. */
  datatype AlcoholGrantArea = AlcoholGrantArea(municipality: Option<Municipality>, zipCodes: JsValue)

  /** One area of `mapAlcoholGrant`: the municipality's id and name only, the zip codes as they are. */
  function AreaOf(area: JsValue): (r: Option<AlcoholGrantArea>)
    ensures r.None? <==> IsNil(area)
    ensures r.Some? ==> (r.value.municipality.Some? <==> !IsNil(At(area, "municipality")))
    ensures r.Some? && r.value.municipality.Some? ==>
      r.value.municipality.value == Municipality(At(At(area, "municipality"), "id"), At(At(area, "municipality"), "name"))
    ensures r.Some? ==> r.value.zipCodes == At(area, "zipCodes")
  {
    if IsNil(area) then None
    else
      var m := At(area, "municipality");
      var municipality := if IsNil(m) then None else Some(Municipality(At(m, "id"), At(m, "name")));
      Some(AlcoholGrantArea(municipality, At(area, "zipCodes")))
  }

  /** `mapAlcoholGrant`: `[]` for anything but an array, otherwise one area per element, in order. */
  function MapAlcoholGrant(v: JsValue): (r: Option<seq<AlcoholGrantArea>>)
    ensures !v.Arr? ==> r == Some([])
    ensures v.Arr? ==> (r.Some? <==> NoNil(v.elems))
    ensures v.Arr? && r.Some? ==> (|r.value| == |v.elems| &&
      forall i :: 0 <= i < |v.elems| ==> AreaOf(v.elems[i]) == Some(r.value[i]))
  {
    if !v.Arr? then Some([])
    else if NoNil(v.elems) then Some(seq(|v.elems|, i requires 0 <= i < |v.elems| => AreaOf(v.elems[i]).value))
    else None
  }

  /** An area as the index stores it; a missing municipality is `undefined`. */
  function AreaDoc(a: AlcoholGrantArea): JsValue {
    var m := match a.municipality
      case None => Undefined
      case Some(mu) => Obj([("id", mu.id), ("name", mu.name)]);
    Obj([("municipality", m), ("zipCodes", a.zipCodes)])
  }

  function AreaDocs(as_: seq<AlcoholGrantArea>): (vs: seq<JsValue>)
    ensures |vs| == |as_|
  {
    seq(|as_|, i requires 0 <= i < |as_| => AreaDoc(as_[i]))
  }

  lemma AreaRoundTrip(a: AlcoholGrantArea)
    ensures AreaOf(AreaDoc(a)) == Some(a)
  {
    var m := At(AreaDoc(a), "municipality");
    MemberPair("municipality", m, "zipCodes", a.zipCodes, "municipality");
    MemberPair("municipality", m, "zipCodes", a.zipCodes, "zipCodes");
    if a.municipality.Some? {
      var mu := a.municipality.value;
      MemberPair("id", mu.id, "name", mu.name, "id");
      MemberPair("id", mu.id, "name", mu.name, "name");
    }
  }

  lemma MapAlcoholGrantRoundTrip(as_: seq<AlcoholGrantArea>)
    ensures MapAlcoholGrant(Arr(AreaDocs(as_))) == Some(as_)
  {
    var docs := AreaDocs(as_);
    assert NoNil(docs);
    forall i | 0 <= i < |as_| ensures AreaOf(docs[i]) == Some(as_[i]) {
      AreaRoundTrip(as_[i]);
    }
    assert MapAlcoholGrant(Arr(docs)).value == as_;
  }

  /**
   * Whatever else the stored municipality holds, the mapped one has exactly
   * the values of its `id` and `name` properties (here at positions `i` and `j`).
   */
  lemma MunicipalityCopiesIdAndName(area: JsValue, i: nat, j: nat)
    requires !IsNil(area) && At(area, "municipality").Obj?
    requires UniqueKeys(At(area, "municipality").props)
    requires i < |At(area, "municipality").props| && At(area, "municipality").props[i].0 == "id"
    requires j < |At(area, "municipality").props| && At(area, "municipality").props[j].0 == "name"
    ensures AreaOf(area).value.municipality ==
      Some(Municipality(At(area, "municipality").props[i].1, At(area, "municipality").props[j].1))
  {
    var props := At(area, "municipality").props;
    MemberUnique(props, i);
    MemberUnique(props, j);
  }
}
