/**
 * The fee mappers: pickup fees, home-delivery fee groups and home-delivery
 * fees, from the shape the search index stores to the platform's records.
 * A null or undefined element makes its property reads throw; the model
 * answers `None` there.
 */
module FeesMapper {
  import opened Options
  import opened Dicts
  import opened JsValues

  datatype PickupFee = PickupFee(ean: JsValue, price: JsValue, title: JsValue, intervallFrom: JsValue, intervallTo: JsValue)

  datatype HomeDeliveryFee = HomeDeliveryFee(
    deliveryAgent: JsValue,
    deliveryDateDeviation: JsValue,
    deliveryWindow: JsValue,
    ean: JsValue,
    flexibility: JsValue,
    intervallFrom: JsValue,
    intervallTo: JsValue,
    price: JsValue,
    title: JsValue)

  datatype HomeDeliveryFeeGroup = HomeDeliveryFeeGroup(zipCodes: JsValue, fees: seq<HomeDeliveryFee>)

  // ---------------------------------------------------------------------
  // Pickup fees

  /** One fee of `mapPickupFees`. */
  function PickupFeeOf(fee: JsValue): (r: Option<PickupFee>)
    ensures r.None? <==> IsNil(fee)
  {
    if IsNil(fee) then None
    else Some(PickupFee(At(fee, "ean"), At(fee, "price"), At(fee, "title"), At(fee, "intervallFrom"), At(fee, "intervallTo")))
  }

  /** `mapPickupFees`: `[]` for anything but an array, otherwise one fee per element, in order. */
  function MapPickupFees(v: JsValue): (r: Option<seq<PickupFee>>)
    ensures !v.Arr? ==> r == Some([])
    ensures v.Arr? ==> (r.Some? <==> NoNil(v.elems))
    ensures v.Arr? && r.Some? ==> (|r.value| == |v.elems| &&
      forall i :: 0 <= i < |v.elems| ==> PickupFeeOf(v.elems[i]) == Some(r.value[i]))
  {
    if !v.Arr? then Some([])
    else if NoNil(v.elems) then Some(seq(|v.elems|, i requires 0 <= i < |v.elems| => PickupFeeOf(v.elems[i]).value))
    else None
  }

  /** A pickup fee as the index stores it. */
  function PickupFeeDoc(f: PickupFee): JsValue {
    Obj([("ean", f.ean), ("price", f.price), ("title", f.title), ("intervallFrom", f.intervallFrom), ("intervallTo", f.intervallTo)])
  }

  function PickupFeeDocs(fs: seq<PickupFee>): (vs: seq<JsValue>)
    ensures |vs| == |fs|
  {
    seq(|fs|, i requires 0 <= i < |fs| => PickupFeeDoc(fs[i]))
  }

  /** Every field is copied by name: mapping the stored form of a fee gives the fee back. */
  lemma PickupFeeRoundTrip(f: PickupFee)
    ensures PickupFeeOf(PickupFeeDoc(f)) == Some(f)
  {
    var props := PickupFeeDoc(f).props;
    assert UniqueKeys(props);
    MemberUnique(props, 0);
    MemberUnique(props, 1);
    MemberUnique(props, 2);
    MemberUnique(props, 3);
    MemberUnique(props, 4);
  }

  /** Mapping the stored form of a list of fees gives the list back, in order. */
  lemma MapPickupFeesRoundTrip(fs: seq<PickupFee>)
    ensures MapPickupFees(Arr(PickupFeeDocs(fs))) == Some(fs)
  {
    var docs := PickupFeeDocs(fs);
    assert NoNil(docs);
    forall i | 0 <= i < |fs| ensures PickupFeeOf(docs[i]) == Some(fs[i]) {
      PickupFeeRoundTrip(fs[i]);
    }
    assert MapPickupFees(Arr(docs)).value == fs;
  }

  // ---------------------------------------------------------------------
  // Home-delivery fees

  /** One fee of `mapHomeDeliveryFees`: `flexibility` comes from `fleksibilitetsgrad`. */
  function HomeDeliveryFeeOf(fee: JsValue): (r: Option<HomeDeliveryFee>)
    ensures r.None? <==> IsNil(fee)
  {
    if IsNil(fee) then None
    else Some(HomeDeliveryFee(
      At(fee, "deliveryAgent"), At(fee, "deliveryDateDeviation"), At(fee, "deliveryWindow"), At(fee, "ean"),
      At(fee, "fleksibilitetsgrad"), At(fee, "intervallFrom"), At(fee, "intervallTo"), At(fee, "price"), At(fee, "title")))
  }

  /** `mapHomeDeliveryFees`: `[]` for anything but an array, otherwise one fee per element, in order. */
  function MapHomeDeliveryFees(v: JsValue): (r: Option<seq<HomeDeliveryFee>>)
    ensures !v.Arr? ==> r == Some([])
    ensures v.Arr? ==> (r.Some? <==> NoNil(v.elems))
    ensures v.Arr? && r.Some? ==> (|r.value| == |v.elems| &&
      forall i :: 0 <= i < |v.elems| ==> HomeDeliveryFeeOf(v.elems[i]) == Some(r.value[i]))
  {
    if !v.Arr? then Some([])
    else if NoNil(v.elems) then Some(seq(|v.elems|, i requires 0 <= i < |v.elems| => HomeDeliveryFeeOf(v.elems[i]).value))
    else None
  }

  /** A home-delivery fee as the index stores it, with the Norwegian `fleksibilitetsgrad`. */
  function HomeDeliveryFeeDoc(f: HomeDeliveryFee): JsValue {
    Obj([("deliveryAgent", f.deliveryAgent), ("deliveryDateDeviation", f.deliveryDateDeviation),
         ("deliveryWindow", f.deliveryWindow), ("ean", f.ean), ("fleksibilitetsgrad", f.flexibility),
         ("intervallFrom", f.intervallFrom), ("intervallTo", f.intervallTo), ("price", f.price), ("title", f.title)])
  }

  function HomeDeliveryFeeDocs(fs: seq<HomeDeliveryFee>): (vs: seq<JsValue>)
    ensures |vs| == |fs|
  {
    seq(|fs|, i requires 0 <= i < |fs| => HomeDeliveryFeeDoc(fs[i]))
  }

  /** The stored form names each field once. */
  lemma HomeDeliveryFeeDocKeys(f: HomeDeliveryFee)
    ensures UniqueKeys(HomeDeliveryFeeDoc(f).props)
  {
  }

  /** `flexibility` is read from `fleksibilitetsgrad` and every other field by its own name. */
  lemma HomeDeliveryFeeRoundTrip(f: HomeDeliveryFee)
    ensures HomeDeliveryFeeOf(HomeDeliveryFeeDoc(f)) == Some(f)
  {
    var props := HomeDeliveryFeeDoc(f).props;
    HomeDeliveryFeeDocKeys(f);
    MemberUnique(props, 0);
    MemberUnique(props, 1);
    MemberUnique(props, 2);
    MemberUnique(props, 3);
    MemberUnique(props, 4);
    MemberUnique(props, 5);
    MemberUnique(props, 6);
    MemberUnique(props, 7);
    MemberUnique(props, 8);
  }

  lemma MapHomeDeliveryFeesRoundTrip(fs: seq<HomeDeliveryFee>)
    ensures MapHomeDeliveryFees(Arr(HomeDeliveryFeeDocs(fs))) == Some(fs)
  {
    var docs := HomeDeliveryFeeDocs(fs);
    assert NoNil(docs);
    forall i | 0 <= i < |fs| ensures HomeDeliveryFeeOf(docs[i]) == Some(fs[i]) {
      HomeDeliveryFeeRoundTrip(fs[i]);
    }
    assert MapHomeDeliveryFees(Arr(docs)).value == fs;
  }

  // ---------------------------------------------------------------------
  // Home-delivery fee groups

  /** One group of `mapHomeDelivery`: its zip codes as they are, its fees mapped. */
  function GroupOf(delivery: JsValue): (r: Option<HomeDeliveryFeeGroup>)
    ensures IsNil(delivery) ==> r.None?
    ensures r.Some? ==> (r.value.zipCodes == At(delivery, "zipCodes") &&
      MapHomeDeliveryFees(At(delivery, "fees")) == Some(r.value.fees))
  {
    if IsNil(delivery) then None
    else
      match MapHomeDeliveryFees(At(delivery, "fees"))
      case None => None
      case Some(fees) => Some(HomeDeliveryFeeGroup(At(delivery, "zipCodes"), fees))
  }

  /** Every group maps without a throw. */
  predicate AllGroups(ds: seq<JsValue>) {
    forall i :: 0 <= i < |ds| ==> GroupOf(ds[i]).Some?
  }

  /** `mapHomeDelivery`: `[]` for anything but a non-empty array, otherwise one group per element, in order. */
  function MapHomeDelivery(v: JsValue): (r: Option<seq<HomeDeliveryFeeGroup>>)
    ensures !v.Arr? || |v.elems| == 0 ==> r == Some([])
    ensures v.Arr? ==> (r.Some? <==> AllGroups(v.elems))
    ensures v.Arr? && r.Some? ==> (|r.value| == |v.elems| &&
      forall i :: 0 <= i < |v.elems| ==> GroupOf(v.elems[i]) == Some(r.value[i]))
  {
    if !v.Arr? || |v.elems| == 0 then Some([])
    else if AllGroups(v.elems) then Some(seq(|v.elems|, i requires 0 <= i < |v.elems| => GroupOf(v.elems[i]).value))
    else None
  }

  /** A group as the index stores it. */
  function GroupDoc(g: HomeDeliveryFeeGroup): JsValue {
    Obj([("zipCodes", g.zipCodes), ("fees", Arr(HomeDeliveryFeeDocs(g.fees)))])
  }

  function GroupDocs(gs: seq<HomeDeliveryFeeGroup>): (vs: seq<JsValue>)
    ensures |vs| == |gs|
  {
    seq(|gs|, i requires 0 <= i < |gs| => GroupDoc(gs[i]))
  }

  lemma GroupRoundTrip(g: HomeDeliveryFeeGroup)
    ensures GroupOf(GroupDoc(g)) == Some(g)
  {
    MemberPair("zipCodes", g.zipCodes, "fees", Arr(HomeDeliveryFeeDocs(g.fees)), "zipCodes");
    MemberPair("zipCodes", g.zipCodes, "fees", Arr(HomeDeliveryFeeDocs(g.fees)), "fees");
    MapHomeDeliveryFeesRoundTrip(g.fees);
  }

  /** The stored form of a list of groups maps back to the list, in order. */
  lemma MapHomeDeliveryRoundTrip(gs: seq<HomeDeliveryFeeGroup>)
    ensures MapHomeDelivery(Arr(GroupDocs(gs))) == Some(gs)
  {
    var docs := GroupDocs(gs);
    forall i | 0 <= i < |gs| ensures GroupOf(docs[i]) == Some(gs[i]) {
      GroupRoundTrip(gs[i]);
    }
    assert AllGroups(docs);
    if |gs| > 0 {
      assert MapHomeDelivery(Arr(docs)).value == gs;
    }
  }

  /** A group whose fees hold a null fails the whole list. */
  lemma NilFeeFailsGroup(v: JsValue, i: int)
    requires v.Arr? && 0 <= i < |v.elems| && !IsNil(v.elems[i])
    requires At(v.elems[i], "fees").Arr? && !NoNil(At(v.elems[i], "fees").elems)
    ensures MapHomeDelivery(v).None?
  {
  }
}
