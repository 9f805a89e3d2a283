/**
 * The store mapper: a store document of the search index becomes the
 * platform's full store record, and a close-pickup-point entry of the
 * click-and-collect service becomes its record. The conversion of a store is
 * a promise: it rejects for a missing store and for any mapping exception.
 */
module StoreMapper {
  import opened Options
  import opened Dicts
  import opened JsValues
  import opened Promises
  import opened FeesMapper
  import opened PickupSlotsMapper
  import opened AlcoholMapper
  import Strings

  /** A bag; the source's `type` field is `bagType` here, `type` being a Dafny keyword. */
  datatype Bag = Bag(ean: JsValue, price: JsValue, title: JsValue, bagType: JsValue)

  datatype SpecialGoods = SpecialGoods(
    homeDelivery: seq<HomeDeliveryFeeGroup>,
    pickupFee: seq<PickupFee>,
    bags: seq<Bag>,
    corporateDelivery: seq<HomeDeliveryFeeGroup>,
    corporatePickupFee: seq<PickupFee>)

  datatype Location = Location(lat: JsValue, lon: JsValue)

  datatype StoreFull = StoreFull(
    chainId: JsValue,
    gln: string,
    pickupGln: string,
    name: JsValue,
    city: JsValue,
    postalCode: JsValue,
    address: JsValue,
    county: JsValue,
    municipality: JsValue,
    phoneNumber: JsValue,
    location: Location,
    pickupPointDescription: JsValue,
    homeDeliveryProviders: JsValue,
    alcoholGrant: seq<AlcoholGrantArea>,
    alcoholSlots: JsValue,
    bookingHorizon: JsValue,
    deliveryMinimumSum: JsValue,
    hasValidHomeDeliveryData: JsValue,
    whitelist: JsValue,
    pickupMinimumSum: JsValue,
    pickupSlots: seq<StorePickupSlot>,
    specialGoods: SpecialGoods,
    openinghours: JsValue)

  // ---------------------------------------------------------------------
  // Bags

  function BagOf(bag: JsValue): (r: Option<Bag>)
    ensures r.None? <==> IsNil(bag)
  {
    if IsNil(bag) then None
    else Some(Bag(At(bag, "ean"), At(bag, "price"), At(bag, "title"), At(bag, "type")))
  }

  /** `mapBags`: `[]` for anything but an array, otherwise one bag per element, in order. */
  function MapBags(v: JsValue): (r: Option<seq<Bag>>)
    ensures !v.Arr? ==> r == Some([])
    ensures v.Arr? ==> (r.Some? <==> NoNil(v.elems))
    ensures v.Arr? && r.Some? ==> (|r.value| == |v.elems| &&
      forall i :: 0 <= i < |v.elems| ==> BagOf(v.elems[i]) == Some(r.value[i]))
  {
    if !v.Arr? then Some([])
    else if NoNil(v.elems) then Some(seq(|v.elems|, i requires 0 <= i < |v.elems| => BagOf(v.elems[i]).value))
    else None
  }

  /** A bag as the index stores it. */
  function BagDoc(b: Bag): JsValue {
    Obj([("ean", b.ean), ("price", b.price), ("title", b.title), ("type", b.bagType)])
  }

  function BagDocs(bs: seq<Bag>): (vs: seq<JsValue>)
    ensures |vs| == |bs|
  {
    seq(|bs|, i requires 0 <= i < |bs| => BagDoc(bs[i]))
  }

  lemma BagRoundTrip(b: Bag)
    ensures BagOf(BagDoc(b)) == Some(b)
  {
    var props := BagDoc(b).props;
    assert UniqueKeys(props);
    MemberUnique(props, 0);
    MemberUnique(props, 1);
    MemberUnique(props, 2);
    MemberUnique(props, 3);
  }

  /** Mapping the stored form of a list of bags gives the list back, in order. */
  lemma MapBagsRoundTrip(bs: seq<Bag>)
    ensures MapBags(Arr(BagDocs(bs))) == Some(bs)
  {
    var docs := BagDocs(bs);
    assert NoNil(docs);
    forall i | 0 <= i < |bs| ensures BagOf(docs[i]) == Some(bs[i]) {
      BagRoundTrip(bs[i]);
    }
    assert MapBags(Arr(docs)).value == bs;
  }

  // ---------------------------------------------------------------------
  // Special goods

  /**
   * `fallbackToOldDeliveryFormat`: a non-empty list in the new format is
   * kept; otherwise one group without zip codes holding the fees of the old
   * field. `None` where mapping the old fees throws.
   */
  function FallbackToOldDeliveryFormat(mapped: seq<HomeDeliveryFeeGroup>, oldFees: JsValue): (r: Option<seq<HomeDeliveryFeeGroup>>)
    ensures |mapped| > 0 ==> r == Some(mapped)
    ensures |mapped| == 0 ==> (r.Some? <==> MapHomeDeliveryFees(oldFees).Some?)
    ensures |mapped| == 0 && r.Some? ==> r.value == [HomeDeliveryFeeGroup(Arr([]), MapHomeDeliveryFees(oldFees).value)]
    ensures r.Some? ==> |r.value| > 0
  {
    if |mapped| > 0 then Some(mapped)
    else
      match MapHomeDeliveryFees(oldFees)
      case None => None
      case Some(fees) => Some([HomeDeliveryFeeGroup(Arr([]), fees)])
  }

  /** `mapSpecialGoods`; `None` where it throws, as for null or undefined special goods. */
  function MapSpecialGoods(sg: JsValue): (r: Option<SpecialGoods>)
    ensures IsNil(sg) ==> r.None?
    ensures r.Some? ==> |r.value.homeDelivery| > 0 && |r.value.corporateDelivery| > 0
    ensures r.Some? ==> (MapPickupFees(At(sg, "pickupFee")) == Some(r.value.pickupFee) &&
      MapPickupFees(At(sg, "corporatePickupFee")) == Some(r.value.corporatePickupFee) &&
      MapBags(At(sg, "bags")) == Some(r.value.bags))
    ensures r.Some? ==> (MapHomeDelivery(At(sg, "homeDelivery")).Some? &&
      FallbackToOldDeliveryFormat(MapHomeDelivery(At(sg, "homeDelivery")).value, At(sg, "homeDeliveryFee")) ==
        Some(r.value.homeDelivery))
    ensures r.Some? ==> (MapHomeDelivery(At(sg, "corporateDelivery")).Some? &&
      FallbackToOldDeliveryFormat(MapHomeDelivery(At(sg, "corporateDelivery")).value, At(sg, "corporateDeliveryFee")) ==
        Some(r.value.corporateDelivery))
    ensures !IsNil(sg) ==> (r.Some? <==>
      MapPickupFees(At(sg, "pickupFee")).Some? && MapPickupFees(At(sg, "corporatePickupFee")).Some? &&
      MapBags(At(sg, "bags")).Some? &&
      MapHomeDelivery(At(sg, "homeDelivery")).Some? &&
      FallbackToOldDeliveryFormat(MapHomeDelivery(At(sg, "homeDelivery")).value, At(sg, "homeDeliveryFee")).Some? &&
      MapHomeDelivery(At(sg, "corporateDelivery")).Some? &&
      FallbackToOldDeliveryFormat(MapHomeDelivery(At(sg, "corporateDelivery")).value, At(sg, "corporateDeliveryFee")).Some?)
  {
    if IsNil(sg) then None
    else
      var homeDelivery := MapHomeDelivery(At(sg, "homeDelivery"));
      var pickupFees := MapPickupFees(At(sg, "pickupFee"));
      var corporatePickupFee := MapPickupFees(At(sg, "corporatePickupFee"));
      var bags := MapBags(At(sg, "bags"));
      var corporateDelivery := MapHomeDelivery(At(sg, "corporateDelivery"));
      if homeDelivery.None? || pickupFees.None? || corporatePickupFee.None? || bags.None? || corporateDelivery.None? then None
      else
        var home := FallbackToOldDeliveryFormat(homeDelivery.value, At(sg, "homeDeliveryFee"));
        var corporate := FallbackToOldDeliveryFormat(corporateDelivery.value, At(sg, "corporateDeliveryFee"));
        if home.None? || corporate.None? then None
        else Some(SpecialGoods(home.value, pickupFees.value, bags.value, corporate.value, corporatePickupFee.value))
  }

  /** Delivery groups in the new format are kept as mapped; the old fee fields are then ignored. */
  lemma NewFormatKept(sg: JsValue)
    requires MapSpecialGoods(sg).Some?
    ensures |MapHomeDelivery(At(sg, "homeDelivery")).value| > 0 ==>
      MapSpecialGoods(sg).value.homeDelivery == MapHomeDelivery(At(sg, "homeDelivery")).value
    ensures |MapHomeDelivery(At(sg, "corporateDelivery")).value| > 0 ==>
      MapSpecialGoods(sg).value.corporateDelivery == MapHomeDelivery(At(sg, "corporateDelivery")).value
  {
  }

  /** Special goods without fees in either format still carry one empty delivery group of each kind. */
  lemma NoFeesGiveOneEmptyGroup(sg: JsValue)
    requires sg.Obj? && !At(sg, "homeDelivery").Arr? && !At(sg, "homeDeliveryFee").Arr?
    requires !At(sg, "corporateDelivery").Arr? && !At(sg, "corporateDeliveryFee").Arr?
    requires MapSpecialGoods(sg).Some?
    ensures MapSpecialGoods(sg).value.homeDelivery == [HomeDeliveryFeeGroup(Arr([]), [])]
    ensures MapSpecialGoods(sg).value.corporateDelivery == [HomeDeliveryFeeGroup(Arr([]), [])]
  {
  }

  // ---------------------------------------------------------------------
  // The store

  /** `response.location ? response.location.x : response.fallback`. */
  function LocationOf(response: JsValue): (l: Location)
    ensures Truthy(At(response, "location")) ==>
      l == Location(At(At(response, "location"), "lat"), At(At(response, "location"), "lon"))
    ensures !Truthy(At(response, "location")) ==> l == Location(At(response, "latitude"), At(response, "longitude"))
  {
    var location := At(response, "location");
    if Truthy(location) then Location(At(location, "lat"), At(location, "lon"))
    else Location(At(response, "latitude"), At(response, "longitude"))
  }

  /** The reason a failed mapping rejects with: it names the store. */
  function MappingFailed(storeId: JsValue): Failure {
    Reason("could not map ES store (" + ToStr(storeId) + ") to IStoreFull")
  }

  const NoStore: Failure := Reason("store is null or undefined")

  /** The parts of a store that can throw map successfully. */
  predicate PartsMap(response: JsValue) {
    MapSpecialGoods(At(response, "specialGoods")).Some? &&
    MapAlcoholGrant(At(response, "alcoholGrant")).Some? &&
    MapStorePickupSlots(At(response, "pickupSlots")).Some?
  }

  /**
   * `getEsStoreAsIStoreFull`. A mapping exception rejects with a message
   * naming the store id, except when the id itself is missing: then building
   * that message throws, and the promise rejects with the TypeError.
   */
  function GetEsStoreAsIStoreFull(response: JsValue): (r: Outcome<StoreFull>)
    ensures IsNil(response) ==> r == Rejected(NoStore)
    ensures !IsNil(response) && IsNil(At(response, "storeId")) ==> r == Rejected(TypeError)
    ensures !IsNil(response) && !IsNil(At(response, "storeId")) && !PartsMap(response) ==>
      r == Rejected(MappingFailed(At(response, "storeId")))
    ensures r.Resolved? <==> !IsNil(response) && !IsNil(At(response, "storeId")) && PartsMap(response)
    ensures r.Resolved? || r.Rejected?
  {
    if IsNil(response) then Rejected(NoStore)
    else
      var storeId := At(response, "storeId");
      if IsNil(storeId) then Rejected(TypeError)
      else if !PartsMap(response) then Rejected(MappingFailed(storeId))
      else
        var id := ToStr(storeId);
        Resolved(StoreFull(
          At(response, "chain"), id, id,
          At(response, "name"), At(response, "city"), At(response, "postalCode"), At(response, "address"),
          At(response, "county"), At(response, "municipality"), At(response, "phonenumber"),
          LocationOf(response),
          Or(At(response, "pickupPointDescription"), Str("")),
          At(response, "homeDelivery"),
          MapAlcoholGrant(At(response, "alcoholGrant")).value,
          At(response, "alcoholSlots"), At(response, "bookingHorizon"), At(response, "deliveryMinimumSum"),
          At(response, "hasValidHomeDeliveryData"),
          Or(At(response, "whitelist"), Bool(false)),
          At(response, "pickupMinimumSum"),
          MapStorePickupSlots(At(response, "pickupSlots")).value,
          MapSpecialGoods(At(response, "specialGoods")).value,
          At(response, "openinghours")))
  }

  /** A mapped store: both glns are the store id as a string, the chain comes from `chain`, the defaults hold. */
  lemma MappedStoreFields(response: JsValue)
    requires GetEsStoreAsIStoreFull(response).Resolved?
    ensures var s := GetEsStoreAsIStoreFull(response).value;
      s.gln == ToStr(At(response, "storeId")) && s.pickupGln == s.gln &&
      s.chainId == At(response, "chain") &&
      s.location == LocationOf(response) &&
      (Truthy(At(response, "pickupPointDescription")) ==> s.pickupPointDescription == At(response, "pickupPointDescription")) &&
      (!Truthy(At(response, "pickupPointDescription")) ==> s.pickupPointDescription == Str("")) &&
      (!Truthy(At(response, "whitelist")) ==> s.whitelist == Bool(false)) &&
      |s.specialGoods.homeDelivery| > 0 && |s.specialGoods.corporateDelivery| > 0
  {
  }

  /** A store without special goods cannot be mapped: the rejection names the store. */
  lemma MissingSpecialGoodsRejects(response: JsValue)
    requires !IsNil(response) && !IsNil(At(response, "storeId")) && IsNil(At(response, "specialGoods"))
    ensures GetEsStoreAsIStoreFull(response) == Rejected(MappingFailed(At(response, "storeId")))
  {
  }

  // ---------------------------------------------------------------------
  // Close pickup points

  datatype ClosePickupPoint = ClosePickupPoint(gln: string, sortIndex: JsValue, rangeInMeters: JsValue)

  /**
   * `mapClosePickupPoint`: the gln as a string, the Norwegian sort index and
   * distance renamed. `None` where it throws (no entry, or no gln).
   */
  function MapClosePickupPoint(p: JsValue): (r: Option<ClosePickupPoint>)
    ensures r.None? <==> IsNil(p) || IsNil(At(p, "gln"))
    ensures r.Some? ==> r.value.gln == ToStr(At(p, "gln"))
  {
    if IsNil(p) || IsNil(At(p, "gln")) then None
    else Some(ClosePickupPoint(ToStr(At(p, "gln")), At(p, "sorteringsNummer"), At(p, "avstandIMeter")))
  }

  /** A close pickup point as the caller receives it, and as it is cached. */
  function ClosePickupPointJs(c: ClosePickupPoint): JsValue {
    Obj([("gln", Str(c.gln)), ("sortIndex", c.sortIndex), ("rangeInMeters", c.rangeInMeters)])
  }

  /** The service's entry for a point, with a string gln. */
  function ClosePickupPointEntry(c: ClosePickupPoint): JsValue {
    Obj([("gln", Str(c.gln)), ("sorteringsNummer", c.sortIndex), ("avstandIMeter", c.rangeInMeters)])
  }

  /** Mapping the service's entry for a point gives the point back. */
  lemma ClosePickupPointRoundTrip(c: ClosePickupPoint)
    ensures MapClosePickupPoint(ClosePickupPointEntry(c)) == Some(c)
  {
    var props := ClosePickupPointEntry(c).props;
    assert UniqueKeys(props);
    MemberUnique(props, 0);
    MemberUnique(props, 1);
    MemberUnique(props, 2);
  }

  /** A numeric gln is turned into its decimal string. */
  lemma NumericGln(n: int, sortIndex: JsValue, range: JsValue)
    ensures MapClosePickupPoint(Obj([("gln", Num(n)), ("sorteringsNummer", sortIndex), ("avstandIMeter", range)])) ==
      Some(ClosePickupPoint(Strings.IntToString(n), sortIndex, range))
  {
    var props := [("gln", Num(n)), ("sorteringsNummer", sortIndex), ("avstandIMeter", range)];
    assert UniqueKeys(props);
    MemberUnique(props, 0);
    MemberUnique(props, 1);
    MemberUnique(props, 2);
  }
}
