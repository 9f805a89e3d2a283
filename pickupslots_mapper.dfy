/**
 * The pickup-slot mappers: the slots of a store and the slots of a pickup
 * point, from the shape the search index stores to the platform's records.
 */
module PickupSlotsMapper {
  import opened Options
  import opened Dicts
  import opened JsValues

  datatype StorePickupSlot = StorePickupSlot(
    capacity: JsValue,
    deadline: JsValue,
    deadlineCorporate: JsValue,
    from: JsValue,
    to: JsValue,
    homeDelivery: JsValue,
    pickup: JsValue,
    storeWindowId: JsValue,
    isTripleTrumf: JsValue)

  datatype PickupPointPickupSlot = PickupPointPickupSlot(
    capacity: JsValue,
    deadline: JsValue,
    from: JsValue,
    to: JsValue,
    homeDelivery: JsValue,
    pickup: JsValue,
    pickupPointWindowId: JsValue,
    displayFrom: JsValue,
    displayTo: JsValue,
    isTripleTrumf: JsValue)

  /** `slot.isTripleTrumf || false`: a falsy flag becomes `false`, a truthy one is kept. */
  function TripleTrumf(slot: JsValue): (b: JsValue)
    ensures Truthy(At(slot, "isTripleTrumf")) ==> b == At(slot, "isTripleTrumf")
    ensures !Truthy(At(slot, "isTripleTrumf")) ==> b == Bool(false)
  {
    Or(At(slot, "isTripleTrumf"), Bool(false))
  }

  /** A flag the mapper can produce: truthy, or `false` itself. */
  predicate NormalFlag(b: JsValue) {
    Truthy(b) || b == Bool(false)
  }

  // ---------------------------------------------------------------------
  // Store slots

  /** One slot of `mapStorePickupSlots`: `storeWindowId` comes from `id`. */
  function StoreSlotOf(slot: JsValue): (r: Option<StorePickupSlot>)
    ensures r.None? <==> IsNil(slot)
    ensures r.Some? ==> NormalFlag(r.value.isTripleTrumf)
  {
    if IsNil(slot) then None
    else Some(StorePickupSlot(
      At(slot, "capacity"), At(slot, "deadline"), At(slot, "deadlineCorporate"), At(slot, "from"), At(slot, "to"),
      At(slot, "homeDelivery"), At(slot, "pickup"), At(slot, "id"), TripleTrumf(slot)))
  }

  /** `mapStorePickupSlots`: `[]` for anything but an array, otherwise one slot per element, in order. */
  function MapStorePickupSlots(v: JsValue): (r: Option<seq<StorePickupSlot>>)
    ensures !v.Arr? ==> r == Some([])
    ensures v.Arr? ==> (r.Some? <==> NoNil(v.elems))
    ensures v.Arr? && r.Some? ==> (|r.value| == |v.elems| &&
      forall i :: 0 <= i < |v.elems| ==> StoreSlotOf(v.elems[i]) == Some(r.value[i]))
  {
    if !v.Arr? then Some([])
    else if NoNil(v.elems) then Some(seq(|v.elems|, i requires 0 <= i < |v.elems| => StoreSlotOf(v.elems[i]).value))
    else None
  }

  /** A store slot as the index stores it, its window id under `id`. */
  function StoreSlotDoc(s: StorePickupSlot): JsValue {
    Obj([("capacity", s.capacity), ("deadline", s.deadline), ("deadlineCorporate", s.deadlineCorporate),
         ("from", s.from), ("to", s.to), ("homeDelivery", s.homeDelivery), ("pickup", s.pickup),
         ("id", s.storeWindowId), ("isTripleTrumf", s.isTripleTrumf)])
  }

  function StoreSlotDocs(ss: seq<StorePickupSlot>): (vs: seq<JsValue>)
    ensures |vs| == |ss|
  {
    seq(|ss|, i requires 0 <= i < |ss| => StoreSlotDoc(ss[i]))
  }

  /** The stored form names each field once. */
  lemma StoreSlotDocKeys(s: StorePickupSlot)
    ensures UniqueKeys(StoreSlotDoc(s).props)
  {
  }

  /** Mapping the stored form of a slot gives the slot back, when its flag is one the mapper produces. */
  lemma StoreSlotRoundTrip(s: StorePickupSlot)
    requires NormalFlag(s.isTripleTrumf)
    ensures StoreSlotOf(StoreSlotDoc(s)) == Some(s)
  {
    var props := StoreSlotDoc(s).props;
    StoreSlotDocKeys(s);
    MemberUnique(props, 0);
    MemberUnique(props, 1);
    MemberUnique(props, 2);
    MemberUnique(props, 3);
    MemberUnique(props, 4);
    MemberUnique(props, 5);
    MemberUnique(props, 6);
    MemberUnique(props, 7);
    MemberUnique(props, 8);
    assert At(StoreSlotDoc(s), "isTripleTrumf") == s.isTripleTrumf;
    NormalFlagKept(s.isTripleTrumf);
  }

  /** `b || false` is `b` for a flag the mapper produces. */
  lemma NormalFlagKept(b: JsValue)
    requires NormalFlag(b)
    ensures Or(b, Bool(false)) == b
  {
  }

  lemma MapStorePickupSlotsRoundTrip(ss: seq<StorePickupSlot>)
    requires forall i :: 0 <= i < |ss| ==> NormalFlag(ss[i].isTripleTrumf)
    ensures MapStorePickupSlots(Arr(StoreSlotDocs(ss))) == Some(ss)
  {
    var docs := StoreSlotDocs(ss);
    assert NoNil(docs);
    forall i | 0 <= i < |ss| ensures StoreSlotOf(docs[i]) == Some(ss[i]) {
      StoreSlotRoundTrip(ss[i]);
    }
    assert MapStorePickupSlots(Arr(docs)).value == ss;
  }

  // ---------------------------------------------------------------------
  // Pickup-point slots

  /**
   * One slot of `mapPickupPointPickupSlots`: `pickupPointWindowId` comes from
   * `id`, `displayFrom` from `pickupStart`, `displayTo` from `pickupStop`.
   */
  function PointSlotOf(slot: JsValue): (r: Option<PickupPointPickupSlot>)
    ensures r.None? <==> IsNil(slot)
    ensures r.Some? ==> NormalFlag(r.value.isTripleTrumf)
  {
    if IsNil(slot) then None
    else Some(PickupPointPickupSlot(
      At(slot, "capacity"), At(slot, "deadline"), At(slot, "from"), At(slot, "to"), At(slot, "homeDelivery"),
      At(slot, "pickup"), At(slot, "id"), At(slot, "pickupStart"), At(slot, "pickupStop"), TripleTrumf(slot)))
  }

  /** `mapPickupPointPickupSlots`: `[]` for anything but an array, otherwise one slot per element, in order. */
  function MapPickupPointPickupSlots(v: JsValue): (r: Option<seq<PickupPointPickupSlot>>)
    ensures !v.Arr? ==> r == Some([])
    ensures v.Arr? ==> (r.Some? <==> NoNil(v.elems))
    ensures v.Arr? && r.Some? ==> (|r.value| == |v.elems| &&
      forall i :: 0 <= i < |v.elems| ==> PointSlotOf(v.elems[i]) == Some(r.value[i]))
  {
    if !v.Arr? then Some([])
    else if NoNil(v.elems) then Some(seq(|v.elems|, i requires 0 <= i < |v.elems| => PointSlotOf(v.elems[i]).value))
    else None
  }

  /** A pickup-point slot as the index stores it. */
  function PointSlotDoc(s: PickupPointPickupSlot): JsValue {
    Obj([("capacity", s.capacity), ("deadline", s.deadline), ("from", s.from), ("to", s.to),
         ("homeDelivery", s.homeDelivery), ("pickup", s.pickup), ("id", s.pickupPointWindowId),
         ("pickupStart", s.displayFrom), ("pickupStop", s.displayTo), ("isTripleTrumf", s.isTripleTrumf)])
  }

  function PointSlotDocs(ss: seq<PickupPointPickupSlot>): (vs: seq<JsValue>)
    ensures |vs| == |ss|
  {
    seq(|ss|, i requires 0 <= i < |ss| => PointSlotDoc(ss[i]))
  }

  /** Each field of the stored form is read back under its stored name. */
  lemma PointSlotDocFields(s: PickupPointPickupSlot)
    ensures var d := PointSlotDoc(s);
      At(d, "capacity") == s.capacity && At(d, "deadline") == s.deadline && At(d, "from") == s.from &&
      At(d, "to") == s.to && At(d, "homeDelivery") == s.homeDelivery && At(d, "pickup") == s.pickup &&
      At(d, "id") == s.pickupPointWindowId && At(d, "pickupStart") == s.displayFrom &&
      At(d, "pickupStop") == s.displayTo && At(d, "isTripleTrumf") == s.isTripleTrumf
  {
    var props := PointSlotDoc(s).props;
    assert UniqueKeys(props);
    MemberUnique(props, 0);
    MemberUnique(props, 1);
    MemberUnique(props, 2);
    MemberUnique(props, 3);
    MemberUnique(props, 4);
    MemberUnique(props, 5);
    MemberUnique(props, 6);
    MemberUnique(props, 7);
    MemberUnique(props, 8);
    MemberUnique(props, 9);
  }

  lemma PointSlotRoundTrip(s: PickupPointPickupSlot)
    requires NormalFlag(s.isTripleTrumf)
    ensures PointSlotOf(PointSlotDoc(s)) == Some(s)
  {
    PointSlotDocFields(s);
    NormalFlagKept(s.isTripleTrumf);
  }

  lemma MapPickupPointPickupSlotsRoundTrip(ss: seq<PickupPointPickupSlot>)
    requires forall i :: 0 <= i < |ss| ==> NormalFlag(ss[i].isTripleTrumf)
    ensures MapPickupPointPickupSlots(Arr(PointSlotDocs(ss))) == Some(ss)
  {
    var docs := PointSlotDocs(ss);
    assert NoNil(docs);
    forall i | 0 <= i < |ss| ensures PointSlotOf(docs[i]) == Some(ss[i]) {
      PointSlotRoundTrip(ss[i]);
    }
    assert MapPickupPointPickupSlots(Arr(docs)).value == ss;
  }

  /** A stored `isTripleTrumf` of `0`, `""` or `null` comes out as `false`: the default is not a round trip. */
  lemma FalsyFlagBecomesFalse(s: StorePickupSlot)
    requires !Truthy(s.isTripleTrumf) && s.isTripleTrumf != Bool(false)
    ensures StoreSlotOf(StoreSlotDoc(s)).value.isTripleTrumf == Bool(false)
    ensures StoreSlotOf(StoreSlotDoc(s)) != Some(s)
  {
    MemberFirst(StoreSlotDoc(s).props, 8);
  }
}
