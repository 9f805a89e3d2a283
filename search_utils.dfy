/**
 * The Elasticsearch query builder of the stores service: static filters
 * from configuration, facet strings from the caller, aggregations, paging
 * and result shaping.
 */
module SearchUtils {
  import opened Options
  import opened Dicts
  import opened Strings
  import opened JsValues
  import opened Sequences

  /** One clause of an Elasticsearch bool query. */
  datatype Clause =
    /** `{term: {field: value}}` */
    | Term(field: string, value: JsValue)
    /** `{terms: {field: [values]}}` */
    | Terms(field: string, values: seq<JsValue>)
    /** `{range: {field: {rangeType: bound}}}` */
    | Range(field: string, rangeType: string, bound: JsValue)
    /** `{exists: {field: field}}` */
    | Exists(field: string)
    /** `{bool: {should: [clauses]}}` */
    | Should(clauses: seq<Clause>)

  // ---------------------------------------------------------------------
  // Paging

  /** The offset of the first hit of a page: pages 1 and below start at 0. */
  function GetPageNumber(size: int, reqPageNumber: int): (from: int)
    ensures reqPageNumber <= 1 ==> from == 0
  {
    if reqPageNumber > 1 then (reqPageNumber - 1) * size else 0
  }

  /** Consecutive pages start `size` hits apart. */
  lemma PageNumberStep(size: int, page: int)
    requires page >= 1
    ensures GetPageNumber(size, page + 1) == GetPageNumber(size, page) + size
  {
  }

  /** With a positive size, the windows of distinct pages do not overlap. */
  lemma {:induction false} PageWindowsDisjoint(size: int, p: int, q: int)
    requires size > 0 && 1 <= p < q
    ensures GetPageNumber(size, p) + size <= GetPageNumber(size, q)
    decreases q - p
  {
    PageNumberStep(size, p);
    if p + 1 < q {
      PageWindowsDisjoint(size, p + 1, q);
    }
  }

  // ---------------------------------------------------------------------
  // Static filters from configuration

  /** One configured filter: `field`, `term`, `default`, `mode`, `range` and `type`. */
  datatype FilterConfig = FilterConfig(
    field: string, term: JsValue, isDefault: JsValue, mode: JsValue, range: JsValue, rangeType: string)

  /** Filter groups by filter type (`termFilters`, `rangeFilters`, `existsFilters`), each keyed by filter name. */
  type StaticConfig = Dict<Dict<FilterConfig>>

  /** The clauses a run of the builder pushes, and whether it stopped on a TypeError. */
  datatype Emitted = Emitted(clauses: seq<Clause>, threw: bool)

  /** Running `first` and then, unless it threw, `second`. */
  function Then(first: Emitted, second: Emitted): (r: Emitted)
    ensures first.threw ==> r == first
    ensures !first.threw ==> r.clauses == first.clauses + second.clauses && r.threw == second.threw
  {
    if first.threw then first else Emitted(first.clauses + second.clauses, second.threw)
  }

  /** One `term` clause per value, in order. */
  function TermEach(field: string, values: seq<JsValue>): (cs: seq<Clause>)
    ensures |cs| == |values|
    ensures forall i :: 0 <= i < |values| ==> cs[i] == Term(field, values[i])
  {
    if |values| == 0 then [] else TermEach(field, values[..|values| - 1]) + [Term(field, values[|values| - 1])]
  }

  /** What the caller set for one filter name: `setSF` itself is null or undefined, the name is not set, or its value. */
  datatype Setting = SetNil | Unset | SetTo(value: JsValue)

  /** `setSF.hasOwnProperty(key)` and `setSF[key]`, read once. */
  function SettingOf(setSF: JsValue, key: string): (s: Setting)
    ensures s.SetNil? <==> IsNil(setSF)
    ensures s.Unset? <==> !IsNil(setSF) && !HasOwn(setSF, key)
    ensures s.SetTo? ==> HasOwn(setSF, key) && s.value == Get(setSF, key)
  {
    if IsNil(setSF) then SetNil else if HasOwn(setSF, key) then SetTo(Get(setSF, key)) else Unset
  }

  /** A term filter: the caller's value if set (one clause per element in mode "AND"), else the default. */
  function TermFilter(elem: FilterConfig, s: Setting): (r: Emitted)
    requires !s.SetNil?
    ensures r.threw <==> (s.SetTo? && IsNil(s.value)) || (s.Unset? && Truthy(elem.isDefault) && IsNil(elem.term))
    ensures r.threw ==> r.clauses == []
    ensures forall c :: c in r.clauses ==> (c.Term? || c.Terms?) && c.field == elem.field
    ensures s.Unset? ==> |r.clauses| <= 1 && (r.clauses != [] <==> Truthy(elem.isDefault) && !IsNil(elem.term))
    ensures s.SetTo? && !IsNil(s.value) && !(s.value.Arr? && StrictEquals(elem.mode, Str("AND"))) ==> |r.clauses| == 1
  {
    match s
    case SetTo(v) =>
      if IsNil(v) then Emitted([], true)
      else if v.Arr? && StrictEquals(elem.mode, Str("AND")) then Emitted(TermEach(elem.field, v.elems), false)
      else if v.Arr? then Emitted([Terms(elem.field, v.elems)], false)
      else Emitted([Term(elem.field, v)], false)
    case Unset =>
      if !Truthy(elem.isDefault) then Emitted([], false)
      else if IsNil(elem.term) then Emitted([], true)
      else if elem.term.Arr? then Emitted([Terms(elem.field, elem.term.elems)], false)
      else Emitted([Term(elem.field, elem.term)], false)
  }

  /** A range filter: the caller's bound unless it asks for `remove`, else the default range. */
  function RangeFilter(elem: FilterConfig, s: Setting): (r: Emitted)
    requires !s.SetNil?
    ensures r.threw <==> s.SetTo? && IsNil(s.value)
    ensures |r.clauses| <= 1
    ensures forall c :: c in r.clauses ==> c.Range? && c.field == elem.field && c.rangeType == elem.rangeType
    ensures r.clauses != [] <==>
      (s.SetTo? && !IsNil(s.value) && !HasOwn(s.value, "remove")) || (s.Unset? && Truthy(elem.isDefault))
    ensures r.clauses != [] && s.SetTo? ==> r.clauses[0].bound == s.value
    ensures r.clauses != [] && s.Unset? ==> r.clauses[0].bound == elem.range
  {
    match s
    case SetTo(v) =>
      if IsNil(v) then Emitted([], true)
      else if HasOwn(v, "remove") then Emitted([], false)
      else Emitted([Range(elem.field, elem.rangeType, v)], false)
    case Unset =>
      if Truthy(elem.isDefault) then Emitted([Range(elem.field, elem.rangeType, elem.range)], false)
      else Emitted([], false)
  }

  /** An exists filter: only when the caller did not set it and it is on by default. */
  function ExistsFilter(elem: FilterConfig, s: Setting): (r: Emitted)
    requires !s.SetNil?
    ensures !r.threw && |r.clauses| <= 1
    ensures forall c :: c in r.clauses ==> c == Exists(elem.field)
    ensures r.clauses != [] <==> s.Unset? && Truthy(elem.isDefault)
  {
    if s.Unset? && Truthy(elem.isDefault) then Emitted([Exists(elem.field)], false)
    else Emitted([], false)
  }

  /** What one configured filter of a given type contributes. `setSF.hasOwnProperty` throws on null. */
  function ElemFilters(filterType: string, key: string, elem: FilterConfig, setSF: JsValue): (r: Emitted)
    ensures IsNil(setSF) ==> (r.clauses == [] &&
      (r.threw <==> filterType in ["termFilters", "rangeFilters", "existsFilters"]))
  {
    if filterType != "termFilters" && filterType != "rangeFilters" && filterType != "existsFilters" then
      Emitted([], false)
    else
      var s := SettingOf(setSF, key);
      if s.SetNil? then Emitted([], true)
      else if filterType == "termFilters" then TermFilter(elem, s)
      else if filterType == "rangeFilters" then RangeFilter(elem, s)
      else ExistsFilter(elem, s)
  }

  /** What the configured filters of one type contribute, in order, stopping at the first throw. */
  function GroupFilters(filterType: string, group: Dict<FilterConfig>, setSF: JsValue): (r: Emitted)
    ensures IsNil(setSF) ==> r.clauses == []
  {
    if |group| == 0 then Emitted([], false)
    else
      var e := group[|group| - 1];
      Then(GroupFilters(filterType, group[..|group| - 1], setSF), ElemFilters(filterType, e.0, e.1, setSF))
  }

  lemma GroupFiltersStep(filterType: string, group: Dict<FilterConfig>, setSF: JsValue, j: nat)
    requires j < |group|
    ensures var before := GroupFilters(filterType, group[..j], setSF);
      var e := ElemFilters(filterType, group[j].0, group[j].1, setSF);
      !before.threw ==> GroupFilters(filterType, group[..j + 1], setSF) == Emitted(before.clauses + e.clauses, e.threw)
  {
    assert group[..j + 1][..j] == group[..j];
  }

  /** Once a prefix of the group has thrown, the rest of the group changes nothing. */
  lemma {:induction false} GroupFiltersStop(filterType: string, group: Dict<FilterConfig>, setSF: JsValue, i: nat)
    requires i <= |group| && GroupFilters(filterType, group[..i], setSF).threw
    ensures GroupFilters(filterType, group, setSF) == GroupFilters(filterType, group[..i], setSF)
    decreases |group| - i
  {
    if i < |group| {
      var init := group[..|group| - 1];
      assert init[..i] == group[..i];
      GroupFiltersStop(filterType, init, setSF, i);
    } else {
      assert group[..i] == group;
    }
  }

  /** Everything `createStaticFilters` pushes, in order, stopping at the first throw. */
  function StaticFilters(config: StaticConfig, setSF: JsValue): (r: Emitted)
    ensures IsNil(setSF) ==> r.clauses == []
  {
    if |config| == 0 then Emitted([], false)
    else
      var g := config[|config| - 1];
      Then(StaticFilters(config[..|config| - 1], setSF), GroupFilters(g.0, g.1, setSF))
  }

  /** The static filters throw exactly when the filters of some configured type throw. */
  lemma {:induction false} StaticFiltersThrow(config: StaticConfig, setSF: JsValue)
    ensures StaticFilters(config, setSF).threw <==>
      exists i :: 0 <= i < |config| && GroupFilters(config[i].0, config[i].1, setSF).threw
  {
    if |config| > 0 {
      var init := config[..|config| - 1];
      StaticFiltersThrow(init, setSF);
      if StaticFilters(init, setSF).threw {
        var i :| 0 <= i < |init| && GroupFilters(init[i].0, init[i].1, setSF).threw;
        assert init[i] == config[i];
      } else {
        forall i | 0 <= i < |init|
          ensures !GroupFilters(config[i].0, config[i].1, setSF).threw
        {
          assert init[i] == config[i];
        }
      }
    }
  }

  /** Once a prefix of the configuration has thrown, the rest changes nothing. */
  lemma {:induction false} StaticFiltersStop(config: StaticConfig, setSF: JsValue, i: nat)
    requires i <= |config| && StaticFilters(config[..i], setSF).threw
    ensures StaticFilters(config, setSF) == StaticFilters(config[..i], setSF)
    decreases |config| - i
  {
    if i < |config| {
      var init := config[..|config| - 1];
      assert init[..i] == config[..i];
      StaticFiltersStop(init, setSF, i);
    } else {
      assert config[..i] == config;
    }
  }

  /** A caller-supplied term value replaces the configured default: the default plays no part. */
  lemma TermValueReplacesDefault(key: string, elem: FilterConfig, setSF: JsValue, term: JsValue, isDefault: JsValue)
    requires !IsNil(setSF) && HasOwn(setSF, key)
    ensures ElemFilters("termFilters", key, elem, setSF) ==
      ElemFilters("termFilters", key, elem.(term := term, isDefault := isDefault), setSF)
  {
  }

  /** Outside mode "AND", a caller-supplied term value gives exactly one clause: `terms` for an array, `term` otherwise. */
  lemma TermValueSingleClause(key: string, elem: FilterConfig, setSF: JsValue)
    requires !IsNil(setSF) && HasOwn(setSF, key) && !IsNil(Get(setSF, key))
    requires !(Get(setSF, key).Arr? && StrictEquals(elem.mode, Str("AND")))
    ensures var r := ElemFilters("termFilters", key, elem, setSF);
      !r.threw && |r.clauses| == 1 &&
      (r.clauses[0].Terms? <==> Get(setSF, key).Arr?) &&
      (r.clauses[0].Term? ==> r.clauses[0] == Term(elem.field, Get(setSF, key)))
  {
  }

  /** In mode "AND" an array value gives one `term` clause per element, in order. */
  lemma TermAndMode(key: string, elem: FilterConfig, setSF: JsValue)
    requires !IsNil(setSF) && HasOwn(setSF, key) && Get(setSF, key).Arr?
    requires StrictEquals(elem.mode, Str("AND"))
    ensures var vs := Get(setSF, key).elems; var r := ElemFilters("termFilters", key, elem, setSF);
      !r.threw && |r.clauses| == |vs| &&
      forall i :: 0 <= i < |vs| ==> r.clauses[i] == Term(elem.field, vs[i])
  {
  }

  /** A caller range value with a `remove` key emits nothing, even when the filter has a default. */
  lemma RangeRemove(key: string, elem: FilterConfig, setSF: JsValue)
    requires !IsNil(setSF) && HasOwn(setSF, key) && HasOwn(Get(setSF, key), "remove")
    ensures ElemFilters("rangeFilters", key, elem, setSF) == Emitted([], false)
  {
  }

  /** An unset range filter with a default emits `{range: {field: {type: range}}}`. */
  lemma RangeDefault(key: string, elem: FilterConfig, setSF: JsValue)
    requires !IsNil(setSF) && !HasOwn(setSF, key) && Truthy(elem.isDefault)
    ensures ElemFilters("rangeFilters", key, elem, setSF) == Emitted([Range(elem.field, elem.rangeType, elem.range)], false)
  {
  }

  /** An exists filter is emitted exactly when the caller did not set it and it has a default. */
  lemma ExistsOnlyByDefault(key: string, elem: FilterConfig, setSF: JsValue)
    requires !IsNil(setSF)
    ensures var r := ElemFilters("existsFilters", key, elem, setSF);
      !r.threw && (r.clauses != [] <==> !HasOwn(setSF, key) && Truthy(elem.isDefault))
  {
  }

  /** Filter types other than the three known ones are skipped, even when `setSF` is null. */
  lemma UnknownTypeSkipped(filterType: string, key: string, elem: FilterConfig, setSF: JsValue)
    requires filterType != "termFilters" && filterType != "rangeFilters" && filterType != "existsFilters"
    ensures ElemFilters(filterType, key, elem, setSF) == Emitted([], false)
  {
  }

  /** For a known filter type, a null or undefined `setSF` throws. */
  lemma NilSettingsThrow(filterType: string, key: string, elem: FilterConfig, setSF: JsValue)
    requires filterType == "termFilters" || filterType == "rangeFilters" || filterType == "existsFilters"
    requires IsNil(setSF)
    ensures ElemFilters(filterType, key, elem, setSF) == Emitted([], true)
  {
  }

  /** The caller's list of filters, which the builders append to in place. */
  class ClauseList {
    var items: seq<Clause>

    constructor (initial: seq<Clause>)
      ensures items == initial
    {
      items := initial;
    }

    method Push(c: Clause)
      modifies this
      ensures items == old(items) + [c]
    {
      items := items + [c];
    }
  }

  /** The body of the inner loop of `createStaticFilters` for one configured filter. */
  method PushElemFilters(filterType: string, key: string, elem: FilterConfig, filterArr: ClauseList, setSF: JsValue)
    returns (ok: bool)
    modifies filterArr
    ensures filterArr.items == old(filterArr.items) + ElemFilters(filterType, key, elem, setSF).clauses
    ensures ok <==> !ElemFilters(filterType, key, elem, setSF).threw
  {
    if filterType != "termFilters" && filterType != "rangeFilters" && filterType != "existsFilters" {
      return true;
    }
    if IsNil(setSF) {
      return false;
    }
    if filterType == "termFilters" {
      if HasOwn(setSF, key) {
        var v := Get(setSF, key);
        if IsNil(v) {
          return false;
        }
        if v.Arr? && StrictEquals(elem.mode, Str("AND")) {
          ghost var before := filterArr.items;
          var i := 0;
          while i < |v.elems|
            invariant 0 <= i <= |v.elems|
            invariant filterArr.items == before + TermEach(elem.field, v.elems[..i])
          {
            assert v.elems[..i + 1][..i] == v.elems[..i];
            AppendAssoc(before, TermEach(elem.field, v.elems[..i]), [Term(elem.field, v.elems[i])]);
            filterArr.Push(Term(elem.field, v.elems[i]));
            i := i + 1;
          }
          assert v.elems[..i] == v.elems;
        } else if v.Arr? {
          filterArr.Push(Terms(elem.field, v.elems));
        } else {
          filterArr.Push(Term(elem.field, v));
        }
      } else if Truthy(elem.isDefault) {
        if IsNil(elem.term) {
          return false;
        }
        if elem.term.Arr? {
          filterArr.Push(Terms(elem.field, elem.term.elems));
        } else {
          filterArr.Push(Term(elem.field, elem.term));
        }
      }
    } else if filterType == "rangeFilters" {
      if HasOwn(setSF, key) {
        var v := Get(setSF, key);
        if IsNil(v) {
          return false;
        }
        if !HasOwn(v, "remove") {
          filterArr.Push(Range(elem.field, elem.rangeType, v));
        }
      } else if Truthy(elem.isDefault) {
        filterArr.Push(Range(elem.field, elem.rangeType, elem.range));
      }
    } else {
      if !HasOwn(setSF, key) && Truthy(elem.isDefault) {
        filterArr.Push(Exists(elem.field));
      }
    }
    return true;
  }

  /** The inner loop of `createStaticFilters`: the filters of one type. */
  method PushGroupFilters(filterType: string, group: Dict<FilterConfig>, filterArr: ClauseList, setSF: JsValue)
    returns (ok: bool)
    modifies filterArr
    ensures filterArr.items == old(filterArr.items) + GroupFilters(filterType, group, setSF).clauses
    ensures ok <==> !GroupFilters(filterType, group, setSF).threw
  {
    var j := 0;
    while j < |group|
      invariant 0 <= j <= |group|
      invariant !GroupFilters(filterType, group[..j], setSF).threw
      invariant filterArr.items == old(filterArr.items) + GroupFilters(filterType, group[..j], setSF).clauses
    {
      ghost var before := GroupFilters(filterType, group[..j], setSF);
      ghost var e := ElemFilters(filterType, group[j].0, group[j].1, setSF);
      GroupFiltersStep(filterType, group, setSF, j);
      AppendAssoc(old(filterArr.items), before.clauses, e.clauses);
      ok := PushElemFilters(filterType, group[j].0, group[j].1, filterArr, setSF);
      if !ok {
        GroupFiltersStop(filterType, group, setSF, j + 1);
        return false;
      }
      j := j + 1;
    }
    assert group[..j] == group;
    return true;
  }

  /**
   * `createStaticFilters`: appends to the caller's list and leaves its earlier
   * entries alone; `ok` is false where the source throws a TypeError, with the
   * clauses pushed before the throw left in place.
   */
  method CreateStaticFilters(config: StaticConfig, filterArr: ClauseList, setSF: JsValue) returns (ok: bool)
    modifies filterArr
    ensures filterArr.items == old(filterArr.items) + StaticFilters(config, setSF).clauses
    ensures ok <==> !StaticFilters(config, setSF).threw
  {
    var i := 0;
    while i < |config|
      invariant 0 <= i <= |config|
      invariant !StaticFilters(config[..i], setSF).threw
      invariant filterArr.items == old(filterArr.items) + StaticFilters(config[..i], setSF).clauses
    {
      AppendAssoc(old(filterArr.items), StaticFilters(config[..i], setSF).clauses,
        GroupFilters(config[i].0, config[i].1, setSF).clauses);
      ok := PushGroupFilters(config[i].0, config[i].1, filterArr, setSF);
      assert config[..i + 1][..i] == config[..i];
      if !ok {
        StaticFiltersStop(config, setSF, i + 1);
        return false;
      }
      i := i + 1;
    }
    assert config[..i] == config;
    return true;
  }

  /** What `createMissingQuery` pushes for one configured query. */
  function MissingElem(key: string, elem: FilterConfig, setQuery: JsValue): (r: Emitted)
    ensures IsNil(setQuery) <==> r.threw
    ensures !r.threw ==> (r.clauses != [] <==> HasOwn(setQuery, key) || Truthy(elem.isDefault))
    ensures |r.clauses| <= 1 && forall c :: c in r.clauses ==> c == Exists(elem.field)
  {
    if IsNil(setQuery) then Emitted([], true)
    else if HasOwn(setQuery, key) || Truthy(elem.isDefault) then Emitted([Exists(elem.field)], false)
    else Emitted([], false)
  }

  /** Everything `createMissingQuery` pushes, in order, stopping at the first throw. */
  function MissingQuery(config: Dict<FilterConfig>, setQuery: JsValue): (r: Emitted)
    ensures |r.clauses| <= |config|
    ensures forall c :: c in r.clauses ==> c.Exists?
  {
    if |config| == 0 then Emitted([], false)
    else
      var e := config[|config| - 1];
      Then(MissingQuery(config[..|config| - 1], setQuery), MissingElem(e.0, e.1, setQuery))
  }

  /** On a null or undefined `setQuery` the loop throws at its first configured field, having pushed nothing. */
  lemma {:induction false} MissingQueryNil(config: Dict<FilterConfig>, setQuery: JsValue)
    requires IsNil(setQuery)
    ensures MissingQuery(config, setQuery) == Emitted([], |config| > 0)
  {
    if |config| > 0 {
      MissingQueryNil(config[..|config| - 1], setQuery);
    }
  }

  /** The missing-field query adds one `exists` clause per configured field that is set or on by default. */
  lemma {:induction false} MissingQueryClauses(config: Dict<FilterConfig>, setQuery: JsValue)
    requires !IsNil(setQuery)
    ensures var r := MissingQuery(config, setQuery);
      !r.threw && |r.clauses| <= |config| &&
      (forall c :: c in r.clauses ==>
         exists i :: 0 <= i < |config| && c == Exists(config[i].1.field) &&
           (HasOwn(setQuery, config[i].0) || Truthy(config[i].1.isDefault)))
  {
    if |config| > 0 {
      MissingQueryClauses(config[..|config| - 1], setQuery);
      var r0 := MissingQuery(config[..|config| - 1], setQuery);
      forall c | c in r0.clauses
        ensures exists i :: (0 <= i < |config| && c == Exists(config[i].1.field) &&
          (HasOwn(setQuery, config[i].0) || Truthy(config[i].1.isDefault)))
      {
        var i :| 0 <= i < |config| - 1 && c == Exists(config[..|config| - 1][i].1.field) &&
          (HasOwn(setQuery, config[..|config| - 1][i].0) || Truthy(config[..|config| - 1][i].1.isDefault));
        assert config[..|config| - 1][i] == config[i];
      }
    }
  }

  /** `createMissingQuery`: appends to the caller's list; `ok` is false where the source throws. */
  method CreateMissingQuery(config: Dict<FilterConfig>, missingArr: ClauseList, setQuery: JsValue) returns (ok: bool)
    modifies missingArr
    ensures missingArr.items == old(missingArr.items) + MissingQuery(config, setQuery).clauses
    ensures ok <==> !MissingQuery(config, setQuery).threw
  {
    var i := 0;
    while i < |config|
      invariant 0 <= i <= |config|
      invariant !MissingQuery(config[..i], setQuery).threw
      invariant missingArr.items == old(missingArr.items) + MissingQuery(config[..i], setQuery).clauses
    {
      assert config[..i + 1][..i] == config[..i];
      if IsNil(setQuery) {
        MissingQueryNil(config, setQuery);
        return false;
      }
      if HasOwn(setQuery, config[i].0) || Truthy(config[i].1.isDefault) {
        AppendAssoc(old(missingArr.items), MissingQuery(config[..i], setQuery).clauses, [Exists(config[i].1.field)]);
        missingArr.Push(Exists(config[i].1.field));
      }
      i := i + 1;
    }
    assert config[..i] == config;
    return true;
  }

  // ---------------------------------------------------------------------
  // Facet strings `name:value;name:value`

  /** One `name:value` part: the text before the first `:` and the text up to the next `:`. */
  function FacetEntry(part: string): (e: (string, Option<string>))
    ensures ':' !in e.0
    ensures ':' !in part <==> e == (part, None)
    ensures e.1.Some? ==> ':' !in e.1.value
  {
    var ps := Split(part, ':');
    if ':' !in part then
      SplitNoSep(part, ':');
      (part, None)
    else
      JoinSplit(part, ':');
      assert |ps| > 1 by {
        if |ps| == 1 { assert false; }
      }
      (ps[0], Some(ps[1]))
  }

  function FacetEntries(parts: seq<string>): (es: seq<(string, Option<string>)>)
    ensures |es| == |parts|
    ensures forall i :: 0 <= i < |parts| ==> es[i] == FacetEntry(parts[i])
  {
    if |parts| == 0 then [] else FacetEntries(parts[..|parts| - 1]) + [FacetEntry(parts[|parts| - 1])]
  }

  /**
   * `getSetFacetsDict`: an undefined or empty string gives `{}`; otherwise each
   * `;`-separated part binds its name, a part without `:` to `undefined`.
   */
  function GetSetFacetsDict(params: Option<string>): (d: Dict<Option<string>>)
    ensures params.None? || params == Some("") ==> d == []
  {
    if params.None? || params.value == "" then []
    else PutAll([], FacetEntries(Split(params.value, ';')))
  }

  /** A facet name reads as the value of its last occurrence in the string. */
  lemma FacetsDictLastWins(params: string, name: string)
    requires params != ""
    ensures Lookup(GetSetFacetsDict(Some(params)), name) == LastBinding(FacetEntries(Split(params, ';')), name)
  {
    var es := FacetEntries(Split(params, ';'));
    LookupPutAll([], es, name);
  }

  /** The pair one part of `paramSplitter` contributes: none when it has no `:`. */
  function ParamEntry(part: string): (es: seq<(string, string)>)
    ensures ':' !in part <==> es == []
    ensures ':' in part ==> es == [(FacetEntry(part).0, FacetEntry(part).1.value)]
  {
    if ':' in part then [(FacetEntry(part).0, FacetEntry(part).1.value)] else []
  }

  /** The `name:value` pairs of `paramSplitter`, in order; parts without `:` are skipped. */
  function ParamEntries(parts: seq<string>): (es: seq<(string, string)>)
    ensures |es| <= |parts|
  {
    if |parts| == 0 then [] else ParamEntries(parts[..|parts| - 1]) + ParamEntry(parts[|parts| - 1])
  }

  lemma ParamEntriesAppend(a: seq<string>, p: string)
    ensures ParamEntries(a + [p]) == ParamEntries(a) + ParamEntry(p)
  {
    assert (a + [p])[..|a|] == a;
  }

  /** Every pair comes from a part that contains `:`. */
  lemma {:induction false} ParamEntriesFrom(parts: seq<string>, e: (string, string))
    requires e in ParamEntries(parts)
    ensures exists i :: 0 <= i < |parts| && ':' in parts[i] && FacetEntry(parts[i]) == (e.0, Some(e.1))
  {
    var n := |parts| - 1;
    var init := parts[..n];
    ParamEntriesAppend(init, parts[n]);
    assert parts == init + [parts[n]];
    if e in ParamEntries(init) {
      ParamEntriesFrom(init, e);
      var i :| 0 <= i < |init| && ':' in init[i] && FacetEntry(init[i]) == (e.0, Some(e.1));
      assert init[i] == parts[i];
    } else {
      assert e in ParamEntry(parts[n]);
      assert ':' in parts[n] && FacetEntry(parts[n]) == (e.0, Some(e.1));
    }
  }

  /** `paramSplitter`: the `name:value` parts of a `;`-separated string, later names overriding earlier ones. */
  function ParamSplitter(facetsString: string): (d: Dict<string>)
    ensures UniqueKeys(d)
  {
    PutAllUnique([], ParamEntries(Split(facetsString, ';')));
    PutAll([], ParamEntries(Split(facetsString, ';')))
  }

  /** A part without `:` contributes nothing, wherever it stands. */
  lemma {:induction false} ParamEntriesSkip(a: seq<string>, p: string, b: seq<string>)
    requires ':' !in p
    ensures ParamEntries(a + [p] + b) == ParamEntries(a + b)
  {
    if |b| == 0 {
      assert a + [p] + b == a + [p];
      assert a + b == a;
      ParamEntriesAppend(a, p);
    } else {
      var b' := b[..|b| - 1];
      var last := b[|b| - 1];
      ParamEntriesSkip(a, p, b');
      assert a + [p] + b == (a + [p] + b') + [last];
      assert a + b == (a + b') + [last];
      ParamEntriesAppend(a + [p] + b', last);
      ParamEntriesAppend(a + b', last);
    }
  }

  /** Every name `paramSplitter` binds comes from a part that contains `:`. */
  lemma ParamSplitterKeys(facetsString: string, name: string)
    requires name in Keys(ParamSplitter(facetsString))
    ensures exists part :: part in Split(facetsString, ';') && ':' in part && FacetEntry(part).0 == name
  {
    var es := ParamEntries(Split(facetsString, ';'));
    assert name in Keys(PutAll([], es));
    LookupPutAll([], es, name);
    var v := LastBinding(es, name).value;
    assert (name, v) in es;
    ParamEntriesFrom(Split(facetsString, ';'), (name, v));
  }

  /** Every part that contains `:` contributes its pair. */
  lemma {:induction false} ParamEntriesCover(parts: seq<string>, i: int)
    requires 0 <= i < |parts| && ':' in parts[i]
    ensures (FacetEntry(parts[i]).0, FacetEntry(parts[i]).1.value) in ParamEntries(parts)
  {
    var n := |parts| - 1;
    ParamEntriesAppend(parts[..n], parts[n]);
    assert parts == parts[..n] + [parts[n]];
    if i < n {
      ParamEntriesCover(parts[..n], i);
    }
  }

  /** A name reads as the value of the last `name:value` part that names it. */
  lemma ParamSplitterLastWins(facetsString: string, name: string)
    ensures Lookup(ParamSplitter(facetsString), name) == LastBinding(ParamEntries(Split(facetsString, ';')), name)
  {
    LookupPutAll([], ParamEntries(Split(facetsString, ';')), name);
  }

  /** Every part that contains `:` binds its name. */
  lemma ParamSplitterBinds(facetsString: string, part: string)
    requires part in Split(facetsString, ';') && ':' in part
    ensures FacetEntry(part).0 in Keys(ParamSplitter(facetsString))
  {
    var parts := Split(facetsString, ';');
    var es := ParamEntries(parts);
    var i :| 0 <= i < |parts| && parts[i] == part;
    ParamEntriesCover(parts, i);
    var e := (FacetEntry(part).0, FacetEntry(part).1.value);
    assert e in es;
    LookupPutAll([], es, e.0);
  }

  // ---------------------------------------------------------------------
  // Facet filters

  /** One entry of the facet mapper: the index field, display settings and child facets. */
  datatype FacetConfig = FacetConfig(
    field: string, display: JsValue, displayName: JsValue, order: JsValue, size: JsValue,
    child: FacetChildren)

  /** The `child` entry of a facet: absent, or a facet mapper of its own. */
  datatype FacetChildren = NoFacetChildren | FacetChildren(entries: Dict<FacetConfig>)

  /** `must` and `mustNot` clauses from the caller's facets. */
  datatype FacetFilters = FacetFilters(must: seq<Clause>, mustNot: seq<Clause>)

  /** Values with a leading `!` go to the negated list without it, the others to the positive list. */
  function SplitNegated(parts: seq<string>): (r: (seq<string>, seq<string>))
    ensures |r.0| + |r.1| == |parts|
    ensures forall x :: x in r.0 <==> x in parts && !StartsWith(x, "!")
    ensures forall y :: y in r.1 <==> "!" + y in parts
  {
    if |parts| == 0 then ([], [])
    else
      var init := SplitNegated(parts[..|parts| - 1]);
      var p := parts[|parts| - 1];
      assert parts == parts[..|parts| - 1] + [p];
      if StartsWith(p, "!") then
        assert "!" + p[1..] == p;
        assert forall y :: "!" + y == p ==> y == p[1..] by {
          forall y | "!" + y == p ensures y == p[1..] { assert ("!" + y)[1..] == y; }
        }
        (init.0, init.1 + [p[1..]])
      else
        assert forall y :: "!" + y != p by {
          forall y ensures "!" + y != p { assert StartsWith("!" + y, "!"); }
        }
        (init.0 + [p], init.1)
  }

  /** One value on its own: to the negated list without its `!`, or to the positive list. */
  lemma SplitNegatedOne(p: string)
    ensures SplitNegated([p]) == if StartsWith(p, "!") then ([], [p[1..]]) else ([p], [])
  {
    var e: seq<string> := [];
    assert [p][..0] == e;
    assert SplitNegated(e) == (e, e);
    if StartsWith(p, "!") {
      assert SplitNegated([p]) == (e, e + [p[1..]]);
      assert e + [p[1..]] == [p[1..]];
    } else {
      assert SplitNegated([p]) == (e + [p], e);
      assert e + [p] == [p];
    }
  }

  /** One more value extends exactly one of the two lists. */
  lemma SplitNegatedSnoc(parts: seq<string>, p: string)
    ensures SplitNegated(parts + [p]) ==
      if StartsWith(p, "!") then (SplitNegated(parts).0, SplitNegated(parts).1 + [p[1..]])
      else (SplitNegated(parts).0 + [p], SplitNegated(parts).1)
  {
    assert (parts + [p])[..|parts|] == parts;
  }

  /** The split works value by value: splitting a concatenation concatenates the splits, keeping order. */
  lemma {:induction false} SplitNegatedAppend(a: seq<string>, b: seq<string>)
    ensures SplitNegated(a + b) ==
      (SplitNegated(a).0 + SplitNegated(b).0, SplitNegated(a).1 + SplitNegated(b).1)
  {
    if |b| > 0 {
      var b', p := b[..|b| - 1], b[|b| - 1];
      SplitNegatedAppend(a, b');
      assert a + b == (a + b') + [p];
      assert b == b' + [p];
      SplitNegatedSnoc(a + b', p);
      SplitNegatedSnoc(b', p);
      var sa, sb' := SplitNegated(a), SplitNegated(b');
      if StartsWith(p, "!") {
        assert sa.1 + (sb'.1 + [p[1..]]) == (sa.1 + sb'.1) + [p[1..]];
      } else {
        assert sa.0 + (sb'.0 + [p]) == (sa.0 + sb'.0) + [p];
      }
    } else {
      var e: seq<string> := [];
      assert a + b == a;
      assert SplitNegated(b) == (e, e);
      assert SplitNegated(a).0 + e == SplitNegated(a).0;
      assert SplitNegated(a).1 + e == SplitNegated(a).1;
    }
  }

  /** A single value gives `term`, several give `terms`, none gives nothing. */
  function FacetClause(field: string, values: seq<string>): (cs: seq<Clause>)
    ensures |values| == 0 <==> cs == []
    ensures |values| == 1 ==> cs == [Term(field, Str(values[0]))]
    ensures |values| > 1 ==> cs == [Terms(field, StrSeq(values))]
  {
    if |values| == 0 then []
    else if |values| > 1 then [Terms(field, StrSeq(values))]
    else [Term(field, Str(values[0]))]
  }

  /** The filters one facet of the caller contributes. */
  function FacetFiltersOf(field: string, value: string): (r: FacetFilters)
    ensures TermsOnly(r.must) && TermsOnly(r.mustNot)
    ensures |r.must| <= 1 && |r.mustNot| <= 1
    ensures |r.must| + |r.mustNot| >= 1
  {
    var groups := SplitNegated(Split(value, '|'));
    FacetFilters(FacetClause(field, groups.0), FacetClause(field, groups.1))
  }

  /** The values a list of `term`/`terms` clauses carries, in order. */
  function ClauseValues(cs: seq<Clause>): seq<JsValue> {
    if |cs| == 0 then []
    else
      var c := cs[|cs| - 1];
      ClauseValues(cs[..|cs| - 1]) + (match c case Term(_, v) => [v] case Terms(_, vs) => vs case _ => [])
  }

  /**
   * One facet's filters carry exactly its positive values in `must` and its
   * `!`-values, without the `!`, in `mustNot`, in the order of the string,
   * all on the facet's field.
   */
  lemma FacetFiltersValues(field: string, value: string)
    ensures var f := FacetFiltersOf(field, value);
      var groups := SplitNegated(Split(value, '|'));
      ClauseValues(f.must) == StrSeq(groups.0) && ClauseValues(f.mustNot) == StrSeq(groups.1) &&
      (forall c :: c in f.must + f.mustNot ==> c.field == field)
  {
    var f := FacetFiltersOf(field, value);
    var groups := SplitNegated(Split(value, '|'));
    FacetClauseValues(field, groups.0);
    FacetClauseValues(field, groups.1);
  }

  lemma FacetClauseValues(field: string, values: seq<string>)
    ensures ClauseValues(FacetClause(field, values)) == StrSeq(values)
  {
    var cs := FacetClause(field, values);
    if |values| == 1 {
      assert cs[..0] == [];
      assert StrSeq(values) == [Str(values[0])];
    } else if |values| > 1 {
      assert cs[..0] == [];
    }
  }

  /** Every clause is a `term` or a `terms` clause. */
  predicate TermsOnly(cs: seq<Clause>) {
    forall c :: c in cs ==> c.Term? || c.Terms?
  }

  /** One iteration of `getSetFacetsFilter` over the caller's facets. */
  function FacetStep(facetMapper: Dict<FacetConfig>, acc: Option<FacetFilters>, entry: (string, Option<string>))
    : (r: Option<FacetFilters>)
    ensures entry.0 !in Keys(facetMapper) ==> r == acc
    ensures r.Some? ==> acc.Some?
    ensures r.Some? && TermsOnly(acc.value.must) && TermsOnly(acc.value.mustNot) ==>
      TermsOnly(r.value.must) && TermsOnly(r.value.mustNot)
    ensures r.Some? ==> |r.value.must| <= |acc.value.must| + 1 && |r.value.mustNot| <= |acc.value.mustNot| + 1
  {
    match acc
    case None => None
    case Some(fs) =>
      match Lookup(facetMapper, entry.0)
      case None => acc
      case Some(conf) =>
        if entry.1.None? then None
        else
          var f := FacetFiltersOf(conf.field, entry.1.value);
          Some(FacetFilters(fs.must + f.must, fs.mustNot + f.mustNot))
  }

  /**
   * `getSetFacetsFilter`: facets whose name the mapper knows become clauses,
   * others are ignored; `None` where a known facet has no value and `split`
   * throws.
   */
  function GetSetFacetsFilter(facetMapper: Dict<FacetConfig>, paramsDict: Dict<Option<string>>): (r: Option<FacetFilters>)
    ensures r.Some? ==> TermsOnly(r.value.must) && TermsOnly(r.value.mustNot)
    ensures r.Some? ==> |r.value.must| <= |paramsDict| && |r.value.mustNot| <= |paramsDict|
  {
    if |paramsDict| == 0 then Some(FacetFilters([], []))
    else FacetStep(facetMapper, GetSetFacetsFilter(facetMapper, paramsDict[..|paramsDict| - 1]), paramsDict[|paramsDict| - 1])
  }

  lemma GetSetFacetsFilterAppend(facetMapper: Dict<FacetConfig>, d: Dict<Option<string>>, e: (string, Option<string>))
    ensures GetSetFacetsFilter(facetMapper, d + [e]) == FacetStep(facetMapper, GetSetFacetsFilter(facetMapper, d), e)
  {
    assert (d + [e])[..|d|] == d;
  }

  /**
   * A facet the mapper knows appends exactly its own filters on the
   * configured field to `must` and `mustNot`; one without a value throws.
   */
  lemma KnownFacetAppends(facetMapper: Dict<FacetConfig>, d: Dict<Option<string>>, k: string, v: Option<string>, conf: FacetConfig)
    requires Lookup(facetMapper, k) == Some(conf)
    ensures var r := GetSetFacetsFilter(facetMapper, d + [(k, v)]);
      var acc := GetSetFacetsFilter(facetMapper, d);
      if acc.None? || v.None? then r.None?
      else r == Some(FacetFilters(acc.value.must + FacetFiltersOf(conf.field, v.value).must,
                                  acc.value.mustNot + FacetFiltersOf(conf.field, v.value).mustNot))
  {
    GetSetFacetsFilterAppend(facetMapper, d, (k, v));
  }

  /** A facet the mapper does not know is ignored, wherever it stands. */
  lemma {:induction false} UnknownFacetIgnored(
    facetMapper: Dict<FacetConfig>, a: Dict<Option<string>>, e: (string, Option<string>), b: Dict<Option<string>>)
    requires e.0 !in Keys(facetMapper)
    ensures GetSetFacetsFilter(facetMapper, a + [e] + b) == GetSetFacetsFilter(facetMapper, a + b)
  {
    if |b| == 0 {
      assert a + [e] + b == a + [e];
      assert a + b == a;
      GetSetFacetsFilterAppend(facetMapper, a, e);
    } else {
      var b' := b[..|b| - 1];
      var last := b[|b| - 1];
      UnknownFacetIgnored(facetMapper, a, e, b');
      assert a + [e] + b == (a + [e] + b') + [last];
      assert a + b == (a + b') + [last];
      GetSetFacetsFilterAppend(facetMapper, a + [e] + b', last);
      GetSetFacetsFilterAppend(facetMapper, a + b', last);
    }
  }

  lemma SplitRedBlue()
    ensures Split("red|!blue", '|') == ["red", "!blue"]
  {
    SplitNoSep("!blue", '|');
    assert "|!blue"[1..] == "!blue";
    var r := Split("|!blue", '|');
    assert r == ["", "!blue"];
    assert "red|!blue" == "red" + "|!blue";
    SplitPlain("red", '|', "|!blue");
    assert "red" + r[0] == "red";
    assert r[1..] == ["!blue"];
  }

  lemma SplitNegatedRedBlue()
    ensures SplitNegated(["red", "!blue"]) == (["red"], ["blue"])
  {
    var one := ["red"];
    assert one[..0] == [];
    assert "red"[..1] == "r";
    assert !StartsWith("red", "!");
    var r1 := SplitNegated(one);
    assert r1.0 == ["red"] && r1.1 == [];
    var parts := ["red", "!blue"];
    assert parts[..1] == one;
    assert StartsWith("!blue", "!");
    assert "!blue"[1..] == "blue";
    var r := SplitNegated(parts);
    assert r.0 == ["red"] && r.1 == ["blue"];
  }

  /** The worked example `color:red|!blue`: must `term c:red`, mustNot `term c:blue`. */
  lemma FacetsFilterExample(conf: FacetConfig)
    requires conf.field == "c"
    ensures GetSetFacetsFilter([("color", conf)], [("color", Some("red|!blue"))]) ==
      Some(FacetFilters([Term("c", Str("red"))], [Term("c", Str("blue"))]))
  {
    SplitRedBlue();
    SplitNegatedRedBlue();
    var f := FacetFiltersOf("c", "red|!blue");
    assert f.must == [Term("c", Str("red"))] && f.mustNot == [Term("c", Str("blue"))];
    var m := [("color", conf)];
    var d: Dict<Option<string>> := [("color", Some("red|!blue"))];
    assert Lookup(m, "color") == Some(conf);
    var empty: Dict<Option<string>> := [];
    assert GetSetFacetsFilter(m, empty) == Some(FacetFilters([], []));
    assert d == empty + [("color", Some("red|!blue"))];
    GetSetFacetsFilterAppend(m, empty, ("color", Some("red|!blue")));
    var r := GetSetFacetsFilter(m, d);
    assert r == FacetStep(m, Some(FacetFilters([], [])), ("color", Some("red|!blue")));
    assert r.value.must == [] + f.must && r.value.mustNot == [] + f.mustNot;
    assert r.value.must == [Term("c", Str("red"))] && r.value.mustNot == [Term("c", Str("blue"))];
  }

  // ---------------------------------------------------------------------
  // Aggregations

  /** The `terms` part of an aggregation and its child aggregations. */
  datatype Agg = Agg(field: string, order: Option<JsValue>, size: Option<JsValue>, aggs: Dict<Agg>)

  /** Whether a facet is aggregated: displayed by default when no facets are asked for, or asked for by name. */
  predicate Selected(fields: FacetConfig, facets: JsValue) {
    (StrictEquals(fields.display, Str("true")) && facets.Undefined?) ||
    SomeStrictEquals(ForInValues(facets), fields.displayName)
  }

  /** `_.some(vs, v => v === x)`. */
  predicate SomeStrictEquals(vs: seq<JsValue>, x: JsValue) {
    |vs| > 0 && (StrictEquals(vs[0], x) || SomeStrictEquals(vs[1..], x))
  }

  lemma {:induction false} SomeStrictEqualsExists(vs: seq<JsValue>, x: JsValue)
    ensures SomeStrictEquals(vs, x) <==> exists i :: 0 <= i < |vs| && StrictEquals(vs[i], x)
  {
    if |vs| > 0 {
      SomeStrictEqualsExists(vs[1..], x);
      if exists i :: 0 <= i < |vs[1..]| && StrictEquals(vs[1..][i], x) {
        var i :| 0 <= i < |vs[1..]| && StrictEquals(vs[1..][i], x);
        assert vs[i + 1] == vs[1..][i];
      }
      if exists i :: 0 <= i < |vs| && StrictEquals(vs[i], x) {
        var i :| 0 <= i < |vs| && StrictEquals(vs[i], x);
        if i > 0 { assert vs[1..][i - 1] == vs[i]; }
      }
    }
  }

  /** A facet is asked for by name when any requested value is strictly equal to its display name. */
  lemma SelectedByName(fields: FacetConfig, facets: JsValue)
    ensures Selected(fields, facets) <==>
      (StrictEquals(fields.display, Str("true")) && facets.Undefined?) ||
      exists i :: 0 <= i < |ForInValues(facets)| && StrictEquals(ForInValues(facets)[i], fields.displayName)
  {
    SomeStrictEqualsExists(ForInValues(facets), fields.displayName);
  }

  /** `getAggs` on an entry that is selected: order and size only when truthy, children by their own display rule. */
  function MakeAgg(fields: FacetConfig): (a: Agg)
    ensures a.field == fields.field
    ensures a.order.Some? <==> Truthy(fields.order)
    ensures a.size.Some? <==> Truthy(fields.size)
    ensures fields.child.NoFacetChildren? ==> a.aggs == []
    decreases fields
  {
    Agg(fields.field,
        if Truthy(fields.order) then Some(fields.order) else None,
        if Truthy(fields.size) then Some(fields.size) else None,
        if fields.child.FacetChildren? then
          assert fields.child < fields;
          AggsOf(fields.child.entries, Undefined)
        else [])
  }

  /** `getAggs` with `facets` already normalised (`""` is treated as undefined by the caller below). */
  function AggsOf(facetMapper: Dict<FacetConfig>, facets: JsValue): (aggs: Dict<Agg>)
    ensures |aggs| <= |facetMapper| && UniqueKeys(aggs)
    decreases facetMapper
  {
    if |facetMapper| == 0 then []
    else
      var init := AggsOf(facetMapper[..|facetMapper| - 1], facets);
      var entry := facetMapper[|facetMapper| - 1];
      assert entry in facetMapper;
      var fields := entry.1;
      assert fields < entry;
      if Selected(fields, facets) then
        PutUnique(init, entry.0, MakeAgg(fields));
        Put(init, entry.0, MakeAgg(fields))
      else init
  }

  /** The keys after assigning `k` are the old keys and `k`. */
  lemma PutKeys<V>(d: Dict<V>, k: string, v: V)
    ensures forall x :: x in Keys(Put(d, k, v)) <==> x in Keys(d) || x == k
  {
    if k !in Keys(d) {
      assert Keys(d + [(k, v)]) == Keys(d) + [k];
    }
  }

  /** The facets `getAggs` goes by: an empty string counts as none requested. */
  function Requested(facets: JsValue): JsValue {
    if facets == Str("") then Undefined else facets
  }

  /** `getAggs(facetMapper, facets)`. */
  function GetAggs(facetMapper: Dict<FacetConfig>, facets: JsValue): (aggs: Dict<Agg>)
    ensures |aggs| <= |facetMapper| && UniqueKeys(aggs)
  {
    AggsOf(facetMapper, Requested(facets))
  }

  /**
   * `getAggs` aggregates a facet exactly when some mapper entry of that name
   * is selected, an empty `facets` string selecting as no `facets` at all.
   */
  lemma GetAggsSelected(facetMapper: Dict<FacetConfig>, facets: JsValue, k: string)
    ensures k in Keys(GetAggs(facetMapper, facets)) <==> exists i :: SelectedAt(facetMapper, Requested(facets), k, i)
  {
    AggsSelected(facetMapper, Requested(facets), k);
  }

  /** The last entry of the mapper adds its name exactly when it is selected. */
  lemma AggsOfLast(facetMapper: Dict<FacetConfig>, facets: JsValue, k: string)
    requires |facetMapper| > 0
    ensures var entry := facetMapper[|facetMapper| - 1];
      k in Keys(AggsOf(facetMapper, facets)) <==>
        k in Keys(AggsOf(facetMapper[..|facetMapper| - 1], facets)) || (entry.0 == k && Selected(entry.1, facets))
  {
    var entry := facetMapper[|facetMapper| - 1];
    PutKeys(AggsOf(facetMapper[..|facetMapper| - 1], facets), entry.0, MakeAgg(entry.1));
  }

  /** Entry `i` of the mapper carries name `k` and is selected. */
  predicate SelectedAt(facetMapper: Dict<FacetConfig>, facets: JsValue, k: string, i: int) {
    0 <= i < |facetMapper| && facetMapper[i].0 == k && Selected(facetMapper[i].1, facets)
  }

  /** A facet is aggregated exactly when some entry of that name is selected. */
  lemma {:induction false} AggsSelected(facetMapper: Dict<FacetConfig>, facets: JsValue, k: string)
    ensures k in Keys(AggsOf(facetMapper, facets)) <==> exists i :: SelectedAt(facetMapper, facets, k, i)
  {
    if |facetMapper| > 0 {
      var n := |facetMapper| - 1;
      var init := facetMapper[..n];
      AggsSelected(init, facets, k);
      AggsOfLast(facetMapper, facets, k);
      if exists i :: SelectedAt(facetMapper, facets, k, i) {
        var i :| SelectedAt(facetMapper, facets, k, i);
        if i < n {
          assert init[i] == facetMapper[i];
          assert SelectedAt(init, facets, k, i);
        }
      }
      if exists i :: SelectedAt(init, facets, k, i) {
        var i :| SelectedAt(init, facets, k, i);
        assert facetMapper[i] == init[i];
        assert SelectedAt(facetMapper, facets, k, i);
      }
      if facetMapper[n].0 == k && Selected(facetMapper[n].1, facets) {
        assert SelectedAt(facetMapper, facets, k, n);
      }
    }
  }

  /** Child aggregations use the display rule alone: a child is aggregated exactly when `display` is "true". */
  lemma ChildAggsByDisplay(child: Dict<FacetConfig>, k: string)
    ensures k in Keys(AggsOf(child, Undefined)) <==>
      exists i :: 0 <= i < |child| && child[i].0 == k && StrictEquals(child[i].1.display, Str("true"))
  {
    AggsSelected(child, Undefined, k);
    assert forall i :: SelectedAt(child, Undefined, k, i) <==>
      0 <= i < |child| && child[i].0 == k && StrictEquals(child[i].1.display, Str("true"));
  }

  // ---------------------------------------------------------------------
  // Aggregation results

  /** How a bucket list is reported: the names for the key and the count, and child aggregations. */
  datatype AggResultConfig = AggResultConfig(
    bucketName: string, countName: string, displayName: string, child: ResultChildren)

  /** The `child` entry of a result configuration: absent, or configurations keyed by name. */
  datatype ResultChildren = NoResultChildren | ResultChildren(entries: Dict<AggResultConfig>)

  /** `getMappedAggregationResult`: one object per bucket; `None` where a bucket is null and reading it throws. */
  function MappedAggregationResult(config: AggResultConfig, aggs: JsValue): (r: Option<seq<JsValue>>)
    ensures r.Some? ==> |r.value| == |ForInValues(aggs)|
    decreases config, 2
  {
    MapBuckets(config, ForInValues(aggs))
  }

  function MapBuckets(config: AggResultConfig, buckets: seq<JsValue>): (r: Option<seq<JsValue>>)
    ensures r.Some? ==> |r.value| == |buckets|
    decreases config, 1, |buckets|
  {
    if |buckets| == 0 then Some([])
    else match MapBuckets(config, buckets[..|buckets| - 1])
      case None => None
      case Some(init) =>
        var b := buckets[|buckets| - 1];
        if IsNil(b) then None
        else
          var obj := BucketObj(config, b);
          match (if config.child.ResultChildren? then
                   assert config.child < config;
                   AddChildren(config.child.entries, b, obj)
                 else Some(obj))
          case None => None
          case Some(o) => Some(init + [Obj(o)])
  }

  /** The key and the count of one bucket, under the configured names. */
  function BucketObj(config: AggResultConfig, b: JsValue): (obj: Dict<JsValue>)
    ensures config.bucketName != config.countName ==>
      obj == [(config.bucketName, Get(b, "key")), (config.countName, Get(b, "doc_count"))]
  {
    var o := Put([], config.bucketName, Get(b, "key"));
    assert Keys(o) == [config.bucketName];
    Put(o, config.countName, Get(b, "doc_count"))
  }

  /** The child results a bucket carries, added under each child's display name. */
  function AddChildren(children: Dict<AggResultConfig>, b: JsValue, obj: Dict<JsValue>): Option<Dict<JsValue>>
    decreases children, 0
  {
    if |children| == 0 then Some(obj)
    else
      var c := children[0];
      assert c in children;
      var cc := c.1;
      assert cc < c;
      var sub := Get(b, cc.displayName);
      var next :=
        if Truthy(sub) then
          match MappedAggregationResult(cc, Get(sub, "buckets"))
          case None => None
          case Some(rs) => Some(Put(obj, cc.displayName, Arr(rs)))
        else Some(obj);
      match next
      case None => None
      case Some(o) => AddChildren(children[1..], b, o)
  }

  /** Without child configuration, each bucket maps to its key and count; only a null bucket fails. */
  lemma {:induction false} MappedBuckets(config: AggResultConfig, buckets: seq<JsValue>)
    requires config.child.NoResultChildren? && config.bucketName != config.countName
    ensures MapBuckets(config, buckets).Some? <==> forall i :: 0 <= i < |buckets| ==> !IsNil(buckets[i])
    ensures MapBuckets(config, buckets).Some? ==> forall i :: 0 <= i < |buckets| ==>
      MapBuckets(config, buckets).value[i] ==
        Obj([(config.bucketName, Get(buckets[i], "key")), (config.countName, Get(buckets[i], "doc_count"))])
  {
    if |buckets| > 0 {
      var n := |buckets| - 1;
      var init := buckets[..n];
      var b := buckets[n];
      MappedBuckets(config, init);
      var prev := MapBuckets(config, init);
      if prev.None? {
        var i :| 0 <= i < n && IsNil(init[i]);
        assert IsNil(buckets[i]);
      } else if IsNil(b) {
        assert MapBuckets(config, buckets).None?;
      } else {
        var r := MapBuckets(config, buckets).value;
        assert r == prev.value + [Obj(BucketObj(config, b))];
        forall i | 0 <= i < |buckets|
          ensures !IsNil(buckets[i])
          ensures r[i] == Obj([(config.bucketName, Get(buckets[i], "key")), (config.countName, Get(buckets[i], "doc_count"))])
        {
          if i < n {
            assert buckets[i] == init[i];
          }
        }
      }
    }
  }

  // ---------------------------------------------------------------------
  // Result shaping and bool queries

  /** The truthy values of `xs`, in order (`_.filter(xs, r => r)`). */
  function FilterTruthy(xs: seq<JsValue>): (r: seq<JsValue>)
    ensures |r| <= |xs|
    ensures forall x :: x in r <==> x in xs && Truthy(x)
  {
    if |xs| == 0 then []
    else
      var init := FilterTruthy(xs[..|xs| - 1]);
      assert xs == xs[..|xs| - 1] + [xs[|xs| - 1]];
      if Truthy(xs[|xs| - 1]) then init + [xs[|xs| - 1]] else init
  }

  function Sources(hits: seq<JsValue>): (r: Option<seq<JsValue>>)
    ensures r.Some? <==> forall i :: 0 <= i < |hits| ==> !IsNil(hits[i])
    ensures r.Some? ==> |r.value| == |hits| && forall i :: 0 <= i < |hits| ==> r.value[i] == Get(hits[i], "_source")
  {
    if exists i :: 0 <= i < |hits| && IsNil(hits[i]) then None
    else Some(seq(|hits|, i requires 0 <= i < |hits| => Get(hits[i], "_source")))
  }

  /** The hits `createSimpleSearchResult` visits: `results.docs` when that is truthy, else `results`. */
  function Hits(results: JsValue): (hits: seq<JsValue>)
    ensures Truthy(Get(results, "docs")) && Get(results, "docs").Arr? ==> hits == Get(results, "docs").elems
    ensures !Truthy(Get(results, "docs")) && results.Arr? ==> hits == results.elems
  {
    var docs := Get(results, "docs");
    ForInValues(if Truthy(docs) then docs else results)
  }

  /**
   * `createSimpleSearchResult`: the truthy `_source` values of the hits;
   * `None` where reading a null throws.
   */
  function CreateSimpleSearchResult(results: JsValue): (r: Option<seq<JsValue>>)
    ensures IsNil(results) ==> r.None?
    ensures r.Some? ==> forall x :: x in r.value ==> Truthy(x)
  {
    if IsNil(results) then None
    else
      match Sources(Hits(results))
      case None => None
      case Some(srcs) => Some(FilterTruthy(srcs))
  }

  /** Exactly the truthy `_source` values of the hits are returned; a null hit fails the call. */
  lemma SearchResultMembers(results: JsValue, x: JsValue)
    requires !IsNil(results)
    ensures CreateSimpleSearchResult(results).Some? <==> forall i :: 0 <= i < |Hits(results)| ==> !IsNil(Hits(results)[i])
    ensures CreateSimpleSearchResult(results).Some? ==>
      (x in CreateSimpleSearchResult(results).value <==>
        Truthy(x) && exists i :: 0 <= i < |Hits(results)| && x == Get(Hits(results)[i], "_source"))
  {
    var hits := Hits(results);
    if Sources(hits).Some? {
      var srcs := Sources(hits).value;
      if x in srcs {
        var i :| 0 <= i < |srcs| && srcs[i] == x;
      }
    }
  }

  /** `{bool: {must?, should?, must_not?}}`; `None` is an omitted key. */
  datatype BoolQuery = BoolQuery(must: Option<JsValue>, should: Option<JsValue>, mustNot: Option<JsValue>)

  /**
   * `xs && xs.length > 0`. A `length` property compares as a number: `true`
   * counts as 1, `false`, `null` and `undefined` do not pass (see README).
   */
  predicate NonEmptyLength(v: JsValue) {
    match v
    case Arr(es) => |es| > 0
    case Str(s) => |s| > 0
    case Obj(_) => var l := Get(v, "length"); (l.Num? && l.n > 0) || l == Bool(true)
    case _ => false
  }

  /** `buildFilters`: each part is present exactly when it is non-empty. */
  function BuildFilters(facetFilters: JsValue, otherFilters: JsValue, excludeFilters: JsValue): (q: BoolQuery)
    ensures q.must.Some? <==> HasOwnKeys(facetFilters)
    ensures q.should.Some? <==> HasOwnKeys(otherFilters)
    ensures q.mustNot.Some? <==> NonEmptyLength(excludeFilters)
    ensures q.must.Some? ==> q.must.value == facetFilters
    ensures q.should.Some? ==> q.should.value == otherFilters
    ensures q.mustNot.Some? ==> q.mustNot.value == excludeFilters
  {
    BoolQuery(
      if Truthy(facetFilters) && HasOwnKeys(facetFilters) then Some(facetFilters) else None,
      if Truthy(otherFilters) && HasOwnKeys(otherFilters) then Some(otherFilters) else None,
      if Truthy(excludeFilters) && NonEmptyLength(excludeFilters) then Some(excludeFilters) else None)
  }

  /** Empty inputs give `{bool: {}}`. */
  lemma BuildFiltersEmpty()
    ensures BuildFilters(Obj([]), Arr([]), Arr([])) == BoolQuery(None, None, None)
  {
  }

  /**
   * `isEmpty(obj)`: no own enumerable property, which is to say that a
   * `for-in` loop over the value visits nothing.
   */
  predicate IsEmpty(obj: JsValue)
    ensures IsEmpty(obj) <==> |ForInValues(obj)| == 0
  {
    !HasOwnKeys(obj)
  }

  /**
   * The elements `buildTermFilterArr` walks: an array as it is, a string
   * split on `;`; `None` for anything else, where `params.split` throws.
   */
  function TermParts(params: JsValue): (r: Option<seq<JsValue>>)
    ensures params.Arr? ==> r == Some(params.elems)
    ensures params.Str? ==> r == Some(StrSeq(Split(params.s, ';')))
    ensures r.None? <==> !params.Arr? && !params.Str?
  {
    if params.Arr? then Some(params.elems)
    else if params.Str? then Some(StrSeq(Split(params.s, ';')))
    else None
  }

  /**
   * `buildTermFilterArr`: a `terms` clause of the non-empty elements, in order;
   * `None` where it throws (no elements to walk, or a null element whose
   * `length` is read).
   */
  function BuildTermFilterArr(params: JsValue, termName: string): (r: Option<Clause>)
    ensures params.Str? ==> r.Some?
    ensures r.Some? <==> TermParts(params).Some? && NoNil(TermParts(params).value)
    ensures r.Some? ==> r.value == Terms(termName, KeepNonEmpty(TermParts(params).value))
    ensures r.Some? ==> forall x :: x in r.value.values <==> x in TermParts(params).value && NonEmptyLength(x)
  {
    var parts := TermParts(params);
    if parts.None? || !NoNil(parts.value) then None
    else Some(Terms(termName, KeepNonEmpty(parts.value)))
  }

  function StrSeq(ss: seq<string>): (r: seq<JsValue>)
    ensures |r| == |ss| && forall i :: 0 <= i < |ss| ==> r[i] == Str(ss[i])
  {
    if |ss| == 0 then [] else StrSeq(ss[..|ss| - 1]) + [Str(ss[|ss| - 1])]
  }

  /** The values with a positive length, in order. */
  function KeepNonEmpty(xs: seq<JsValue>): (r: seq<JsValue>)
    ensures |r| <= |xs|
    ensures forall x :: x in r <==> x in xs && NonEmptyLength(x)
  {
    if |xs| == 0 then []
    else
      var init := KeepNonEmpty(xs[..|xs| - 1]);
      assert xs == xs[..|xs| - 1] + [xs[|xs| - 1]];
      if NonEmptyLength(xs[|xs| - 1]) then init + [xs[|xs| - 1]] else init
  }

  /** Filtering a concatenation filters each part, so the kept values stay in their order. */
  lemma {:induction false} KeepNonEmptyAppend(a: seq<JsValue>, b: seq<JsValue>)
    ensures KeepNonEmpty(a + b) == KeepNonEmpty(a) + KeepNonEmpty(b)
    decreases |b|
  {
    if |b| == 0 {
      assert a + b == a;
    } else {
      var b' := b[..|b| - 1];
      assert (a + b)[..|a + b| - 1] == a + b';
      KeepNonEmptyAppend(a, b');
      var x := b[|b| - 1];
      assert (a + b)[|a + b| - 1] == x;
    }
  }

  /** One value is kept exactly when it has a positive length. */
  lemma KeepNonEmptyOne(x: JsValue)
    ensures KeepNonEmpty([x]) == if NonEmptyLength(x) then [x] else []
  {
    assert [x][..0] == [];
  }

  /** `buildRangeFilter(field, value, type)`: `{range: {field: {type: value}}}`. */
  function BuildRangeFilter(field: string, value: JsValue, rangeType: string): (c: Clause)
    ensures c.Range? && c.field == field && c.rangeType == rangeType && c.bound == value
  {
    Range(field, rangeType, value)
  }
}
