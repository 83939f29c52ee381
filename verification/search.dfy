/** Search requests for events and plans: the filter objects a search
    request is read into, the clauses they build for the search index, and
    the time-to-live of an event's index document. The index itself, its
    text analysis and relevance scoring are not part of this model. */
module Search {
  import opened Common
  import Text

  /** The page size the REST framework uses by default. */
  const PAGINATE_BY: int := 10

  /** An indexed text field a query clause searches. */
  datatype TextField = OwnerName | PlanText | Name | Tags | Description

  /** A `should` clause of the query: a prefix match or a simple query
      string match on one field. */
  datatype Query = Prefix(field: TextField, text: string) | Sqs(field: TextField, text: string)

  /** A filter clause; the clauses of a search all have to hold. */
  datatype Filter =
    | StartDateRange(from: Time, until: Time)
    | GeoDistance(radius: string, latitude: real, longitude: real)
    | AmountAtLeast(bound: real)
    | AmountAtMost(bound: real)
    | CurrencyIs(code: string)
    | MaxMembersAtLeast(size: int)
    | MaxMembersAtMost(size: int)

  datatype SearchRequest = SearchRequest(should: seq<Query>, filters: seq<Filter>)

  /** The indexed fields of an event document the filters look at. */
  datatype EventDoc = EventDoc(start: Time, amount: real, currencyCode: string, maxMembers: int)

  /** Whether one filter clause admits a document; `near` says whether the
      document lies within the clause's geo distance. */
  predicate Holds(f: Filter, d: EventDoc, near: bool) {
    match f
    case StartDateRange(from, until) => from <= d.start <= until
    case GeoDistance(_, _, _) => near
    case AmountAtLeast(bound) => d.amount >= bound
    case AmountAtMost(bound) => d.amount <= bound
    case CurrencyIs(code) => d.currencyCode == code
    case MaxMembersAtLeast(size) => d.maxMembers >= size
    case MaxMembersAtMost(size) => d.maxMembers <= size
  }

  predicate AllHold(filters: seq<Filter>, d: EventDoc, near: bool) {
    forall i :: 0 <= i < |filters| ==> Holds(filters[i], d, near)
  }

  /** A search text is used only when it is given and not empty. */
  predicate HasText(search: Option<string>) {
    search.Some? && search.value != ""
  }

  /** A bound is used only when it is given and positive. */
  predicate PositiveReal(bound: Option<real>) {
    bound.Some? && bound.value > 0.0
  }

  predicate PositiveInt(bound: Option<int>) {
    bound.Some? && bound.value > 0
  }

  /** The fields a plan search request carries; absent ones are None. */
  datatype PlanSearchAttrs = PlanSearchAttrs(
    search: Option<string>, page: Option<int>, pageSize: Option<int>,
    distance: Option<string>, distanceUnits: Option<string>,
    latitude: Option<real>, longitude: Option<real>)

  class PlanSearchFilter {
    var search: Option<string>
    var page: int
    var pageSize: int
    /** The distance as the request gives it, as text. */
    var distance: string
    var distanceUnits: string
    var latitude: real
    var longitude: real

    /** A filter from a request: given fields as they are, the defaults (no
        search, page 1, the default page size, 25 miles around 0, 0) for
        the rest. */
    constructor (attrs: PlanSearchAttrs)
      ensures search == attrs.search
      ensures page == attrs.page.GetOr(1) && pageSize == attrs.pageSize.GetOr(PAGINATE_BY)
      ensures distance == attrs.distance.GetOr("25") && distanceUnits == attrs.distanceUnits.GetOr("mi")
      ensures latitude == attrs.latitude.GetOr(0.0) && longitude == attrs.longitude.GetOr(0.0)
    {
      search := attrs.search;
      page := attrs.page.GetOr(1);
      pageSize := attrs.pageSize.GetOr(PAGINATE_BY);
      distance := attrs.distance.GetOr("25");
      distanceUnits := attrs.distanceUnits.GetOr("mi");
      latitude := attrs.latitude.GetOr(0.0);
      longitude := attrs.longitude.GetOr(0.0);
    }

    /** PlanSearchSerializer.restore_object on an existing filter: the
        fields the request gives replace the current ones, the others stay. */
    method Restore(attrs: PlanSearchAttrs)
      modifies this
      ensures search == (if attrs.search.Some? then attrs.search else old(search))
      ensures page == attrs.page.GetOr(old(page)) && pageSize == attrs.pageSize.GetOr(old(pageSize))
      ensures distance == attrs.distance.GetOr(old(distance))
      ensures distanceUnits == attrs.distanceUnits.GetOr(old(distanceUnits))
      ensures latitude == attrs.latitude.GetOr(old(latitude)) && longitude == attrs.longitude.GetOr(old(longitude))
    {
      search := if attrs.search.Some? then attrs.search else search;
      page := attrs.page.GetOr(page);
      pageSize := attrs.pageSize.GetOr(pageSize);
      distance := attrs.distance.GetOr(distance);
      distanceUnits := attrs.distanceUnits.GetOr(distanceUnits);
      latitude := attrs.latitude.GetOr(latitude);
      longitude := attrs.longitude.GetOr(longitude);
    }

    /** build_search: owner-name prefix and text clauses on the lower-cased
        search text, only for a non-empty search; the geo filter always. */
    function BuildSearch(): (s: SearchRequest)
      reads this
      ensures HasText(search) <==> s.should != []
      ensures forall q :: q in s.should ==> q.text == Text.Lower(search.value)
      ensures HasText(search) ==> Prefix(OwnerName, Text.Lower(search.value)) in s.should
      ensures HasText(search) ==> Sqs(PlanText, Text.Lower(search.value)) in s.should
      ensures s.filters == [GeoDistance(distance + distanceUnits, latitude, longitude)]
    {
      var should :=
        if HasText(search) then
          var text := Text.Lower(search.value);
          [Prefix(OwnerName, text), Sqs(PlanText, text)]
        else [];
      SearchRequest(should, [GeoDistance(distance + distanceUnits, latitude, longitude)])
    }
  }

  /** The fields an event search request carries; absent ones are None. */
  datatype EventSearchAttrs = EventSearchAttrs(
    search: Option<string>, page: Option<int>, pageSize: Option<int>,
    startDate: Option<Time>, endDate: Option<Time>,
    distance: Option<int>, distanceUnits: Option<string>,
    latitude: Option<real>, longitude: Option<real>,
    minPrice: Option<real>, maxPrice: Option<real>, currencyCode: Option<string>,
    minSize: Option<int>, maxSize: Option<int>)

  class EventSearchFilter {
    var search: Option<string>
    var page: int
    var pageSize: int
    var startDate: Time
    var endDate: Time
    var distance: int
    var distanceUnits: string
    var latitude: real
    var longitude: real
    var minPrice: Option<real>
    var maxPrice: Option<real>
    var currencyCode: string
    var minSize: Option<int>
    var maxSize: Option<int>

    /** A filter from a request: given fields as they are, defaults for the
        rest. The default date window starts at `loadTime`, the moment the
        defaults were evaluated (when the program loaded, not per request),
        and is seven days long; the other defaults are 25 miles around 0, 0,
        US dollars, no price bounds and a minimum size of 0. */
    constructor (attrs: EventSearchAttrs, loadTime: Time)
      ensures search == attrs.search && page == attrs.page.GetOr(1) && pageSize == attrs.pageSize.GetOr(PAGINATE_BY)
      ensures startDate == attrs.startDate.GetOr(loadTime) && endDate == attrs.endDate.GetOr(loadTime + 7 * DAY)
      ensures distance == attrs.distance.GetOr(25) && distanceUnits == attrs.distanceUnits.GetOr("mi")
      ensures latitude == attrs.latitude.GetOr(0.0) && longitude == attrs.longitude.GetOr(0.0)
      ensures minPrice == attrs.minPrice && maxPrice == attrs.maxPrice
      ensures currencyCode == attrs.currencyCode.GetOr("USD")
      ensures minSize == Some(attrs.minSize.GetOr(0)) && maxSize == attrs.maxSize
    {
      search := attrs.search;
      page := attrs.page.GetOr(1);
      pageSize := attrs.pageSize.GetOr(PAGINATE_BY);
      startDate := attrs.startDate.GetOr(loadTime);
      endDate := attrs.endDate.GetOr(loadTime + 7 * DAY);
      distance := attrs.distance.GetOr(25);
      distanceUnits := attrs.distanceUnits.GetOr("mi");
      latitude := attrs.latitude.GetOr(0.0);
      longitude := attrs.longitude.GetOr(0.0);
      minPrice := attrs.minPrice;
      maxPrice := attrs.maxPrice;
      currencyCode := attrs.currencyCode.GetOr("USD");
      minSize := Some(attrs.minSize.GetOr(0));
      maxSize := attrs.maxSize;
    }

    /** EventSearchSerializer.restore_object on an existing filter: the
        fields the request gives replace the current ones, the others stay. */
    method Restore(attrs: EventSearchAttrs)
      modifies this
      ensures search == (if attrs.search.Some? then attrs.search else old(search))
      ensures page == attrs.page.GetOr(old(page)) && pageSize == attrs.pageSize.GetOr(old(pageSize))
      ensures startDate == attrs.startDate.GetOr(old(startDate)) && endDate == attrs.endDate.GetOr(old(endDate))
      ensures distance == attrs.distance.GetOr(old(distance)) && distanceUnits == attrs.distanceUnits.GetOr(old(distanceUnits))
      ensures latitude == attrs.latitude.GetOr(old(latitude)) && longitude == attrs.longitude.GetOr(old(longitude))
      ensures minPrice == (if attrs.minPrice.Some? then attrs.minPrice else old(minPrice))
      ensures maxPrice == (if attrs.maxPrice.Some? then attrs.maxPrice else old(maxPrice))
      ensures currencyCode == attrs.currencyCode.GetOr(old(currencyCode))
      ensures minSize == (if attrs.minSize.Some? then attrs.minSize else old(minSize))
      ensures maxSize == (if attrs.maxSize.Some? then attrs.maxSize else old(maxSize))
    {
      RestoreWhereAndWhat(attrs);
      RestoreBounds(attrs);
    }

    /** The search text, paging, date window and place of a request. */
    method RestoreWhereAndWhat(attrs: EventSearchAttrs)
      modifies this`search, this`page, this`pageSize, this`startDate, this`endDate
      modifies this`distance, this`distanceUnits, this`latitude, this`longitude
      ensures search == (if attrs.search.Some? then attrs.search else old(search))
      ensures page == attrs.page.GetOr(old(page)) && pageSize == attrs.pageSize.GetOr(old(pageSize))
      ensures startDate == attrs.startDate.GetOr(old(startDate)) && endDate == attrs.endDate.GetOr(old(endDate))
      ensures distance == attrs.distance.GetOr(old(distance)) && distanceUnits == attrs.distanceUnits.GetOr(old(distanceUnits))
      ensures latitude == attrs.latitude.GetOr(old(latitude)) && longitude == attrs.longitude.GetOr(old(longitude))
    {
      search := if attrs.search.Some? then attrs.search else search;
      page := attrs.page.GetOr(page);
      pageSize := attrs.pageSize.GetOr(pageSize);
      startDate := attrs.startDate.GetOr(startDate);
      endDate := attrs.endDate.GetOr(endDate);
      distance := attrs.distance.GetOr(distance);
      distanceUnits := attrs.distanceUnits.GetOr(distanceUnits);
      latitude := attrs.latitude.GetOr(latitude);
      longitude := attrs.longitude.GetOr(longitude);
    }

    /** The price, currency and size bounds of a request. */
    method RestoreBounds(attrs: EventSearchAttrs)
      modifies this`minPrice, this`maxPrice, this`currencyCode, this`minSize, this`maxSize
      ensures minPrice == (if attrs.minPrice.Some? then attrs.minPrice else old(minPrice))
      ensures maxPrice == (if attrs.maxPrice.Some? then attrs.maxPrice else old(maxPrice))
      ensures currencyCode == attrs.currencyCode.GetOr(old(currencyCode))
      ensures minSize == (if attrs.minSize.Some? then attrs.minSize else old(minSize))
      ensures maxSize == (if attrs.maxSize.Some? then attrs.maxSize else old(maxSize))
    {
      minPrice := if attrs.minPrice.Some? then attrs.minPrice else minPrice;
      maxPrice := if attrs.maxPrice.Some? then attrs.maxPrice else maxPrice;
      currencyCode := attrs.currencyCode.GetOr(currencyCode);
      minSize := if attrs.minSize.Some? then attrs.minSize else minSize;
      maxSize := if attrs.maxSize.Some? then attrs.maxSize else maxSize;
    }

    /** Which documents the filter object asks for, stated field by field:
        start within the date window, within the distance, the price and
        size bounds that are set and positive, and the lower-cased
        currency. */
    ghost predicate Admits(d: EventDoc, near: bool)
      reads this
    {
      && startDate <= d.start <= endDate
      && near
      && (PositiveReal(minPrice) ==> d.amount >= minPrice.value)
      && (PositiveReal(maxPrice) ==> d.amount <= maxPrice.value)
      && d.currencyCode == Text.Lower(currencyCode)
      && (PositiveInt(minSize) ==> d.maxMembers >= minSize.value)
      && (PositiveInt(maxSize) ==> d.maxMembers <= maxSize.value)
    }

    /** The query clauses of build_search: name, tag and description
        clauses on the lower-cased search text, only for a non-empty
        search. */
    function Queries(): (qs: seq<Query>)
      reads this
      ensures HasText(search) <==> qs != []
      ensures forall q :: q in qs ==> q.text == Text.Lower(search.value)
      ensures HasText(search) ==>
        forall field :: field in {Name, Tags, Description} ==> Sqs(field, Text.Lower(search.value)) in qs
    {
      if HasText(search) then
        var text := Text.Lower(search.value);
        [Sqs(Name, text), Sqs(Tags, text), Sqs(Description, text)]
      else []
    }

    /** The filter clauses of build_search: the date window, the distance
        (its text is the distance followed by the units) and the lower-cased
        currency always; each price or size bound only when it is set and
        positive. */
    function Filters(): (fs: seq<Filter>)
      reads this
      ensures StartDateRange(startDate, endDate) in fs
      ensures GeoDistance(Text.IntToString(distance) + distanceUnits, latitude, longitude) in fs
      ensures CurrencyIs(Text.Lower(currencyCode)) in fs
      ensures forall b :: AmountAtLeast(b) in fs <==> PositiveReal(minPrice) && b == minPrice.value
      ensures forall b :: AmountAtMost(b) in fs <==> PositiveReal(maxPrice) && b == maxPrice.value
      ensures forall n :: MaxMembersAtLeast(n) in fs <==> PositiveInt(minSize) && n == minSize.value
      ensures forall n :: MaxMembersAtMost(n) in fs <==> PositiveInt(maxSize) && n == maxSize.value
    {
      [StartDateRange(startDate, endDate),
       GeoDistance(Text.IntToString(distance) + distanceUnits, latitude, longitude)]
      + PriceFilters()
      + [CurrencyIs(Text.Lower(currencyCode))]
      + SizeFilters()
    }

    function PriceFilters(): (fs: seq<Filter>)
      reads this
      ensures forall f :: f in fs ==> f.AmountAtLeast? || f.AmountAtMost?
      ensures forall b :: AmountAtLeast(b) in fs <==> PositiveReal(minPrice) && b == minPrice.value
      ensures forall b :: AmountAtMost(b) in fs <==> PositiveReal(maxPrice) && b == maxPrice.value
    {
      Optional(PositiveReal(minPrice), AmountAtLeast(minPrice.GetOr(0.0)))
      + Optional(PositiveReal(maxPrice), AmountAtMost(maxPrice.GetOr(0.0)))
    }

    function SizeFilters(): (fs: seq<Filter>)
      reads this
      ensures forall f :: f in fs ==> f.MaxMembersAtLeast? || f.MaxMembersAtMost?
      ensures forall n :: MaxMembersAtLeast(n) in fs <==> PositiveInt(minSize) && n == minSize.value
      ensures forall n :: MaxMembersAtMost(n) in fs <==> PositiveInt(maxSize) && n == maxSize.value
    {
      Optional(PositiveInt(minSize), MaxMembersAtLeast(minSize.GetOr(0)))
      + Optional(PositiveInt(maxSize), MaxMembersAtMost(maxSize.GetOr(0)))
    }

    /** build_search: the query clauses and the filter clauses. */
    function BuildSearch(): SearchRequest
      reads this
    {
      SearchRequest(Queries(), Filters())
    }
  }

  /** The filters the event search applies, as a conjunction: a document
      passes them exactly when the filter object admits it. */
  lemma {:induction false} BuildSearchAdmits(f: EventSearchFilter, d: EventDoc, near: bool)
    ensures AllHold(f.BuildSearch().filters, d, near) <==> f.Admits(d, near)
  {
    var base := [StartDateRange(f.startDate, f.endDate),
                 GeoDistance(Text.IntToString(f.distance) + f.distanceUnits, f.latitude, f.longitude)];
    var currency := [CurrencyIs(Text.Lower(f.currencyCode))];
    assert AllHold(base, d, near) <==> f.startDate <= d.start <= f.endDate && near by {
      assert AllHold(base, d, near) <==> Holds(base[0], d, near) && Holds(base[1], d, near);
    }
    assert AllHold(currency, d, near) <==> d.currencyCode == Text.Lower(f.currencyCode) by {
      assert AllHold(currency, d, near) <==> Holds(currency[0], d, near);
    }
    PriceFiltersHold(f, d, near);
    SizeFiltersHold(f, d, near);
    AllHoldAppend(base, f.PriceFilters(), d, near);
    AllHoldAppend(base + f.PriceFilters(), currency, d, near);
    AllHoldAppend(base + f.PriceFilters() + currency, f.SizeFilters(), d, near);
  }

  lemma PriceFiltersHold(f: EventSearchFilter, d: EventDoc, near: bool)
    ensures AllHold(f.PriceFilters(), d, near) <==>
      && (PositiveReal(f.minPrice) ==> d.amount >= f.minPrice.value)
      && (PositiveReal(f.maxPrice) ==> d.amount <= f.maxPrice.value)
  {
    var lo := Optional(PositiveReal(f.minPrice), AmountAtLeast(f.minPrice.GetOr(0.0)));
    var hi := Optional(PositiveReal(f.maxPrice), AmountAtMost(f.maxPrice.GetOr(0.0)));
    OptionalHolds(PositiveReal(f.minPrice), AmountAtLeast(f.minPrice.GetOr(0.0)), d, near);
    OptionalHolds(PositiveReal(f.maxPrice), AmountAtMost(f.maxPrice.GetOr(0.0)), d, near);
    AllHoldAppend(lo, hi, d, near);
  }

  lemma SizeFiltersHold(f: EventSearchFilter, d: EventDoc, near: bool)
    ensures AllHold(f.SizeFilters(), d, near) <==>
      && (PositiveInt(f.minSize) ==> d.maxMembers >= f.minSize.value)
      && (PositiveInt(f.maxSize) ==> d.maxMembers <= f.maxSize.value)
  {
    var lo := Optional(PositiveInt(f.minSize), MaxMembersAtLeast(f.minSize.GetOr(0)));
    var hi := Optional(PositiveInt(f.maxSize), MaxMembersAtMost(f.maxSize.GetOr(0)));
    OptionalHolds(PositiveInt(f.minSize), MaxMembersAtLeast(f.minSize.GetOr(0)), d, near);
    OptionalHolds(PositiveInt(f.maxSize), MaxMembersAtMost(f.maxSize.GetOr(0)), d, near);
    AllHoldAppend(lo, hi, d, near);
  }

  lemma OptionalHolds(applies: bool, clause: Filter, d: EventDoc, near: bool)
    ensures AllHold(Optional(applies, clause), d, near) <==> (applies ==> Holds(clause, d, near))
  {
    if applies {
      assert Optional(applies, clause)[0] == clause;
    }
  }

  lemma AllHoldAppend(a: seq<Filter>, b: seq<Filter>, d: EventDoc, near: bool)
    ensures AllHold(a + b, d, near) <==> AllHold(a, d, near) && AllHold(b, d, near)
  {
    if AllHold(a, d, near) && AllHold(b, d, near) {
      forall i | 0 <= i < |a + b| ensures Holds((a + b)[i], d, near) {
        if i >= |a| {
          assert (a + b)[i] == b[i - |a|];
        }
      }
    }
    if AllHold(a + b, d, near) {
      forall i | 0 <= i < |a| ensures Holds(a[i], d, near) {
        assert (a + b)[i] == a[i];
      }
      forall i | 0 <= i < |b| ensures Holds(b[i], d, near) {
        assert (a + b)[|a| + i] == b[i];
      }
    }
  }

  /** The one-clause list when the clause applies, the empty list otherwise. */
  function Optional(applies: bool, clause: Filter): (r: seq<Filter>)
    ensures forall c :: c in r <==> applies && c == clause
    ensures |r| <= 1
  {
    if applies then [clause] else []
  }

  /** The time-to-live of an event's index document: a week past the
      event's start, in whole seconds from now (negative once that week is
      over). */
  function EventTtl(start: Time, now: Time): (ttl: int)
    ensures ttl > 0 <==> start + 7 * DAY > now
    ensures now + ttl == start + 7 * DAY
  {
    start - now + 7 * DAY
  }

  /** The TTL as the document carries it: the number followed by `s`. */
  function TtlText(ttl: int): (r: string)
    ensures |r| >= 2 && r[|r| - 1] == 's'
    ensures r[0] == '-' <==> ttl < 0
  {
    Text.IntToString(ttl) + "s"
  }

  /** Different TTLs are written differently. */
  lemma {:induction false} TtlTextInjective(a: int, b: int)
    requires TtlText(a) == TtlText(b)
    ensures a == b
  {
    var sa, sb := Text.IntToString(a), Text.IntToString(b);
    assert sa == TtlText(a)[..|TtlText(a)| - 1];
    assert sb == TtlText(b)[..|TtlText(b)| - 1];
    Text.IntToStringInjective(a, b);
  }
}
