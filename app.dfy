/** The catalog logic of src/App.tsx: the filter pipeline behind `filteredVenues`, the
    ordering by distance, the favourites toggle, the filter-count badge and the empty
    filter value that the page starts from and that "Clear All Filters" restores. */
module App {
  import opened Types
  import opened Text
  import opened Seqs
  import opened TimeUtils
  import opened VenueCard
  import opened FilterPanel

  // ---------------------------------------------------------------------------
  // The four predicates
  // ---------------------------------------------------------------------------

  /** `tag => tag.toLowerCase().includes(query)` for an already lowercased query. */
  function TagMatches(query: string): string -> bool {
    (tag: string) => Contains(ToLower(tag), query)
  }

  /** The search stage's test for an already lowercased query: name, neighbourhood or some tag. */
  function MatchesQuery(query: string, venue: Venue): bool {
    || Contains(ToLower(venue.name), query)
    || Contains(ToLower(venue.neighborhood), query)
    || Any(venue.tags, TagMatches(query))
  }

  /** The search stage, with the `if (filters.searchQuery)` guard: an empty query keeps everything. */
  function PassesSearch(filters: FilterState, venue: Venue): (r: bool)
    ensures |filters.searchQuery| == 0 ==> r
    ensures |filters.searchQuery| > 0 ==>
      var query := ToLower(filters.searchQuery);
      (r <==> || IsInfix(query, ToLower(venue.name))
              || IsInfix(query, ToLower(venue.neighborhood))
              || exists i :: 0 <= i < |venue.tags| && IsInfix(query, ToLower(venue.tags[i])))
  {
    var query := ToLower(filters.searchQuery);
    ContainsIff(ToLower(venue.name), query);
    ContainsIff(ToLower(venue.neighborhood), query);
    assert forall i :: 0 <= i < |venue.tags| ==>
      (TagMatches(query)(venue.tags[i]) <==> IsInfix(query, ToLower(venue.tags[i]))) by {
      forall i | 0 <= i < |venue.tags| {
        ContainsIff(ToLower(venue.tags[i]), query);
      }
    }
    |filters.searchQuery| == 0 || MatchesQuery(query, venue)
  }

  /** The "active now" stage: with the switch on, some deal of the venue is running. */
  function PassesActiveNow(filters: FilterState, now: Now, venue: Venue): (r: bool)
    ensures r <==> !filters.activeNow
                   || exists i :: 0 <= i < |venue.deals| && IsDealActiveNow(venue.deals[i], now)
  {
    !filters.activeNow || HasActiveDeals(venue, now)
  }

  /** `deal => filters.dealTypes.includes(deal.type) || deal.type === 'all'`. */
  function OffersSelectedType(types: seq<DealType>): Deal -> bool {
    (deal: Deal) => deal.dealType in types || deal.dealType == All
  }

  /** The deal-type stage: with a selection, some deal has a selected type or the wildcard type. */
  function PassesDealTypes(filters: FilterState, venue: Venue): (r: bool)
    ensures |filters.dealTypes| == 0 ==> r
    ensures |filters.dealTypes| > 0 ==>
      (r <==> exists i :: 0 <= i < |venue.deals| &&
                (venue.deals[i].dealType in filters.dealTypes || venue.deals[i].dealType == All))
    ensures (exists i :: 0 <= i < |venue.deals| && venue.deals[i].dealType == All) ==> r
  {
    |filters.dealTypes| == 0 || Any(venue.deals, OffersSelectedType(filters.dealTypes))
  }

  /** The price stage: with a selection, the venue's level is one of those selected. */
  function PassesPriceLevel(filters: FilterState, venue: Venue): (r: bool)
    ensures r <==> |filters.priceLevel| == 0 || exists i :: 0 <= i < |filters.priceLevel| &&
                                                           filters.priceLevel[i] == venue.priceLevel
  {
    |filters.priceLevel| == 0 || venue.priceLevel in filters.priceLevel
  }

  /** A venue is in the results exactly when it passes all four stages. */
  predicate Matches(filters: FilterState, now: Now, venue: Venue) {
    && PassesSearch(filters, venue)
    && PassesActiveNow(filters, now, venue)
    && PassesDealTypes(filters, venue)
    && PassesPriceLevel(filters, venue)
  }

  function MatchesAll(filters: FilterState, now: Now): Venue -> bool {
    (venue: Venue) => Matches(filters, now, venue)
  }

  // The stages one by one, and the conjunction of the stages run so far, as the callbacks
  // handed to `filter`.

  function SearchStage(query: string): Venue -> bool {
    (venue: Venue) => MatchesQuery(query, venue)
  }

  function DealTypeStage(types: seq<DealType>): Venue -> bool {
    (venue: Venue) => Any(venue.deals, OffersSelectedType(types))
  }

  function PriceStage(levels: seq<PriceLevel>): Venue -> bool {
    (venue: Venue) => venue.priceLevel in levels
  }

  function KeepAll(): Venue -> bool {
    (venue: Venue) => true
  }

  function AfterSearch(filters: FilterState): Venue -> bool {
    (venue: Venue) => PassesSearch(filters, venue)
  }

  function AfterActive(filters: FilterState, now: Now): Venue -> bool {
    (venue: Venue) => PassesSearch(filters, venue) && PassesActiveNow(filters, now, venue)
  }

  function AfterDealTypes(filters: FilterState, now: Now): Venue -> bool {
    (venue: Venue) => PassesSearch(filters, venue) && PassesActiveNow(filters, now, venue)
             && PassesDealTypes(filters, venue)
  }

  /** One guarded `results = results.filter(q)` step: running it after the filter p is
      filtering once by pq, whether or not the guard lets the step run. */
  lemma GuardedStage<T>(s: seq<T>, p: T -> bool, q: T -> bool, pq: T -> bool, guard: bool)
    requires forall x :: x in s ==> pq(x) == (p(x) && (guard ==> q(x)))
    ensures (if guard then Select(Select(s, p), q) else Select(s, p)) == Select(s, pq)
  {
    if guard {
      SelectFuse(s, p, q, pq);
    } else {
      SelectExt(s, p, pq);
    }
  }

  // ---------------------------------------------------------------------------
  // Ordering by distance
  // ---------------------------------------------------------------------------

  /** `a.distance || 0`. */
  function DistanceKey(venue: Venue): int {
    venue.distance.GetOr(0)
  }

  /** `results.sort((a, b) => (a.distance || 0) - (b.distance || 0))`; the sort is stable,
      so venues at the same distance keep their catalog order. */
  function SortByDistance(s: seq<Venue>): (r: seq<Venue>)
    ensures SortedBy(r, DistanceKey)
    ensures multiset(r) == multiset(s)
    ensures forall k :: Select(r, KeyIs(DistanceKey, k)) == Select(s, KeyIs(DistanceKey, k))
  {
    forall k ensures Select(SortBy(s, DistanceKey), KeyIs(DistanceKey, k)) == Select(s, KeyIs(DistanceKey, k)) {
      SortIsStable(s, DistanceKey, k);
    }
    SortBy(s, DistanceKey)
  }

  // ---------------------------------------------------------------------------
  // filteredVenues
  // ---------------------------------------------------------------------------

  /** Lists that are permutations of each other have the same members. */
  lemma SameElements(a: seq<Venue>, b: seq<Venue>)
    requires multiset(a) == multiset(b)
    ensures forall v :: v in a <==> v in b
  {
    forall v ensures v in a <==> v in b {
      assert v in a <==> v in multiset(a);
      assert v in b <==> v in multiset(b);
    }
  }

  /** The result of `filteredVenues` over a catalog: the venues that match, nearest first. */
  function Filtered(catalog: seq<Venue>, filters: FilterState, now: Now): (results: seq<Venue>)
    ensures SortedBy(results, DistanceKey)
    ensures forall v :: v in results <==> v in catalog && Matches(filters, now, v)
    ensures multiset(results) <= multiset(catalog)
  {
    var kept := Select(catalog, MatchesAll(filters, now));
    var sorted := SortBy(kept, DistanceKey);
    SameElements(sorted, kept);
    SelectMembers(catalog, MatchesAll(filters, now));
    assert forall v :: v in kept <==> v in catalog && Matches(filters, now, v) by {
      forall v ensures v in kept <==> v in catalog && Matches(filters, now, v) {
        assert MatchesAll(filters, now)(v) == Matches(filters, now, v);
      }
    }
    SelectSubMultiset(catalog, MatchesAll(filters, now));
    sorted
  }

  /** Each matching venue appears as often as in the catalog, every other venue not at all. */
  lemma FilteredMultiplicity(catalog: seq<Venue>, filters: FilterState, now: Now, v: Venue)
    ensures multiset(Filtered(catalog, filters, now))[v]
            == if Matches(filters, now, v) then multiset(catalog)[v] else 0
  {
    SelectMultiset(catalog, MatchesAll(filters, now), v);
  }

  /** The body of `filteredVenues`: a copy of the catalog narrowed by each enabled stage in
      turn, then sorted by distance. */
  method FilteredVenues(catalog: seq<Venue>, filters: FilterState, now: Now)
    returns (results: seq<Venue>)
    ensures results == Filtered(catalog, filters, now)
    ensures SortedBy(results, DistanceKey)
    ensures forall v :: v in results <==> v in catalog && Matches(filters, now, v)
    ensures multiset(results) <= multiset(catalog)
  {
    results := catalog;
    SelectAllPass(catalog, KeepAll());

    var query := ToLower(filters.searchQuery);
    if |filters.searchQuery| > 0 {
      results := Select(results, SearchStage(query));
    }
    GuardedStage(catalog, KeepAll(), SearchStage(query), AfterSearch(filters), |filters.searchQuery| > 0);
    assert results == Select(catalog, AfterSearch(filters));

    if filters.activeNow {
      results := Select(results, VenueActiveAt(now));
    }
    GuardedStage(catalog, AfterSearch(filters), VenueActiveAt(now), AfterActive(filters, now), filters.activeNow);
    assert results == Select(catalog, AfterActive(filters, now));

    if |filters.dealTypes| > 0 {
      results := Select(results, DealTypeStage(filters.dealTypes));
    }
    GuardedStage(catalog, AfterActive(filters, now), DealTypeStage(filters.dealTypes),
                 AfterDealTypes(filters, now), |filters.dealTypes| > 0);
    assert results == Select(catalog, AfterDealTypes(filters, now));

    if |filters.priceLevel| > 0 {
      results := Select(results, PriceStage(filters.priceLevel));
    }
    GuardedStage(catalog, AfterDealTypes(filters, now), PriceStage(filters.priceLevel),
                 MatchesAll(filters, now), |filters.priceLevel| > 0);

    results := SortByDistance(results);
  }

  /** The stages commute: running them in the reverse order keeps the same venues in the
      same order. */
  lemma StagesCommute(catalog: seq<Venue>, filters: FilterState, now: Now)
    ensures Select(Select(Select(Select(catalog, PriceOk(filters)), DealTypesOk(filters)),
                          ActiveOk(filters, now)), AfterSearch(filters))
            == Select(catalog, MatchesAll(filters, now))
  {
    var priceTypes := (venue: Venue) => PassesPriceLevel(filters, venue) && PassesDealTypes(filters, venue);
    var priceTypesActive := (venue: Venue) => priceTypes(venue) && PassesActiveNow(filters, now, venue);
    SelectFuse(catalog, PriceOk(filters), DealTypesOk(filters), priceTypes);
    SelectFuse(catalog, priceTypes, ActiveOk(filters, now), priceTypesActive);
    SelectFuse(catalog, priceTypesActive, AfterSearch(filters), MatchesAll(filters, now));
  }

  // The guarded stages as stand-alone filters: a disabled stage keeps everything.

  function ActiveOk(filters: FilterState, now: Now): Venue -> bool {
    (venue: Venue) => PassesActiveNow(filters, now, venue)
  }

  function DealTypesOk(filters: FilterState): Venue -> bool {
    (venue: Venue) => PassesDealTypes(filters, venue)
  }

  function PriceOk(filters: FilterState): Venue -> bool {
    (venue: Venue) => PassesPriceLevel(filters, venue)
  }

  // ---------------------------------------------------------------------------
  // The empty filter
  // ---------------------------------------------------------------------------

  /** The filter the page starts with, and the one "Clear All Filters" sets. */
  function EmptyFilters(): (filters: FilterState)
    ensures !HasActiveFilters(filters)
    ensures filters.searchQuery == "" && filters.dealTypes == [] && filters.priceLevel == []
    ensures !filters.activeNow && filters.day == None && filters.time == None
  {
    FilterState([], [], false, None, None, "")
  }

  /** With nothing selected and no search text every venue is kept: the results are the
      catalog, reordered by distance. */
  lemma NoFilterKeepsCatalog(catalog: seq<Venue>, filters: FilterState, now: Now)
    requires !HasActiveFilters(filters) && filters.searchQuery == ""
    ensures Filtered(catalog, filters, now) == SortByDistance(catalog)
    ensures multiset(Filtered(catalog, filters, now)) == multiset(catalog)
  {
    SelectAllPass(catalog, MatchesAll(filters, now));
  }

  // ---------------------------------------------------------------------------
  // Favourites and the filter badge
  // ---------------------------------------------------------------------------

  /** `toggleFavorite(venueId)` applied to the stored list (absent before the first save). */
  function ToggleFavorite(current: Option<seq<string>>, venueId: string): (favs: seq<string>)
    ensures venueId in favs <==> venueId !in current.GetOr([])
    ensures forall id :: id in current.GetOr([]) && id != venueId ==> id in favs
    ensures forall id :: id in favs && id != venueId ==> id in current.GetOr([])
    ensures venueId !in current.GetOr([]) ==> favs == current.GetOr([]) + [venueId]
  {
    Toggle(current.GetOr([]), venueId)
  }

  /** Toggling the same venue twice restores the set of favourite ids, and the list itself
      when the venue was not a favourite. */
  lemma ToggleFavoriteTwice(current: Option<seq<string>>, venueId: string)
    ensures forall id :: (id in ToggleFavorite(Some(ToggleFavorite(current, venueId)), venueId)
                          <==> id in current.GetOr([]))
    ensures venueId !in current.GetOr([]) ==>
      ToggleFavorite(Some(ToggleFavorite(current, venueId)), venueId) == current.GetOr([])
  {
    ToggleTwice(current.GetOr([]), venueId);
  }

  /** `activeFilterCount`: one per selected deal type and price level, one for "active now";
      the badge shows when it is positive. */
  function ActiveFilterCount(filters: FilterState): (count: nat)
    ensures count == 0 <==> !HasActiveFilters(filters)
    ensures count >= |filters.dealTypes| + |filters.priceLevel|
    ensures count <= |filters.dealTypes| + |filters.priceLevel| + 1
  {
    |filters.dealTypes| + |filters.priceLevel| + (if filters.activeNow then 1 else 0)
  }

  /** Selecting a new option raises the badge count by one; clearing brings it to zero. */
  lemma ToggleMovesCountByOne(filters: FilterState, dealType: DealType, level: PriceLevel)
    ensures dealType !in filters.dealTypes ==>
      ActiveFilterCount(ToggleDealType(filters, dealType)) == ActiveFilterCount(filters) + 1
    ensures level !in filters.priceLevel ==>
      ActiveFilterCount(TogglePriceLevel(filters, level)) == ActiveFilterCount(filters) + 1
    ensures ActiveFilterCount(ClearFilters(filters)) == 0
  {
  }
}
