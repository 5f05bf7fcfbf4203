/** The filter edits of src/components/FilterPanel.tsx. Each edit takes the current
    filter record and returns the record the panel hands to `onFiltersChange`. */
module FilterPanel {
  import opened Types
  import opened Seqs

  /** The deal types offered as buttons: every type but the wildcard. */
  function DealTypeOptions(): (options: seq<DealType>)
    ensures All !in options
    ensures Beer in options && Wine in options && Cocktails in options && Food in options
    ensures |options| == 4
  {
    [Beer, Wine, Cocktails, Food]
  }

  /** The price levels offered as buttons: exactly 1, 2 and 3. */
  function PriceLevelOptions(): (options: seq<PriceLevel>)
    ensures forall level: PriceLevel :: level in options
    ensures |options| == 3
  {
    [1, 2, 3]
  }

  /** `toggleDealType(type)`. */
  function ToggleDealType(filters: FilterState, dealType: DealType): (r: FilterState)
    ensures dealType in r.dealTypes <==> dealType !in filters.dealTypes
    ensures forall t :: t in filters.dealTypes && t != dealType ==> t in r.dealTypes
    ensures forall t :: t in r.dealTypes && t != dealType ==> t in filters.dealTypes
    ensures dealType !in filters.dealTypes ==> r.dealTypes == filters.dealTypes + [dealType]
    ensures r.priceLevel == filters.priceLevel && r.activeNow == filters.activeNow
    ensures r.searchQuery == filters.searchQuery && r.day == filters.day && r.time == filters.time
  {
    filters.(dealTypes := Toggle(filters.dealTypes, dealType))
  }

  /** `togglePriceLevel(level)`. */
  function TogglePriceLevel(filters: FilterState, level: PriceLevel): (r: FilterState)
    ensures level in r.priceLevel <==> level !in filters.priceLevel
    ensures forall l :: l in filters.priceLevel && l != level ==> l in r.priceLevel
    ensures forall l :: l in r.priceLevel && l != level ==> l in filters.priceLevel
    ensures level !in filters.priceLevel ==> r.priceLevel == filters.priceLevel + [level]
    ensures r.dealTypes == filters.dealTypes && r.activeNow == filters.activeNow
    ensures r.searchQuery == filters.searchQuery && r.day == filters.day && r.time == filters.time
  {
    filters.(priceLevel := Toggle(filters.priceLevel, level))
  }

  /** Pressing a deal-type or price button twice restores which options are selected,
      and restores the whole record when the option was not selected at first. */
  lemma ToggleTwiceRestores(filters: FilterState, dealType: DealType, level: PriceLevel)
    ensures forall t :: (t in ToggleDealType(ToggleDealType(filters, dealType), dealType).dealTypes
                         <==> t in filters.dealTypes)
    ensures dealType !in filters.dealTypes ==>
      ToggleDealType(ToggleDealType(filters, dealType), dealType) == filters
    ensures forall l :: (l in TogglePriceLevel(TogglePriceLevel(filters, level), level).priceLevel
                         <==> l in filters.priceLevel)
    ensures level !in filters.priceLevel ==>
      TogglePriceLevel(TogglePriceLevel(filters, level), level) == filters
  {
    ToggleTwice(filters.dealTypes, dealType);
    ToggleTwice(filters.priceLevel, level);
  }

  /** `hasActiveFilters`: some deal type or price level is selected, or "active now" is
      on; the search text plays no part. */
  predicate HasActiveFilters(filters: FilterState) {
    |filters.dealTypes| > 0 || |filters.priceLevel| > 0 || filters.activeNow
  }

  /** `clearFilters()`: the object literal keeps only the search text, so `day` and
      `time` are dropped too. */
  function ClearFilters(filters: FilterState): (r: FilterState)
    ensures !HasActiveFilters(r)
    ensures r.searchQuery == filters.searchQuery
    ensures r.dealTypes == [] && r.priceLevel == [] && !r.activeNow
    ensures r.day == None && r.time == None
  {
    FilterState([], [], false, None, None, filters.searchQuery)
  }

  /** Clearing twice is clearing once, and selecting any option makes the filters active. */
  lemma ClearAndToggleActivity(filters: FilterState, dealType: DealType, level: PriceLevel)
    ensures ClearFilters(ClearFilters(filters)) == ClearFilters(filters)
    ensures dealType !in filters.dealTypes ==> HasActiveFilters(ToggleDealType(filters, dealType))
    ensures level !in filters.priceLevel ==> HasActiveFilters(TogglePriceLevel(filters, level))
  {
  }
}
