/** The six-venue catalog of src/lib/mock-data.ts and facts about it that follow from the
    model. The catalog stamps `lastUpdated` a whole number of hours before the moment the
    page loads, so the catalog is a function of that moment (`loadedMs`). */
module MockData {
  import opened Types
  import opened Text
  import opened Seqs
  import opened TimeUtils
  import opened VenueCard
  import opened App
  import opened QuickStats

  const Weekdays: seq<DayOfWeek> := [Monday, Tuesday, Wednesday, Thursday, Friday]

  const D1 := Deal("d1", "$5 House Cocktails", "All house cocktails and draft beers", Cocktails,
                   Some("$5"), Weekdays, TimeRange("16:00", "19:00"))
  const D2 := Deal("d2", "Half-Price Wine", "All wine by the glass", Wine,
                   Some("50% off"), Weekdays, TimeRange("16:00", "18:00"))
  const D3 := Deal("d3", "$3 Draft Beers", "Select draft beers and appetizers", Beer,
                   Some("$3"), Weekdays, TimeRange("15:00", "18:00"))
  const D4 := Deal("d4", "Taco Tuesday", "$2 tacos with drink purchase", Food,
                   Some("$2"), [Tuesday], TimeRange("15:00", "20:00"))
  const D5 := Deal("d5", "Wine Down Wednesday", "$6 select wines and small plates", Wine,
                   Some("$6"), [Wednesday], TimeRange("17:00", "20:00"))
  const D6 := Deal("d6", "All Day Happy Hour", "$4 select beers and well drinks", All,
                   Some("$4"), Weekdays, TimeRange("11:00", "19:00"))
  const D7 := Deal("d7", "Wing Wednesday", "50¢ wings with any drink", Food,
                   Some("50¢"), [Wednesday], TimeRange("16:00", "22:00"))
  const D8 := Deal("d8", "Garden Hour", "$7 craft cocktails and $5 small bites", Cocktails,
                   Some("$7"), [Tuesday, Wednesday, Thursday, Friday], TimeRange("16:00", "18:30"))
  const D9 := Deal("d9", "Bourbon Hour", "$8 select bourbons and classic cocktails", Cocktails,
                   Some("$8"), [Thursday, Friday], TimeRange("17:00", "19:00"))

  // The photo of each venue.
  const GoldenHourPhoto := "https://images.unsplash.com/photo-1514933651103-005eec06c04b?w=800&q=80"
  const BrewmastersHideawayPhoto := "https://images.unsplash.com/photo-1572116469696-31de0f17cc34?w=800&q=80"
  const SunsetLoungePhoto := "https://images.unsplash.com/photo-1566417713940-fe7c737a9ef2?w=800&q=80"
  const LocalTapPhoto := "https://images.unsplash.com/photo-1513104890138-7c749659a591?w=800&q=80"
  const VerdeGardenBarPhoto := "https://images.unsplash.com/photo-1470337458703-46ad1756a187?w=800&q=80"
  const BourbonAndBranchPhoto := "https://images.unsplash.com/photo-1509669803555-fd5dbb783b5f?w=800&q=80"

  // The six venues; each `lastUpdated` is the given number of hours before `loadedMs`,
  // ratings are in tenths of a star and distances in hundredths of a mile.

  function GoldenHour(loadedMs: int): Venue {
    Venue("1", "The Golden Hour", "123 Main St", "Downtown", 2, 45, 342,
          ["Rooftop", "Cocktails", "Outdoor"], [D1, D2],
          GoldenHourPhoto,
          Some(30), loadedMs - 2 * MsPerHour)
  }

  function BrewmastersHideaway(loadedMs: int): Venue {
    Venue("2", "Brewmaster's Hideaway", "456 Elm Ave", "Arts District", 1, 47, 523,
          ["Craft Beer", "Casual", "Games"], [D3, D4],
          BrewmastersHideawayPhoto,
          Some(70), loadedMs - 5 * MsPerHour)
  }

  function SunsetLounge(loadedMs: int): Venue {
    Venue("3", "Sunset Lounge", "789 Beach Blvd", "Waterfront", 3, 43, 287,
          ["Upscale", "Ocean View", "Live Music"], [D5],
          SunsetLoungePhoto,
          Some(120), loadedMs - 12 * MsPerHour)
  }

  function LocalTap(loadedMs: int): Venue {
    Venue("4", "The Local Tap", "321 Oak Street", "University District", 1, 46, 612,
          ["Sports Bar", "Wings", "Beer Garden"], [D6, D7],
          LocalTapPhoto,
          Some(50), loadedMs - 3 * MsPerHour)
  }

  function VerdeGardenBar(loadedMs: int): Venue {
    Venue("5", "Verde Garden Bar", "555 Park Lane", "Midtown", 2, 44, 198,
          ["Garden Patio", "Farm-to-Table", "Cocktails"], [D8],
          VerdeGardenBarPhoto,
          Some(90), loadedMs - 1 * MsPerHour)
  }

  function BourbonAndBranch(loadedMs: int): Venue {
    Venue("6", "Bourbon & Branch", "888 Whiskey Row", "Historic District", 3, 48, 456,
          ["Whiskey Bar", "Speakeasy", "Craft Cocktails"], [D9],
          BourbonAndBranchPhoto,
          Some(150), loadedMs - 8 * MsPerHour)
  }

  /** `MOCK_VENUES` for a page loaded at `loadedMs`. */
  function MockVenues(loadedMs: int): seq<Venue> {
    [GoldenHour(loadedMs), BrewmastersHideaway(loadedMs), SunsetLounge(loadedMs),
     LocalTap(loadedMs), VerdeGardenBar(loadedMs), BourbonAndBranch(loadedMs)]
  }

  function Ids(venues: seq<Venue>): seq<string> {
    seq(|venues|, i requires 0 <= i < |venues| => venues[i].id)
  }

  /** Filtering a six-element list, spelled out. */
  lemma SelectSix<T>(a: T, b: T, c: T, d: T, e: T, f: T, p: T -> bool)
    ensures Select([a, b, c, d, e, f], p)
            == (if p(a) then [a] else []) + ((if p(b) then [b] else []) + ((if p(c) then [c] else [])
               + ((if p(d) then [d] else []) + ((if p(e) then [e] else []) + (if p(f) then [f] else [])))))
  {
    var hb, hc := if p(b) then [b] else [], if p(c) then [c] else [];
    var hd, he, hf := if p(d) then [d] else [], if p(e) then [e] else [], if p(f) then [f] else [];
    assert [f][1..] == [];
    assert Select([f], p) == hf;
    assert [e, f][1..] == [f];
    assert Select([e, f], p) == he + hf;
    assert [d, e, f][1..] == [e, f];
    assert Select([d, e, f], p) == hd + (he + hf);
    assert [c, d, e, f][1..] == [d, e, f];
    assert Select([c, d, e, f], p) == hc + (hd + (he + hf));
    assert [b, c, d, e, f][1..] == [c, d, e, f];
    assert Select([b, c, d, e, f], p) == hb + (hc + (hd + (he + hf)));
    assert [a, b, c, d, e, f][1..] == [b, c, d, e, f];
  }

  /** The filter record with only wine selected. */
  function WineOnly(): FilterState {
    FilterState([Wine], [], false, None, None, "")
  }

  /** With only wine selected, a venue matches when one of its deals is a wine or
      wildcard deal. */
  lemma WineOnlyMatches(now: Now, v: Venue)
    ensures MatchesAll(WineOnly(), now)(v)
            <==> exists i :: 0 <= i < |v.deals| && v.deals[i].dealType in [Wine, All]
  {
    assert PassesSearch(WineOnly(), v);
  }

  /** Selecting only wine keeps venues 1, 3 and 4 (4 through its wildcard deal), nearest first. */
  lemma WineFilterKeepsThree(loadedMs: int, now: Now)
    ensures Ids(Filtered(MockVenues(loadedMs), WineOnly(), now)) == ["1", "4", "3"]
  {
    var v1, v2, v3 := GoldenHour(loadedMs), BrewmastersHideaway(loadedMs), SunsetLounge(loadedMs);
    var v4, v5, v6 := LocalTap(loadedMs), VerdeGardenBar(loadedMs), BourbonAndBranch(loadedMs);
    WineFilterOrder(v1, v2, v3, v4, v5, v6, now);
    assert MockVenues(loadedMs) == [v1, v2, v3, v4, v5, v6];
    IdsThree(v1, v4, v3);
  }

  /** The wine filter over six venues shaped like the catalog's. */
  lemma WineFilterOrder(v1: Venue, v2: Venue, v3: Venue, v4: Venue, v5: Venue, v6: Venue, now: Now)
    requires v1.deals == [D1, D2] && v3.deals == [D5] && v4.deals == [D6, D7]
    requires v2.deals == [D3, D4] && v5.deals == [D8] && v6.deals == [D9]
    requires DistanceKey(v1) == 30 && DistanceKey(v3) == 120 && DistanceKey(v4) == 50
    ensures Filtered([v1, v2, v3, v4, v5, v6], WineOnly(), now) == [v1, v4, v3]
  {
    WineSelect(v1, v2, v3, v4, v5, v6, now);
    SortThree(v1, v3, v4);
  }

  lemma WineSelect(v1: Venue, v2: Venue, v3: Venue, v4: Venue, v5: Venue, v6: Venue, now: Now)
    requires v1.deals == [D1, D2] && v3.deals == [D5] && v4.deals == [D6, D7]
    requires v2.deals == [D3, D4] && v5.deals == [D8] && v6.deals == [D9]
    ensures Select([v1, v2, v3, v4, v5, v6], MatchesAll(WineOnly(), now)) == [v1, v3, v4]
  {
    var p := MatchesAll(WineOnly(), now);
    WineKept(now, v1, v3, v4);
    WineDropped(now, v2, v5, v6);
    SelectSix(v1, v2, v3, v4, v5, v6, p);
  }

  /** The ids of a three-venue list; kept apart so that the catalog's literals are not in
      scope when the comprehension is unfolded. */
  lemma IdsThree(a: Venue, b: Venue, c: Venue)
    ensures Ids([a, b, c]) == [a.id, b.id, c.id]
  {
  }

  lemma WineKept(now: Now, v1: Venue, v3: Venue, v4: Venue)
    requires v1.deals == [D1, D2] && v3.deals == [D5] && v4.deals == [D6, D7]
    ensures MatchesAll(WineOnly(), now)(v1) && MatchesAll(WineOnly(), now)(v3)
    ensures MatchesAll(WineOnly(), now)(v4)
  {
    WineOnlyMatches(now, v1);
    WineOnlyMatches(now, v3);
    WineOnlyMatches(now, v4);
    assert v1.deals[1].dealType == Wine;
    assert v3.deals[0].dealType == Wine;
    assert v4.deals[0].dealType == All;
  }

  lemma WineDropped(now: Now, v2: Venue, v5: Venue, v6: Venue)
    requires v2.deals == [D3, D4] && v5.deals == [D8] && v6.deals == [D9]
    ensures !MatchesAll(WineOnly(), now)(v2) && !MatchesAll(WineOnly(), now)(v5)
    ensures !MatchesAll(WineOnly(), now)(v6)
  {
    WineOnlyMatches(now, v2);
    WineOnlyMatches(now, v5);
    WineOnlyMatches(now, v6);
  }

  /** Sorting three venues at 0.3, 1.2 and 0.5 miles. */
  lemma SortThree(a: Venue, b: Venue, c: Venue)
    requires DistanceKey(a) == 30 && DistanceKey(b) == 120 && DistanceKey(c) == 50
    ensures SortBy([a, b, c], DistanceKey) == [a, c, b]
  {
    assert [c][1..] == [];
    assert SortBy([c], DistanceKey) == [c];
    assert [c][0] == c && [c][1..] == [];
    assert InsertBy(b, [c], DistanceKey) == [c] + InsertBy(b, [], DistanceKey) == [c, b];
    assert [b, c][1..] == [c];
    assert SortBy([b, c], DistanceKey) == [c, b];
    assert InsertBy(a, [c, b], DistanceKey) == [a, c, b];
    assert [a, b, c][1..] == [b, c];
  }

  /** "$5 House Cocktails" runs on Monday at 17:30, not at 20:00, and not on Sunday. */
  lemma HouseCocktailsSchedule()
    ensures IsDealActiveNow(D1, Clock(1, 17, 30))
    ensures !IsDealActiveNow(D1, Clock(1, 20, 0))
    ensures !IsDealActiveNow(D1, Clock(0, 17, 30))
  {
    HouseCocktailsHours();
    ClockTimeNum(17, 30);
    ClockTimeNum(20, 0);
    assert CurrentDay(1) == Monday && CurrentDay(0) == Sunday;
  }

  /** The range and the days of "$5 House Cocktails". */
  lemma HouseCocktailsHours()
    ensures TimeNum(D1.timeRange.start) == 1600 && TimeNum(D1.timeRange.end) == 1900
    ensures Monday in D1.daysActive && Sunday !in D1.daysActive
  {
    assert D1.timeRange == TimeRange("16:00", "19:00");
    HHMMDigits("16:00");
    HHMMDigits("19:00");
  }

  /** The encoding of the clock reading at hours:minutes. */
  lemma ClockTimeNum(hours: int, minutes: int)
    requires 0 <= hours < 24 && 0 <= minutes < 60
    ensures TimeNum(CurrentTime(hours, minutes)) == 100 * hours + minutes
  {
    TimeNumEncodes(CurrentTime(hours, minutes));
  }

  /** A range past midnight, 22:00 to 02:00, holds 23:30 and 01:00 but not 03:00. */
  lemma LateNightRange()
    ensures IsTimeInRange("23:30", TimeRange("22:00", "02:00"))
    ensures IsTimeInRange("01:00", TimeRange("22:00", "02:00"))
    ensures !IsTimeInRange("03:00", TimeRange("22:00", "02:00"))
  {
    HHMMDigits("22:00");
    HHMMDigits("02:00");
    HHMMDigits("23:30");
    HHMMDigits("01:00");
    HHMMDigits("03:00");
  }

  /** The label of "Garden Hour"'s range. */
  lemma GardenHourTimeLabel()
    ensures FormatTimeRange(D8.timeRange) == "4PM - 6:30PM"
  {
    var range := D8.timeRange;
    assert range.start == "16:00" && range.end == "18:30";
    FourPM();
    SixThirtyPM();
    assert FormatTimeRange(range) == "4PM" + " - " + "6:30PM";
    GardenRangeText();
  }

  /** The concatenation of the two labels; kept apart so that the literal strings are
      compared without the deal's other literals in scope. */
  lemma GardenRangeText()
    ensures "4PM" + " - " + "6:30PM" == "4PM - 6:30PM"
  {
  }

  lemma FourPM()
    ensures FormatTime("16:00") == "4PM"
  {
    HHMMDigits("16:00");
    assert Hours("16:00") == 16 && Minutes("16:00") == 0;
    assert NatToString(DisplayHour(16)) == "4";
    assert Period(16) == "PM";
  }

  lemma SixThirtyPM()
    ensures FormatTime("18:30") == "6:30PM"
  {
    HHMMDigits("18:30");
    assert Hours("18:30") == 18 && Minutes("18:30") == 30;
    assert NatToString(DisplayHour(18)) == "6";
    assert NatToString(3) == "3";
    assert NatToString(30) == "30";
    assert Pad2(30) == "30";
    assert Period(18) == "PM";
  }

  /** Right after loading, the cards read 2h ago and 1h ago, and half a day later the
      Sunset Lounge card reads "yesterday". */
  lemma CatalogAges(loadedMs: int)
    ensures RelativeTime(GoldenHour(loadedMs).lastUpdated, loadedMs) == "Updated 2h ago"
    ensures RelativeTime(VerdeGardenBar(loadedMs).lastUpdated, loadedMs) == "Updated 1h ago"
    ensures RelativeTime(SunsetLounge(loadedMs).lastUpdated, loadedMs + 12 * MsPerHour)
            == "Updated yesterday"
  {
    RelativeTimeHours(GoldenHour(loadedMs).lastUpdated, loadedMs);
    RelativeTimeHours(VerdeGardenBar(loadedMs).lastUpdated, loadedMs);
    RelativeTimeYesterday(SunsetLounge(loadedMs).lastUpdated, loadedMs + 12 * MsPerHour);
  }

  /** The deal count of a six-venue list, spelled out. */
  lemma DealsInSix(a: Venue, b: Venue, c: Venue, d: Venue, e: Venue, f: Venue)
    ensures DealsIn([a, b, c, d, e, f])
            == |a.deals| + |b.deals| + |c.deals| + |d.deals| + |e.deals| + |f.deals|
  {
    assert [f][1..] == [];
    assert DealsIn([f]) == |f.deals|;
    assert [e, f][1..] == [f];
    assert DealsIn([e, f]) == |e.deals| + |f.deals|;
    assert [d, e, f][1..] == [e, f];
    assert DealsIn([d, e, f]) == |d.deals| + |e.deals| + |f.deals|;
    assert [c, d, e, f][1..] == [d, e, f];
    assert DealsIn([c, d, e, f]) == |c.deals| + |d.deals| + |e.deals| + |f.deals|;
    assert [b, c, d, e, f][1..] == [c, d, e, f];
    assert [a, b, c, d, e, f][1..] == [b, c, d, e, f];
  }

  /** Four venues rate 4.5 or more, and the catalog holds nine deals. */
  lemma CatalogCounts(loadedMs: int)
    ensures TopRatedCount(MockVenues(loadedMs)) == 4
    ensures TotalDeals(MockVenues(loadedMs)) == 9
  {
    var v1, v2, v3 := GoldenHour(loadedMs), BrewmastersHideaway(loadedMs), SunsetLounge(loadedMs);
    var v4, v5, v6 := LocalTap(loadedMs), VerdeGardenBar(loadedMs), BourbonAndBranch(loadedMs);
    DealsInSix(v1, v2, v3, v4, v5, v6);
    SelectSix(v1, v2, v3, v4, v5, v6, IsTopRated());
    assert Select(MockVenues(loadedMs), IsTopRated()) == [v1, v2, v4, v6];
  }

  /** No venue of the catalog has more than two deals, so no card shows a "+N more deals" note. */
  lemma NoMoreDealsNotes(loadedMs: int)
    ensures forall i :: 0 <= i < |MockVenues(loadedMs)| ==> MoreDealsNote(MockVenues(loadedMs)[i].deals) == None
  {
    var venues := MockVenues(loadedMs);
    assert |venues[0].deals| == 2 && |venues[1].deals| == 2 && |venues[2].deals| == 1;
    assert |venues[3].deals| == 2 && |venues[4].deals| == 1 && |venues[5].deals| == 1;
  }
}
