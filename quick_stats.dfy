/** The three counts at the top of the page, src/components/QuickStats.tsx. */
module QuickStats {
  import opened Types
  import opened Seqs
  import opened TimeUtils
  import opened VenueCard

  /** `venues.filter(v => v.deals.some(deal => isDealActiveNow(deal))).length`. */
  function ActiveDealsCount(venues: seq<Venue>, now: Now): (count: nat)
    ensures count <= |venues|
    ensures count == 0 <==> forall i :: 0 <= i < |venues| ==> !HasActiveDeals(venues[i], now)
    ensures count == |venues| <==> forall i :: 0 <= i < |venues| ==> HasActiveDeals(venues[i], now)
  {
    SelectKeepsNone(venues, VenueActiveAt(now));
    SelectKeepsAll(venues, VenueActiveAt(now));
    |Select(venues, VenueActiveAt(now))|
  }

  /** The number of deals over a list of venues, summed from the right. */
  function DealsIn(venues: seq<Venue>): nat
    decreases |venues|
  {
    if venues == [] then 0 else |venues[0].deals| + DealsIn(venues[1..])
  }

  /** `venues.reduce((acc, v) => acc + v.deals.length, acc)`: the left fold. */
  function FoldDeals(acc: int, venues: seq<Venue>): int
    decreases |venues|
  {
    if venues == [] then acc else FoldDeals(acc + |venues[0].deals|, venues[1..])
  }

  /** The left fold adds the deal count to its starting value. */
  lemma {:induction false} FoldDealsSum(acc: int, venues: seq<Venue>)
    ensures FoldDeals(acc, venues) == acc + DealsIn(venues)
    decreases |venues|
  {
    if venues != [] {
      FoldDealsSum(acc + |venues[0].deals|, venues[1..]);
    }
  }

  /** `totalDeals`: the reduce starting from 0, which is the sum of the deal-list lengths. */
  function TotalDeals(venues: seq<Venue>): (total: nat)
    ensures total == DealsIn(venues)
  {
    FoldDealsSum(0, venues);
    FoldDeals(0, venues)
  }

  /** The total over a concatenation is the sum of the totals. */
  lemma {:induction false} TotalDealsAppend(a: seq<Venue>, b: seq<Venue>)
    ensures TotalDeals(a + b) == TotalDeals(a) + TotalDeals(b)
    decreases |a|
  {
    if a == [] {
      assert a + b == b;
    } else {
      assert (a + b)[1..] == a[1..] + b;
      TotalDealsAppend(a[1..], b);
    }
  }

  /** Each venue counted as active brings at least one deal to the total. */
  lemma {:induction false} ActiveAtMostTotal(venues: seq<Venue>, now: Now)
    ensures ActiveDealsCount(venues, now) <= TotalDeals(venues)
    decreases |venues|
  {
    if venues != [] {
      ActiveAtMostTotal(venues[1..], now);
      assert venues == [venues[0]] + venues[1..];
      SelectCons(venues[0], venues[1..], VenueActiveAt(now));
    }
  }

  /** A rating of 4.5 stars, in tenths. */
  const TopRating: int := 45

  function IsTopRated(): Venue -> bool {
    (venue: Venue) => venue.rating >= TopRating
  }

  /** `venues.filter(v => v.rating >= 4.5).length`. */
  function TopRatedCount(venues: seq<Venue>): (count: nat)
    ensures count <= |venues|
    ensures count == 0 <==> forall i :: 0 <= i < |venues| ==> venues[i].rating < TopRating
    ensures count == |venues| <==> forall i :: 0 <= i < |venues| ==> venues[i].rating >= TopRating
  {
    SelectKeepsNone(venues, IsTopRated());
    SelectKeepsAll(venues, IsTopRated());
    |Select(venues, IsTopRated())|
  }

  datatype Stat = Stat(caption: string, value: nat)

  /** `stats`: the three tiles, in the order shown. */
  function Stats(venues: seq<Venue>, now: Now): (stats: seq<Stat>)
    ensures |stats| == 3
    ensures stats[0].caption == "Active Now" && stats[1].caption == "Total Deals"
            && stats[2].caption == "Top Rated"
    ensures stats[0].value == ActiveDealsCount(venues, now)
    ensures stats[1].value == DealsIn(venues)
    ensures stats[2].value == TopRatedCount(venues)
    ensures stats[0].value <= stats[1].value && stats[0].value <= |venues|
    ensures stats[2].value <= |venues|
  {
    ActiveAtMostTotal(venues, now);
    [ Stat("Active Now", ActiveDealsCount(venues, now)),
      Stat("Total Deals", TotalDeals(venues)),
      Stat("Top Rated", TopRatedCount(venues)) ]
  }
}
