/** The values that src/components/VenueCard.tsx derives from a venue: the "Active Now"
    badge, the price symbol, the distance condition, the first tags and deals shown,
    the "+N more deals" note, and the age label. */
module VenueCard {
  import opened Types
  import opened Text
  import opened Seqs
  import opened TimeUtils

  /** `deal => isDealActiveNow(deal)` at a fixed moment. */
  function ActiveAt(now: Now): Deal -> bool {
    deal => IsDealActiveNow(deal, now)
  }

  /** `venue.deals.some(deal => isDealActiveNow(deal))`. */
  function HasActiveDeals(venue: Venue, now: Now): (r: bool)
    ensures r <==> exists i :: 0 <= i < |venue.deals| && IsDealActiveNow(venue.deals[i], now)
    ensures r ==> |venue.deals| > 0
  {
    Any(venue.deals, ActiveAt(now))
  }

  /** `v => v.deals.some(deal => isDealActiveNow(deal))` at a fixed moment. */
  function VenueActiveAt(now: Now): Venue -> bool {
    (venue: Venue) => HasActiveDeals(venue, now)
  }

  /** `'$'.repeat(venue.priceLevel)`. */
  function PriceSymbol(level: PriceLevel): (symbol: string)
    ensures |symbol| == level && 1 <= |symbol| <= 3
    ensures forall i :: 0 <= i < |symbol| ==> symbol[i] == '$'
  {
    Repeat('$', level)
  }

  /** JavaScript truthiness of an optional number: absent and zero are both false. */
  function IsTruthy(n: Option<int>): (r: bool)
    ensures r <==> n != None && n != Some(0)
  {
    match n
    case None => false
    case Some(x) => x != 0
  }

  /** `venue.distance && ...`: the distance is shown only when present and non-zero. */
  function DistanceShown(venue: Venue): (shown: bool)
    ensures shown <==> venue.distance.Some? && venue.distance.value != 0
  {
    IsTruthy(venue.distance)
  }

  /** What `venue.distance && (<span>• {venue.distance} mi</span>)` puts on the page: nothing
      for a missing distance; for a zero distance the expression's value is the number 0,
      which React prints as a bare "0"; otherwise the span with the distance. */
  datatype DistanceText = NoDistance | StrayZero | Miles(hundredths: int)

  function DistanceRendered(venue: Venue): (r: DistanceText)
    ensures r.NoDistance? <==> venue.distance.None?
    ensures r.StrayZero? <==> venue.distance == Some(0)
    ensures r.Miles? <==> DistanceShown(venue)
    ensures r.Miles? ==> r.hundredths == venue.distance.value
  {
    match venue.distance
    case None => NoDistance
    case Some(x) => if x == 0 then StrayZero else Miles(x)
  }

  const MaxTagsShown: nat := 3
  const MaxDealsShown: nat := 2

  /** Text after the count in the note under the deals. */
  const MoreDealsSuffix: string := " more deals"

  /** `venue.deals.length > 2 && '+' + (venue.deals.length - 2) + ' more deals'`: a note
      exactly when deals are hidden, and it reads back as the number hidden. */
  function MoreDealsNote(deals: seq<Deal>): (note: Option<string>)
    ensures note.Some? <==> |deals| > MaxDealsShown
    ensures note.Some? ==> NoteCount(note.value) == Some(|deals| - MaxDealsShown)
  {
    if |deals| > MaxDealsShown then
      var n := |deals| - MaxDealsShown;
      var note := "+" + NatToString(n) + MoreDealsSuffix;
      assert note[1..|note| - |MoreDealsSuffix|] == NatToString(n);
      assert note[|note| - |MoreDealsSuffix|..] == MoreDealsSuffix;
      ParseNatToString(n);
      Some(note)
    else None
  }

  /** The count written in a "+N more deals" note, read only when written as
      `toString` writes it (no sign, no leading zeros). */
  function NoteCount(note: string): Option<nat> {
    if |note| < 1 + |MoreDealsSuffix| || note[0] != '+'
       || note[|note| - |MoreDealsSuffix|..] != MoreDealsSuffix then None
    else
      var digits := note[1..|note| - |MoreDealsSuffix|];
      if !AllDigits(digits) || digits != NatToString(ParseDigits(digits)) then None
      else Some(ParseDigits(digits))
  }

  /** Text that does not end in the note's wording is no note. */
  lemma NoteCountNeedsSuffix(note: string)
    requires |note| < |MoreDealsSuffix| || note[|note| - |MoreDealsSuffix|..] != MoreDealsSuffix
    ensures NoteCount(note) == None
  {
  }

  /** A text that reads as a note is exactly the note printed for its count. */
  lemma NoteCountSound(note: string, n: nat)
    requires NoteCount(note) == Some(n)
    ensures note == "+" + NatToString(n) + MoreDealsSuffix
  {
    var k := |note| - |MoreDealsSuffix|;
    assert note[..1] == "+" && note[1..k] == NatToString(n) && note[k..] == MoreDealsSuffix;
    SplitThree(note, 1, k);
  }

  /** Every deal is either one of the two shown or counted in the note. */
  lemma DealsShownPlusNoted(deals: seq<Deal>)
    ensures |Take(deals, MaxDealsShown)| + (match MoreDealsNote(deals)
      case None => 0
      case Some(note) => NoteCount(note).GetOr(0)) == |deals|
  {
  }

  datatype CardDeal = CardDeal(title: string, timeLabel: string, highlighted: bool)

  datatype CardView = CardView(
    activeBadge: bool,
    favorite: bool,
    name: string,
    neighborhood: string,
    distance: DistanceText,
    priceSymbol: string,
    tags: seq<string>,
    deals: seq<CardDeal>,
    moreDeals: Option<string>,
    updated: string)

  function ShowDeal(deal: Deal, now: Now): CardDeal {
    CardDeal(deal.title, FormatTimeRange(deal.timeRange), IsDealActiveNow(deal, now))
  }

  /** The first two deals as the card lists them: title and time range, highlighted
      while active. */
  function ShowDeals(deals: seq<Deal>, now: Now): (shown: seq<CardDeal>)
    ensures |shown| == Min(MaxDealsShown, |deals|)
    ensures forall i :: 0 <= i < |shown| ==>
      && shown[i].title == deals[i].title
      && shown[i].timeLabel == FormatTimeRange(deals[i].timeRange)
      && (shown[i].highlighted <==> IsDealActiveNow(deals[i], now))
  {
    var first := Take(deals, MaxDealsShown);
    seq(|first|, i requires 0 <= i < |first| => ShowDeal(first[i], now))
  }

  /** Everything the card shows for a venue at a given moment (`nowMs` is the clock in
      milliseconds for the age label). */
  function Card(venue: Venue, isFavorite: bool, now: Now, nowMs: int): (card: CardView)
    ensures card.activeBadge <==> exists i :: 0 <= i < |venue.deals| && IsDealActiveNow(venue.deals[i], now)
    ensures card.favorite == isFavorite
    ensures |card.priceSymbol| == venue.priceLevel
    ensures forall i :: 0 <= i < |card.priceSymbol| ==> card.priceSymbol[i] == '$'
    ensures card.distance.Miles? <==> venue.distance.Some? && venue.distance.value != 0
    ensures card.distance.Miles? ==> card.distance.hundredths == venue.distance.value
    ensures card.distance.StrayZero? <==> venue.distance == Some(0)
    ensures |card.tags| == Min(MaxTagsShown, |venue.tags|) && card.tags == venue.tags[..|card.tags|]
    ensures |card.deals| == Min(MaxDealsShown, |venue.deals|)
    ensures forall i :: 0 <= i < |card.deals| ==>
      && card.deals[i].title == venue.deals[i].title
      && card.deals[i].timeLabel == FormatTimeRange(venue.deals[i].timeRange)
      && (card.deals[i].highlighted <==> IsDealActiveNow(venue.deals[i], now))
    ensures card.moreDeals == MoreDealsNote(venue.deals)
    ensures card.moreDeals.Some? <==> |venue.deals| > MaxDealsShown
    ensures card.updated == RelativeTime(venue.lastUpdated, nowMs)
  {
    var tags := Take(venue.tags, MaxTagsShown);
    assert tags == venue.tags[..|tags|];
    CardView(
      HasActiveDeals(venue, now),
      isFavorite,
      venue.name,
      venue.neighborhood,
      DistanceRendered(venue),
      PriceSymbol(venue.priceLevel),
      tags,
      ShowDeals(venue.deals, now),
      MoreDealsNote(venue.deals),
      RelativeTime(venue.lastUpdated, nowMs))
  }
}
