/** The values that the detail dialog, src/components/VenueDetail.tsx, derives from the
    selected venue: nothing without a venue; otherwise the price symbol, the distance
    condition, every tag, and for every deal its price (when given), time range, day list
    and "Active Now" badge. */
module VenueDetail {
  import opened Types
  import opened Text
  import opened TimeUtils
  import opened VenueCard

  /** `day.charAt(0).toUpperCase() + day.slice(1)` for each day, joined with ", ". */
  function DayLabel(days: seq<DayOfWeek>): (caption: string)
    ensures |days| == 0 <==> caption == ""
  {
    Join(seq(|days|, i requires 0 <= i < |days| => Capitalize(DayName(days[i]))), ", ")
  }

  /** The day whose capitalised name is s, if any. */
  function DayFromCaption(s: string): Option<DayOfWeek> {
    if s == Capitalize(DayName(Monday)) then Some(Monday)
    else if s == Capitalize(DayName(Tuesday)) then Some(Tuesday)
    else if s == Capitalize(DayName(Wednesday)) then Some(Wednesday)
    else if s == Capitalize(DayName(Thursday)) then Some(Thursday)
    else if s == Capitalize(DayName(Friday)) then Some(Friday)
    else if s == Capitalize(DayName(Saturday)) then Some(Saturday)
    else if s == Capitalize(DayName(Sunday)) then Some(Sunday)
    else None
  }

  /** Distinct days have distinct captions. */
  lemma DayCaptionInjective(d: DayOfWeek, e: DayOfWeek)
    ensures Capitalize(DayName(e)) == Capitalize(DayName(d)) ==> e == d
  {
    CapitalizeInjective(DayName(e), DayName(d));
    DayNameInjective(e, d);
  }

  lemma DayFromCaptionOfDay(d: DayOfWeek)
    ensures DayFromCaption(Capitalize(DayName(d))) == Some(d)
  {
    forall e {
      DayCaptionInjective(d, e);
    }
  }

  lemma DayCaptionHasNoComma(d: DayOfWeek)
    ensures ',' !in Capitalize(DayName(d))
  {
    var name := DayName(d);
    assert ',' !in name;
    assert Capitalize(name) == [UpperChar(name[0])] + name[1..];
  }

  /** A caption that reads as a day is that day's capitalised name. */
  lemma DayFromCaptionSound(s: string)
    ensures DayFromCaption(s).Some? ==> s == Capitalize(DayName(DayFromCaption(s).value))
  {
  }

  /** Text holding a comma is no day caption. */
  lemma CaptionWithCommaRejected(s: string)
    requires ',' in s
    ensures DayFromCaption(s) == None
  {
    if DayFromCaption(s).Some? {
      DayFromCaptionSound(s);
      DayCaptionHasNoComma(DayFromCaption(s).value);
    }
  }

  /** Text whose first comma is followed by anything but a space is no day list. */
  lemma CommaWithoutSpaceRejected(first: string, x: char, rest: string)
    requires ',' !in first && x != ' '
    ensures ParseDayLabel(first + [',', x] + rest) == None
  {
    var s := first + [',', x] + rest;
    SplitOtherSeparator(first, x, rest);
    assert s[|first|] == ',';
    CaptionWithCommaRejected(s);
    assert [s][1..] == [];
  }

  /** The separator must be exactly ", ": day captions joined by a comma and any other
      character are not read back as days. */
  lemma OtherSeparatorRejected(d: DayOfWeek, x: char, rest: string)
    requires x != ' '
    ensures ParseDayLabel(Capitalize(DayName(d)) + [',', x] + rest) == None
  {
    DayCaptionHasNoComma(d);
    CommaWithoutSpaceRejected(Capitalize(DayName(d)), x, rest);
  }

  /** Reads each part of a day list back. */
  function DaysFromCaptions(parts: seq<string>): Option<seq<DayOfWeek>>
    decreases |parts|
  {
    if parts == [] then Some([])
    else match (DayFromCaption(parts[0]), DaysFromCaptions(parts[1..]))
      case (Some(d), Some(rest)) => Some([d] + rest)
      case _ => None
  }

  /** Reads a day label back into the list of days it shows. */
  function ParseDayLabel(caption: string): Option<seq<DayOfWeek>> {
    if caption == "" then Some([]) else DaysFromCaptions(SplitList(caption))
  }

  lemma {:induction false} DaysFromCaptionsOfDays(days: seq<DayOfWeek>)
    ensures DaysFromCaptions(seq(|days|, i requires 0 <= i < |days| => Capitalize(DayName(days[i]))))
            == Some(days)
    decreases |days|
  {
    if days != [] {
      var names := seq(|days|, i requires 0 <= i < |days| => Capitalize(DayName(days[i])));
      var tail := seq(|days| - 1, i requires 0 <= i < |days| - 1 => Capitalize(DayName(days[1..][i])));
      assert names[1..] == tail;
      DaysFromCaptionsOfDays(days[1..]);
      DayFromCaptionOfDay(days[0]);
      assert days == [days[0]] + days[1..];
    }
  }

  /** The day label shows every active day, in order: it can be read back exactly. */
  lemma DayLabelRoundTrip(days: seq<DayOfWeek>)
    ensures ParseDayLabel(DayLabel(days)) == Some(days)
  {
    if days != [] {
      var names := seq(|days|, i requires 0 <= i < |days| => Capitalize(DayName(days[i])));
      forall k | 0 <= k < |names| ensures ',' !in names[k] {
        DayCaptionHasNoComma(days[k]);
      }
      SplitJoin(names);
      DaysFromCaptionsOfDays(days);
    }
  }

  /** `deal.price && ...`: a price is shown when present and not the empty string. */
  function PriceShown(price: Option<string>): (shown: Option<string>)
    ensures shown.Some? <==> price.Some? && price.value != ""
    ensures shown.Some? ==> shown == price
  {
    match price
    case Some(p) => if p == "" then None else Some(p)
    case None => None
  }

  datatype DetailDeal = DetailDeal(
    dealType: DealType,
    title: string,
    description: string,
    price: Option<string>,
    timeLabel: string,
    dayLabel: string,
    active: bool)

  datatype DetailView = DetailView(
    name: string,
    image: string,
    rating: int,
    reviewCount: int,
    priceSymbol: string,
    address: string,
    neighborhood: string,
    distance: DistanceText,
    tags: seq<string>,
    deals: seq<DetailDeal>,
    updated: string)

  function ShowDeal(deal: Deal, now: Now): DetailDeal {
    DetailDeal(deal.dealType, deal.title, deal.description, PriceShown(deal.price),
               FormatTimeRange(deal.timeRange), DayLabel(deal.daysActive),
               IsDealActiveNow(deal, now))
  }

  /** `venue.deals.map(...)`: every deal, in order. */
  function ShowDeals(deals: seq<Deal>, now: Now): (shown: seq<DetailDeal>)
    ensures |shown| == |deals|
    ensures forall i :: 0 <= i < |shown| ==>
      && shown[i].title == deals[i].title
      && shown[i].description == deals[i].description
      && (shown[i].price.Some? <==> deals[i].price.Some? && deals[i].price.value != "")
      && shown[i].price == PriceShown(deals[i].price)
      && shown[i].timeLabel == FormatTimeRange(deals[i].timeRange)
      && ParseDayLabel(shown[i].dayLabel) == Some(deals[i].daysActive)
      && (shown[i].active <==> IsDealActiveNow(deals[i], now))
  {
    var shown := seq(|deals|, i requires 0 <= i < |deals| => ShowDeal(deals[i], now));
    assert forall i :: 0 <= i < |shown| ==> ParseDayLabel(shown[i].dayLabel) == Some(deals[i].daysActive) by {
      forall i | 0 <= i < |shown| {
        DayLabelRoundTrip(deals[i].daysActive);
      }
    }
    shown
  }

  /** The dialog for the selected venue, if there is one (`nowMs` is the clock in
      milliseconds for the age label). */
  function Detail(venue: Option<Venue>, now: Now, nowMs: int): (view: Option<DetailView>)
    ensures view.None? <==> venue.None?
    ensures venue.Some? ==>
      var v := venue.value;
      var d := view.value;
      && d.name == v.name && d.address == v.address && d.neighborhood == v.neighborhood
      && |d.priceSymbol| == v.priceLevel
      && (forall i :: 0 <= i < |d.priceSymbol| ==> d.priceSymbol[i] == '$')
      && (d.distance.Miles? <==> v.distance.Some? && v.distance.value != 0)
      && (d.distance.Miles? ==> d.distance.hundredths == v.distance.value)
      && (d.distance.StrayZero? <==> v.distance == Some(0))
      && d.tags == v.tags
      && |d.deals| == |v.deals|
      && (forall i :: 0 <= i < |d.deals| ==>
            && d.deals[i].title == v.deals[i].title
            && d.deals[i].description == v.deals[i].description
            && (d.deals[i].price.Some? <==> v.deals[i].price.Some? && v.deals[i].price.value != "")
            && d.deals[i].price == PriceShown(v.deals[i].price)
            && d.deals[i].timeLabel == FormatTimeRange(v.deals[i].timeRange)
            && ParseDayLabel(d.deals[i].dayLabel) == Some(v.deals[i].daysActive)
            && (d.deals[i].active <==> IsDealActiveNow(v.deals[i], now)))
      && d.updated == RelativeTime(v.lastUpdated, nowMs)
  {
    match venue
    case None => None
    case Some(v) =>
      var deals := ShowDeals(v.deals, now);
      var distance := DistanceRendered(v);
      assert distance.Miles? <==> v.distance.Some? && v.distance.value != 0;
      var d := DetailView(v.name, v.image, v.rating, v.reviewCount, PriceSymbol(v.priceLevel),
                          v.address, v.neighborhood, distance, v.tags, deals,
                          RelativeTime(v.lastUpdated, nowMs));
      assert d.distance == distance && d.deals == deals;
      Some(d)
  }
}
