/** The records of src/lib/types.ts. String unions become closed datatypes; the
    numeric fields that the source keeps as floating point are scaled integers. */
module Types {
  import opened Text

  datatype Option<T> = None | Some(value: T) {
    /** `x || fallback` for a field that may be undefined. */
    function GetOr(fallback: T): T {
      match this
      case Some(v) => v
      case None => fallback
    }
  }

  /** `'beer' | 'wine' | 'cocktails' | 'food' | 'all'`; `All` is the wildcard deal type. */
  datatype DealType = Beer | Wine | Cocktails | Food | All

  /** `1 | 2 | 3`. */
  type PriceLevel = x: int | 1 <= x <= 3 witness 1

  datatype DayOfWeek = Monday | Tuesday | Wednesday | Thursday | Friday | Saturday | Sunday

  /** The string value the source stores for a day. */
  function DayName(d: DayOfWeek): string {
    match d
    case Monday => "monday"
    case Tuesday => "tuesday"
    case Wednesday => "wednesday"
    case Thursday => "thursday"
    case Friday => "friday"
    case Saturday => "saturday"
    case Sunday => "sunday"
  }

  /** A zero-padded 24-hour `HH:MM` string: hours 00..23, minutes 00..59. */
  predicate IsHHMM(s: string) {
    && |s| == 5
    && IsDigit(s[0]) && IsDigit(s[1]) && s[2] == ':' && IsDigit(s[3]) && IsDigit(s[4])
    && 10 * DigitValue(s[0]) + DigitValue(s[1]) <= 23
    && 10 * DigitValue(s[3]) + DigitValue(s[4]) <= 59
  }

  type HHMM = s: string | IsHHMM(s) witness "00:00"

  /** `{ start, end }`; when end is earlier than start the range runs past midnight. */
  datatype TimeRange = TimeRange(start: HHMM, end: HHMM)

  datatype Deal = Deal(
    id: string,
    title: string,
    description: string,
    dealType: DealType,
    price: Option<string>,
    daysActive: seq<DayOfWeek>,
    timeRange: TimeRange)

  /** `rating` is in tenths of a star, `distance` in hundredths of a mile and
      `lastUpdated` in milliseconds since the epoch. */
  datatype Venue = Venue(
    id: string,
    name: string,
    address: string,
    neighborhood: string,
    priceLevel: PriceLevel,
    rating: int,
    reviewCount: int,
    tags: seq<string>,
    deals: seq<Deal>,
    image: string,
    distance: Option<int>,
    lastUpdated: int)

  datatype FilterState = FilterState(
    dealTypes: seq<DealType>,
    priceLevel: seq<PriceLevel>,
    activeNow: bool,
    day: Option<DayOfWeek>,
    time: Option<string>,
    searchQuery: string)

  /** Distinct days are stored as distinct strings. */
  lemma DayNameInjective(a: DayOfWeek, b: DayOfWeek)
    ensures DayName(a) == DayName(b) ==> a == b
  {
  }
}
