# Happy-hour finder: catalog logic in Dafny

This project models the logic behind a single-page happy-hour finder.
The page shows a fixed catalog of venues, each with its deals, and lets the visitor do four things:

- search the catalog by text;
- filter it by "active now", deal type and price level;
- sort it by distance;
- mark venues as favourites.

The model covers:

- the record types;
- the time utilities: the current day and time, membership of a time in a time range that may run past midnight, deal activity, the time label and the age label;
- the filter pipeline behind the result list;
- the favourites toggle;
- the filter-count badge;
- the filter panel's edits;
- the three summary counts;
- the values the venue card and the detail dialog derive from a venue;
- the six-venue sample catalog, used for concrete facts.

The model has one module per source file:

| module | source file |
|---|---|
| `Types` | `types.ts` |
| `TimeUtils` | `time-utils.ts` |
| `App` | `App.tsx` |
| `FilterPanel` | `FilterPanel.tsx` |
| `QuickStats` | `QuickStats.tsx` |
| `VenueCard` | `VenueCard.tsx` |
| `VenueDetail` | `VenueDetail.tsx` |
| `MockData` | `mock-data.ts` |

Two helper modules support them:

- `Text`: digits, zero padding, ASCII case, substring search, join and split.
- `Seqs`: filtering a list, the toggle of a list member, prefixes, and a stable insertion sort.

Apart from the React state hooks, the only thing the source updates in place is the copied result array, which `results.sort(...)` sorts where it lies; the model sorts a value instead (see "## Left out").
Every filter edit and every favourites toggle builds a new value, so the rest of the model is written with datatypes, functions and lemmas.
The one exception is `App.FilteredVenues`. The source computes the result list by reassigning a local variable one stage at a time, so that part is a method with the same sequence of guarded steps. The method is proved equal to the function `App.Filtered`, which filters by one conjunction and then sorts.

How the model represents things the source does at run time:

- **The clock.** The clock is never read. Each operation that reads `new Date()` in the source takes the moment as a parameter:
  - a `Now` value (day index, hours, minutes) for deal activity;
  - milliseconds for the age label.
- **Time strings.** Times are zero-padded `HH:MM` strings, restricted by the subset type `HHMM`.
- **Rating.** Kept in tenths of a star, so 4.5 is 45.
- **Distance.** Kept in hundredths of a mile.
- **Last update.** Kept in milliseconds since the epoch.
- **The sample catalog.** Its timestamps are "N hours before page load", so the catalog is written as a function of the load moment.

Three things in the code are less strict than a plain description of the app would suggest. The model follows the code in each case:

- **Selections are lists, not sets.** The selected deal types, the selected price levels and the favourites are arrays in the code. Toggling an option that is not selected appends it; toggling one that is selected removes every copy. The contracts are stated for lists, with membership where a set is meant.
- **Day and time are dropped in two places.** The filter record also has optional `day` and `time` fields. The initial filter value and the "Clear All Filters" value leave them out. The panel's `clearFilters` builds a fresh object without them, so it drops them too, while the two toggles keep them.
- **A zero distance prints "0".** The card and the dialog guard the distance with `venue.distance && …`. For a distance of 0 the guard's value is the number 0, and React prints it as a bare "0" without the unit. `VenueCard.DistanceRendered` models the three outcomes, and the card and dialog views carry it. No venue of the sample catalog is at distance 0.

## Model

| member | source | states |
|---|---|---|
| `Types.DayNameInjective` | src/lib/types.ts:3 | distinct days are stored as distinct day strings |
| `TimeUtils.CurrentDay` | src/lib/time-utils.ts:3-6 | the day looked up for a `getDay()` index 0..6 is the day with that index (0 is Sunday) |
| `TimeUtils.CurrentDayOfIndex` | src/lib/time-utils.ts:3-6 | every day's index lies in 0..6, and looking the index up gives the day back |
| `TimeUtils.CurrentTime` | src/lib/time-utils.ts:8-11 | the padded `HH:MM` string built from hours 0..23 and minutes 0..59 is a valid time whose hours and minutes fields read back as the inputs |
| `TimeUtils.HHMMFields` | src/lib/time-utils.ts:14-16 | the hours of a valid time lie in 0..23 and its minutes in 0..59 |
| `TimeUtils.TimeNum` | src/lib/time-utils.ts:14-16 | `parseInt(time.replace(':', ''))`; specified by `TimeUtils.TimeNumEncodes`, `TimeUtils.HHMMDigits` and `TimeUtils.EncodingOrder`: the number 100 × hours + minutes, ordered like the times |
| `TimeUtils.TimeNumEncodes` | src/lib/time-utils.ts:14-16 | dropping the colon and parsing the digits gives 100 × hours + minutes |
| `TimeUtils.HHMMDigits` | src/lib/time-utils.ts:14-16 | hours, minutes and the colon-less number, read digit by digit |
| `TimeUtils.EncodingOrder` | src/lib/time-utils.ts:14-22 | the HH*100+MM numbers order valid times exactly as minutes since midnight do, and two times have equal numbers only when they are the same time |
| `TimeUtils.IsTimeInRange` | src/lib/time-utils.ts:13-23 | the range test on the encodings; specified by `TimeUtils.TimeInRangeByMinutes` and `TimeUtils.TimeInRangeOnClock`, which give its meaning in true minutes and on the clock face |
| `TimeUtils.TimeInRangeByMinutes` | src/lib/time-utils.ts:13-23 | when the range does not run past midnight, a time is in it iff start ≤ time ≤ end in true minutes, both ends included; when the range's end comes before its start, iff time ≥ start or time ≤ end |
| `TimeUtils.TimeInRangeOnClock` | src/lib/time-utils.ts:13-23 | a time is in a range iff walking forward round the clock from the start reaches the time no later than the end |
| `TimeUtils.ForwardDistance` | src/lib/time-utils.ts:18-22 | the minutes from one time of day forward to another, with and without passing midnight |
| `TimeUtils.IsDealActiveNow` | src/lib/time-utils.ts:25-30 | today listed among the deal's days and the current time in its range; specified by `TimeUtils.DealActiveIff` |
| `TimeUtils.DealActiveIff` | src/lib/time-utils.ts:25-30 | a deal is active iff one of its days has today's `getDay()` index and the current minute lies within its range walking forward from the start; so it is never active on a day it does not list |
| `TimeUtils.DisplayHour` | src/lib/time-utils.ts:35 | the dial hour lies in 1..12 and agrees with the hour modulo 12 |
| `TimeUtils.DialRoundTrip` | src/lib/time-utils.ts:34-35 | the dial hour together with AM/PM determines the hour of the day 0..23 |
| `TimeUtils.FormatTime` | src/lib/time-utils.ts:32-37 | the label starts with the dial hour `DisplayHour(hours)` in digits (12 for midnight and noon), ends in the period (PM from 12:00), has a colon iff the minutes are non-zero, has no space, and is at least three characters long |
| `TimeUtils.ParseRejectsOtherForms` | src/lib/time-utils.ts:35-36 | three examples of text that is not printed and is not read: a dial hour of 0 ("0AM"), a leading zero ("012PM") and ":00" minutes ("5:00PM") |
| `TimeUtils.DialShows` | src/lib/time-utils.ts:34-35 | every dial hour 1..12 with AM or PM stands for an hour 0..23 that is shown as that dial hour and that period |
| `TimeUtils.LabelOfTime` | src/lib/time-utils.ts:32-37 | the label of a time is its dial hour, then ":" and two minute digits when the minutes are not zero, then AM/PM |
| `TimeUtils.ParseTimeLabelSound` | src/lib/time-utils.ts:32-37 | for every text: if it reads as hours and minutes, those are a time of day and the text is exactly the label printed for it, so only the printed form is accepted |
| `TimeUtils.FormatTimeRoundTrip` | src/lib/time-utils.ts:32-37 | the label loses nothing: parsing it back, with a parser that accepts only dial hours 1..12 without leading zeros and minutes 1..59 after a colon, gives the hours and minutes it was made from |
| `TimeUtils.ParseJoinedLabels` | src/lib/time-utils.ts:39-41 | a caption made of two labels joined by " - " splits back at its first space into those two labels |
| `TimeUtils.FormatTimeRange` | src/lib/time-utils.ts:39-41 | the two labels joined by " - "; specified by `TimeUtils.ParseJoinedLabels`, `TimeUtils.RangeOtherSeparatorRejected`, `TimeUtils.ParseTimeRangeLabelSound` and `TimeUtils.FormatTimeRangeRoundTrip` |
| `TimeUtils.RangeOtherSeparatorRejected` | src/lib/time-utils.ts:40 | text whose first space starts any three characters other than " - " is not read as a range caption |
| `TimeUtils.RangeLabelParts` | src/lib/time-utils.ts:40 | text that reads as a range is a label, " - " and a label, which read as its two ends |
| `TimeUtils.ParseTimeRangeLabelSound` | src/lib/time-utils.ts:39-41 | for every text: if it reads as a range, both ends are times of day and the text is exactly the two printed labels joined by " - " |
| `TimeUtils.FormatTimeRangeRoundTrip` | src/lib/time-utils.ts:39-41 | the range caption determines the hours and minutes of both ends |
| `TimeUtils.RelativeTime` | src/lib/time-utils.ts:43-54 | the age label; specified by `TimeUtils.RelativeTimeJustUpdated`, `TimeUtils.RelativeTimeHours`, `TimeUtils.RelativeTimeYesterday` and `TimeUtils.RelativeTimeDays`, which cover every age |
| `TimeUtils.FloorHoursThenDays` | src/lib/time-utils.ts:47-48 | flooring the age to whole hours and then to whole days is flooring it to whole days |
| `TimeUtils.CountedLabelDistinct` | src/lib/time-utils.ts:51-53 | an "Updated N…" label never equals "Updated yesterday" or "Just updated" |
| `TimeUtils.RelativeTimeJustUpdated` | src/lib/time-utils.ts:43-54 | the label is "Just updated" iff the age is under one hour, which includes a timestamp in the future |
| `TimeUtils.RelativeTimeHours` | src/lib/time-utils.ts:43-54 | from one hour to under a day old, the label counts whole hours, 1 to 23 |
| `TimeUtils.RelativeTimeYesterday` | src/lib/time-utils.ts:43-54 | the label is "Updated yesterday" iff the age is at least one day and under two days |
| `TimeUtils.RelativeTimeDays` | src/lib/time-utils.ts:43-54 | from two days on, the label counts whole days, at least 2 |
| `App.PassesSearch` | src/App.tsx:30-37 | with an empty query every venue passes; otherwise a venue passes iff the lowercased query occurs in its lowercased name, its lowercased neighbourhood or one of its lowercased tags |
| `App.PassesActiveNow` | src/App.tsx:39-43 | with the switch off every venue passes; otherwise a venue passes iff one of its deals is active |
| `App.PassesDealTypes` | src/App.tsx:45-51 | with no type selected every venue passes; otherwise a venue passes iff one of its deals has a selected type or the wildcard type; a venue with a wildcard deal always passes |
| `App.PassesPriceLevel` | src/App.tsx:53-57 | with no level selected every venue passes; otherwise a venue passes iff its level is selected |
| `App.GuardedStage` | src/App.tsx:30-57 | a stage that runs only under its guard, applied after an earlier filter, is one filter by the conjunction, whether or not the guard holds |
| `App.SortByDistance` | src/App.tsx:59 | the result is ordered by distance, with a missing distance counted as 0; it is a permutation of its input; venues at the same distance keep their relative order |
| `App.SameElements` | src/App.tsx:59 | sorting does not change which venues are present |
| `App.Filtered` | src/App.tsx:27-60 | the result is ordered by distance, holds exactly the catalog venues that pass all four stages, and holds none of them more often than the catalog |
| `App.FilteredMultiplicity` | src/App.tsx:27-60 | each matching venue appears as often as in the catalog, every other venue not at all |
| `App.FilteredVenues` | src/App.tsx:27-60 | copying the catalog and narrowing it stage by stage, each stage under its guard, then sorting, computes the same list as `App.Filtered`, with the same ordering, membership and multiplicity guarantees |
| `App.StagesCommute` | src/App.tsx:30-57 | running the four stages in the reverse order keeps the same venues in the same order |
| `App.EmptyFilters` | src/App.tsx:20-25 | the initial filter value, which "Clear All Filters" also sets, has an empty query and empty selections, the switch off, no day or time, and no active filter |
| `App.NoFilterKeepsCatalog` | src/App.tsx:27-60 | with no selection, the switch off and no query, the result is the whole catalog sorted by distance, a permutation of it |
| `App.ToggleFavorite` | src/App.tsx:62-70 | the venue becomes a favourite iff it was not one before (a missing list counts as empty); every other id keeps its status; a new favourite is appended at the end |
| `App.ToggleFavoriteTwice` | src/App.tsx:62-70 | toggling a venue twice restores the set of favourite ids, and the exact list when the venue was not a favourite |
| `App.ActiveFilterCount` | src/App.tsx:72-75 | the count is zero iff no filter is active; it is the number of selections, plus at most one for the switch |
| `App.ToggleMovesCountByOne` | src/App.tsx:72-75 | selecting an unselected type or level raises the count by exactly one; clearing brings it to zero |
| `FilterPanel.DealTypeOptions` | src/components/FilterPanel.tsx:24-29 | the panel offers exactly the four concrete deal types and never the wildcard |
| `FilterPanel.PriceLevelOptions` | src/components/FilterPanel.tsx:31 | the panel offers every price level, 1, 2 and 3 |
| `FilterPanel.ToggleDealType` | src/components/FilterPanel.tsx:33-38 | the type becomes selected iff it was not selected; other types keep their status; a new type is appended; every other field is unchanged |
| `FilterPanel.TogglePriceLevel` | src/components/FilterPanel.tsx:40-45 | the level becomes selected iff it was not selected; other levels keep their status; a new level is appended; every other field is unchanged |
| `FilterPanel.ToggleTwiceRestores` | src/components/FilterPanel.tsx:33-45 | pressing an option twice restores which options are selected, and the whole record when the option was not selected at first |
| `FilterPanel.HasActiveFilters` | src/components/FilterPanel.tsx:47-50 | a type or level is selected or the switch is on; tied to `App.ActiveFilterCount` (zero iff not active) and to `FilterPanel.ClearFilters` and `FilterPanel.ClearAndToggleActivity` |
| `FilterPanel.ClearFilters` | src/components/FilterPanel.tsx:52-59 | clearing keeps the search text, empties both selections, turns the switch off, drops day and time, and leaves no active filter |
| `FilterPanel.ClearAndToggleActivity` | src/components/FilterPanel.tsx:47-59 | clearing twice is clearing once, and selecting any option makes the filters active |
| `QuickStats.ActiveDealsCount` | src/components/QuickStats.tsx:11-13 | the count is at most the number of venues; it is zero iff no venue has an active deal, and all of them iff every venue has one |
| `QuickStats.FoldDealsSum` | src/components/QuickStats.tsx:15 | the left fold adds the total number of deals to its starting value |
| `QuickStats.TotalDeals` | src/components/QuickStats.tsx:15 | the reduce from 0 equals the sum of the deal-list lengths |
| `QuickStats.TotalDealsAppend` | src/components/QuickStats.tsx:15 | the total over two joined lists is the sum of their totals |
| `QuickStats.ActiveAtMostTotal` | src/components/QuickStats.tsx:11-15 | the active-venue count never exceeds the total number of deals |
| `QuickStats.TopRatedCount` | src/components/QuickStats.tsx:17 | the count is at most the number of venues; it is zero iff every rating is under 4.5, and all of them iff every rating is at least 4.5 |
| `QuickStats.Stats` | src/components/QuickStats.tsx:19-41 | three tiles in the order Active Now, Total Deals, Top Rated, carrying the three counts; the first is at most the second, and the first and the third are at most the number of venues |
| `VenueCard.HasActiveDeals` | src/components/VenueCard.tsx:17 | the badge shows iff some deal of the venue is active, which needs at least one deal |
| `VenueCard.PriceSymbol` | src/components/VenueCard.tsx:18 | as many `$` signs as the price level, between one and three |
| `VenueCard.IsTruthy` | src/components/VenueCard.tsx:66 | an optional number counts as true iff it is present and non-zero |
| `VenueCard.DistanceShown` | src/components/VenueCard.tsx:66-68 | the distance span shows iff the distance is present and non-zero |
| `VenueCard.DistanceRendered` | src/components/VenueCard.tsx:66-68 | what the guard puts on the page: nothing iff the distance is missing, a bare "0" (the falsy number itself, without the unit) iff it is zero, and the span with the distance iff the span guard holds |
| `VenueCard.MoreDealsNote` | src/components/VenueCard.tsx:103-107 | the note is there iff the venue has more than two deals, and it reads back as the number of deals beyond the first two |
| `VenueCard.DealsShownPlusNoted` | src/components/VenueCard.tsx:89-107 | the deals shown plus the count written in the note add up to all the venue's deals |
| `VenueCard.NoteCountNeedsSuffix` | src/components/VenueCard.tsx:105 | for every text: one that does not end in " more deals" is not read as a note |
| `VenueCard.NoteCountSound` | src/components/VenueCard.tsx:105 | for every text: one that reads as a note with count n is exactly "+", n written without leading zeros, and " more deals", so the note's text is fixed by its count |
| `VenueCard.ShowDeals` | src/components/VenueCard.tsx:89-101 | the first up to two deals in order, each with its title, its range caption and the highlight iff the deal is active |
| `VenueCard.Card` | src/components/VenueCard.tsx:16-112 | the card shows the active badge iff some deal is active, the favourite mark, the price symbol as one "$" per price level; in the distance slot the span with the distance iff it is present and non-zero, and a bare "0" iff it is zero; it shows the first up to three tags and the first up to two deals, each with its title, range caption and highlight; the note is the note made from the venue's deals, present iff there are more than two, and the age label |
| `VenueDetail.DayLabel` | src/components/VenueDetail.tsx:156 | the day caption is empty iff the deal lists no day |
| `VenueDetail.DayCaptionInjective` | src/components/VenueDetail.tsx:156 | distinct days get distinct capitalised names |
| `VenueDetail.DayFromCaptionOfDay` | src/components/VenueDetail.tsx:156 | a capitalised day name reads back as its day |
| `VenueDetail.DayCaptionHasNoComma` | src/components/VenueDetail.tsx:156 | a capitalised day name holds no comma, so the ", " separator is unambiguous |
| `VenueDetail.DaysFromCaptionsOfDays` | src/components/VenueDetail.tsx:156 | the list of capitalised names reads back as the list of days |
| `VenueDetail.DayFromCaptionSound` | src/components/VenueDetail.tsx:156 | a caption that reads as a day is exactly that day's capitalised name |
| `VenueDetail.CaptionWithCommaRejected` | src/components/VenueDetail.tsx:156 | text holding a comma is not read as any day |
| `VenueDetail.CommaWithoutSpaceRejected` | src/components/VenueDetail.tsx:156 | text whose first comma is followed by anything but a space is not read as a day list |
| `VenueDetail.OtherSeparatorRejected` | src/components/VenueDetail.tsx:156 | a day caption followed by a comma and any character other than a space does not read back as a day list, so the round trip below pins the separator to ", " |
| `VenueDetail.DayLabelRoundTrip` | src/components/VenueDetail.tsx:156 | the day caption shows every active day in order: splitting it at ", " and reading each part gives back the deal's day list |
| `VenueDetail.PriceShown` | src/components/VenueDetail.tsx:146-150 | a price shows iff it is present and non-empty, and then unchanged |
| `VenueDetail.ShowDeals` | src/components/VenueDetail.tsx:120-160 | every deal in order, each with its title, description, its price exactly when present and non-empty (and then unchanged), range caption, a day caption that reads back as its days, and the "Active Now" badge iff the deal is active |
| `VenueDetail.Detail` | src/components/VenueDetail.tsx:39-166 | without a venue there is no dialog; otherwise it shows the name, address and neighbourhood, the price symbol as one "$" per price level; in the distance slot the span with the distance iff it is present and non-zero, and a bare "0" iff it is zero; every tag; for every deal in order it shows the title, the description, its price exactly when present and non-empty (and then unchanged), the range caption, a day caption that reads back as its days, and the "Active Now" badge iff the deal is active; it ends with the age label |
| `MockData.MockVenues` | src/lib/mock-data.ts:3-175 | the six venues in catalog order; specified by `MockData.WineFilterKeepsThree`, `MockData.CatalogCounts`, `MockData.CatalogAges` and `MockData.NoMoreDealsNotes` |
| `MockData.WineOnlyMatches` | src/App.tsx:45-51 | with only wine selected, a venue matches iff it has a wine deal or a wildcard deal |
| `MockData.WineFilterKeepsThree` | src/lib/mock-data.ts:3-175 | selecting only wine keeps venues 1, 4 and 3, in that order by distance; venue 4 is kept through its wildcard deal |
| `MockData.WineFilterOrder` | src/lib/mock-data.ts:3-175 | the same result for any six venues with the catalog's deals and those three distances |
| `MockData.WineSelect` | src/lib/mock-data.ts:3-175 | the wine filter, before sorting, keeps the first, third and fourth venues |
| `MockData.WineKept` | src/lib/mock-data.ts:16-125 | venues with the catalog's deals of venues 1, 3 and 4 pass the wine filter |
| `MockData.WineDropped` | src/lib/mock-data.ts:37-173 | venues with the deals of venues 2, 5 and 6 fail the wine filter |
| `MockData.SortThree` | src/App.tsx:59 | venues at 0.3, 1.2 and 0.5 miles are sorted as first, third, second |
| `MockData.HouseCocktailsSchedule` | src/lib/mock-data.ts:17-24 | the 4 PM to 7 PM weekday deal is active on Monday at 17:30, and not at 20:00 or on Sunday |
| `MockData.HouseCocktailsHours` | src/lib/mock-data.ts:17-24 | that deal's range encodes as 1600 to 1900 and lists Monday but not Sunday |
| `MockData.ClockTimeNum` | src/lib/time-utils.ts:8-16 | the current-time string at hours:minutes encodes as 100 × hours + minutes |
| `MockData.LateNightRange` | src/lib/time-utils.ts:18-20 | the range 22:00 to 02:00 holds 23:30 and 01:00 but not 03:00 |
| `MockData.GardenHourTimeLabel` | src/lib/mock-data.ts:147 | the "Garden Hour" range shows as "4PM - 6:30PM" |
| `MockData.FourPM` | src/lib/time-utils.ts:32-37 | 16:00 shows as "4PM" |
| `MockData.SixThirtyPM` | src/lib/time-utils.ts:32-37 | 18:30 shows as "6:30PM" |
| `MockData.CatalogAges` | src/lib/mock-data.ts:3-175 | right after the page loads, venue 1 reads "Updated 2h ago" and venue 5 "Updated 1h ago"; twelve hours later venue 3, stamped twelve hours before load, reads "Updated yesterday" |
| `MockData.CatalogCounts` | src/lib/mock-data.ts:3-175 | four venues rate 4.5 or more, and the catalog holds nine deals |
| `MockData.NoMoreDealsNotes` | src/lib/mock-data.ts:3-175 | no venue has more than two deals, so no card shows a "+N more deals" note |
| `Seqs.Toggle` | src/components/FilterPanel.tsx:34-36 | the value becomes a member iff it was not one; every other member keeps its status; a new member is appended at the end |
| `Seqs.ToggleTwice` | src/App.tsx:64-68 | toggling twice restores membership, and the exact list when the value was absent |
| `Seqs.SortIsStable` | src/App.tsx:59 | the insertion sort keeps the relative order of elements with equal keys |
| `Text.ContainsIff` | src/App.tsx:33-35 | the substring test is true iff the query occurs at some position of the text |
| `Text.SplitOtherSeparator` | src/components/VenueDetail.tsx:156 | the splitter separates only at ", ": a comma followed by another character leaves the text whole |
| `Text.SplitJoin` | src/components/VenueDetail.tsx:156 | joining comma-free parts with ", " and splitting the result gives the parts back |

## Left out

- Rendering is not modelled: the JSX markup, CSS classes, icons, animation, the floating decoration, the dialog's open state and the filter drawer's visibility.
- The icon map of the detail dialog is not modelled. It is presentation only.
- The Share and Directions buttons are not modelled. They use the clipboard, a toast, `window.open` and `encodeURIComponent`, which are browser calls outside the logic.
- Storage and React state are not modelled: the persistent favourites slot, `useState` and `useMemo`. The favourites toggle is the function from the stored list, which may be absent, to the new list.
- The ambient clock is not modelled. The source reads the system clock on every call, so two activity checks could straddle a minute boundary. The model takes one snapshot as a parameter.
- Malformed time strings are not modelled. Parsing of anything that is not a zero-padded `HH:MM` time is left out, and every time in the catalog is of that form.
- `TimeUtils.RelativeTime`: the source parses `lastUpdated`, an ISO date string, with `Date`. The model takes the timestamp as milliseconds, and does not cover string parsing or invalid dates.
- Letter case is ASCII only. Lowercasing and capitalisation ignore Unicode case mappings beyond ASCII.
- Floating point is not modelled. Ratings and distances are scaled integers, and their printed forms ("4.5", "0.3 mi") are not derived.
- `App.SortByDistance`: the result is specified, not the in-place algorithm. The source sorts the copied array in place, with the engine's stable sort. The model is a stable insertion sort on values.
- Three captions outside the core are not modelled: the favourites heading, the result-count line and the empty-result message.
- `MockData`: names, addresses, tags, photos and review counts are transcribed but not reasoned about, and the ids are used only to name the wine filter's result. The facts proved concern deal types, days, ranges, distances, ratings, deal counts and ages.
