/** src/lib/time-utils.ts: the current day and time, membership of a time in a
    (possibly midnight-wrapping) range, deal activity, and the time and age labels.
    The clock is not read here: the moment is passed in. */
module TimeUtils {
  import opened Text
  import opened Types

  /** What the source reads from `new Date()`: `getDay()` (0 is Sunday), `getHours()`
      and `getMinutes()`. */
  datatype Clock = Clock(dayIndex: int, hours: int, minutes: int)

  type Now = c: Clock | 0 <= c.dayIndex < 7 && 0 <= c.hours < 24 && 0 <= c.minutes < 60
    witness Clock(0, 0, 0)

  const MsPerHour: int := 1000 * 60 * 60
  const MsPerDay: int := 24 * MsPerHour
  const MinutesPerDay: int := 24 * 60

  /** The `getDay()` number of a day. */
  function DayIndex(d: DayOfWeek): int {
    match d
    case Sunday => 0
    case Monday => 1
    case Tuesday => 2
    case Wednesday => 3
    case Thursday => 4
    case Friday => 5
    case Saturday => 6
  }

  /** `getCurrentDay()`: the day table indexed by `getDay()`. */
  function CurrentDay(dayIndex: int): (d: DayOfWeek)
    requires 0 <= dayIndex < 7
    ensures DayIndex(d) == dayIndex
  {
    [Sunday, Monday, Tuesday, Wednesday, Thursday, Friday, Saturday][dayIndex]
  }

  /** The day table and the `getDay()` numbering are inverse to each other. */
  lemma CurrentDayOfIndex(d: DayOfWeek)
    ensures 0 <= DayIndex(d) < 7 && CurrentDay(DayIndex(d)) == d
  {
  }

  /** `Number` of the text before the colon. */
  function Hours(t: HHMM): int {
    ParseDigits(t[..2])
  }

  /** `Number` of the text after the colon. */
  function Minutes(t: HHMM): int {
    ParseDigits(t[3..])
  }

  lemma HHMMFields(t: HHMM)
    ensures 0 <= Hours(t) <= 23 && 0 <= Minutes(t) <= 59
  {
    ParseTwoDigits(t[..2]);
    ParseTwoDigits(t[3..]);
  }

  /** The true position of a time in the day, in minutes since midnight. */
  function MinuteOfDay(t: HHMM): int {
    60 * Hours(t) + Minutes(t)
  }

  /** `getCurrentTime()`: hours and minutes zero-padded to two digits each, around a colon. */
  function CurrentTime(hours: int, minutes: int): (t: HHMM)
    requires 0 <= hours < 24 && 0 <= minutes < 60
    ensures Hours(t) == hours && Minutes(t) == minutes
  {
    var hh := Pad2(hours);
    var mm := Pad2(minutes);
    var s := hh + ":" + mm;
    ParseTwoDigits(hh);
    ParseTwoDigits(mm);
    assert s[..2] == hh && s[3..] == mm;
    s
  }

  /** `parseInt(time.replace(':', ''))`. */
  function TimeNum(t: HHMM): int {
    ParseDigits(t[..2] + t[3..])
  }

  /** The number compared is `HH*100+MM`. */
  lemma TimeNumEncodes(t: HHMM)
    ensures TimeNum(t) == 100 * Hours(t) + Minutes(t)
  {
    ParseAppendTwo(t[..2], t[3..]);
  }

  /** The fields and the encoding of a time, read digit by digit. */
  lemma HHMMDigits(t: HHMM)
    ensures Hours(t) == 10 * DigitValue(t[0]) + DigitValue(t[1])
    ensures Minutes(t) == 10 * DigitValue(t[3]) + DigitValue(t[4])
    ensures TimeNum(t) == 100 * Hours(t) + Minutes(t)
  {
    ParseTwoDigits(t[..2]);
    ParseTwoDigits(t[3..]);
    TimeNumEncodes(t);
  }

  lemma EncodingMonotone(h1: int, m1: int, h2: int, m2: int)
    requires 0 <= m1 < 60 && 0 <= m2 < 60
    ensures 100 * h1 + m1 <= 100 * h2 + m2 <==> 60 * h1 + m1 <= 60 * h2 + m2
  {
    if h1 < h2 {
      assert 100 * h2 >= 100 * h1 + 100;
      assert 60 * h2 >= 60 * h1 + 60;
    } else if h1 > h2 {
      assert 100 * h1 >= 100 * h2 + 100;
      assert 60 * h1 >= 60 * h2 + 60;
    }
  }

  /** A valid time is determined by its hours and minutes. */
  lemma SameFieldsSameTime(a: HHMM, b: HHMM)
    requires Hours(a) == Hours(b) && Minutes(a) == Minutes(b)
    ensures a == b
  {
    ParseTwoDigits(a[..2]);
    ParseTwoDigits(b[..2]);
    ParseTwoDigits(a[3..]);
    ParseTwoDigits(b[3..]);
    assert a[0] == b[0] && a[1] == b[1] && a[3] == b[3] && a[4] == b[4];
    assert forall i :: 0 <= i < 5 ==> a[i] == b[i];
  }

  /** For valid times the `HH*100+MM` encoding orders times exactly as minutes since
      midnight do, so comparing the encodings is sound. */
  lemma EncodingOrder(a: HHMM, b: HHMM)
    ensures TimeNum(a) <= TimeNum(b) <==> MinuteOfDay(a) <= MinuteOfDay(b)
    ensures TimeNum(a) == TimeNum(b) <==> a == b
  {
    TimeNumEncodes(a);
    TimeNumEncodes(b);
    HHMMFields(a);
    HHMMFields(b);
    EncodingMonotone(Hours(a), Minutes(a), Hours(b), Minutes(b));
    EncodingMonotone(Hours(b), Minutes(b), Hours(a), Minutes(a));
    if TimeNum(a) == TimeNum(b) {
      assert Hours(a) == Hours(b) && Minutes(a) == Minutes(b);
      SameFieldsSameTime(a, b);
    }
  }

  /** `isTimeInRange(time, range)`. */
  function IsTimeInRange(time: HHMM, range: TimeRange): bool {
    var timeNum := TimeNum(time);
    var startNum := TimeNum(range.start);
    var endNum := TimeNum(range.end);
    if endNum < startNum then
      timeNum >= startNum || timeNum <= endNum
    else
      timeNum >= startNum && timeNum <= endNum
  }

  /** Range membership in true minutes: inclusive at both ends, and for a range whose
      end comes before its start, the union of "from start on" and "up to end". */
  lemma TimeInRangeByMinutes(time: HHMM, range: TimeRange)
    ensures MinuteOfDay(range.start) <= MinuteOfDay(range.end) ==>
      (IsTimeInRange(time, range) <==>
        MinuteOfDay(range.start) <= MinuteOfDay(time) <= MinuteOfDay(range.end))
    ensures MinuteOfDay(range.end) < MinuteOfDay(range.start) ==>
      (IsTimeInRange(time, range) <==>
        MinuteOfDay(time) >= MinuteOfDay(range.start) || MinuteOfDay(time) <= MinuteOfDay(range.end))
  {
    EncodingOrder(range.start, range.end);
    EncodingOrder(range.end, range.start);
    EncodingOrder(range.start, time);
    EncodingOrder(time, range.end);
  }

  /** The minutes that pass on a clock going forward from `from` to `to`. */
  function MinutesAfter(from: int, to: int): int {
    (to - from) % MinutesPerDay
  }

  /** The same membership read off the clock face: walking forward from the start,
      the time is reached no later than the end. */
  lemma TimeInRangeOnClock(time: HHMM, range: TimeRange)
    ensures IsTimeInRange(time, range) <==>
      MinutesAfter(MinuteOfDay(range.start), MinuteOfDay(time))
        <= MinutesAfter(MinuteOfDay(range.start), MinuteOfDay(range.end))
  {
    TimeInRangeByMinutes(time, range);
    HHMMFields(time);
    HHMMFields(range.start);
    HHMMFields(range.end);
    var t, s, e := MinuteOfDay(time), MinuteOfDay(range.start), MinuteOfDay(range.end);
    assert 0 <= t < MinutesPerDay && 0 <= s < MinutesPerDay && 0 <= e < MinutesPerDay;
    ForwardDistance(s, t);
    ForwardDistance(s, e);
  }

  lemma ForwardDistance(from: int, to: int)
    requires 0 <= from < MinutesPerDay && 0 <= to < MinutesPerDay
    ensures MinutesAfter(from, to) == if from <= to then to - from else to - from + MinutesPerDay
  {
  }

  /** `isDealActiveNow(deal)` with the moment passed in. */
  function IsDealActiveNow(deal: Deal, now: Now): bool {
    var currentDay := CurrentDay(now.dayIndex);
    var currentTime := CurrentTime(now.hours, now.minutes);
    currentDay in deal.daysActive && IsTimeInRange(currentTime, deal.timeRange)
  }

  /** A deal is active exactly when today's `getDay()` number belongs to one of its days
      and the current minute lies on its range walking forward from the start; in
      particular it is never active on a day it does not list. */
  lemma DealActiveIff(deal: Deal, now: Now)
    ensures IsDealActiveNow(deal, now) <==>
      && (exists i :: 0 <= i < |deal.daysActive| && DayIndex(deal.daysActive[i]) == now.dayIndex)
      && MinutesAfter(MinuteOfDay(deal.timeRange.start), 60 * now.hours + now.minutes)
         <= MinutesAfter(MinuteOfDay(deal.timeRange.start), MinuteOfDay(deal.timeRange.end))
  {
    var t := CurrentTime(now.hours, now.minutes);
    TimeInRangeOnClock(t, deal.timeRange);
    var today := CurrentDay(now.dayIndex);
    if exists i :: 0 <= i < |deal.daysActive| && DayIndex(deal.daysActive[i]) == now.dayIndex {
      var i :| 0 <= i < |deal.daysActive| && DayIndex(deal.daysActive[i]) == now.dayIndex;
      CurrentDayOfIndex(deal.daysActive[i]);
    }
    if today in deal.daysActive {
      var i :| 0 <= i < |deal.daysActive| && deal.daysActive[i] == today;
      assert DayIndex(deal.daysActive[i]) == now.dayIndex;
    }
  }

  /** `hours % 12 || 12`: the hour on a twelve-hour dial. */
  function DisplayHour(hours: nat): (h: nat)
    ensures 1 <= h <= 12 && h % 12 == hours % 12
  {
    if hours % 12 == 0 then 12 else hours % 12
  }

  /** `hours >= 12 ? 'PM' : 'AM'`. */
  function Period(hours: int): string {
    if hours >= 12 then "PM" else "AM"
  }

  /** The 24-hour hour that a dial hour and a period stand for. */
  function HourFromDial(shown: int, period: string): int {
    if period == "AM" then (if shown == 12 then 0 else shown)
    else (if shown == 12 then 12 else shown + 12)
  }

  /** The dial hour and the period together determine the hour of the day. */
  lemma DialRoundTrip(hours: nat)
    requires hours <= 23
    ensures HourFromDial(DisplayHour(hours), Period(hours)) == hours
  {
  }

  /** Every dial hour 1..12 with either period is an hour of the day that shows as
      that dial hour and that period. */
  lemma DialShows(shown: int, period: string)
    requires 1 <= shown <= 12 && (period == "AM" || period == "PM")
    ensures 0 <= HourFromDial(shown, period) <= 23
    ensures DisplayHour(HourFromDial(shown, period)) == shown
    ensures Period(HourFromDial(shown, period)) == period
  {
  }

  /** `formatTime(time)`: e.g. "4PM" and "6:30PM". */
  function FormatTime(time: HHMM): (caption: string)
    ensures |caption| >= 3 && caption[|caption| - 2..] == Period(Hours(time))
    ensures ':' in caption <==> Minutes(time) > 0
    ensures ' ' !in caption
    ensures var hourText := NatToString(DisplayHour(Hours(time)));
            |hourText| <= |caption| && caption[..|hourText|] == hourText
  {
    HHMMFields(time);
    var hours, minutes := Hours(time), Minutes(time);
    var hourText := NatToString(DisplayHour(hours));
    var minuteText := if minutes > 0 then ":" + Pad2(minutes) else "";
    DigitsExclude(hourText, ':');
    DigitsExclude(hourText, ' ');
    DigitsExclude(Pad2(minutes), ':');
    DigitsExclude(Pad2(minutes), ' ');
    var caption := hourText + minuteText + Period(hours);
    assert caption[|caption| - 2..] == Period(hours);
    assert caption[..|hourText|] == hourText;
    caption
  }

  /** Reads a `formatTime` label back into hours and minutes. Only labels of the printed
      form are read: a dial hour 1..12 without leading zeros, then either nothing or a
      colon and two digits for minutes 1..59, then AM or PM. */
  function ParseTimeLabel(caption: string): Option<(int, int)> {
    if |caption| < 3 then None
    else
      var period := caption[|caption| - 2..];
      var body := caption[..|caption| - 2];
      var hasMinutes := |body| >= 4 && body[|body| - 3] == ':';
      var hourText := if hasMinutes then body[..|body| - 3] else body;
      var minuteText := if hasMinutes then body[|body| - 2..] else "";
      if (period != "AM" && period != "PM") || !AllDigits(hourText) || !AllDigits(minuteText) then None
      else
        var shown, minutes := ParseDigits(hourText), ParseDigits(minuteText);
        if hourText != NatToString(shown) || !(1 <= shown <= 12) then None
        else if hasMinutes && !(1 <= minutes <= 59) then None
        else Some((HourFromDial(shown, period), minutes))
  }

  /** A dial hour that is not printed as such, or minutes that the label never shows, are
      rejected: "0AM", "012PM" and "5:00PM" read as nothing. */
  lemma ParseRejectsOtherForms()
    ensures ParseTimeLabel("0AM") == None
    ensures ParseTimeLabel("012PM") == None
    ensures ParseTimeLabel("5:00PM") == None
  {
    assert "0AM"[..1] == "0";
    assert "012PM"[..3] == "012";
    assert ParseDigits("012") == 12 by {
      assert "012"[..2] == "01";
      assert "01"[..1] == "0";
    }
    assert "5:00PM"[..4] == "5:00";
    assert "5:00"[..1] == "5" && "5:00"[2..] == "00";
    assert ParseDigits("00") == 0 by {
      assert "00"[..1] == "0";
    }
  }

  lemma ParseLabelWithMinutes(hourText: string, minuteText: string, period: string)
    requires AllDigits(hourText) && 1 <= |hourText| && AllDigits(minuteText) && |minuteText| == 2
    requires hourText == NatToString(ParseDigits(hourText)) && 1 <= ParseDigits(hourText) <= 12
    requires 1 <= ParseDigits(minuteText) <= 59
    requires period == "AM" || period == "PM"
    ensures ParseTimeLabel(hourText + ":" + minuteText + period)
      == Some((HourFromDial(ParseDigits(hourText), period), ParseDigits(minuteText)))
  {
    var body := hourText + ":" + minuteText;
    var caption := body + period;
    assert caption[|caption| - 2..] == period;
    assert caption[..|caption| - 2] == body;
    assert body[|body| - 3] == ':';
    assert body[..|body| - 3] == hourText;
    assert body[|body| - 2..] == minuteText;
    var shown, minutes := ParseDigits(hourText), ParseDigits(minuteText);
    assert ParseTimeLabel(caption) == Some((HourFromDial(shown, period), minutes)) by {
      assert hourText == NatToString(shown) && 1 <= shown <= 12 && 1 <= minutes <= 59;
    }
  }

  lemma ParseLabelWholeHour(hourText: string, period: string)
    requires AllDigits(hourText) && 1 <= |hourText| <= 2
    requires hourText == NatToString(ParseDigits(hourText)) && 1 <= ParseDigits(hourText) <= 12
    requires period == "AM" || period == "PM"
    ensures ParseTimeLabel(hourText + period) == Some((HourFromDial(ParseDigits(hourText), period), 0))
  {
    var caption := hourText + period;
    assert caption[|caption| - 2..] == period;
    assert caption[..|caption| - 2] == hourText;
    assert ParseDigits("") == 0;
    var shown := ParseDigits(hourText);
    assert ParseTimeLabel(caption) == Some((HourFromDial(shown, period), 0)) by {
      assert hourText == NatToString(shown) && 1 <= shown <= 12;
    }
  }

  /** A time label loses nothing: it determines the time it was made from. */
  lemma FormatTimeRoundTrip(time: HHMM)
    ensures ParseTimeLabel(FormatTime(time)) == Some((Hours(time), Minutes(time)))
  {
    HHMMFields(time);
    var hours, minutes := Hours(time), Minutes(time);
    var shown := DisplayHour(hours);
    var hourText := NatToString(shown);
    ParseNatToString(shown);
    DialRoundTrip(hours);
    if minutes > 0 {
      assert FormatTime(time) == hourText + ":" + Pad2(minutes) + Period(hours);
      ParseLabelWithMinutes(hourText, Pad2(minutes), Period(hours));
    } else {
      assert FormatTime(time) == hourText + [] + Period(hours);
      assert hourText + [] == hourText;
      ParseLabelWholeHour(hourText, Period(hours));
    }
  }

  /** The label of the time with the given hours and minutes, piece by piece. */
  lemma LabelOfTime(hours: int, minutes: int)
    requires 0 <= hours < 24 && 0 <= minutes < 60
    ensures minutes > 0 ==>
      FormatTime(CurrentTime(hours, minutes)) == NatToString(DisplayHour(hours)) + ":" + Pad2(minutes) + Period(hours)
    ensures minutes == 0 ==>
      FormatTime(CurrentTime(hours, minutes)) == NatToString(DisplayHour(hours)) + Period(hours)
  {
    var hourText := NatToString(DisplayHour(hours));
    if minutes > 0 {
      assert hourText + (":" + Pad2(minutes)) == hourText + ":" + Pad2(minutes);
    } else {
      assert hourText + "" == hourText;
    }
  }

  /** A dial hour, two digits for minutes 1..59 and a period form the label of the time
      they stand for. */
  lemma LabelWithMinutesIsPrinted(shown: int, minuteText: string, period: string)
    requires 1 <= shown <= 12 && (period == "AM" || period == "PM")
    requires AllDigits(minuteText) && |minuteText| == 2 && 1 <= ParseDigits(minuteText) <= 59
    ensures NatToString(shown) + ":" + minuteText + period ==
      FormatTime(CurrentTime(HourFromDial(shown, period), ParseDigits(minuteText)))
  {
    var minutes := ParseDigits(minuteText);
    var hours := HourFromDial(shown, period);
    DialShows(shown, period);
    LabelOfTime(hours, minutes);
    TwoDigitsDetermined(minuteText, Pad2(minutes));
    assert DisplayHour(hours) == shown && Period(hours) == period && Pad2(minutes) == minuteText;
  }

  /** A dial hour and a period form the label of that whole hour. */
  lemma WholeHourLabelIsPrinted(shown: int, period: string)
    requires 1 <= shown <= 12 && (period == "AM" || period == "PM")
    ensures NatToString(shown) + period == FormatTime(CurrentTime(HourFromDial(shown, period), 0))
  {
    DialShows(shown, period);
    LabelOfTime(HourFromDial(shown, period), 0);
  }

  /** Only printed labels are read: a label that reads as a time is exactly the label
      `formatTime` prints for that time. */
  lemma ParseTimeLabelSound(caption: string, hours: int, minutes: int)
    requires ParseTimeLabel(caption) == Some((hours, minutes))
    ensures 0 <= hours < 24 && 0 <= minutes < 60
    ensures caption == FormatTime(CurrentTime(hours, minutes))
  {
    var period := caption[|caption| - 2..];
    var body := caption[..|caption| - 2];
    assert caption == body + period;
    if |body| >= 4 && body[|body| - 3] == ':' {
      var hourText, minuteText := body[..|body| - 3], body[|body| - 2..];
      assert AllDigits(hourText) && AllDigits(minuteText) && (period == "AM" || period == "PM");
      var shown := ParseDigits(hourText);
      assert hourText == NatToString(shown) && 1 <= shown <= 12;
      assert hours == HourFromDial(shown, period) && minutes == ParseDigits(minuteText);
      assert 1 <= minutes <= 59;
      DialShows(shown, period);
      assert body == hourText + ":" + minuteText;
      LabelWithMinutesIsPrinted(shown, minuteText, period);
    } else {
      assert AllDigits(body) && (period == "AM" || period == "PM");
      var shown := ParseDigits(body);
      assert body == NatToString(shown) && 1 <= shown <= 12;
      assert hours == HourFromDial(shown, period) && minutes == 0;
      DialShows(shown, period);
      WholeHourLabelIsPrinted(shown, period);
    }
  }

  /** `formatTimeRange(range)`: the two labels joined by " - ". */
  function FormatTimeRange(range: TimeRange): string {
    FormatTime(range.start) + " - " + FormatTime(range.end)
  }

  function ParseTimeRangeLabel(s: string): Option<((int, int), (int, int))> {
    var i := IndexOf(s, ' ');
    if i + 3 > |s| || s[i..i + 3] != " - " then None
    else
      match (ParseTimeLabel(s[..i]), ParseTimeLabel(s[i + 3..]))
      case (Some(a), Some(b)) => Some((a, b))
      case _ => None
  }

  /** A range caption splits at its first space into the two labels it joins. */
  lemma ParseJoinedLabels(a: string, b: string)
    requires ' ' !in a
    ensures ParseTimeRangeLabel(a + " - " + b) ==
      match (ParseTimeLabel(a), ParseTimeLabel(b))
      case (Some(x), Some(y)) => Some((x, y))
      case _ => None
  {
    var s := a + " - " + b;
    assert s == a + (" - " + b);
    IndexOfConcat(a, " - " + b, ' ');
    assert s[..|a|] == a;
    assert s[|a|..|a| + 3] == " - ";
    assert s[|a| + 3..] == b;
  }

  /** A caption whose first space does not open " - " is not a range caption. */
  lemma RangeOtherSeparatorRejected(a: string, sep: string, b: string)
    requires ' ' !in a && |sep| == 3 && sep[0] == ' ' && sep != " - "
    ensures ParseTimeRangeLabel(a + sep + b) == None
  {
    var s := a + sep + b;
    assert s == a + (sep + b);
    IndexOfConcat(a, sep + b, ' ');
    assert s[|a|..|a| + 3] == sep;
  }

  /** A string is what precedes, is and follows a slice equal to sep. */
  lemma SplitAround(s: string, i: nat, sep: string)
    requires i + |sep| <= |s| && s[i..i + |sep|] == sep
    ensures s == s[..i] + sep + s[i + |sep|..]
  {
    SplitThree(s, i, i + |sep|);
  }

  /** A caption that reads as a range is two labels that read as its ends, around " - ". */
  lemma RangeLabelParts(s: string, start: (int, int), end: (int, int))
    requires ParseTimeRangeLabel(s) == Some((start, end))
    ensures var i := IndexOf(s, ' ');
      && i + 3 <= |s| && s == s[..i] + " - " + s[i + 3..]
      && ParseTimeLabel(s[..i]) == Some(start) && ParseTimeLabel(s[i + 3..]) == Some(end)
  {
    var i := IndexOf(s, ' ');
    assert s[i..i + 3] == " - ";
    SplitAround(s, i, " - ");
  }

  /** A caption that reads as a range is exactly the caption printed for that range. */
  lemma ParseTimeRangeLabelSound(s: string, start: (int, int), end: (int, int))
    requires ParseTimeRangeLabel(s) == Some((start, end))
    ensures 0 <= start.0 < 24 && 0 <= start.1 < 60 && 0 <= end.0 < 24 && 0 <= end.1 < 60
    ensures s == FormatTime(CurrentTime(start.0, start.1)) + " - " + FormatTime(CurrentTime(end.0, end.1))
  {
    RangeLabelParts(s, start, end);
    var i := IndexOf(s, ' ');
    ParseTimeLabelSound(s[..i], start.0, start.1);
    ParseTimeLabelSound(s[i + 3..], end.0, end.1);
  }

  /** A range caption determines both ends of the range. */
  lemma FormatTimeRangeRoundTrip(range: TimeRange)
    ensures ParseTimeRangeLabel(FormatTimeRange(range)) ==
      Some(((Hours(range.start), Minutes(range.start)), (Hours(range.end), Minutes(range.end))))
  {
    ParseJoinedLabels(FormatTime(range.start), FormatTime(range.end));
    FormatTimeRoundTrip(range.start);
    FormatTimeRoundTrip(range.end);
  }

  /** `getRelativeTime(dateString)` with the timestamp and "now" in milliseconds; each
      division by a positive constant is `Math.floor` of the quotient. */
  function RelativeTime(dateMs: int, nowMs: int): string {
    var diffMs := nowMs - dateMs;
    var diffHours := diffMs / MsPerHour;
    var diffDays := diffHours / 24;
    if diffHours < 1 then "Just updated"
    else if diffHours < 24 then "Updated " + NatToString(diffHours) + "h ago"
    else if diffDays == 1 then "Updated yesterday"
    else "Updated " + NatToString(diffDays) + "d ago"
  }

  /** Flooring to hours and then to days is flooring to days. */
  lemma FloorHoursThenDays(ms: int)
    ensures (ms / MsPerHour) / 24 == ms / MsPerDay
  {
    var q, r := ms / MsPerHour, ms % MsPerHour;
    var days, h := q / 24, q % 24;
    assert ms == MsPerDay * days + (MsPerHour * h + r);
    assert 0 <= MsPerHour * h + r < MsPerDay;
  }

  /** An "N units ago" label is neither of the two fixed labels. */
  lemma CountedLabelDistinct(n: nat, unit: string)
    ensures "Updated " + NatToString(n) + unit != "Updated yesterday"
    ensures "Updated " + NatToString(n) + unit != "Just updated"
  {
    var caption := "Updated " + NatToString(n) + unit;
    assert caption[0] == 'U';
    assert caption[8] == NatToString(n)[0];
    assert IsDigit(caption[8]);
    assert "Updated yesterday"[8] == 'y';
  }

  /** Under an hour old, a timestamp in the future included, is "Just updated". */
  lemma RelativeTimeJustUpdated(dateMs: int, nowMs: int)
    ensures RelativeTime(dateMs, nowMs) == "Just updated" <==> nowMs - dateMs < MsPerHour
  {
    var age := nowMs - dateMs;
    var hours := age / MsPerHour;
    assert hours < 1 <==> age < MsPerHour;
    if hours >= 1 {
      var days := hours / 24;
      if hours < 24 {
        CountedLabelDistinct(hours, "h ago");
      } else if days != 1 {
        CountedLabelDistinct(days, "d ago");
      }
    }
  }

  /** From one hour to under a day old: the whole number of hours, 1 to 23. */
  lemma RelativeTimeHours(dateMs: int, nowMs: int)
    requires MsPerHour <= nowMs - dateMs < MsPerDay
    ensures 1 <= (nowMs - dateMs) / MsPerHour <= 23
    ensures RelativeTime(dateMs, nowMs) == "Updated " + NatToString((nowMs - dateMs) / MsPerHour) + "h ago"
  {
  }

  /** The second day of age, and only it, is "Updated yesterday". */
  lemma RelativeTimeYesterday(dateMs: int, nowMs: int)
    ensures RelativeTime(dateMs, nowMs) == "Updated yesterday" <==> MsPerDay <= nowMs - dateMs < 2 * MsPerDay
  {
    var age := nowMs - dateMs;
    var hours := age / MsPerHour;
    var days := hours / 24;
    FloorHoursThenDays(age);
    assert days == 1 <==> MsPerDay <= age < 2 * MsPerDay;
    assert hours >= 24 <==> age >= MsPerDay;
    if hours >= 1 {
      if hours < 24 {
        CountedLabelDistinct(hours, "h ago");
      } else if days != 1 {
        CountedLabelDistinct(days, "d ago");
      }
    }
  }

  /** From two days on: the whole number of days. */
  lemma RelativeTimeDays(dateMs: int, nowMs: int)
    requires 2 * MsPerDay <= nowMs - dateMs
    ensures 2 <= (nowMs - dateMs) / MsPerDay
    ensures RelativeTime(dateMs, nowMs) == "Updated " + NatToString((nowMs - dateMs) / MsPerDay) + "d ago"
  {
    FloorHoursThenDays(nowMs - dateMs);
  }
}
