/** Real-time context: calendar classifiers over the local clock, the time-and-date record,
    the IP-location record, activity suggestions and the one-paragraph context summary.
    The clock is an input (hour, weekday, month, day and the already formatted texts). */
module ContextUtils {
  import opened Wrappers
  import opened Strings

  type Hour = h: int | 0 <= h < 24
  /** Python's `date.weekday()`: Monday is 0, Saturday 5, Sunday 6. */
  type Weekday = d: int | 0 <= d < 7
  type Month = m: int | 1 <= m <= 12 witness 1
  type Day = d: int | 1 <= d <= 31 witness 1

  /** One reading of the local clock. The text fields are what `strftime` produced
      ("%A, %B %d, %Y", "%I:%M %p", "%A", "%B", "%Y"); their formatting is not modelled. */
  datatype Clock = Clock(
    hour: Hour, weekday: Weekday, month: Month, day: Day,
    dateText: string, timeText: string, dayName: string, monthName: string, yearText: string)

  /** The dictionary returned by `get_current_time_and_date`. */
  datatype TimeInfo = TimeInfo(
    currentDate: string, currentTime: string, timezone: string,
    dayOfWeek: string, month: string, year: string,
    isWeekend: bool, isWeekday: bool, hour: Hour,
    isMorning: bool, isAfternoon: bool, isEvening: bool, isNight: bool,
    isHolidaySeason: bool, season: string, isSchoolYear: bool)

  /** The four parts of the day, as a reference against which the four flags are checked. */
  datatype Bucket = Morning | Afternoon | Evening | Night

  /** Reference partition of the 24-hour clock: 05:00, 12:00, 17:00 and 21:00 start the parts. */
  function BucketOf(h: Hour): Bucket {
    if h < 5 then Night
    else if h < 12 then Morning
    else if h < 17 then Afternoon
    else if h < 21 then Evening
    else Night
  }

  predicate ExactlyOne(a: bool, b: bool, c: bool, d: bool) {
    (if a then 1 else 0) + (if b then 1 else 0) + (if c then 1 else 0) + (if d then 1 else 0) == 1
  }

  /** `_is_holiday_season`: the calendar interval from November 22 through January 7, with
      dates compared as month * 100 + day. */
  function IsHolidaySeason(month: Month, day: Day): (b: bool)
    ensures b <==> (month * 100 + day >= 1122 || month * 100 + day <= 107)
  {
    if month == 11 && day >= 22 then true
    else if month == 12 then true
    else if month == 1 && day <= 7 then true
    else false
  }

  function GetSeason(month: Month): (s: string)
    ensures s in {"Winter", "Spring", "Summer", "Fall"}
  {
    if month in [12, 1, 2] then "Winter"
    else if month in [3, 4, 5] then "Spring"
    else if month in [6, 7, 8] then "Summer"
    else "Fall"
  }

  const SeasonsInOrder: seq<string> := ["Winter", "Spring", "Summer", "Fall"]

  /** The seasons are the consecutive quarters of the year starting in December. */
  lemma SeasonIsQuarter(month: Month)
    ensures GetSeason(month) == SeasonsInOrder[(month % 12) / 3]
  {
  }

  function IsSchoolYear(month: Month): (b: bool)
    ensures b <==> month != 7 && month != 8
  {
    month in [9, 10, 11, 12, 1, 2, 3, 4, 5, 6]
  }

  /** `get_current_time_and_date` on the given clock reading. */
  function CurrentTimeAndDate(c: Clock): (t: TimeInfo)
    ensures ExactlyOne(t.isMorning, t.isAfternoon, t.isEvening, t.isNight)
    ensures t.isMorning <==> BucketOf(c.hour) == Morning
    ensures t.isAfternoon <==> BucketOf(c.hour) == Afternoon
    ensures t.isEvening <==> BucketOf(c.hour) == Evening
    ensures t.isNight <==> BucketOf(c.hour) == Night
    ensures t.isWeekend <==> c.weekday == 5 || c.weekday == 6
    ensures t.isWeekday == !t.isWeekend
    ensures t.isHolidaySeason == IsHolidaySeason(c.month, c.day)
    ensures t.season == SeasonsInOrder[(c.month % 12) / 3]
    ensures t.isSchoolYear <==> c.month != 7 && c.month != 8
    ensures t.hour == c.hour && t.timezone == "Local Time"
    ensures t.currentDate == c.dateText && t.currentTime == c.timeText
    ensures t.dayOfWeek == c.dayName && t.month == c.monthName && t.year == c.yearText
  {
    SeasonIsQuarter(c.month);
    TimeInfo(
      c.dateText, c.timeText, "Local Time", c.dayName, c.monthName, c.yearText,
      c.weekday >= 5, c.weekday < 5, c.hour,
      5 <= c.hour < 12, 12 <= c.hour < 17, 17 <= c.hour < 21, c.hour >= 21 || c.hour < 5,
      IsHolidaySeason(c.month, c.day), GetSeason(c.month), IsSchoolYear(c.month))
  }

  // ---------------------------------------------------------------------------------------
  // Location

  /** A JSON value as far as the location record needs it: a string, null, or any other
      value carried with its Python string form. */
  datatype Json = JString(s: string) | JNull | JValue(repr: string)

  /** Python's `str(x)` of a JSON value as it appears in an f-string. */
  function JsonText(j: Json): string {
    match j
    case JString(s) => s
    case JNull => "None"
    case JValue(r) => r
  }

  /** How the IP-location request ended: it raised (timeout, no network), or a reply came with
      a status code and a body that `response.json()` turned into a JSON object (None: it did
      not, so `.json()` or `.get` raised). */
  datatype LookupOutcome = Unreachable | Reply(status: int, body: Option<map<string, Json>>)

  datatype LocationInfo = LocationInfo(
    city: Json, region: Json, country: Json, timezone: Json,
    latitude: Json, longitude: Json, detected: bool)

  const Unknown: Json := JString("Unknown")

  function GetOrUnknown(body: map<string, Json>, key: string): Json {
    if key in body then body[key] else Unknown
  }

  function GetOrNull(body: map<string, Json>, key: string): Json {
    if key in body then body[key] else JNull
  }

  /** `get_location_context` on the outcome of the lookup. */
  function GetLocationContext(r: LookupOutcome): (loc: LocationInfo)
    ensures loc.detected <==> r.Reply? && r.status == 200 && r.body.Some?
    ensures !loc.detected ==>
      loc == LocationInfo(Unknown, Unknown, Unknown, Unknown, JNull, JNull, false)
    ensures loc.detected ==>
      var body := r.body.value;
      && (loc.city == if "city" in body then body["city"] else Unknown)
      && (loc.region == if "region" in body then body["region"] else Unknown)
      && (loc.country == if "country_name" in body then body["country_name"] else Unknown)
      && (loc.timezone == if "timezone" in body then body["timezone"] else Unknown)
      && (loc.latitude == if "latitude" in body then body["latitude"] else JNull)
      && (loc.longitude == if "longitude" in body then body["longitude"] else JNull)
  {
    if r.Reply? && r.status == 200 && r.body.Some? then
      var data := r.body.value;
      LocationInfo(
        GetOrUnknown(data, "city"), GetOrUnknown(data, "region"),
        GetOrUnknown(data, "country_name"), GetOrUnknown(data, "timezone"),
        GetOrNull(data, "latitude"), GetOrNull(data, "longitude"), true)
    else
      LocationInfo(Unknown, Unknown, Unknown, Unknown, JNull, JNull, false)
  }

  // ---------------------------------------------------------------------------------------
  // Suggestions

  const MorningSuggestions: seq<string> := [
    "Family breakfast planning", "School/work preparation",
    "Morning exercise routines", "Daily schedule review"]
  const AfternoonSuggestions: seq<string> := [
    "Lunch planning", "After-school activities", "Homework time", "Family check-in"]
  const EveningSuggestions: seq<string> := [
    "Dinner planning and preparation", "Family dinner time",
    "Evening activities", "Bedtime routines"]
  const WeekendSuggestions: seq<string> := [
    "Family outings", "Relaxation activities", "Household projects", "Quality family time"]
  const WeekdaySuggestions: seq<string> := [
    "School/work routines", "Structured activities",
    "Homework and study time", "Family dinner planning"]

  const AllSuggestions: map<string, seq<string>> := map[
    "morning" := MorningSuggestions, "afternoon" := AfternoonSuggestions,
    "evening" := EveningSuggestions, "weekend" := WeekendSuggestions,
    "weekday" := WeekdaySuggestions]

  /** Python's `xs[:n]`. */
  function Take<T>(xs: seq<T>, n: nat): (r: seq<T>)
    ensures |r| == if |xs| <= n then |xs| else n
    ensures r <= xs
  {
    if |xs| <= n then xs else xs[..n]
  }

  /** `get_context_aware_suggestions`: the part-of-day list (none at night) followed by the
      weekend or weekday list, cut to the first four. */
  method GetContextAwareSuggestions(c: Clock) returns (current: seq<string>, all: map<string, seq<string>>)
    ensures |current| == 4
    ensures BucketOf(c.hour) == Morning ==> current == MorningSuggestions
    ensures BucketOf(c.hour) == Afternoon ==> current == AfternoonSuggestions
    ensures BucketOf(c.hour) == Evening ==> current == EveningSuggestions
    ensures BucketOf(c.hour) == Night ==>
      current == if c.weekday >= 5 then WeekendSuggestions else WeekdaySuggestions
    ensures all.Keys == {"morning", "afternoon", "evening", "weekend", "weekday"}
    ensures all == AllSuggestions
  {
    var timeInfo := CurrentTimeAndDate(c);
    var relevant: seq<string> := [];
    if timeInfo.isMorning {
      relevant := relevant + MorningSuggestions;
    } else if timeInfo.isAfternoon {
      relevant := relevant + AfternoonSuggestions;
    } else if timeInfo.isEvening {
      relevant := relevant + EveningSuggestions;
    }
    if timeInfo.isWeekend {
      relevant := relevant + WeekendSuggestions;
    } else {
      relevant := relevant + WeekdaySuggestions;
    }
    current := Take(relevant, 4);
    all := AllSuggestions;
  }

  // ---------------------------------------------------------------------------------------
  // Summary

  const WeekendLine: string := "\n🎉 Weekend - perfect for family activities!"
  const WeekdayLine: string := "\n📚 Weekday - time for school and work routines"
  const HolidayLine: string := "\n🎄 Holiday season - special family time!"

  predicate EndsWith(s: string, suffix: string) {
    |suffix| <= |s| && s[|s| - |suffix|..] == suffix
  }

  /** Two strings whose characters at distance `k` from the end differ cannot both end `s`. */
  lemma NotBothSuffixes(s: string, a: string, b: string, k: nat)
    requires k < |a| && k < |b| && a[|a| - 1 - k] != b[|b| - 1 - k]
    requires EndsWith(s, a)
    ensures !EndsWith(s, b)
  {
  }

  lemma EndsWithAppend(p: string, q: string)
    ensures EndsWith(p + q, q)
  {
    assert (p + q)[|p + q| - |q|..] == q;
  }

  /** `create_context_summary`: date and time, place, season, then exactly one of the weekend
      and weekday lines, then the holiday line when it is the holiday season. */
  method CreateContextSummary(c: Clock, lookup: LookupOutcome) returns (summary: string)
    ensures var loc := GetLocationContext(lookup);
      "📅 " + c.dateText + " at " + c.timeText + "\n📍 " + JsonText(loc.city) + ", " + JsonText(loc.region) <= summary
    ensures var tail := if IsHolidaySeason(c.month, c.day) then HolidayLine else "";
      && (EndsWith(summary, WeekendLine + tail) <==> c.weekday >= 5)
      && (EndsWith(summary, WeekdayLine + tail) <==> c.weekday < 5)
    ensures EndsWith(summary, HolidayLine) <==> IsHolidaySeason(c.month, c.day)
    ensures var loc := GetLocationContext(lookup);
      summary == "📅 " + c.dateText + " at " + c.timeText + "\n📍 " + JsonText(loc.city) + ", " + JsonText(loc.region)
        + "\n🌤️  " + GetSeason(c.month) + " season"
        + (if c.weekday >= 5 then WeekendLine else WeekdayLine)
        + (if IsHolidaySeason(c.month, c.day) then HolidayLine else "")
  {
    var timeInfo := CurrentTimeAndDate(c);
    var locationInfo := GetLocationContext(lookup);
    summary := "📅 " + timeInfo.currentDate + " at " + timeInfo.currentTime;
    summary := summary + "\n📍 " + JsonText(locationInfo.city) + ", " + JsonText(locationInfo.region);
    ghost var head := summary;
    summary := summary + "\n🌤️  " + timeInfo.season + " season";
    ghost var beforeDay := summary;
    if timeInfo.isWeekend {
      summary := summary + WeekendLine;
    } else {
      summary := summary + WeekdayLine;
    }
    ghost var beforeHoliday := summary;
    if timeInfo.isHolidaySeason {
      summary := summary + HolidayLine;
    } else {
      assert summary == summary + "";
    }
    LineEndings();
    SummaryShape(head, beforeDay, timeInfo.isWeekend, timeInfo.isHolidaySeason, summary,
                 WeekendLine, WeekdayLine, HolidayLine);
  }

  /** The characters near the end that tell the three lines apart. */
  lemma LineEndings()
    ensures |WeekendLine| >= 2 && |WeekdayLine| >= 2 && |HolidayLine| >= 2
    ensures WeekendLine[|WeekendLine| - 1] == '!' && WeekendLine[|WeekendLine| - 2] == 's'
    ensures WeekdayLine[|WeekdayLine| - 1] == 's'
    ensures HolidayLine[|HolidayLine| - 1] == '!' && HolidayLine[|HolidayLine| - 2] == 'e'
  {
  }

  /** The day line, followed by the tail, ends the summary, and the other day line does not. */
  lemma DayLineDecides(beforeDay: string, day: string, other: string, tail: string, summary: string)
    requires summary == beforeDay + day + tail
    requires |day| > 0 && |other| > 0 && day[|day| - 1] != other[|other| - 1]
    ensures EndsWith(summary, day + tail) && !EndsWith(summary, other + tail)
  {
    assert summary == beforeDay + (day + tail);
    EndsWithAppend(beforeDay, day + tail);
    NotBothSuffixes(summary, day + tail, other + tail, |tail|);
  }

  /** The summary's last lines, for any weekend, weekday and holiday lines that can be told
      apart by their last two characters as the real ones can. */
  lemma SummaryShape(head: string, beforeDay: string, weekend: bool, holiday: bool, summary: string,
                     weekendLine: string, weekdayLine: string, holidayLine: string)
    requires |weekendLine| >= 2 && |weekdayLine| >= 2 && |holidayLine| >= 2
    requires weekendLine[|weekendLine| - 1] == holidayLine[|holidayLine| - 1]
    requires weekendLine[|weekendLine| - 2] != holidayLine[|holidayLine| - 2]
    requires weekdayLine[|weekdayLine| - 1] != holidayLine[|holidayLine| - 1]
    requires weekendLine[|weekendLine| - 1] != weekdayLine[|weekdayLine| - 1]
    requires head <= beforeDay
    requires summary == beforeDay + (if weekend then weekendLine else weekdayLine) + (if holiday then holidayLine else "")
    ensures head <= summary
    ensures var tail := if holiday then holidayLine else "";
      && (EndsWith(summary, weekendLine + tail) <==> weekend)
      && (EndsWith(summary, weekdayLine + tail) <==> !weekend)
    ensures EndsWith(summary, holidayLine) <==> holiday
  {
    var tail := if holiday then holidayLine else "";
    var day := if weekend then weekendLine else weekdayLine;
    var other := if weekend then weekdayLine else weekendLine;
    DayLineDecides(beforeDay, day, other, tail, summary);
    if holiday {
      EndsWithAppend(beforeDay + day, holidayLine);
    } else {
      assert tail == [];
      EndsWithAppend(beforeDay, day);
      NotBothSuffixes(summary, day, holidayLine, if weekend then 1 else 0);
    }
  }
}
