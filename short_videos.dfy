/**
 * The short-video pipeline tab: the badge colour of a video's "Filmart"
 * value, the day count up to the goal date (a `YYYY-MM-DD` text, by default
 * the last day of the current month in Vienna), the normalisation of the
 * statistics the Notion route answers with, and the totals and phase
 * roll-ups the tab shows. The clock is a parameter: `clock` is the calendar
 * day it is in Vienna, as `Intl.DateTimeFormat` reports it.
 */
module ShortVideos {
  import opened Wrappers
  import opened Text
  import opened Calendar

  // ---- badge ----

  /** The four badges `filmartBadgeClass` chooses between, with the class text each renders with. */
  datatype Badge = Solo | Build | NoBg | Fallback {
    function Class(): string {
      match this
      case Solo => "bg-green-100 text-green-800 border-green-200"
      case Build => "bg-red-100 text-red-800 border-red-200"
      case NoBg => "bg-blue-100 text-blue-800 border-blue-200"
      case Fallback => "bg-slate-100 text-slate-700 border-slate-200"
    }
  }

  /** `filmartBadgeClass`: the trimmed value (absent reads as "") is matched exactly against three values. */
  function FilmartBadge(v: Option<string>): (b: Badge)
    ensures b == Solo <==> Trim(v.GetOr("")) == "J - Solo"
    ensures b == Build <==> Trim(v.GetOr("")) == "J - Build"
    ensures b == NoBg <==> Trim(v.GetOr("")) == "J-Solo-(noBG)"
    ensures b == Fallback <==>
      Trim(v.GetOr("")) != "J - Solo" && Trim(v.GetOr("")) != "J - Build" && Trim(v.GetOr("")) != "J-Solo-(noBG)"
  {
    var val := Trim(v.GetOr(""));
    if val == "J - Solo" then Solo
    else if val == "J - Build" then Build
    else if val == "J-Solo-(noBG)" then NoBg
    else Fallback
  }

  // ---- goal date ----

  /** The parts of a text matching `^\d{4}-\d{2}-\d{2}$`, split at the dashes. */
  predicate IsIsoDayParts(parts: seq<string>) {
    |parts| == 3
    && |parts[0]| == 4 && AllDigits(parts[0])
    && |parts[1]| == 2 && AllDigits(parts[1])
    && |parts[2]| == 2 && AllDigits(parts[2])
  }

  /** `viennaTodayUTC`: `Date.UTC` of the year, month and day the clock shows in Vienna. */
  function ViennaToday(clock: Date): (d: Date)
    ensures ValidDate(d)
    ensures ValidDate(clock) && !(0 <= clock.year <= 99) ==> d == clock
  {
    if ValidDate(clock) && !(0 <= clock.year <= 99) then MakeDateInRange(clock); MakeDate(clock.year, clock.month - 1, clock.day)
    else MakeDate(clock.year, clock.month - 1, clock.day)
  }

  /**
   * `daysUntil`: 0 for a text that is not four, two and two digits joined by
   * dashes; otherwise the whole days from today to `Date.UTC(y, m - 1, d)`
   * (both UTC midnights, so the rounding is exact), never negative.
   */
  function DaysUntil(iso: string, clock: Date): (n: nat)
    ensures !IsIsoDayParts(Split(iso, '-')) ==> n == 0
  {
    var parts := Split(iso, '-');
    if IsIsoDayParts(parts) then
      var end := MakeDate(DigitsValue(parts[0]), DigitsValue(parts[1]) - 1, DigitsValue(parts[2]));
      var diff := DayNumber(end) - DayNumber(ViennaToday(clock));
      if diff > 0 then diff else 0
    else 0
  }

  /** A four-digit year is written with four digits. */
  lemma FourDigitYear(y: int)
    requires 1000 <= y <= 9999
    ensures |NatToString(y)| == 4
  {
    assert |NatToString(y / 1000)| == 1;
    assert y / 10 / 10 / 10 == y / 1000;
    assert |NatToString(y / 100)| == 2;
    assert y / 10 / 10 == y / 100;
    assert |NatToString(y / 10)| == 3;
  }

  /**
   * For the text of a date with a four-digit year, `daysUntil` counts the
   * days from today to that date, or 0 once it has passed.
   */
  lemma DaysUntilDate(d: Date, clock: Date)
    requires ValidDate(d) && 1000 <= d.year <= 9999
    ensures DaysUntil(Ymd(d), clock) == if DayNumber(d) > DayNumber(ViennaToday(clock)) then DayNumber(d) - DayNumber(ViennaToday(clock)) else 0
  {
    var parts := YmdParts(d);
    DaysUntilParts(Ymd(d), clock);
    MakeDateInRange(d);
  }

  /** A text of the right shape is read as `Date.UTC` of its three digit groups. */
  lemma DaysUntilParts(iso: string, clock: Date)
    requires IsIsoDayParts(Split(iso, '-'))
    ensures var parts := Split(iso, '-');
            var end := MakeDate(DigitsValue(parts[0]), DigitsValue(parts[1]) - 1, DigitsValue(parts[2]));
            DaysUntil(iso, clock) == if DayNumber(end) > DayNumber(ViennaToday(clock)) then DayNumber(end) - DayNumber(ViennaToday(clock)) else 0
  {
  }

  /** The text of a date with a four-digit year has the `YYYY-MM-DD` shape, and its digit groups read back the date. */
  lemma YmdParts(d: Date) returns (parts: seq<string>)
    requires ValidDate(d) && 1000 <= d.year <= 9999
    ensures parts == Split(Ymd(d), '-') && IsIsoDayParts(parts)
    ensures DigitsValue(parts[0]) == d.year && DigitsValue(parts[1]) == d.month && DigitsValue(parts[2]) == d.day
  {
    var ys, ms, ds := NatToString(d.year), PadStart2(NatToString(d.month)), PadStart2(NatToString(d.day));
    YmdDigits(d);
    FourDigitYear(d.year);
    NoSeparatorInDigits(ys, '-');
    NoSeparatorInDigits(ms, '-');
    NoSeparatorInDigits(ds, '-');
    SplitThree(ys, ms, ds, '-');
    parts := [ys, ms, ds];
  }

  /** `toISOString().slice(0, 10)` of a date with a four-digit year. */
  function IsoDay(d: Date): (s: string)
    requires 1000 <= d.year <= 9999
    ensures ValidDate(d) ==> ParseYmd(s) == Some(d)
  {
    if ValidDate(d) then YmdRoundTrip(d); Ymd(d) else Ymd(d)
  }

  /** The last day of the month: `Date.UTC(y, monthIndex + 1, 0)`. */
  lemma EndOfMonthDate(y: int, m: int)
    requires 1 <= m <= 12 && !(0 <= y <= 99)
    ensures MakeDate(y, m, 0) == Date(y, m, DaysInMonth(y, m))
  {
    if m < 12 {
      assert m / 12 == 0 && m % 12 + 1 == m + 1;
      assert Normalize(y, m + 1, -1) == Normalize(y, m, DaysInMonth(y, m) - 1);
    } else {
      assert m / 12 == 1 && m % 12 + 1 == 1;
      assert Normalize(y + 1, 1, -1) == Normalize(y, 12, 30);
    }
  }

  /** `endOfCurrentMonthISO`, for a clock in a four-digit year. */
  function EndOfCurrentMonthIso(clock: Date): (s: string)
    requires ValidDate(clock) && 1000 <= clock.year <= 9999
    ensures ParseYmd(s) == Some(Date(clock.year, clock.month, DaysInMonth(clock.year, clock.month)))
  {
    var start := ViennaToday(clock);
    EndOfMonthDate(start.year, start.month);
    IsoDay(MakeDate(start.year, start.month - 1 + 1, 0))
  }

  /** The default goal date is as many days away as remain in the current month. */
  lemma DefaultGoalDays(clock: Date)
    requires ValidDate(clock) && 1000 <= clock.year <= 9999
    ensures DaysUntil(EndOfCurrentMonthIso(clock), clock) == DaysInMonth(clock.year, clock.month) - clock.day
  {
    var last := Date(clock.year, clock.month, DaysInMonth(clock.year, clock.month));
    EndOfMonthDate(clock.year, clock.month);
    assert EndOfCurrentMonthIso(clock) == Ymd(last);
    DaysUntilDate(last, clock);
  }

  /** A goal date that is today, or already past, is 0 days away. */
  lemma PastGoalIsZero(d: Date, clock: Date)
    requires ValidDate(d) && 1000 <= d.year <= 9999
    requires ValidDate(clock) && !(0 <= clock.year <= 99)
    requires DayNumber(d) <= DayNumber(clock)
    ensures DaysUntil(Ymd(d), clock) == 0
  {
    DaysUntilDate(d, clock);
  }

  // ---- statistics ----

  /** The statistics the route answers with; fields the JSON may lack are options. */
  datatype Payload = Payload(
    total: int,
    byStatus: Option<map<string, nat>>,
    itemsByStatus: Option<map<string, seq<string>>>,
    filmartById: Option<map<string, string>>,
    lastUpdated: Option<string>)

  /** The item lists after `load`: the received lists, plus `[]` for each counted status without one. */
  function FillItems(items: map<string, seq<string>>, byStatus: map<string, nat>): (filled: map<string, seq<string>>)
    ensures filled.Keys == items.Keys + byStatus.Keys
    ensures forall k :: k in items ==> filled[k] == items[k]
    ensures forall k :: k in filled && k !in items ==> filled[k] == []
  {
    map k | k in items.Keys + byStatus.Keys :: if k in items then items[k] else []
  }

  /** The normalisation in `load`. */
  function Normalized(json: Payload): (r: Payload)
    ensures r.total == json.total && r.byStatus == json.byStatus && r.lastUpdated == json.lastUpdated
    ensures r.itemsByStatus.Some? && r.filmartById.Some?
    ensures json.byStatus.Some? ==> json.byStatus.value.Keys <= r.itemsByStatus.value.Keys
    ensures json.itemsByStatus.Some? ==> forall k :: k in json.itemsByStatus.value ==> k in r.itemsByStatus.value && r.itemsByStatus.value[k] == json.itemsByStatus.value[k]
    ensures forall k :: k in r.itemsByStatus.value ==> (json.itemsByStatus.Some? && k in json.itemsByStatus.value) || (r.itemsByStatus.value[k] == [] && json.byStatus.Some? && k in json.byStatus.value)
    ensures r.filmartById == Some(json.filmartById.GetOr(map[]))
  {
    json.(itemsByStatus := Some(FillItems(json.itemsByStatus.GetOr(map[]), json.byStatus.GetOr(map[]))),
          filmartById := Some(json.filmartById.GetOr(map[])))
  }

  /** Normalising twice changes nothing. */
  lemma NormalizedIdempotent(json: Payload)
    ensures Normalized(Normalized(json)) == json.(itemsByStatus := Normalized(json).itemsByStatus, filmartById := Normalized(json).filmartById)
    ensures Normalized(Normalized(json)) == Normalized(json)
  {
    var once := Normalized(json);
    var items := once.itemsByStatus.value;
    assert FillItems(items, json.byStatus.GetOr(map[])) == items;
  }

  /**
   * The component's state around the module-level cache: the statistics on
   * show, the error text, and `NOTION_STATS_CACHE`, which outlives the
   * component until a reload.
   */
  class VideoStatsView {
    var cache: Option<Payload>
    var stats: Option<Payload>
    var error: Option<string>
    var loading: bool

    constructor(cache: Option<Payload>)
      ensures this.cache == cache && stats == None && error == None && !loading
    {
      this.cache := cache;
      stats := None;
      error := None;
      loading := false;
    }

    /** The first mount shows the cached statistics if there are any, and asks for a fetch otherwise. */
    method Mount() returns (fetch: bool)
      modifies this
      ensures fetch <==> old(cache).None?
      ensures cache == old(cache) && error == old(error) && loading == old(loading)
      ensures stats == if old(cache).Some? then old(cache) else old(stats)
    {
      if cache.Some? {
        stats := cache;
        fetch := false;
      } else {
        fetch := true;
      }
    }

    /**
     * `load` once the request has settled: a payload is normalised, shown and
     * cached; a failure (a non-ok answer carries its text) only sets the error.
     */
    method Load(answer: Result<Payload, string>)
      modifies this
      ensures !loading
      ensures answer.Success? ==> stats == Some(Normalized(answer.value)) && cache == stats && error == None
      ensures answer.Failure? ==> stats == old(stats) && cache == old(cache) && error == Some(answer.error)
    {
      loading := true;
      error := None;
      match answer {
        case Success(json) =>
          var next := Normalized(json);
          cache := Some(next);
          stats := Some(next);
        case Failure(message) =>
          error := Some(message);
      }
      loading := false;
    }
  }

  // ---- totals and roll-ups ----

  const AllowedStatuses: seq<string> :=
    ["Copywriting", "Internal Review", "Ready for Filming", "Filmed", "Editing-Jakob", "Editing", "Scheduled"]

  /** `stats?.byStatus?.[s] ?? 0`. */
  function Count(stats: Option<Payload>, s: string): (n: nat)
    ensures n > 0 ==> stats.Some? && stats.value.byStatus.Some? && s in stats.value.byStatus.value
  {
    if stats.Some? && stats.value.byStatus.Some? && s in stats.value.byStatus.value
    then stats.value.byStatus.value[s] else 0
  }

  /** `totalShown`: the counts of the allowed statuses, added in their order. */
  function TotalShown(stats: Option<Payload>): (n: nat)
    ensures stats.None? ==> n == 0
    ensures forall s :: s in AllowedStatuses ==> Count(stats, s) <= n
  {
    if stats.None? then 0
    else
      Count(stats, "Copywriting") + Count(stats, "Internal Review") + Count(stats, "Ready for Filming")
      + Count(stats, "Filmed") + Count(stats, "Editing-Jakob") + Count(stats, "Editing") + Count(stats, "Scheduled")
  }

  /** A status outside the allowed list does not change the total shown. */
  lemma OtherStatusIgnored(stats: Payload, k: string, v: nat)
    requires stats.byStatus.Some? && k !in AllowedStatuses
    ensures TotalShown(Some(stats.(byStatus := Some(stats.byStatus.value[k := v])))) == TotalShown(Some(stats))
  {
    var after := stats.(byStatus := Some(stats.byStatus.value[k := v]));
    CountOtherKey(stats, after, k, "Copywriting");
    CountOtherKey(stats, after, k, "Internal Review");
    CountOtherKey(stats, after, k, "Ready for Filming");
    CountOtherKey(stats, after, k, "Filmed");
    CountOtherKey(stats, after, k, "Editing-Jakob");
    CountOtherKey(stats, after, k, "Editing");
    CountOtherKey(stats, after, k, "Scheduled");
  }

  lemma CountOtherKey(stats: Payload, after: Payload, k: string, s: string)
    requires stats.byStatus.Some? && after.byStatus.Some?
    requires forall x :: x != k ==> (x in after.byStatus.value <==> x in stats.byStatus.value)
    requires forall x :: x != k && x in stats.byStatus.value ==> after.byStatus.value[x] == stats.byStatus.value[x]
    requires s != k
    ensures Count(Some(after), s) == Count(Some(stats), s)
  {
  }

  /** `totalExclScheduled`: the days left minus what is already scheduled, never negative. */
  function TotalExclScheduled(stats: Option<Payload>, daysLeft: nat): (n: nat)
    ensures n <= daysLeft
    ensures stats.Some? && daysLeft >= Count(stats, "Scheduled") ==> n + Count(stats, "Scheduled") == daysLeft
    ensures stats.None? || daysLeft < Count(stats, "Scheduled") ==> n == 0
  {
    if stats.None? then 0
    else if daysLeft > Count(stats, "Scheduled") then daysLeft - Count(stats, "Scheduled") else 0
  }

  /** "To be scripted": the days left minus every video shown, never negative. */
  function ToBeScripted(stats: Option<Payload>, daysLeft: nat): (n: nat)
    ensures n <= daysLeft
    ensures n > 0 ==> n + TotalShown(stats) == daysLeft
    ensures n == 0 ==> daysLeft <= TotalShown(stats)
  {
    if daysLeft > TotalShown(stats) then daysLeft - TotalShown(stats) else 0
  }

  datatype Rollup = Rollup(toWrite: nat, toReview: nat, toFilm: nat, toEdit: nat, done: nat)

  function Remaining(total: nat, later: nat): nat {
    if total > later then total - later else 0
  }

  /**
   * The phase roll-ups: each box is the remaining total minus the videos
   * already past that phase, so the boxes never decrease along the pipeline,
   * and each one exceeds the previous by at most the videos in between.
   */
  function Phases(stats: Option<Payload>, daysLeft: nat): (r: Rollup)
    ensures r.toWrite <= r.toReview <= r.toFilm <= r.toEdit == TotalExclScheduled(stats, daysLeft)
    ensures r.toReview <= r.toWrite + Count(stats, "Internal Review")
    ensures r.toFilm <= r.toReview + Count(stats, "Ready for Filming")
    ensures r.toEdit <= r.toFilm + Count(stats, "Filmed") + Count(stats, "Editing-Jakob") + Count(stats, "Editing")
    ensures r.done == Count(stats, "Scheduled")
  {
    var t := TotalExclScheduled(stats, daysLeft);
    var editing := Count(stats, "Filmed") + Count(stats, "Editing-Jakob") + Count(stats, "Editing");
    Rollup(
      Remaining(t, Count(stats, "Internal Review") + Count(stats, "Ready for Filming") + editing),
      Remaining(t, Count(stats, "Ready for Filming") + editing),
      Remaining(t, editing),
      t,
      Count(stats, "Scheduled"))
  }

  /**
   * With statistics loaded, "to be scripted" never exceeds the "to write" box,
   * which exceeds it by at most the videos in copywriting.
   */
  lemma ScriptedWithinToWrite(stats: Payload, daysLeft: nat)
    ensures ToBeScripted(Some(stats), daysLeft) <= Phases(Some(stats), daysLeft).toWrite
    ensures Phases(Some(stats), daysLeft).toWrite <= ToBeScripted(Some(stats), daysLeft) + Count(Some(stats), "Copywriting")
  {
  }

  /** Before any statistics arrive every box is 0 and all the days left are still to be scripted. */
  lemma NoStatsYet(daysLeft: nat)
    ensures Phases(None, daysLeft) == Rollup(0, 0, 0, 0, 0)
    ensures ToBeScripted(None, daysLeft) == daysLeft
  {
  }
}
