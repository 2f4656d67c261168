/**
 * The daily-habit tab: an item tracks one habit over an inclusive range of days, with a mark per
 * day ('none', 'done', 'missed' or 'neutral'); the tab enumerates ranges, builds and edits items, and
 * tallies the marks up to today into counts and streaks.
 *
 * Days are civil dates rather than their `yyyy-mm-dd` text: for four-digit years the text order used
 * by the tab (`end < start`, `d > today`, the key sort) is the date order.
 */
module DailyInputs {
  import opened Wrappers
  import opened Text
  import opened Calendar

  /** The mark of one day; `Unmarked` is the tab's `'none'`. */
  datatype DayStatus = Unmarked | Done | Missed | Neutral

  datatype Row = Row(id: string, title: string, startDate: Date, endDate: Date, statuses: map<Date, DayStatus>)

  /** `d` is a day of the inclusive range from `s` to `e`. */
  predicate InRange(d: Date, s: Date, e: Date)
    requires ValidDate(s) && ValidDate(e)
  {
    ValidDate(d) && DayNumber(s) <= DayNumber(d) <= DayNumber(e)
  }

  /** `out` lists the days from `s` to `e` one after another: `e - s + 1` of them, none when `s` is after `e`. */
  predicate IsRange(out: seq<Date>, s: Date, e: Date)
    requires ValidDate(s) && ValidDate(e)
  {
    |out| == (if DayNumber(s) <= DayNumber(e) then DayNumber(e) - DayNumber(s) + 1 else 0)
    && forall i :: 0 <= i < |out| ==> ValidDate(out[i]) && DayNumber(out[i]) == DayNumber(s) + i
  }

  /** `daysBetween`: step one day at a time from `s` while the day is not after `e`. */
  method DaysBetween(s: Date, e: Date) returns (out: seq<Date>)
    requires ValidDate(s) && ValidDate(e)
    ensures IsRange(out, s, e)
  {
    out := [];
    var d := s;
    while DayNumber(d) <= DayNumber(e)
      invariant ValidDate(d) && DayNumber(d) == DayNumber(s) + |out|
      invariant out == [] || DayNumber(d) <= DayNumber(e) + 1
      invariant forall i :: 0 <= i < |out| ==> ValidDate(out[i]) && DayNumber(out[i]) == DayNumber(s) + i
      decreases DayNumber(e) - DayNumber(d)
    {
      out := out + [d];
      d := NextDay(d);
    }
  }

  /** A range holds exactly the days between its ends, each once and in order. */
  lemma RangeMembers(out: seq<Date>, s: Date, e: Date)
    requires ValidDate(s) && ValidDate(e) && IsRange(out, s, e)
    ensures forall d :: d in out <==> InRange(d, s, e)
    ensures StrictlySorted(out)
  {
    forall d | InRange(d, s, e) ensures d in out {
      var i := DayNumber(d) - DayNumber(s);
      assert 0 <= i < |out|;
      DayNumberOrder(out[i], d);
    }
    forall d | d in out ensures InRange(d, s, e) {
      var i :| 0 <= i < |out| && out[i] == d;
    }
  }

  /** The record `range.forEach(d => statuses[d] = 'none')` fills. */
  method UnmarkedDays(range: seq<Date>) returns (m: map<Date, DayStatus>)
    ensures forall d :: d in m <==> d in range
    ensures forall d :: d in m ==> m[d] == Unmarked
  {
    m := map[];
    var i := 0;
    while i < |range|
      invariant 0 <= i <= |range|
      invariant forall d :: d in m <==> d in range[..i]
      invariant forall d :: d in m ==> m[d] == Unmarked
    {
      assert range[..i + 1] == range[..i] + [range[i]];
      m := m[range[i] := Unmarked];
      i := i + 1;
    }
    assert range[..i] == range;
  }

  /** The record `for (const d of newRange) newStatuses[d] = row.statuses[d] ?? 'none'` fills. */
  method CarryOver(range: seq<Date>, previous: map<Date, DayStatus>) returns (m: map<Date, DayStatus>)
    ensures forall d :: d in m <==> d in range
    ensures forall d :: d in m ==> m[d] == if d in previous then previous[d] else Unmarked
  {
    m := map[];
    var i := 0;
    while i < |range|
      invariant 0 <= i <= |range|
      invariant forall d :: d in m <==> d in range[..i]
      invariant forall d :: d in m ==> m[d] == if d in previous then previous[d] else Unmarked
    {
      assert range[..i + 1] == range[..i] + [range[i]];
      var d := range[i];
      m := m[d := if d in previous then previous[d] else Unmarked];
      i := i + 1;
    }
    assert range[..i] == range;
  }

  /** The guard shared by adding and editing: a blank title, a missing date, or an end before the start. */
  predicate Rejected(title: string, start: Option<Date>, end: Option<Date>) {
    Trim(title) == "" || start.None? || end.None? || Before(end.value, start.value)
  }

  /**
   * `addItem` up to the insert: unless the guard rejects the input, a temporary item whose every day is
   * unmarked is put in front of the list. `now` is the clock reading of `Date.now()`.
   */
  method AddItem(items: seq<Row>, title: string, start: Option<Date>, end: Option<Date>, now: nat)
    returns (r: seq<Row>)
    requires start.Some? ==> ValidDate(start.value)
    requires end.Some? ==> ValidDate(end.value)
    ensures Rejected(title, start, end) ==> r == items
    ensures !Rejected(title, start, end) ==>
      |r| == |items| + 1 && r[1..] == items
      && r[0].id == "tmp-" + IntToString(now) && r[0].title == Trim(title)
      && r[0].startDate == start.value && r[0].endDate == end.value
      && (forall d :: d in r[0].statuses <==> InRange(d, start.value, end.value))
      && (forall d :: d in r[0].statuses ==> r[0].statuses[d] == Unmarked)
  {
    if Rejected(title, start, end) {
      return items;
    }
    var range := DaysBetween(start.value, end.value);
    RangeMembers(range, start.value, end.value);
    var statuses := UnmarkedDays(range);
    var temp := Row("tmp-" + IntToString(now), Trim(title), start.value, end.value, statuses);
    r := [temp] + items;
  }

  /** `list.filter(i => i.id !== id)`. */
  function RemoveItem(items: seq<Row>, id: string): (r: seq<Row>)
    ensures forall x :: x in r <==> x in items && x.id != id
    ensures |r| + CountId(items, id) == |items|
  {
    if items == [] then []
    else
      var rest := RemoveItem(items[1..], id);
      assert forall x :: x in items <==> x == items[0] || x in items[1..];
      if items[0].id == id then rest else [items[0]] + rest
  }

  /** The number of items carrying `id`. */
  function CountId(items: seq<Row>, id: string): nat {
    if items == [] then 0 else (if items[0].id == id then 1 else 0) + CountId(items[1..], id)
  }

  /** Removing an id no item carries changes nothing. */
  lemma {:induction false} RemoveAbsent(items: seq<Row>, id: string)
    requires forall i :: 0 <= i < |items| ==> items[i].id != id
    ensures RemoveItem(items, id) == items
  {
    if items != [] {
      RemoveAbsent(items[1..], id);
    }
  }

  /** Removing from a joined list removes from each part. */
  lemma {:induction false} RemoveAppend(a: seq<Row>, b: seq<Row>, id: string)
    ensures RemoveItem(a + b, id) == RemoveItem(a, id) + RemoveItem(b, id)
  {
    if a == [] {
      assert a + b == b;
    } else {
      assert (a + b)[0] == a[0] && (a + b)[1..] == a[1..] + b;
      RemoveAppend(a[1..], b, id);
      if a[0].id != id {
        assert [a[0]] + (RemoveItem(a[1..], id) + RemoveItem(b, id))
            == ([a[0]] + RemoveItem(a[1..], id)) + RemoveItem(b, id);
      }
    }
  }

  /** Removing from one item: it goes exactly when it carries the id. */
  lemma RemoveOne(row: Row, id: string)
    ensures row.id == id ==> RemoveItem([row], id) == []
    ensures row.id != id ==> RemoveItem([row], id) == [row]
  {
    assert [row][1..] == [];
    assert RemoveItem([], id) == [];
  }

  /**
   * The settlement of `addItem`'s insert: the temporary item leaves the list, and the stored row, if
   * the insert returned one, goes in front.
   */
  function SettleAdd(list: seq<Row>, tempId: string, stored: Option<Row>): (r: seq<Row>)
    ensures stored.None? ==> r == RemoveItem(list, tempId)
    ensures stored.Some? ==> r == [stored.value] + RemoveItem(list, tempId)
  {
    match stored
    case None => RemoveItem(list, tempId)
    case Some(row) => [row] + RemoveItem(list, tempId)
  }

  /** A failed insert puts the list back as it was before the temporary item, unless an item already had its id. */
  lemma FailedAddRestores(items: seq<Row>, temp: Row)
    requires forall i :: 0 <= i < |items| ==> items[i].id != temp.id
    ensures SettleAdd([temp] + items, temp.id, None) == items
  {
    assert ([temp] + items)[1..] == items;
    RemoveAbsent(items, temp.id);
  }

  /** `items.find(i => i.id === id)`: the position of the first item with the id. */
  function FindIndex(items: seq<Row>, id: string): (r: Option<nat>)
    ensures r.None? <==> forall i :: 0 <= i < |items| ==> items[i].id != id
    ensures r.Some? ==> r.value < |items| && items[r.value].id == id
                        && forall j :: 0 <= j < r.value ==> items[j].id != id
  {
    if items == [] then None
    else if items[0].id == id then Some(0)
    else
      var r := FindIndex(items[1..], id);
      assert forall i :: 1 <= i < |items| ==> items[i] == items[1..][i - 1];
      if r.None? then None else Some(r.value + 1)
  }

  predicate UniqueIds(items: seq<Row>) {
    forall i, j :: 0 <= i < j < |items| ==> items[i].id != items[j].id
  }

  /** `list.map(i => i.id === id ? row : i)`, the replacement `updateItem` and both rollbacks use. */
  function ReplaceById(items: seq<Row>, id: string, row: Row): (r: seq<Row>)
    ensures |r| == |items|
    ensures forall i :: 0 <= i < |items| ==> r[i] == if items[i].id == id then row else items[i]
  {
    seq(|items|, i requires 0 <= i < |items| => if items[i].id == id then row else items[i])
  }

  /**
   * `setStatus` optimistically: the first item with the id lends its marks, with `day` set to `status`,
   * to every item with that id; an unknown id changes nothing.
   */
  function SetStatus(items: seq<Row>, id: string, day: Date, status: DayStatus): (r: seq<Row>)
    ensures |r| == |items|
    ensures FindIndex(items, id).None? ==> r == items
    ensures forall i :: 0 <= i < |items| && items[i].id != id ==> r[i] == items[i]
    ensures forall i :: 0 <= i < |items| && items[i].id == id ==>
              r[i].id == id && r[i].title == items[i].title
              && r[i].startDate == items[i].startDate && r[i].endDate == items[i].endDate
              && day in r[i].statuses && r[i].statuses[day] == status
  {
    match FindIndex(items, id)
    case None => items
    case Some(k) =>
      var next := items[k].statuses[day := status];
      seq(|items|, i requires 0 <= i < |items| => if items[i].id != id then items[i] else items[i].(statuses := next))
  }

  /** With unique ids, setting a mark changes that one day of that one item and nothing else. */
  lemma SetStatusOnlyThatDay(items: seq<Row>, id: string, day: Date, status: DayStatus, i: nat)
    requires UniqueIds(items) && i < |items| && items[i].id == id
    ensures SetStatus(items, id, day, status)[i] == items[i].(statuses := items[i].statuses[day := status])
  {
    var k := FindIndex(items, id).value;
    assert k == i;
  }

  /** With unique ids, the rollback of a failed `setStatus` restores the list. */
  lemma SetStatusRollback(items: seq<Row>, id: string, day: Date, status: DayStatus, k: nat)
    requires UniqueIds(items) && k < |items| && items[k].id == id
    ensures ReplaceById(SetStatus(items, id, day, status), id, items[k]) == items
  {
    var r := ReplaceById(SetStatus(items, id, day, status), id, items[k]);
    forall i | 0 <= i < |items| ensures r[i] == items[i] {
      assert items[i].id == id ==> i == k;
    }
  }

  /** `next` is `row` edited to the title and range, its marks carried over for the days both ranges share. */
  ghost predicate Edited(row: Row, next: Row, title: string, s: Date, e: Date)
    requires ValidDate(s) && ValidDate(e)
  {
    next.id == row.id && next.title == title && next.startDate == s && next.endDate == e
    && (forall d :: d in next.statuses <==> InRange(d, s, e))
    && forall d :: d in next.statuses ==> next.statuses[d] == if d in row.statuses then row.statuses[d] else Unmarked
  }

  /**
   * `updateItem` optimistically: unless the guard rejects the input or no item has the id, every item
   * with the id becomes the first one edited; the rollback is `ReplaceById` with that first item.
   */
  method UpdateItem(items: seq<Row>, id: string, title: string, start: Option<Date>, end: Option<Date>)
    returns (r: seq<Row>)
    requires start.Some? ==> ValidDate(start.value)
    requires end.Some? ==> ValidDate(end.value)
    ensures Rejected(title, start, end) || FindIndex(items, id).None? ==> r == items
    ensures !Rejected(title, start, end) && FindIndex(items, id).Some? ==>
      |r| == |items|
      && forall i :: 0 <= i < |items| ==>
           if items[i].id == id then Edited(items[FindIndex(items, id).value], r[i], Trim(title), start.value, end.value)
           else r[i] == items[i]
  {
    if Rejected(title, start, end) {
      return items;
    }
    var k := FindIndex(items, id);
    if k.None? {
      return items;
    }
    var row := items[k.value];
    var range := DaysBetween(start.value, end.value);
    RangeMembers(range, start.value, end.value);
    var statuses := CarryOver(range, row.statuses);
    var next := row.(title := Trim(title), startDate := start.value, endDate := end.value, statuses := statuses);
    assert Edited(row, next, Trim(title), start.value, end.value);
    r := ReplaceById(items, id, next);
    forall i | 0 <= i < |items| && items[i].id == id
      ensures Edited(items[k.value], r[i], Trim(title), start.value, end.value)
    {
      assert r[i] == next;
    }
  }

  /** An edit that keeps an item's range keeps every mark of an item whose marks cover exactly that range. */
  lemma SameRangeKeepsMarks(row: Row, next: Row, title: string)
    requires ValidDate(row.startDate) && ValidDate(row.endDate)
    requires forall d :: d in row.statuses <==> InRange(d, row.startDate, row.endDate)
    requires Edited(row, next, title, row.startDate, row.endDate)
    ensures next.statuses == row.statuses
  {
  }

  // ---- calcStats ----

  /** The tally of `calcStats`. */
  datatype Stats = Stats(done: nat, missed: nat, neutral: nat, total: nat, elapsed: nat, remaining: nat,
                         currentStreak: nat, longestStreak: nat)

  /** Every day has a mark. */
  predicate Known(days: seq<Date>, statuses: map<Date, DayStatus>) {
    forall i :: 0 <= i < |days| ==> days[i] in statuses
  }

  /** The `i`-th day counts: it is not after `today` (`d > today` on `yyyy-mm-dd` text). */
  predicate Counts(days: seq<Date>, statuses: map<Date, DayStatus>, today: Date, i: nat)
    requires i < |days|
  {
    !Before(today, days[i])
  }

  /** The number of counting days among the first `n` whose mark is `x`. */
  function CountOf(days: seq<Date>, statuses: map<Date, DayStatus>, today: Date, n: nat, x: DayStatus): (c: nat)
    requires n <= |days| && Known(days, statuses)
    ensures c <= n
  {
    if n == 0 then 0
    else CountOf(days, statuses, today, n - 1, x)
         + (if Counts(days, statuses, today, n - 1) && statuses[days[n - 1]] == x then 1 else 0)
  }

  /** The number of counting days among the first `n` that carry a mark other than `Unmarked`. */
  function MarkedCount(days: seq<Date>, statuses: map<Date, DayStatus>, today: Date, n: nat): (c: nat)
    requires n <= |days| && Known(days, statuses)
    ensures c <= n
  {
    if n == 0 then 0
    else MarkedCount(days, statuses, today, n - 1)
         + (if Counts(days, statuses, today, n - 1) && statuses[days[n - 1]] != Unmarked then 1 else 0)
  }

  /**
   * The streak after the first `n` days: a counting `Done` or `Neutral` day extends it, a counting
   * `Missed` day ends it, an `Unmarked` day and a day after `today` are passed over.
   */
  function StreakAt(days: seq<Date>, statuses: map<Date, DayStatus>, today: Date, n: nat): nat
    requires n <= |days| && Known(days, statuses)
  {
    if n == 0 then 0
    else
      var before := StreakAt(days, statuses, today, n - 1);
      if !Counts(days, statuses, today, n - 1) then before
      else match statuses[days[n - 1]]
           case Missed => 0
           case Unmarked => before
           case _ => before + 1
  }

  /** The longest streak within the first `n` days: the largest streak after some prefix. */
  function LongestStreak(days: seq<Date>, statuses: map<Date, DayStatus>, today: Date, n: nat): (r: nat)
    requires n <= |days| && Known(days, statuses)
    ensures StreakAt(days, statuses, today, n) <= r
  {
    if n == 0 then 0
    else
      var before := LongestStreak(days, statuses, today, n - 1);
      var now := StreakAt(days, statuses, today, n);
      if before < now then now else before
  }

  /** The forward loop of `calcStats`: the counts, the marked days and the longest streak, skipping future days. */
  method ForwardPass(days: seq<Date>, statuses: map<Date, DayStatus>, today: Date)
    returns (done: nat, missed: nat, neutral: nat, elapsed: nat, longest: nat)
    requires Known(days, statuses)
    ensures done == CountOf(days, statuses, today, |days|, Done)
    ensures missed == CountOf(days, statuses, today, |days|, Missed)
    ensures neutral == CountOf(days, statuses, today, |days|, Neutral)
    ensures elapsed == MarkedCount(days, statuses, today, |days|)
    ensures longest == LongestStreak(days, statuses, today, |days|)
  {
    done, missed, neutral, elapsed := 0, 0, 0, 0;
    longest := 0;
    var run := 0;
    var i := 0;
    while i < |days|
      invariant 0 <= i <= |days|
      invariant done == CountOf(days, statuses, today, i, Done)
      invariant missed == CountOf(days, statuses, today, i, Missed)
      invariant neutral == CountOf(days, statuses, today, i, Neutral)
      invariant elapsed == MarkedCount(days, statuses, today, i)
      invariant run == StreakAt(days, statuses, today, i)
      invariant longest == LongestStreak(days, statuses, today, i)
    {
      var d := days[i];
      var mark := statuses[d];
      if Before(today, d) {
        i := i + 1;
        continue;
      }
      if mark != Unmarked {
        elapsed := elapsed + 1;
      }
      if mark == Done {
        done := done + 1;
        run := run + 1;
      } else if mark == Neutral {
        neutral := neutral + 1;
        run := run + 1;
      } else if mark == Missed {
        missed := missed + 1;
        run := 0;
      }
      longest := if longest < run then run else longest;
      i := i + 1;
    }
  }

  /** The backward walk of `calcStats`: from the last day back to the first miss, skipping future days. */
  method CurrentStreak(days: seq<Date>, statuses: map<Date, DayStatus>, today: Date) returns (current: nat)
    requires Known(days, statuses)
    ensures current == StreakAt(days, statuses, today, |days|)
  {
    current := 0;
    var j := |days|;
    while j > 0
      invariant 0 <= j <= |days|
      invariant StreakAt(days, statuses, today, |days|) == StreakAt(days, statuses, today, j) + current
    {
      var d := days[j - 1];
      if Before(today, d) {
        j := j - 1;
        continue;
      }
      var mark := statuses[d];
      if mark == Done || mark == Neutral {
        current := current + 1;
      } else if mark == Missed {
        break;
      }
      j := j - 1;
    }
  }

  /** Both loops of `calcStats` over the sorted days, and the totals. */
  method Tally(days: seq<Date>, statuses: map<Date, DayStatus>, today: Date) returns (st: Stats)
    requires Known(days, statuses)
    ensures var n := |days|;
            var marked := MarkedCount(days, statuses, today, n);
            st == Stats(CountOf(days, statuses, today, n, Done), CountOf(days, statuses, today, n, Missed),
                        CountOf(days, statuses, today, n, Neutral), n, marked, n - marked,
                        StreakAt(days, statuses, today, n), LongestStreak(days, statuses, today, n))
  {
    var done, missed, neutral, elapsed, longest := ForwardPass(days, statuses, today);
    var current := CurrentStreak(days, statuses, today);
    st := Stats(done, missed, neutral, |days|, elapsed, if |days| < elapsed then 0 else |days| - elapsed, current, longest);
  }

  /** The marked days are the done, missed and neutral ones. */
  lemma {:induction false} MarkedIsSum(days: seq<Date>, statuses: map<Date, DayStatus>, today: Date, n: nat)
    requires n <= |days| && Known(days, statuses)
    ensures MarkedCount(days, statuses, today, n)
            == CountOf(days, statuses, today, n, Done) + CountOf(days, statuses, today, n, Missed)
               + CountOf(days, statuses, today, n, Neutral)
  {
    if n > 0 {
      MarkedIsSum(days, statuses, today, n - 1);
    }
  }

  /** No streak is longer than the number of done and neutral days. */
  lemma {:induction false} LongestBelowCounts(days: seq<Date>, statuses: map<Date, DayStatus>, today: Date, n: nat)
    requires n <= |days| && Known(days, statuses)
    ensures StreakAt(days, statuses, today, n)
            <= CountOf(days, statuses, today, n, Done) + CountOf(days, statuses, today, n, Neutral)
    ensures LongestStreak(days, statuses, today, n)
            <= CountOf(days, statuses, today, n, Done) + CountOf(days, statuses, today, n, Neutral)
  {
    if n > 0 {
      LongestBelowCounts(days, statuses, today, n - 1);
    }
  }

  /** A miss on a counting day resets the streak, whatever came before it. */
  lemma MissResets(days: seq<Date>, statuses: map<Date, DayStatus>, today: Date, n: nat)
    requires 0 < n <= |days| && Known(days, statuses)
    requires Counts(days, statuses, today, n - 1) && statuses[days[n - 1]] == Missed
    ensures StreakAt(days, statuses, today, n) == 0
  {
  }

  /** A strictly increasing list of dates has as many entries as the set it lists. */
  lemma {:induction false} SortedCardinality(r: seq<Date>, s: set<Date>)
    requires StrictlySorted(r) && forall d :: d in r <==> d in s
    ensures |r| == |s|
  {
    if r != [] {
      var last := r[|r| - 1];
      var init := r[..|r| - 1];
      forall d | d in s - {last} ensures d in init {
        var i :| 0 <= i < |r| && r[i] == d;
        assert i != |r| - 1;
      }
      forall d | d in init ensures d in s - {last} {
        var i :| 0 <= i < |init| && init[i] == d;
        assert DayNumber(r[i]) < DayNumber(last);
      }
      SortedCardinality(init, s - {last});
    }
  }

  /**
   * Marks on days after `today` change nothing: two mark maps that agree on every counting day among
   * the first `n` give the same counts and streaks.
   */
  lemma {:induction false} FutureMarksIgnored(days: seq<Date>, a: map<Date, DayStatus>, b: map<Date, DayStatus>,
                                              today: Date, n: nat)
    requires n <= |days| && Known(days, a) && Known(days, b)
    requires forall i :: 0 <= i < n && Counts(days, a, today, i) ==> a[days[i]] == b[days[i]]
    ensures forall x :: CountOf(days, a, today, n, x) == CountOf(days, b, today, n, x)
    ensures MarkedCount(days, a, today, n) == MarkedCount(days, b, today, n)
    ensures StreakAt(days, a, today, n) == StreakAt(days, b, today, n)
    ensures LongestStreak(days, a, today, n) == LongestStreak(days, b, today, n)
  {
    if n > 0 {
      FutureMarksIgnored(days, a, b, today, n - 1);
    }
  }

  /**
   * `calcStats`: the days sorted, then tallied up to `today` (the UTC date of the clock). `days` are the
   * marked dates in ascending order, and the tally is that of the counting days among them. The marked
   * days split into done, missed and neutral ones and are at most all days; `remaining` is the rest; the
   * current streak is at most the longest, which is at most the done and neutral days.
   */
  method CalcStats(statuses: map<Date, DayStatus>, today: Date) returns (st: Stats, ghost days: seq<Date>)
    requires forall d :: d in statuses ==> ValidDate(d)
    ensures StrictlySorted(days) && forall d :: d in days <==> d in statuses
    ensures var n := |days|;
            var marked := MarkedCount(days, statuses, today, n);
            st == Stats(CountOf(days, statuses, today, n, Done), CountOf(days, statuses, today, n, Missed),
                        CountOf(days, statuses, today, n, Neutral), n, marked, n - marked,
                        StreakAt(days, statuses, today, n), LongestStreak(days, statuses, today, n))
    ensures st.total == |statuses|
    ensures st.done + st.missed + st.neutral == st.elapsed <= st.total
    ensures st.remaining == st.total - st.elapsed
    ensures st.currentStreak <= st.longestStreak <= st.done + st.neutral
  {
    var sorted := SortDates(statuses.Keys);
    SortedCardinality(sorted, statuses.Keys);
    st := Tally(sorted, statuses, today);
    MarkedIsSum(sorted, statuses, today, |sorted|);
    LongestBelowCounts(sorted, statuses, today, |sorted|);
    days := sorted;
  }
}
