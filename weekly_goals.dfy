/**
 * Goal sets by week range (`GOAL_SETS`, `getGoalsForWeek`, `isGoalKey`): a week is named by the
 * number `year * 100 + week`, each goal set applies from one week to another (both included) or
 * from one week on, and a week gets the goals of the first set whose range holds it.
 */
module WeeklyGoalRanges {
  import opened Wrappers
  import opened Calendar

  /** `WeekId`: ISO year and week written as `year * 100 + week`. */
  function WeekId(k: WeekKey): int {
    k.year * 100 + k.week
  }

  datatype GoalSet = GoalSet(fromWeek: int, toWeek: Option<int>, goals: map<string, int>)

  /** `GOAL_SETS`: weeks 2025-W30 to 2025-W52, then 2026-W01 onwards. */
  const GoalSets: seq<GoalSet> := [
    GoalSet(202530, Some(202552), map[
      "Connections" := 200, "Posts" := 5, "Comments" := 25,
      "LI_Erstnachricht" := 75, "LI_FollowUp" := 75, "UW_Proposals" := 25]),
    GoalSet(202601, None, map[
      "Connections" := 300, "Posts" := 10, "Comments" := 40,
      "LI_Erstnachricht" := 100, "LI_FollowUp" := 100, "UW_Proposals" := 30])
  ]

  /** The range test of the `find` callback: from the first week on, up to the last one if there is one. */
  predicate Covers(s: GoalSet, w: int) {
    w >= s.fromWeek && (s.toWeek.None? || w <= s.toWeek.value)
  }

  /** `GOAL_SETS.find(...)`: the position of the first set covering `w`. */
  function FirstCovering(sets: seq<GoalSet>, w: int): (r: Option<nat>)
    ensures r.None? <==> forall i :: 0 <= i < |sets| ==> !Covers(sets[i], w)
    ensures r.Some? ==> r.value < |sets| && Covers(sets[r.value], w)
                        && forall j :: 0 <= j < r.value ==> !Covers(sets[j], w)
    decreases |sets|
  {
    if sets == [] then None
    else if Covers(sets[0], w) then Some(0)
    else
      var r := FirstCovering(sets[1..], w);
      assert forall i :: 1 <= i < |sets| ==> sets[i] == sets[1..][i - 1];
      if r.None? then None else Some(r.value + 1)
  }

  /** `getGoalsForWeek` over a list of goal sets: the goals of the first covering set, or none at all. */
  function GoalsFor(sets: seq<GoalSet>, w: int): (g: map<string, int>)
    ensures (forall i :: 0 <= i < |sets| ==> !Covers(sets[i], w)) ==> g == map[]
  {
    var r := FirstCovering(sets, w);
    if r.Some? then sets[r.value].goals else map[]
  }

  function GetGoalsForWeek(w: int): map<string, int> {
    GoalsFor(GoalSets, w)
  }

  /** `isGoalKey` over a list of goal sets: some set has the name as a key. */
  function HasGoalKey(sets: seq<GoalSet>, name: string): (b: bool)
    ensures b <==> exists i :: 0 <= i < |sets| && name in sets[i].goals
    decreases |sets|
  {
    if sets == [] then false
    else
      var rest := HasGoalKey(sets[1..], name);
      assert forall i :: 1 <= i < |sets| ==> sets[i] == sets[1..][i - 1];
      assert rest ==> exists i :: 1 <= i < |sets| && name in sets[i].goals;
      name in sets[0].goals || rest
  }

  function IsGoalKey(name: string): bool {
    HasGoalKey(GoalSets, name)
  }

  /** Both ends of a range are part of it. */
  lemma RangeEndsIncluded(s: GoalSet)
    ensures Covers(s, s.fromWeek) || (s.toWeek.Some? && s.toWeek.value < s.fromWeek)
    ensures s.toWeek.Some? && s.fromWeek <= s.toWeek.value ==> Covers(s, s.toWeek.value)
  {
  }

  /** The shipped ranges never overlap, so the first covering set is the only one. */
  lemma ShippedRangesDisjoint(w: int)
    ensures !(Covers(GoalSets[0], w) && Covers(GoalSets[1], w))
  {
  }

  /** A week the second set covers gets its goals even though it is listed second. */
  lemma SecondRegime(w: int)
    requires w >= 202601
    ensures GetGoalsForWeek(w) == GoalSets[1].goals
  {
    assert !Covers(GoalSets[0], w);
    assert Covers(GoalSets[1], w);
  }

  lemma FirstRegime(w: int)
    requires 202530 <= w <= 202552
    ensures GetGoalsForWeek(w) == GoalSets[0].goals
  {
    assert Covers(GoalSets[0], w);
  }

  /** Weeks before 2025-W30, and the numbers between 202552 and 202601, have no goals. */
  lemma NoGoalsOutsideRanges(w: int)
    requires w < 202530 || 202552 < w < 202601
    ensures GetGoalsForWeek(w) == map[]
  {
    assert !Covers(GoalSets[0], w) && !Covers(GoalSets[1], w);
  }

  /** For ISO weeks of four-digit years the week id orders weeks as (year, week) does. */
  lemma WeekIdOrder(a: WeekKey, b: WeekKey)
    requires 1 <= a.week <= 53 && 1 <= b.week <= 53
    ensures WeekBefore(a, b) <==> WeekId(a) < WeekId(b)
  {
    if a.year < b.year {
      assert a.year * 100 + 100 <= b.year * 100;
    } else if b.year < a.year {
      assert b.year * 100 + 100 <= a.year * 100;
    }
  }

  /** Every ISO week of 2026 or later is in the second regime, every 2025 week from W30 in the first. */
  lemma IsoWeeksByRegime(k: WeekKey)
    requires 1 <= k.week <= 53
    ensures k.year >= 2026 ==> GetGoalsForWeek(WeekId(k)) == GoalSets[1].goals
    ensures k.year == 2025 && 30 <= k.week <= 52 ==> GetGoalsForWeek(WeekId(k)) == GoalSets[0].goals
  {
    if k.year >= 2026 {
      assert WeekId(k) >= 202601;
      SecondRegime(WeekId(k));
    } else if k.year == 2025 && 30 <= k.week <= 52 {
      FirstRegime(WeekId(k));
    }
  }

  /** The goal keys are exactly the six column names both sets share. */
  lemma GoalKeys(name: string)
    ensures IsGoalKey(name) <==> name in {"Connections", "Posts", "Comments", "LI_Erstnachricht", "LI_FollowUp", "UW_Proposals"}
  {
  }
}
