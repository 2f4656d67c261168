/**
 * Assembly of the outreach payload: the Content and Outreach tabs are ingested
 * into one day map, bucketed into ISO weeks and finalised into the Merged tab,
 * which is sent with an empty Termine tab.
 */
module OutreachPayload {
  import opened Calendar
  import opened OutreachIngest
  import opened OutreachWeeks

  /** A projected tab by name; a tab missing from the batch reads as empty. */
  function TabOf(projected: map<string, Projected>, tab: string): (p: Projected)
    ensures tab !in projected ==> p == Projected("", [], [])
  {
    if tab in projected then projected[tab] else Projected("", [], [])
  }

  /** The Merged tab of the payload for the Content and Outreach tabs, given the day map and the weeks it was built from. */
  ghost predicate MergedFrom(content: Projected, outreach: Projected, current: WeekKey, headersOut: seq<string>,
                             out: seq<WeekAgg>, byDate: map<Date, DayPair>, weeks: seq<WeekAcc>) {
    && headersOut == MergedHeaders(content.headers, outreach.headers)
    && Ingested(byDate, content.rows, outreach.rows, |Tail(content.headers)|, |Tail(outreach.headers)|)
    && Bucketed(weeks, byDate, |Tail(content.headers)| + |Tail(outreach.headers)|)
    && out == FinalizeAll(weeks, headersOut, current)
  }

  /** The Merged tab is built from its parts: the headers, the day map, the weeks and their finalisation. */
  lemma MergedFromParts(content: Projected, outreach: Projected, current: WeekKey, headersOut: seq<string>,
                        out: seq<WeekAgg>, byDate: map<Date, DayPair>, weeks: seq<WeekAcc>, nC: nat, nO: nat)
    requires nC == |Tail(content.headers)| && nO == |Tail(outreach.headers)|
    requires headersOut == MergedHeaders(content.headers, outreach.headers)
    requires Ingested(byDate, content.rows, outreach.rows, nC, nO)
    requires Bucketed(weeks, byDate, nC + nO)
    requires out == FinalizeAll(weeks, headersOut, current)
    ensures MergedFrom(content, outreach, current, headersOut, out, byDate, weeks)
  {
  }

  /**
   * Both tabs ingested into one day map, the map bucketed into ISO weeks, and every week
   * rounded and coloured against the given headers.
   */
  method IngestAndBucket(contentRows: seq<seq<string>>, outreachRows: seq<seq<string>>, nC: nat, nO: nat,
                         headersOut: seq<string>, current: WeekKey)
    returns (out: seq<WeekAgg>, byDate: map<Date, DayPair>, weeks: seq<WeekAcc>)
    requires |headersOut| == nC + nO
    ensures Ingested(byDate, contentRows, outreachRows, nC, nO)
    ensures Bucketed(weeks, byDate, nC + nO)
    ensures out == FinalizeAll(weeks, headersOut, current)
    ensures AscendingWeeks(out) && ShapedWeeks(out, |headersOut|)
  {
    byDate := IngestBoth(contentRows, outreachRows, nC, nO);
    weeks := BucketWeeks(byDate, nC, nO);
    out := FinalizeAll(weeks, headersOut, current);
    FinalizedShape(weeks, headersOut, current, nC + nO);
  }

  /**
   * The Merged tab's columns and weeks: both tabs ingested by date, bucketed into ISO weeks in
   * ascending order and finalised against the current week. The day map and the weeks before
   * finalisation are returned as ghosts, to state what the weeks hold.
   */
  method MergedWeeks(content: Projected, outreach: Projected, current: WeekKey)
    returns (headersOut: seq<string>, out: seq<WeekAgg>, ghost byDate: map<Date, DayPair>, ghost weeks: seq<WeekAcc>)
    ensures MergedFrom(content, outreach, current, headersOut, out, byDate, weeks)
    ensures AscendingWeeks(out) && ShapedWeeks(out, |headersOut|)
  {
    headersOut := MergedHeaders(content.headers, outreach.headers);
    var nC, nO := |Tail(content.headers)|, |Tail(outreach.headers)|;
    out, byDate, weeks := IngestAndBucket(content.rows, outreach.rows, nC, nO, headersOut, current);
    MergedFromParts(content, outreach, current, headersOut, out, byDate, weeks, nC, nO);
  }

  /**
   * `fetchFromSheets` after the batch read: the value ranges, today's date (for the future-week test)
   * and the generation time stamp are parameters.
   */
  method FetchFromSheets(vrs: seq<ValueRange>, today: Date, generatedAt: string) returns (agg: ApiAgg)
    requires ValidDate(today)
    ensures |agg.tabs| == 2 && agg.generatedAt == generatedAt
    ensures var merged := agg.tabs[0];
            var content, outreach := TabOf(ProjectedOf(vrs), "Content"), TabOf(ProjectedOf(vrs), "Outreach");
            && merged.tab == "Merged"
            && merged.range == content.range + " | " + outreach.range
            && merged.headersOut == MergedHeaders(content.headers, outreach.headers)
            && (exists byDate, weeks :: MergedFrom(content, outreach, IsoWeekOf(today), merged.headersOut, merged.weeks, byDate, weeks))
            && AscendingWeeks(merged.weeks)
            && ShapedWeeks(merged.weeks, |merged.headersOut|)
    ensures agg.tabs[1] == TabAgg("Termine", TabOf(ProjectedOf(vrs), "Termine").range, [], [])
  {
    var projected := ProjectAll(vrs);
    var content, outreach := TabOf(projected, "Content"), TabOf(projected, "Outreach");
    var headersOut, out, byDate, weeks := MergedWeeks(content, outreach, IsoWeekOf(today));
    var mergedTab := TabAgg("Merged", content.range + " | " + outreach.range, headersOut, out);
    var termineTab := TabAgg("Termine", TabOf(projected, "Termine").range, [], []);
    agg := ApiAgg([mergedTab, termineTab], generatedAt);
  }
}
