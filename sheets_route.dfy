/**
 * The revenue sheet route (`GET` of the google-sheets API): the year comes from the query or the
 * clock, a year without a configured spreadsheet id is refused with status 500, and otherwise the
 * per-year cache decides between its entry, the fetch in flight and a new fetch; a failed fetch without
 * a stale entry is answered with status 502.
 *
 * The route is modelled as two steps around the fetch: `Get` up to the fetch, `FetchDone` after it.
 */
module SheetsRoute {
  import opened Wrappers
  import opened Text
  import opened YearCache

  /** A reply of the route; `Unhandled` is an error that escapes the handler. */
  datatype Response = Json(data: ValuesResponse) | Plain(status: int, body: string) | Unhandled(message: string)

  /** Where `Get` stops: with a reply, waiting for the year's fetch in flight, or starting a fetch. */
  datatype GetStep = Respond(response: Response) | Await(year: string) | Fetch(year: string, spreadsheetId: string)

  /** `searchParams.get('year') ?? String(new Date().getFullYear())`. */
  function RequestYear(query: Option<string>, currentYear: int): (year: string)
    ensures query.Some? ==> year == query.value
    ensures query.None? ==> year == IntToString(currentYear)
  {
    match query
    case Some(y) => y
    case None => IntToString(currentYear)
  }

  /** `SHEETS_BY_YEAR[year]` passed through `!spreadsheetId`: only 2025 and 2026 can have an id, and never an empty one. */
  function SpreadsheetId(year: string, id2025: Option<string>, id2026: Option<string>): (id: Option<string>)
    ensures id.Some? ==> id.value != "" && (year == "2025" || year == "2026")
    ensures year == "2025" && id2025.Some? && id2025.value != "" ==> id == id2025
    ensures year == "2026" && id2026.Some? && id2026.value != "" ==> id == id2026
  {
    var configured := if year == "2025" then id2025 else if year == "2026" then id2026 else None;
    if configured.Some? && configured.value != "" then configured else None
  }

  /** The step a cache decision leads to. */
  function StepOf(d: Decision, year: string, spreadsheetId: string): GetStep {
    match d
    case Served(data) => Respond(Json(data))
    case Joined => Await(year)
    case Started => Fetch(year, spreadsheetId)
  }

  /** The text of the error the fetch throws when no stale entry saves it. */
  function SheetsError(message: string): string {
    "Google Sheets error: " + message
  }

  /** The reply of the call that ran the fetch: the payload, the stale entry, or status 502. */
  function FetchResponse(outcome: Result<ValuesResponse, string>, stale: Option<ValuesResponse>): (r: Response)
    ensures r.Plain? <==> outcome.Failure? && stale.None?
    ensures r.Plain? ==> r.status == 502 && r.body == SheetsError(outcome.error)
    ensures outcome.Success? ==> r == Json(outcome.value)
    ensures outcome.Failure? && stale.Some? ==> r == Json(stale.value)
  {
    match outcome
    case Success(payload) => Json(payload)
    case Failure(message) =>
      if stale.Some? then Json(stale.value) else Plain(502, SheetsError(message))
  }

  /** The reply of a call that waited for another call's fetch: its value, or its error escaping the handler. */
  function AwaitResponse(outcome: Result<ValuesResponse, string>, stale: Option<ValuesResponse>): (r: Response)
    ensures !r.Plain?
    ensures outcome.Failure? && stale.None? ==> r == Unhandled(SheetsError(outcome.error))
  {
    match FetchResponse(outcome, stale)
    case Plain(_, body) => Unhandled(body)
    case other => other
  }

  class Route {
    const id2025: Option<string>
    const id2026: Option<string>
    const cache: RevenueCache

    constructor (id2025: Option<string>, id2026: Option<string>, freshTtl: Ttl, staleTtl: Ttl)
      ensures this.id2025 == id2025 && this.id2026 == id2026
      ensures fresh(cache) && cache.freshTtl == freshTtl && cache.staleTtl == staleTtl
      ensures cache.entries == map[] && cache.inflight == map[]
    {
      this.id2025 := id2025;
      this.id2026 := id2026;
      cache := new RevenueCache(freshTtl, staleTtl);
    }

    /** `GET` up to the fetch. */
    method Get(query: Option<string>, currentYear: int, now: int) returns (step: GetStep)
      modifies cache
      ensures var year := RequestYear(query, currentYear);
              var id := SpreadsheetId(year, id2025, id2026);
              if id.None? then
                step == Respond(Plain(500, "Missing sheet ID for year " + year))
                && cache.entries == old(cache.entries) && cache.inflight == old(cache.inflight)
              else
                var d := Decide(old(cache.entries), old(cache.inflight), year, now, cache.freshTtl);
                step == StepOf(d, year, id.value)
                && cache.entries == old(cache.entries)
                && cache.inflight == (if d.Started? then old(cache.inflight)[year := now] else old(cache.inflight))
    {
      var year := RequestYear(query, currentYear);
      var id := SpreadsheetId(year, id2025, id2026);
      if id.None? {
        step := Respond(Plain(500, "Missing sheet ID for year " + year));
      } else {
        var d := cache.Request(year, now);
        step := StepOf(d, year, id.value);
      }
    }

    /** `GET` after the fetch it started has settled: the cache is updated and the reply built. */
    method FetchDone(year: string, outcome: Result<ValuesResponse, string>, completedAt: int) returns (r: Response)
      requires year in cache.inflight
      modifies cache
      ensures r == FetchResponse(outcome, StaleFallback(old(cache.entries), year, old(cache.inflight)[year], cache.staleTtl))
      ensures cache.entries == if outcome.Success? then old(cache.entries)[year := Entry(outcome.value, completedAt)]
                               else old(cache.entries)
      ensures cache.inflight == old(cache.inflight) - {year}
    {
      if outcome.Success? {
        cache.Succeed(year, outcome.value, completedAt);
        r := Json(outcome.value);
      } else {
        var stale := cache.Fail(year);
        r := if stale.Some? then Json(stale.value) else Plain(502, SheetsError(outcome.error));
      }
    }
  }

  /** A year without a configured id is refused with 500, before the cache is looked at. */
  lemma UnconfiguredYearRefused(year: string, id2025: Option<string>, id2026: Option<string>)
    requires year != "2025" && year != "2026"
    ensures SpreadsheetId(year, id2025, id2026).None?
  {
  }

  /** An empty id counts as missing. */
  lemma EmptyIdRefused(id2026: Option<string>)
    ensures SpreadsheetId("2025", Some(""), id2026).None?
  {
  }

  /** Without a query parameter the year is the current calendar year, written out in digits. */
  lemma DefaultYear()
    ensures RequestYear(None, 2026) == "2026"
  {
    assert NatToString(2) == "2";
    assert NatToString(20) == NatToString(2) + [DigitChar(0)];
    assert NatToString(202) == NatToString(20) + [DigitChar(2)];
    assert NatToString(2026) == NatToString(202) + [DigitChar(6)];
  }

  /** A failed fetch with no stale entry is status 502 whose body names the sheet error. */
  lemma FailureIs502(message: string)
    ensures FetchResponse(Failure(message), None) == Plain(502, "Google Sheets error: " + message)
  {
  }

  /** The first call for a configured year starts the fetch, a second one waits, and the fetched data is then served. */
  method FirstCallFetches(id: string, freshMs: real, now1: int, now2: int, payload: ValuesResponse, done: int, now3: int)
    returns (first: GetStep, second: GetStep, reply: Response, third: GetStep)
    requires id != "" && ((now3 - done) as real) < freshMs
    ensures first == Fetch("2025", id) && second == Await("2025")
    ensures reply == Json(payload) && third == Respond(Json(payload))
  {
    var route := new Route(Some(id), None, Ms(freshMs), NotANumber);
    first := route.Get(Some("2025"), 2026, now1);
    second := route.Get(Some("2025"), 2026, now2);
    reply := route.FetchDone("2025", Success(payload), done);
    third := route.Get(Some("2025"), 2026, now3);
  }
}
