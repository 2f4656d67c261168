/**
 * The per-year read-through cache of the revenue sheet (`getRevenueValuesCached`): one cache entry and
 * at most one fetch in flight per year, a fresh window in which the entry is served, and a stale window
 * in which it replaces a failed fetch. Both windows come from the environment through `Number(...)`,
 * so either may be `NaN`, which no age is below.
 *
 * The promise is modelled as steps: `Request` decides what a call does, and a started fetch ends in
 * `Succeed` or `Fail`. The clock is a parameter of each step.
 */
module YearCache {
  import opened Wrappers

  /** A time-to-live read with `Number(...)`: milliseconds, or `NaN`. */
  datatype Ttl = Ms(ms: real) | NotANumber

  /** `age < ttl`, false for `NaN`. */
  predicate Below(age: int, ttl: Ttl) {
    ttl.Ms? && (age as real) < ttl.ms
  }

  /** A cell of the values response: text or a number. */
  datatype SheetValue = Text(text: string) | Number(number: real)

  datatype ValuesResponse = ValuesResponse(range: string, values: seq<seq<SheetValue>>)

  datatype Entry = Entry(data: ValuesResponse, ts: int)

  /** What one call for a year does: answer from the cache, wait for that year's fetch, or start one. */
  datatype Decision = Served(data: ValuesResponse) | Joined | Started

  function Decide(entries: map<string, Entry>, inflight: map<string, int>, year: string, now: int, freshTtl: Ttl)
    : (d: Decision)
    ensures d.Served? ==> year in entries && d.data == entries[year].data && Below(now - entries[year].ts, freshTtl)
    ensures d.Started? ==> year !in inflight
  {
    if year in entries && Below(now - entries[year].ts, freshTtl) then Served(entries[year].data)
    else if year in inflight then Joined
    else Started
  }

  /** After the year's fetch started at `startedAt` failed: its entry, if younger than the stale window then. */
  function StaleFallback(entries: map<string, Entry>, year: string, startedAt: int, staleTtl: Ttl)
    : (r: Option<ValuesResponse>)
    ensures r.Some? ==> year in entries && r.value == entries[year].data
  {
    if year in entries && Below(startedAt - entries[year].ts, staleTtl) then Some(entries[year].data) else None
  }

  /** `m` and `m'` agree on every key but `year`. */
  ghost predicate SameOutside<V>(m: map<string, V>, m': map<string, V>, year: string) {
    forall y :: y != year ==> (y in m <==> y in m') && (y in m ==> m[y] == m'[y])
  }

  /** The module-level `cacheByYear` and `inflightByYear`, with the two windows. */
  class RevenueCache {
    const freshTtl: Ttl
    const staleTtl: Ttl
    var entries: map<string, Entry>
    /** For each year with a fetch in flight, the `now` of the call that started it. */
    var inflight: map<string, int>

    constructor (freshTtl: Ttl, staleTtl: Ttl)
      ensures this.freshTtl == freshTtl && this.staleTtl == staleTtl
      ensures entries == map[] && inflight == map[]
    {
      this.freshTtl := freshTtl;
      this.staleTtl := staleTtl;
      entries := map[];
      inflight := map[];
    }

    /** A call for `year` at `now` up to the fetch: a started fetch is recorded as the year's one in flight. */
    method Request(year: string, now: int) returns (d: Decision)
      modifies this
      ensures d == Decide(old(entries), old(inflight), year, now, freshTtl)
      ensures entries == old(entries)
      ensures inflight == if d.Started? then old(inflight)[year := now] else old(inflight)
      ensures SameOutside(old(inflight), inflight, year)
    {
      if year in entries && Below(now - entries[year].ts, freshTtl) {
        d := Served(entries[year].data);
      } else if year in inflight {
        d := Joined;
      } else {
        d := Started;
        inflight := inflight[year := now];
      }
    }

    /** The year's fetch returned `payload` at `completedAt`: it replaces the year's entry. */
    method Succeed(year: string, payload: ValuesResponse, completedAt: int)
      requires year in inflight
      modifies this
      ensures entries == old(entries)[year := Entry(payload, completedAt)]
      ensures inflight == old(inflight) - {year}
      ensures SameOutside(old(entries), entries, year) && SameOutside(old(inflight), inflight, year)
    {
      entries := entries[year := Entry(payload, completedAt)];
      inflight := inflight - {year};
    }

    /** The year's fetch threw: the stale entry when there is one, `None` when the error goes on. */
    method Fail(year: string) returns (r: Option<ValuesResponse>)
      requires year in inflight
      modifies this
      ensures r == StaleFallback(old(entries), year, old(inflight)[year], staleTtl)
      ensures entries == old(entries) && inflight == old(inflight) - {year}
      ensures SameOutside(old(inflight), inflight, year)
    {
      var startedAt := inflight[year];
      if year in entries && Below(startedAt - entries[year].ts, staleTtl) {
        r := Some(entries[year].data);
      } else {
        r := None;
      }
      inflight := inflight - {year};
    }

    /**
     * `getRevenueValuesCached` once the year's fetch has settled: the payload, the stale entry in place
     * of an error, or the error itself.
     */
    method Settle<E>(year: string, outcome: Result<ValuesResponse, E>, completedAt: int)
      returns (r: Result<ValuesResponse, E>)
      requires year in inflight
      modifies this
      ensures outcome.Success? ==> r == outcome && entries == old(entries)[year := Entry(outcome.value, completedAt)]
      ensures outcome.Failure? ==>
                (entries == old(entries)
                 && r == match StaleFallback(old(entries), year, old(inflight)[year], staleTtl)
                         case Some(stale) => Success(stale)
                         case None => outcome)
      ensures inflight == old(inflight) - {year}
    {
      if outcome.Success? {
        Succeed(year, outcome.value, completedAt);
        r := outcome;
      } else {
        var stale := Fail(year);
        r := if stale.Some? then Success(stale.value) else outcome;
      }
    }
  }

  /** An entry younger than the fresh window is served without a fetch. */
  lemma FreshServed(entries: map<string, Entry>, inflight: map<string, int>, year: string, now: int, freshTtl: Ttl)
    requires year in entries && Below(now - entries[year].ts, freshTtl)
    ensures Decide(entries, inflight, year, now, freshTtl) == Served(entries[year].data)
  {
  }

  /** While the year's fetch is in flight no call for that year starts a second one. */
  lemma NoSecondFetch(entries: map<string, Entry>, inflight: map<string, int>, year: string, now: int, freshTtl: Ttl)
    requires year in inflight
    ensures Decide(entries, inflight, year, now, freshTtl) != Started
  {
  }

  /** A fetch in flight for another year neither serves nor blocks this one. */
  lemma OtherYearsIndependent(entries: map<string, Entry>, inflight: map<string, int>, year: string, other: string,
                              started: int, now: int, freshTtl: Ttl)
    requires other != year
    ensures Decide(entries, inflight[other := started], year, now, freshTtl) == Decide(entries, inflight, year, now, freshTtl)
  {
  }

  /** A `NaN` window never serves: every call fetches or waits, and no failure falls back. */
  lemma NotANumberDisables(entries: map<string, Entry>, inflight: map<string, int>, year: string, now: int)
    ensures !Decide(entries, inflight, year, now, NotANumber).Served?
    ensures StaleFallback(entries, year, now, NotANumber).None?
  {
  }

  /** A window of 0 (the variable unset) serves nothing whose time stamp is not in the future. */
  lemma ZeroWindowDisables(entries: map<string, Entry>, inflight: map<string, int>, year: string, now: int)
    requires year in entries ==> entries[year].ts <= now
    ensures !Decide(entries, inflight, year, now, Ms(0.0)).Served?
  {
  }

  /** Two calls for one year on an empty cache share one fetch, and its result is then served. */
  method SharedFetch(freshMs: real, year: string, now1: int, now2: int, payload: ValuesResponse, done: int, now3: int)
    returns (first: Decision, second: Decision, third: Decision)
    requires ((now3 - done) as real) < freshMs
    ensures first == Started && second == Joined && third == Served(payload)
  {
    var c := new RevenueCache(Ms(freshMs), NotANumber);
    first := c.Request(year, now1);
    second := c.Request(year, now2);
    c.Succeed(year, payload, done);
    third := c.Request(year, now3);
  }

  /** A failed fetch with an entry inside the stale window yields that entry; the entry is kept. */
  method StaleRescue(year: string, cached: ValuesResponse, ts: int, now: int, staleMs: real, message: string)
    returns (r: Result<ValuesResponse, string>)
    requires ((now - ts) as real) < staleMs && now - ts >= 0
    ensures r == Success(cached)
  {
    var c := new RevenueCache(Ms(0.0), Ms(staleMs));
    c.entries := map[year := Entry(cached, ts)];
    var d := c.Request(year, now);
    r := c.Settle(year, Failure(message), now);
  }
}
