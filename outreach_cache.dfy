/**
 * The single-entry read-through cache around the outreach payload (`buildOutreachPayload`): a payload
 * younger than a minute is served as is, concurrent callers share the one fetch in flight, and a failed
 * fetch falls back to a payload younger than ten minutes.
 *
 * The promise is modelled as explicit steps: `Request` decides what a call does, and the fetch it
 * starts later ends in `Succeed` or `Fail`. The clock is a parameter of each step.
 */
module OutreachCache {
  import opened Wrappers
  import opened OutreachWeeks

  /** `FRESH_TTL_MS`: 60 s. */
  const FreshTtlMs: int := 60000
  /** `STALE_TTL_MS`: 10 min. */
  const StaleTtlMs: int := 10 * 60000

  datatype Entry = Entry(data: ApiAgg, ts: int)

  /** What one call does: answer from the cache, wait for the fetch in flight, or start a fetch. */
  datatype Decision = Served(data: ApiAgg) | Joined | Started

  predicate IsFresh(cache: Option<Entry>, now: int) {
    cache.Some? && now - cache.value.ts < FreshTtlMs
  }

  /** The decision of a call at time `now`, given the cache and whether a fetch is in flight. */
  function Decide(cache: Option<Entry>, inflight: bool, now: int, force: bool): (d: Decision)
    ensures d.Served? ==> !force && cache.Some? && d.data == cache.value.data
    ensures d.Started? ==> !inflight
  {
    if !force && IsFresh(cache, now) then Served(cache.value.data)
    else if inflight then Joined
    else Started
  }

  /** After a failed fetch started at `startedAt`: the cached payload if it was then under ten minutes old. */
  function StaleFallback(cache: Option<Entry>, startedAt: int): (r: Option<ApiAgg>)
    ensures r.Some? ==> cache.Some? && r.value == cache.value.data
  {
    if cache.Some? && startedAt - cache.value.ts < StaleTtlMs then Some(cache.value.data) else None
  }

  /** The module-level `cache` and `inflight` of the payload route. */
  class PayloadCache {
    var cache: Option<Entry>
    /** The `now` of the call that started the fetch in flight, if one is. */
    var inflight: Option<int>

    constructor ()
      ensures cache == None && inflight == None
    {
      cache := None;
      inflight := None;
    }

    /** `buildOutreachPayload(force)` up to the fetch: a started fetch is recorded as in flight. */
    method Request(now: int, force: bool) returns (d: Decision)
      modifies this
      ensures d == Decide(old(cache), old(inflight).Some?, now, force)
      ensures cache == old(cache)
      ensures inflight == if d.Started? then Some(now) else old(inflight)
    {
      if !force && cache.Some? && now - cache.value.ts < FreshTtlMs {
        d := Served(cache.value.data);
      } else if inflight.Some? {
        d := Joined;
      } else {
        d := Started;
        inflight := Some(now);
      }
    }

    /** The fetch in flight returned `payload` at `completedAt`: it becomes the cache entry. */
    method Succeed(payload: ApiAgg, completedAt: int) returns (data: ApiAgg)
      requires inflight.Some?
      modifies this
      ensures data == payload
      ensures cache == Some(Entry(payload, completedAt)) && inflight == None
    {
      cache := Some(Entry(payload, completedAt));
      inflight := None;
      data := payload;
    }

    /** The fetch in flight threw: the stale payload when there is one, `None` when the error is rethrown. */
    method Fail() returns (r: Option<ApiAgg>)
      requires inflight.Some?
      modifies this
      ensures r == StaleFallback(old(cache), old(inflight).value)
      ensures cache == old(cache) && inflight == None
    {
      var startedAt := inflight.value;
      if cache.Some? && startedAt - cache.value.ts < StaleTtlMs {
        r := Some(cache.value.data);
      } else {
        r := None;
      }
      inflight := None;
    }
  }

  /** A payload younger than a minute is served without a fetch unless the call forces one. */
  lemma FreshServed(cache: Option<Entry>, inflight: bool, now: int)
    requires IsFresh(cache, now)
    ensures Decide(cache, inflight, now, false) == Served(cache.value.data)
  {
  }

  /** A forced call never answers from the cache. */
  lemma ForcedNeverServed(cache: Option<Entry>, inflight: bool, now: int)
    ensures !Decide(cache, inflight, now, true).Served?
  {
  }

  /** While a fetch is in flight no call starts a second one, forced or not. */
  lemma NoSecondFetch(cache: Option<Entry>, now: int, force: bool)
    ensures Decide(cache, true, now, force) != Started
  {
  }

  /** Without a fresh payload, a call waits for the fetch in flight or starts the only one. */
  lemma StaleCallFetches(cache: Option<Entry>, inflight: bool, now: int, force: bool)
    requires force || !IsFresh(cache, now)
    ensures Decide(cache, inflight, now, force) == if inflight then Joined else Started
  {
  }

  /** The stale fallback is exactly a cached payload under ten minutes old, measured from the start of the call. */
  lemma StaleWindow(cache: Option<Entry>, startedAt: int)
    ensures StaleFallback(cache, startedAt).Some? <==> cache.Some? && startedAt - cache.value.ts < StaleTtlMs
  {
  }

  /** A payload that was fresh when the fetch started is always available as its fallback. */
  lemma FreshIsWithinStale(cache: Option<Entry>, startedAt: int)
    requires IsFresh(cache, startedAt)
    ensures StaleFallback(cache, startedAt) == Some(cache.value.data)
  {
  }

  /**
   * Two callers on an empty cache: the first starts the fetch, the second joins it, both get the
   * fetched payload, and a third call within a minute of its arrival is served from the cache.
   */
  method TwoCallersOneFetch(now1: int, now2: int, payload: ApiAgg, done: int, now3: int)
    returns (first: Decision, second: Decision, data: ApiAgg, third: Decision)
    requires now3 - done < FreshTtlMs
    ensures first == Started && second == Joined && data == payload
    ensures third == Served(payload)
  {
    var c := new PayloadCache();
    first := c.Request(now1, false);
    second := c.Request(now2, false);
    data := c.Succeed(payload, done);
    third := c.Request(now3, false);
  }

  /** A failed fetch on a cache that is too old leaves no fallback, and the next call starts a new fetch. */
  method FailureClearsInflight(payload: ApiAgg, ts: int, now: int, later: int)
    returns (fallback: Option<ApiAgg>, next: Decision)
    requires now - ts >= StaleTtlMs && later - ts >= FreshTtlMs
    ensures fallback == None && next == Started
  {
    var c := new PayloadCache();
    c.cache := Some(Entry(payload, ts));
    var d := c.Request(now, false);
    fallback := c.Fail();
    next := c.Request(later, false);
  }
}
