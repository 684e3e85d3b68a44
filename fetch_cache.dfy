/** The stale-tolerant fetch cache that the weather, drive-time, BART and
    calendar services each keep in a module variable `{data, timestamp}`:
    a hit within the TTL is answered without fetching; otherwise one fetch is
    attempted, a success overwrites the entry, and a failure is answered with
    the old payload, whatever its age, or rethrown when there is none. */
module FetchCache {
  import opened Wrappers

  /** CACHE_TTL_MS: five minutes, in milliseconds. */
  const CACHE_TTL_MS: int := 5 * 60 * 1000

  /** The last payload fetched successfully and the clock reading of that fetch. */
  datatype Entry<T> = Entry(data: T, timestamp: int)

  /** A hit: an entry exists and `now - timestamp < ttl`, strictly. */
  predicate IsFresh<T>(entry: Option<Entry<T>>, ttl: int, now: int)
    // a hit is a cached entry younger than the time-to-live
    ensures IsFresh(entry, ttl, now) <==> entry.Some? && now < entry.value.timestamp + ttl
  {
    entry.Some? && now - entry.value.timestamp < ttl
  }

  /** What one call answers, what the entry becomes, and whether it fetched. */
  datatype Step<T> = Step(answer: Result<T>, entry: Option<Entry<T>>, attempted: bool)

  /** One call at clock reading `now`; `outcome` is what its single fetch
      attempt produces, consulted only when the call does fetch. */
  function CacheGet<T>(entry: Option<Entry<T>>, ttl: int, now: int, outcome: Result<T>): (s: Step<T>)
    // exactly the misses fetch, and a hit answers the cached payload untouched
    ensures s.attempted <==> !IsFresh(entry, ttl, now)
    ensures !s.attempted ==> s.answer == Ok(entry.value.data) && s.entry == entry
    // a successful fetch is answered and becomes the entry, stamped `now`
    ensures s.attempted && outcome.Ok? ==> s.answer == outcome && s.entry == Some(Entry(outcome.value, now))
    // a failed fetch leaves the entry as it was and is answered from it if there is one
    ensures s.attempted && outcome.Err? ==> s.entry == entry
    ensures s.answer.Err? ==> entry.None? && s.answer == outcome
    // whatever is answered is the payload the entry now holds
    ensures s.answer.Ok? ==> s.entry.Some? && s.answer.value == s.entry.value.data
  {
    if IsFresh(entry, ttl, now) then Step(Ok(entry.value.data), entry, false)
    else match outcome
      case Ok(v) => Step(Ok(v), Some(Entry(v, now)), true)
      case Err(e) => if entry.Some? then Step(Ok(entry.value.data), entry, true) else Step(Err(e), None, true)
  }

  /** One source's cache: the module variable of one service, with its TTL. */
  class StaleCache<T> {
    var entry: Option<Entry<T>>
    const ttl: int

    constructor (ttl: int)
      ensures this.ttl == ttl && entry == None
    {
      this.ttl := ttl;
      entry := None;
    }

    predicate Fresh(now: int)
      reads this
    {
      IsFresh(entry, ttl, now)
    }

    /** The policy every service runs around its fetch. */
    method Get(now: int, outcome: Result<T>) returns (answer: Result<T>, attempted: bool)
      modifies this
      ensures Step(answer, entry, attempted) == CacheGet(old(entry), ttl, now, outcome)
    {
      if entry.Some? && now - entry.value.timestamp < ttl {
        return Ok(entry.value.data), false;
      }
      attempted := true;
      match outcome
      case Ok(v) =>
        entry := Some(Entry(v, now));
        answer := Ok(v);
      case Err(e) =>
        if entry.Some? {
          answer := Ok(entry.value.data);
        } else {
          answer := Err(e);
        }
    }
  }

  /** A call made at clock reading `now`, and what its fetch would produce. */
  datatype Call<T> = Call(now: int, outcome: Result<T>)

  /** The answers and fetch attempts of a sequence of calls, and the final entry. */
  datatype Trace<T> = Trace(answers: seq<Result<T>>, attempts: seq<bool>, entry: Option<Entry<T>>)

  /** A sequence of calls on one cache, one after another. */
  function Run<T>(entry: Option<Entry<T>>, ttl: int, calls: seq<Call<T>>): (t: Trace<T>)
    ensures |t.answers| == |calls| && |t.attempts| == |calls|
    decreases |calls|
  {
    if calls == [] then Trace([], [], entry)
    else
      var s := CacheGet(entry, ttl, calls[0].now, calls[0].outcome);
      var rest := Run(s.entry, ttl, calls[1..]);
      Trace([s.answer] + rest.answers, [s.attempted] + rest.attempts, rest.entry)
  }

  /** Every call made within the TTL of an entry is answered from it, and none fetches. */
  lemma {:induction false} RunWithinTtl<T>(d: T, t0: int, ttl: int, calls: seq<Call<T>>)
    requires forall i :: 0 <= i < |calls| ==> calls[i].now - t0 < ttl
    ensures Run(Some(Entry(d, t0)), ttl, calls).entry == Some(Entry(d, t0))
    ensures forall i :: 0 <= i < |calls| ==>
      Run(Some(Entry(d, t0)), ttl, calls).answers[i] == Ok(d) && !Run(Some(Entry(d, t0)), ttl, calls).attempts[i]
  {
    if calls != [] {
      RunWithinTtl(d, t0, ttl, calls[1..]);
    }
  }

  /** Once anything has been cached, the entry is never cleared and no call raises. */
  lemma {:induction false} RunNeverRaisesOnceCached<T>(entry: Option<Entry<T>>, ttl: int, calls: seq<Call<T>>)
    requires entry.Some?
    ensures Run(entry, ttl, calls).entry.Some?
    ensures forall i :: 0 <= i < |calls| ==> Run(entry, ttl, calls).answers[i].Ok?
    decreases |calls|
  {
    if calls != [] {
      var s := CacheGet(entry, ttl, calls[0].now, calls[0].outcome);
      RunNeverRaisesOnceCached(s.entry, ttl, calls[1..]);
    }
  }

  /** A call raises only while nothing has ever been fetched: it and every
      earlier call met a failed fetch, and it raises its own fetch's error. */
  lemma {:induction false} RunRaisesOnlyBeforeAnySuccess<T>(entry: Option<Entry<T>>, ttl: int, calls: seq<Call<T>>, i: nat)
    requires i < |calls| && Run(entry, ttl, calls).answers[i].Err?
    ensures entry.None?
    ensures Run(entry, ttl, calls).answers[i] == calls[i].outcome
    ensures forall j :: 0 <= j <= i ==> calls[j].outcome.Err?
    decreases |calls|
  {
    var s := CacheGet(entry, ttl, calls[0].now, calls[0].outcome);
    if i > 0 {
      if s.entry.Some? {
        RunNeverRaisesOnceCached(s.entry, ttl, calls[1..]);
      }
      RunRaisesOnlyBeforeAnySuccess(s.entry, ttl, calls[1..], i - 1);
      assert forall j :: 1 <= j <= i ==> calls[j] == calls[1..][j - 1];
    }
  }

  /** The final entry is the initial one, or the one a successful fetch of some call wrote. */
  lemma {:induction false} RunLastKnownGood<T>(entry: Option<Entry<T>>, ttl: int, calls: seq<Call<T>>)
    ensures var t := Run(entry, ttl, calls);
      || t.entry == entry
      || exists i :: 0 <= i < |calls| && t.attempts[i] && calls[i].outcome.Ok?
           && t.entry == Some(Entry(calls[i].outcome.value, calls[i].now))
    decreases |calls|
  {
    if calls != [] {
      var t := Run(entry, ttl, calls);
      var s := CacheGet(entry, ttl, calls[0].now, calls[0].outcome);
      var rest := Run(s.entry, ttl, calls[1..]);
      RunLastKnownGood(s.entry, ttl, calls[1..]);
      if rest.entry == s.entry {
        if s.entry != entry {
          assert t.attempts[0] && calls[0].outcome.Ok?;
        }
      } else {
        var j :| 0 <= j < |calls[1..]| && rest.attempts[j] && calls[1..][j].outcome.Ok?
           && rest.entry == Some(Entry(calls[1..][j].outcome.value, calls[1..][j].now));
        assert t.attempts[j + 1] && calls[j + 1] == calls[1..][j];
      }
    }
  }

  /** Five-minute TTL; a fetch succeeds at 0 with 60; a call at three minutes is
      answered 60 without fetching; at six minutes the fetch fails and 60 is
      answered again, stale, without raising. */
  lemma StaleServeScenario()
    ensures var t := Run(None, CACHE_TTL_MS,
                         [Call(0, Ok(60)), Call(3 * 60 * 1000, Err(UpstreamFailed)), Call(6 * 60 * 1000, Err(UpstreamFailed))]);
      t.answers == [Ok(60), Ok(60), Ok(60)] && t.attempts == [true, false, true]
  {
  }
}
