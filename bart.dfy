/** The BART service: estimated departures from the configured station,
    normalised (one direction of travel, "Leaving" as 0 minutes, estimates
    without a number dropped, ascending by minutes, at most the configured
    count), and service advisories of the DELAY kind, behind the
    stale-tolerant cache. */
module Bart {
  import opened Wrappers
  import opened JsStrings
  import opened FetchCache

  /** A JSON field the BART feed sends as an array, as a single object, or not at all. */
  datatype OneOrMany<T> = Missing | One(item: T) | Many(items: seq<T>)

  /** `Array.isArray(x) ? x : x ? [x] : []`. */
  function AsList<T>(x: OneOrMany<T>): (r: seq<T>)
    // a single object is wrapped, never dropped; an array is kept as it is
    ensures x.One? ==> r == [x.item]
    ensures x.Many? ==> r == x.items
    ensures x.Missing? ==> r == []
  {
    match x
    case Missing => []
    case One(v) => [v]
    case Many(vs) => vs
  }

  /** One estimate of the feed; every field is a string or absent. */
  datatype Estimate = Estimate(direction: Option<string>, minutes: Option<string>, platform: Option<string>,
                               color: Option<string>, length: Option<string>, delay: Option<string>)
  datatype Etd = Etd(destination: string, estimate: OneOrMany<Estimate>)
  datatype Station = Station(name: Option<string>, etd: OneOrMany<Etd>)
  /** `etdResponse.data?.root?.station`. */
  datatype EtdFeed = EtdFeed(station: OneOrMany<Station>)

  /** An advisory's description: absent, a plain string, or an object wrapping a `#cdata-section`. */
  datatype Description = NoDescription | Plain(text: string) | CData(section: Option<string>)
  /** One advisory of the feed (`type` is `kind` here). */
  datatype Bsa = Bsa(atId: Option<string>, id: Option<string>, kind: Option<string>, description: Description,
                     posted: Option<string>, station: Option<string>)
  /** `bsaResponse.data?.root?.bsa`. */
  datatype BsaFeed = BsaFeed(bsa: OneOrMany<Bsa>)

  datatype Departure = Departure(destination: string, minutes: int, departing: bool,
                                 platform: string, color: string, length: string, delay: int)
  datatype Advisory = Advisory(id: string, kind: string, description: Description, posted: string, station: string)
  /** The snapshot the service returns; `fetchedAt` is the clock reading of the fetch. */
  datatype BartData = BartData(departures: seq<Departure>, advisories: seq<Advisory>, fetchedAt: int, stationName: string)

  /** BART_SF_DIRECTION and BART_MAX_DEPARTURES, whose values are configuration. */
  datatype Config = Config(sfDirection: string, maxDepartures: nat)

  const LEAVING := "Leaving"
  const NO_DELAYS := "No delays reported."
  const DEFAULT_STATION_NAME := "Orinda"

  // ---------------------------------------------------------------------------
  // Estimated departures

  /** The departure an estimate contributes to an etd for `destination`, if any. */
  function EstimateDeparture(destination: string, est: Estimate, direction: string): (d: Option<Departure>)
    // only the configured direction of travel
    ensures d.Some? ==> est.direction == Some(direction)
    // "Leaving" is a departing train at 0 minutes; anything else needs a parseable integer
    ensures d.None? <==>
      || est.direction != Some(direction)
      || (est.minutes != Some(LEAVING) && (est.minutes.None? || ParseInt(est.minutes.value).None?))
    ensures d.Some? ==> (d.value.departing <==> est.minutes == Some(LEAVING))
    ensures d.Some? && d.value.departing ==> d.value.minutes == 0
    ensures d.Some? && !d.value.departing ==> ParseInt(est.minutes.value) == Some(d.value.minutes)
    ensures d.Some? ==> d.value.destination == destination
  {
    if est.direction != Some(direction) then None
    else if est.minutes == Some(LEAVING) then Some(MakeDeparture(destination, est, 0, true))
    else if est.minutes.None? || ParseInt(est.minutes.value).None? then None
    else Some(MakeDeparture(destination, est, ParseInt(est.minutes.value).value, false))
  }

  /** The record pushed for a kept estimate. */
  function MakeDeparture(destination: string, est: Estimate, minutes: int, departing: bool): (d: Departure)
    ensures d.destination == destination && d.minutes == minutes && d.departing == departing
    // "<length> car" when the estimate gives a length, else nothing
    ensures d.length == "" <==> !Truthy(est.length)
    // an absent or unreadable delay counts as none
    ensures est.delay.None? || ParseInt(est.delay.value).None? ==> d.delay == 0
    ensures est.delay.Some? && ParseInt(est.delay.value).Some? ==> d.delay == ParseInt(est.delay.value).value
    // platform, colour and length come from the estimate when it gives them, else empty
    ensures d.platform == (if Truthy(est.platform) then est.platform.value else "")
    ensures d.color == (if Truthy(est.color) then est.color.value else "")
    ensures Truthy(est.length) ==> d.length == est.length.value + " car"
  {
    Departure(destination, minutes, departing,
              OrElse(est.platform, ""), OrElse(est.color, ""),
              if Truthy(est.length) then est.length.value + " car" else "",
              if est.delay.Some? then ParseInt(est.delay.value).GetOr(0) else 0)
  }

  /** The departures a run of estimates of one etd contributes, in order. */
  function EstimatesDepartures(destination: string, ests: seq<Estimate>, direction: string): (r: seq<Departure>)
    ensures |r| <= |ests|
    ensures forall d :: d in r ==> exists e :: e in ests && EstimateDeparture(destination, e, direction) == Some(d)
    decreases |ests|
  {
    if ests == [] then []
    else
      var init := ests[..|ests| - 1];
      var last := ests[|ests| - 1];
      var r := EstimatesDepartures(destination, init, direction);
      assert forall e :: e in init ==> e in ests;
      match EstimateDeparture(destination, last, direction)
      case None => r
      case Some(d) => r + [d]
  }

  /** The departures of one etd, or the TypeError of reading the direction of an
      estimate that is not there (`[etd.estimate]` with the field missing). */
  function EtdDepartures(etd: Etd, direction: string): (r: Result<seq<Departure>>)
    ensures r.Err? <==> etd.estimate.Missing?
    // at most one departure per estimate
    ensures r.Ok? ==> |r.value| <= |AsList(etd.estimate)|
  {
    if etd.estimate.Missing? then Err(MalformedResponse)
    else Ok(EstimatesDepartures(etd.destination, AsList(etd.estimate), direction))
  }

  /** A departure taken from an estimate of one of the etds. */
  ghost predicate DrawnFrom(d: Departure, etds: seq<Etd>, direction: string) {
    exists i, e :: 0 <= i < |etds| && e in AsList(etds[i].estimate)
      && EstimateDeparture(etds[i].destination, e, direction) == Some(d)
  }

  /** The departures the nested loops push, in push order, or the error that aborts them. */
  function CollectEtds(etds: seq<Etd>, direction: string): (r: Result<seq<Departure>>)
    // the loops abort exactly when some etd has no estimate field
    ensures r.Err? <==> exists i :: 0 <= i < |etds| && etds[i].estimate.Missing?
    ensures r.Err? ==> r == Err(MalformedResponse)
    decreases |etds|
  {
    if etds == [] then Ok([])
    else
      var init := etds[..|etds| - 1];
      var last := etds[|etds| - 1];
      assert forall i :: 0 <= i < |init| ==> init[i] == etds[i];
      match CollectEtds(init, direction)
      case Err(e) => Err(e)
      case Ok(acc) =>
        match EtdDepartures(last, direction)
        case Err(e) => Err(e)
        case Ok(ds) => Ok(acc + ds)
  }

  /** Every collected departure comes from an estimate of one of the etds in the configured direction. */
  lemma {:induction false} CollectedAreDrawn(etds: seq<Etd>, direction: string)
    requires CollectEtds(etds, direction).Ok?
    ensures forall d :: d in CollectEtds(etds, direction).value ==> DrawnFrom(d, etds, direction)
    decreases |etds|
  {
    if etds != [] {
      var init := etds[..|etds| - 1];
      var last := etds[|etds| - 1];
      CollectedAreDrawn(init, direction);
      var acc := CollectEtds(init, direction).value;
      var ds := EtdDepartures(last, direction).value;
      assert CollectEtds(etds, direction).value == acc + ds;
      forall d | d in acc + ds ensures DrawnFrom(d, etds, direction) {
        if d in acc {
          assert DrawnFrom(d, init, direction);
          var i, e :| 0 <= i < |init| && e in AsList(init[i].estimate)
            && EstimateDeparture(init[i].destination, e, direction) == Some(d);
          assert etds[i] == init[i];
        } else {
          var e :| e in AsList(last.estimate) && EstimateDeparture(last.destination, e, direction) == Some(d);
          assert etds[|etds| - 1] == last;
        }
      }
    }
  }

  /** One more estimate: its departure, if any, goes at the end. */
  lemma EstimatesStep(destination: string, ests: seq<Estimate>, j: nat, direction: string)
    requires j < |ests|
    ensures EstimatesDepartures(destination, ests[..j + 1], direction)
      == EstimatesDepartures(destination, ests[..j], direction)
         + match EstimateDeparture(destination, ests[j], direction) case None => [] case Some(d) => [d]
  {
    assert ests[..j + 1][..j] == ests[..j];
  }

  /** One more etd: the loops abort there, or its departures go at the end. */
  lemma CollectStep(etds: seq<Etd>, i: nat, direction: string)
    requires i < |etds| && CollectEtds(etds[..i], direction).Ok?
    ensures etds[i].estimate.Missing? ==> CollectEtds(etds[..i + 1], direction) == Err(MalformedResponse)
    ensures etds[i].estimate.Missing? || CollectEtds(etds[..i + 1], direction)
      == Ok(CollectEtds(etds[..i], direction).value + EstimatesDepartures(etds[i].destination, AsList(etds[i].estimate), direction))
  {
    assert etds[..i + 1][..i] == etds[..i];
  }

  /** The inner for-loop of getBartDepartures: the departures of one etd's
      estimates pushed onto `departures`. */
  method PushEstimates(departures: seq<Departure>, destination: string, estimates: seq<Estimate>, direction: string)
    returns (r: seq<Departure>)
    ensures r == departures + EstimatesDepartures(destination, estimates, direction)
  {
    r := departures;
    var j := 0;
    while j < |estimates|
      invariant 0 <= j <= |estimates|
      invariant r == departures + EstimatesDepartures(destination, estimates[..j], direction)
    {
      var est := estimates[j];
      EstimatesStep(destination, estimates, j, direction);
      if est.direction != Some(direction) {
        j := j + 1;
        continue;
      }
      var isLeaving := est.minutes == Some(LEAVING);
      var minutes: Option<int> := if isLeaving then Some(0)
                                  else if est.minutes.None? then None
                                  else ParseInt(est.minutes.value);
      if minutes.None? && !isLeaving {
        j := j + 1;
        continue;
      }
      r := r + [MakeDeparture(destination, est, minutes.value, isLeaving)];
      j := j + 1;
    }
    assert estimates[..j] == estimates;
  }

  /** The nested for-loops of getBartDepartures that push kept estimates. */
  method CollectDepartures(etdList: seq<Etd>, direction: string) returns (r: Result<seq<Departure>>)
    ensures r == CollectEtds(etdList, direction)
  {
    var departures: seq<Departure> := [];
    var i := 0;
    while i < |etdList|
      invariant 0 <= i <= |etdList|
      invariant CollectEtds(etdList[..i], direction) == Ok(departures)
    {
      var etd := etdList[i];
      CollectStep(etdList, i, direction);
      if etd.estimate.Missing? {
        return Err(MalformedResponse);
      }
      departures := PushEstimates(departures, etd.destination, AsList(etd.estimate), direction);
      i := i + 1;
    }
    assert etdList[..i] == etdList;
    r := Ok(departures);
  }

  // ---------------------------------------------------------------------------
  // Sorting by minutes: Array.prototype.sort with `(a, b) => a.minutes - b.minutes`,
  // which is stable

  /** `d` inserted after every trailing element of `s` whose minutes exceed its own. */
  function InsertByMinutes(s: seq<Departure>, d: Departure): (r: seq<Departure>)
    ensures |r| == |s| + 1
    decreases |s|
  {
    if s == [] || s[|s| - 1].minutes <= d.minutes then s + [d]
    else InsertByMinutes(s[..|s| - 1], d) + [s[|s| - 1]]
  }

  /** The stable ascending sort by minutes. */
  function SortByMinutes(s: seq<Departure>): (r: seq<Departure>)
    ensures |r| == |s|
    decreases |s|
  {
    if s == [] then []
    else InsertByMinutes(SortByMinutes(s[..|s| - 1]), s[|s| - 1])
  }

  lemma {:induction false} InsertIsPermutation(s: seq<Departure>, d: Departure)
    ensures multiset(InsertByMinutes(s, d)) == multiset(s) + multiset{d}
    decreases |s|
  {
    if s != [] && s[|s| - 1].minutes > d.minutes {
      var init := s[..|s| - 1];
      assert s == init + [s[|s| - 1]];
      InsertIsPermutation(init, d);
    }
  }

  /** The sort only reorders: it is a permutation of its input. */
  lemma {:induction false} SortIsPermutation(s: seq<Departure>)
    ensures multiset(SortByMinutes(s)) == multiset(s)
    decreases |s|
  {
    if s != [] {
      var init := s[..|s| - 1];
      assert s == init + [s[|s| - 1]];
      SortIsPermutation(init);
      InsertIsPermutation(SortByMinutes(init), s[|s| - 1]);
    }
  }

  predicate SortedByMinutes(s: seq<Departure>) {
    forall i, j :: 0 <= i < j < |s| ==> s[i].minutes <= s[j].minutes
  }

  /** The departures of `s` due in exactly `m` minutes, in their order in `s`. */
  function DueIn(s: seq<Departure>, m: int): seq<Departure>
    decreases |s|
  {
    if s == [] then []
    else DueIn(s[..|s| - 1], m) + (if s[|s| - 1].minutes == m then [s[|s| - 1]] else [])
  }

  /** A bound on the minutes of `s` and of `d` bounds the insertion's. */
  lemma {:induction false} InsertBounded(s: seq<Departure>, d: Departure, b: int)
    requires forall k :: 0 <= k < |s| ==> s[k].minutes <= b
    requires d.minutes <= b
    ensures forall k :: 0 <= k < |s| + 1 ==> InsertByMinutes(s, d)[k].minutes <= b
    decreases |s|
  {
    if s != [] && s[|s| - 1].minutes > d.minutes {
      InsertBounded(s[..|s| - 1], d, b);
    }
  }

  lemma {:induction false} InsertKeepsSorted(s: seq<Departure>, d: Departure)
    requires SortedByMinutes(s)
    ensures SortedByMinutes(InsertByMinutes(s, d))
    ensures InsertByMinutes(s, d) != [] && InsertByMinutes(s, d)[|s|].minutes >= d.minutes
    decreases |s|
  {
    if s != [] && s[|s| - 1].minutes > d.minutes {
      var init := s[..|s| - 1];
      var last := s[|s| - 1];
      InsertKeepsSorted(init, d);
      InsertBounded(init, d, last.minutes);
      assert InsertByMinutes(s, d) == InsertByMinutes(init, d) + [last];
    }
  }

  /** The sort orders by minutes. */
  lemma {:induction false} SortIsSorted(s: seq<Departure>)
    ensures SortedByMinutes(SortByMinutes(s))
    decreases |s|
  {
    if s != [] {
      SortIsSorted(s[..|s| - 1]);
      InsertKeepsSorted(SortByMinutes(s[..|s| - 1]), s[|s| - 1]);
    }
  }

  lemma {:induction false} InsertKeepsDueIn(s: seq<Departure>, d: Departure, m: int)
    ensures DueIn(InsertByMinutes(s, d), m) == DueIn(s, m) + (if d.minutes == m then [d] else [])
    decreases |s|
  {
    if s == [] || s[|s| - 1].minutes <= d.minutes {
      assert (s + [d])[..|s|] == s;
    } else {
      var init := s[..|s| - 1];
      var r := InsertByMinutes(init, d);
      InsertKeepsDueIn(init, d, m);
      assert (r + [s[|s| - 1]])[..|r|] == r;
    }
  }

  /** The sort is stable: the departures due in any given minute keep their input order. */
  lemma {:induction false} SortIsStable(s: seq<Departure>, m: int)
    ensures DueIn(SortByMinutes(s), m) == DueIn(s, m)
    decreases |s|
  {
    if s != [] {
      SortIsStable(s[..|s| - 1], m);
      InsertKeepsDueIn(SortByMinutes(s[..|s| - 1]), s[|s| - 1], m);
    }
  }

  /** Where the insertion lands: after every departure due no later than
      `d`, and before the trailing run of later ones. */
  lemma {:induction false} InsertLandsAt(s: seq<Departure>, d: Departure, j: nat)
    requires j <= |s|
    requires forall k :: j <= k < |s| ==> s[k].minutes > d.minutes
    requires j == 0 || s[j - 1].minutes <= d.minutes
    ensures InsertByMinutes(s, d) == s[..j] + [d] + s[j..]
    decreases |s|
  {
    if j < |s| {
      var init := s[..|s| - 1];
      InsertLandsAt(init, d, j);
      assert init[..j] == s[..j];
      assert init[j..] + [s[|s| - 1]] == s[j..];
    } else {
      assert s[..j] == s;
    }
  }

  /** A prefix of `sorted`, then `d`, then the rest of `sorted`. */
  lemma Placed(x: seq<Departure>, sorted: seq<Departure>, d: Departure, j: nat)
    requires j <= |sorted| && |x| == |sorted| + 1
    requires forall k :: 0 <= k < j ==> x[k] == sorted[k]
    requires x[j] == d
    requires forall k :: j < k < |x| ==> x[k] == sorted[k - 1]
    ensures x == sorted[..j] + [d] + sorted[j..]
  {
  }

  /** One pass of the insertion sort: `a[i]` moves down past the later
      departures of the sorted prefix `a[..i]`. */
  method InsertInPlace(a: array<Departure>, i: nat)
    requires i < a.Length
    modifies a
    ensures a[..i + 1] == InsertByMinutes(old(a[..i]), old(a[i]))
    ensures forall k :: i < k < a.Length ==> a[k] == old(a[k])
  {
    ghost var sorted := a[..i];
    var d := a[i];
    var j := i;
    while j > 0 && a[j - 1].minutes > d.minutes
      invariant 0 <= j <= i
      invariant forall k :: 0 <= k < j ==> a[k] == sorted[k]
      invariant forall k :: j < k <= i ==> a[k] == sorted[k - 1]
      invariant forall k :: j <= k < i ==> sorted[k].minutes > d.minutes
      invariant forall k :: i < k < a.Length ==> a[k] == old(a[k])
    {
      a[j] := a[j - 1];
      j := j - 1;
    }
    a[j] := d;
    InsertLandsAt(sorted, d, j);
    Placed(a[..i + 1], sorted, d, j);
  }

  /** Sorting one more element inserts it into the sorted prefix. */
  lemma SortOneMore(s: seq<Departure>, i: nat)
    requires i < |s|
    ensures SortByMinutes(s[..i + 1]) == InsertByMinutes(SortByMinutes(s[..i]), s[i])
  {
    assert s[..i + 1][..i] == s[..i];
  }

  /** departures.sort(...) on the array of pushed departures. */
  method SortInPlace(a: array<Departure>)
    modifies a
    ensures a[..] == SortByMinutes(old(a[..]))
  {
    ghost var pushed := a[..];
    var i := 0;
    while i < a.Length
      invariant 0 <= i <= a.Length
      invariant a[..i] == SortByMinutes(pushed[..i])
      invariant forall k :: i <= k < a.Length ==> a[k] == pushed[k]
    {
      InsertInPlace(a, i);
      SortOneMore(pushed, i);
      i := i + 1;
    }
    assert pushed[..a.Length] == pushed;
  }

  /** The first `n` elements, as `slice(0, n)` takes them. */
  function Take<T>(s: seq<T>, n: nat): seq<T> {
    if n < |s| then s[..n] else s
  }

  /** `slice(0, n)` keeps a prefix of `min(n, |s|)` elements. */
  lemma TakeIsPrefix<T>(s: seq<T>, n: nat)
    ensures |Take(s, n)| == if |s| < n then |s| else n
    ensures Take(s, n) == s[..|Take(s, n)|]
  {
  }

  /** The kept departures are the earliest ones: none left out is due before any kept. */
  lemma TakeOfSortedIsEarliest(s: seq<Departure>, n: nat)
    requires SortedByMinutes(s)
    ensures SortedByMinutes(Take(s, n))
    // as many as asked for, or all when there are fewer, taken from the front
    ensures |Take(s, n)| == if |s| < n then |s| else n
    ensures Take(s, n) == s[..|Take(s, n)|]
    ensures multiset(Take(s, n)) <= multiset(s)
    ensures forall k, x :: 0 <= k < |Take(s, n)| && x in multiset(s) - multiset(Take(s, n)) ==>
      Take(s, n)[k].minutes <= x.minutes
  {
    TakeIsPrefix(s, n);
    if n < |s| {
      assert s == s[..n] + s[n..];
      assert multiset(s) == multiset(s[..n]) + multiset(s[n..]);
      forall k, x | 0 <= k < n && x in multiset(s) - multiset(s[..n])
        ensures s[k].minutes <= x.minutes
      {
        assert x in multiset(s[n..]);
        var p :| 0 <= p < |s[n..]| && s[n..][p] == x;
        assert s[n + p] == x;
      }
    }
  }

  /** `station?.name || 'Orinda'` of the first station. */
  function StationName(feed: EtdFeed): (name: string)
    // never empty: Orinda stands in for a missing station or name
    ensures name != ""
    ensures AsList(feed.station) == [] ==> name == DEFAULT_STATION_NAME
    // the first station's own name when it has one, else Orinda
    ensures AsList(feed.station) != [] && Truthy(AsList(feed.station)[0].name) ==> name == AsList(feed.station)[0].name.value
    ensures AsList(feed.station) != [] && !Truthy(AsList(feed.station)[0].name) ==> name == DEFAULT_STATION_NAME
  {
    var stations := AsList(feed.station);
    if stations == [] then DEFAULT_STATION_NAME else OrElse(stations[0].name, DEFAULT_STATION_NAME)
  }

  /** The etds of the first station; none when there is no station. */
  function StationEtds(feed: EtdFeed): (etds: seq<Etd>)
    // no station, or a first station without etds: nothing to loop over
    ensures AsList(feed.station) == [] ==> etds == []
    ensures AsList(feed.station) != [] && AsList(feed.station)[0].etd.Missing? ==> etds == []
    // otherwise the first station's etds, a single one wrapped
    ensures AsList(feed.station) != [] ==> etds == AsList(AsList(feed.station)[0].etd)
  {
    var stations := AsList(feed.station);
    if stations == [] then [] else AsList(stations[0].etd)
  }

  /** The departures of a feed: the first station's name (default Orinda) and
      its departures in the configured direction, earliest first, at most
      the configured count. */
  function ParseEtdFeed(feed: EtdFeed, cfg: Config): (r: Result<(string, seq<Departure>)>)
    ensures r.Err? <==> CollectEtds(StationEtds(feed), cfg.sfDirection).Err?
    ensures r.Ok? ==> r.value.0 == StationName(feed)
    // the first `maxDepartures` of the collected departures in sorted order, or all of them when fewer
    ensures r.Ok? ==> var all := CollectEtds(StationEtds(feed), cfg.sfDirection).value;
      && |r.value.1| == (if |all| < cfg.maxDepartures then |all| else cfg.maxDepartures)
      && r.value.1 == SortByMinutes(all)[..|r.value.1|]
    // no station at all: no departures, and the default name
    ensures AsList(feed.station) == [] ==> r == Ok((DEFAULT_STATION_NAME, []))
  {
    match CollectEtds(StationEtds(feed), cfg.sfDirection)
    case Err(e) => Err(e)
    case Ok(all) => Ok((StationName(feed), Take(SortByMinutes(all), cfg.maxDepartures)))
  }

  /** The departures returned are sorted, drawn from the collected ones, and the earliest of them. */
  lemma ParseEtdFeedEarliest(feed: EtdFeed, cfg: Config)
    requires ParseEtdFeed(feed, cfg).Ok?
    ensures var all := CollectEtds(StationEtds(feed), cfg.sfDirection).value;
      var out := ParseEtdFeed(feed, cfg).value.1;
      && |out| == (if |all| < cfg.maxDepartures then |all| else cfg.maxDepartures)
      && SortedByMinutes(out)
      && multiset(out) <= multiset(all)
      && (forall k, x :: 0 <= k < |out| && x in multiset(all) - multiset(out) ==> out[k].minutes <= x.minutes)
  {
    var all := CollectEtds(StationEtds(feed), cfg.sfDirection).value;
    SortIsSorted(all);
    SortIsPermutation(all);
    TakeOfSortedIsEarliest(SortByMinutes(all), cfg.maxDepartures);
  }

  // ---------------------------------------------------------------------------
  // Advisories

  /** `bsa.description?.['#cdata-section'] || bsa.description || ''`: a wrapper
      whose section is empty stays the (truthy) wrapper object. */
  function DescriptionValue(d: Description): (r: Description)
    // a missing description reads as the empty string
    ensures d.NoDescription? ==> r == Plain("")
    ensures d.Plain? ==> r == d
    // a non-empty section is unwrapped; otherwise the wrapper itself is kept
    ensures d.CData? ==> r == if Truthy(d.section) then Plain(d.section.value) else d
    ensures r.CData? ==> !Truthy(r.section)
  {
    match d
    case NoDescription => Plain("")
    case Plain(t) => Plain(t)
    case CData(section) => if Truthy(section) then Plain(section.value) else d
  }

  /** The advisories kept: a real description and a type that upper-cases to DELAY. */
  predicate KeepAdvisory(b: Bsa)
    // an advisory with no type or no description is never kept
    ensures KeepAdvisory(b) ==> b.kind.Some? && |b.kind.value| == 5
    ensures KeepAdvisory(b) ==> !b.description.NoDescription?
  {
    var desc := DescriptionValue(b.description);
    desc != Plain(NO_DELAYS) && desc != Plain("") && ToUpper(b.kind.GetOr("")) == "DELAY"
  }

  function ToAdvisory(b: Bsa): (a: Advisory)
    ensures a.description == DescriptionValue(b.description)
    // the type defaults to DELAY and the id to `@id`, then `id`, then nothing
    ensures a.kind == if Truthy(b.kind) then b.kind.value else "DELAY"
    ensures a.id == "" <==> !Truthy(b.atId) && !Truthy(b.id)
    ensures Truthy(b.atId) ==> a.id == b.atId.value
    ensures !Truthy(b.atId) && Truthy(b.id) ==> a.id == b.id.value
    // posted and station are carried over, empty when missing
    ensures a.posted == (if Truthy(b.posted) then b.posted.value else "")
    ensures a.station == (if Truthy(b.station) then b.station.value else "")
  {
    Advisory(OrElse(b.atId, OrElse(b.id, "")), OrElse(b.kind, "DELAY"), DescriptionValue(b.description),
             OrElse(b.posted, ""), OrElse(b.station, ""))
  }

  /** The `filter` and `map` chain over the advisory list. */
  function FilterAdvisories(bsas: seq<Bsa>): (r: seq<Advisory>)
    ensures |r| <= |bsas|
    ensures forall a :: a in r ==>
      && a.description != Plain(NO_DELAYS) && a.description != Plain("")
      && ToUpper(a.kind) == "DELAY"
    ensures forall a :: a in r ==> exists b :: b in bsas && KeepAdvisory(b) && a == ToAdvisory(b)
    decreases |bsas|
  {
    if bsas == [] then []
    else
      var init := bsas[..|bsas| - 1];
      var last := bsas[|bsas| - 1];
      var r := FilterAdvisories(init);
      assert forall b :: b in init ==> b in bsas;
      if KeepAdvisory(last) then
        assert last.kind.Some? && last.kind.value != "" by {
          assert |ToUpper(last.kind.GetOr(""))| == 5;
        }
        r + [ToAdvisory(last)]
      else r
  }

  /** The filter keeps the input order: it distributes over concatenation. */
  lemma {:induction false} FilterAdvisoriesAppend(a: seq<Bsa>, b: seq<Bsa>)
    ensures FilterAdvisories(a + b) == FilterAdvisories(a) + FilterAdvisories(b)
    decreases |b|
  {
    if b == [] {
      assert a + b == a;
    } else {
      var init := b[..|b| - 1];
      assert (a + b)[..|a + b| - 1] == a + init;
      assert (a + b)[|a + b| - 1] == b[|b| - 1];
      FilterAdvisoriesAppend(a, init);
    }
  }

  /** Every advisory that qualifies is kept, converted. */
  lemma {:induction false} QualifyingAdvisoriesKept(bsas: seq<Bsa>)
    ensures forall b :: b in bsas && KeepAdvisory(b) ==> ToAdvisory(b) in FilterAdvisories(bsas)
    decreases |bsas|
  {
    if bsas != [] {
      var init := bsas[..|bsas| - 1];
      QualifyingAdvisoriesKept(init);
      assert bsas == init + [bsas[|bsas| - 1]];
    }
  }

  /** A single advisory is kept, converted, exactly when it qualifies; with
      FilterAdvisoriesAppend this fixes the filter on every list. */
  lemma FilterAdvisoriesOne(b: Bsa)
    ensures FilterAdvisories([b]) == if KeepAdvisory(b) then [ToAdvisory(b)] else []
  {
    assert [b][..0] == [];
  }

  /** The placeholder advisory is never shown. */
  lemma PlaceholderDropped(b: Bsa)
    requires b.description == Plain(NO_DELAYS) || b.description == CData(Some(NO_DELAYS))
    ensures FilterAdvisories([b]) == []
  {
    assert [b][..0] == [];
  }

  // ---------------------------------------------------------------------------
  // The service

  /** What one fetch attempt produces at clock reading `now`, from the outcomes
      of the two concurrent HTTP calls. */
  function BartOutcome(etd: Result<EtdFeed>, bsa: Result<BsaFeed>, cfg: Config, now: int): (r: Result<BartData>)
    ensures etd.Err? ==> r == Err(etd.error)
    ensures etd.Ok? && bsa.Err? ==> r == Err(bsa.error)
    ensures etd.Ok? && bsa.Ok? && ParseEtdFeed(etd.value, cfg).Err? ==> r == Err(ParseEtdFeed(etd.value, cfg).error)
    // a success: the parsed departures, the filtered advisories and the station's name, stamped `now`
    ensures r.Ok? <==> etd.Ok? && bsa.Ok? && ParseEtdFeed(etd.value, cfg).Ok?
    ensures r.Ok? ==>
      && r.value.departures == ParseEtdFeed(etd.value, cfg).value.1
      && r.value.advisories == FilterAdvisories(AsList(bsa.value.bsa))
      && r.value.stationName == StationName(etd.value)
      && r.value.fetchedAt == now && SortedByMinutes(r.value.departures)
      && |r.value.departures| <= cfg.maxDepartures
  {
    if etd.Err? then Err(etd.error)
    else if bsa.Err? then Err(bsa.error)
    else match ParseEtdFeed(etd.value, cfg)
      case Err(e) => Err(e)
      case Ok((name, departures)) =>
        ParseEtdFeedEarliest(etd.value, cfg);
        Ok(BartData(departures, FilterAdvisories(AsList(bsa.value.bsa)), now, name))
  }

  /** The body of the try block: parse both feeds, sorting the pushed departures in place. */
  method FetchBart(etd: Result<EtdFeed>, bsa: Result<BsaFeed>, cfg: Config, now: int) returns (r: Result<BartData>)
    ensures r == BartOutcome(etd, bsa, cfg, now)
  {
    if etd.Err? {
      return Err(etd.error);
    }
    if bsa.Err? {
      return Err(bsa.error);
    }
    var stationName := StationName(etd.value);
    var collected := CollectDepartures(StationEtds(etd.value), cfg.sfDirection);
    if collected.Err? {
      return Err(collected.error);
    }
    var pushed := collected.value;
    var departures := new Departure[|pushed|](k requires 0 <= k < |pushed| => pushed[k]);
    assert departures[..] == pushed;
    SortInPlace(departures);
    var top := Take(departures[..], cfg.maxDepartures);
    r := Ok(BartData(top, FilterAdvisories(AsList(bsa.value.bsa)), now, stationName));
  }

  /** getBartDepartures at clock reading `now`: the feeds are read only on a miss. */
  method GetBartDepartures(cache: StaleCache<BartData>, now: int, etd: Result<EtdFeed>, bsa: Result<BsaFeed>, cfg: Config)
    returns (answer: Result<BartData>, attempted: bool)
    modifies cache
    ensures Step(answer, cache.entry, attempted) == CacheGet(old(cache.entry), cache.ttl, now, BartOutcome(etd, bsa, cfg, now))
  {
    if cache.Fresh(now) {
      return Ok(cache.entry.value.data), false;
    }
    var outcome := FetchBart(etd, bsa, cfg, now);
    answer, attempted := cache.Get(now, outcome);
  }
}
