/** The BART card of the dashboard: the minutes elapsed since the snapshot
    was fetched, the at most two departures worth showing (not yet leaving
    and at least ten minutes out once the elapsed minutes are taken off),
    and how each row reads. */
module BartWidget {
  import opened Wrappers
  import opened JsStrings
  import opened Bart

  const MS_PER_MINUTE := 60000
  /** A departure is worth showing when at least this many minutes remain. */
  const MIN_LEAD_MINUTES := 10
  const MAX_VISIBLE := 2

  /** useCountdownMinutes at clock reading `now`: whole minutes since the
      fetch, rounded down, and 0 with no snapshot. */
  function Elapsed(data: Option<BartData>, now: int): (e: int)
    ensures data.None? ==> e == 0
    ensures data.Some? ==> e * MS_PER_MINUTE <= now - data.value.fetchedAt < (e + 1) * MS_PER_MINUTE
  {
    if data.None? then 0 else (now - data.value.fetchedAt) / MS_PER_MINUTE
  }

  /** The filter of visibleDepartures. */
  predicate Shown(d: Departure, elapsed: int)
    // a departure worth showing is still some minutes away, never "Now"
    ensures Shown(d, elapsed) ==> !d.departing && d.minutes - elapsed > 0
  {
    !d.departing && d.minutes - elapsed >= MIN_LEAD_MINUTES
  }

  /** `departures.filter(...)`, in input order. */
  function KeepShown(deps: seq<Departure>, elapsed: int): (r: seq<Departure>)
    ensures |r| <= |deps|
    ensures forall d :: d in r <==> d in deps && Shown(d, elapsed)
    decreases |deps|
  {
    if deps == [] then []
    else
      var rest := KeepShown(deps[..|deps| - 1], elapsed);
      var last := deps[|deps| - 1];
      assert forall d :: d in deps <==> d in deps[..|deps| - 1] || d == last;
      if Shown(last, elapsed) then rest + [last] else rest
  }

  /** Filtering keeps the input order: it distributes over concatenation. */
  lemma {:induction false} KeepShownAppend(a: seq<Departure>, b: seq<Departure>, elapsed: int)
    ensures KeepShown(a + b, elapsed) == KeepShown(a, elapsed) + KeepShown(b, elapsed)
    decreases |b|
  {
    if b == [] {
      assert a + b == a;
    } else {
      var b' := b[..|b| - 1];
      assert (a + b)[..|a + b| - 1] == a + b';
      assert (a + b)[|a + b| - 1] == b[|b| - 1];
      KeepShownAppend(a, b', elapsed);
    }
  }

  /** visibleDepartures: no snapshot, nothing; else the first two shown. */
  function VisibleDepartures(data: Option<BartData>, elapsed: int): (r: seq<Departure>)
    ensures data.None? ==> r == []
    ensures |r| <= MAX_VISIBLE
    ensures forall d :: d in r ==> d in data.value.departures && Shown(d, elapsed)
    // the first ones the filter keeps, as many as fit
    ensures data.Some? ==> var kept := KeepShown(data.value.departures, elapsed);
      |r| == (if |kept| < MAX_VISIBLE then |kept| else MAX_VISIBLE) && r == kept[..|r|]
  {
    if data.None? then []
    else Take(KeepShown(data.value.departures, elapsed), MAX_VISIBLE)
  }

  /** DepartureRow's time: "Now" when the train is leaving or due, else "<N> min". */
  function DisplayTime(d: Departure, elapsed: int): (t: string)
    ensures t == "Now" <==> d.departing || d.minutes - elapsed <= 0
    ensures t != "Now" ==> t == NatToString(d.minutes - elapsed) + " min"
  {
    var adjusted := d.minutes - elapsed;
    if d.departing || adjusted <= 0 then "Now"
    else
      var t := NatToString(adjusted) + " min";
      assert t[0] == NatToString(adjusted)[0];
      t
  }

  /** DepartureRow's delayed styling. */
  predicate HasDelay(d: Departure) {
    d.delay > 0
  }

  /** A row is styled as delayed exactly when its estimate's delay reads as a positive number. */
  lemma DelayMarkedFromFeed(destination: string, est: Estimate, minutes: int, departing: bool)
    ensures HasDelay(MakeDeparture(destination, est, minutes, departing)) <==>
      est.delay.Some? && ParseInt(est.delay.value).Some? && ParseInt(est.delay.value).value > 0
  {
  }

  /** A visible row never reads "Now": it shows its minutes, ten or more. */
  lemma VisibleRowsShowMinutes(data: Option<BartData>, elapsed: int)
    ensures forall d :: d in VisibleDepartures(data, elapsed) ==>
      && DisplayTime(d, elapsed) != "Now"
      && DisplayTime(d, elapsed) == NatToString(d.minutes - elapsed) + " min"
      && d.minutes - elapsed >= MIN_LEAD_MINUTES
  {
  }

  /** Filtering a list sorted by minutes leaves it sorted. */
  lemma {:induction false} KeepShownSorted(deps: seq<Departure>, elapsed: int)
    requires SortedByMinutes(deps)
    ensures SortedByMinutes(KeepShown(deps, elapsed))
    decreases |deps|
  {
    if deps != [] {
      var init := deps[..|deps| - 1];
      assert SortedByMinutes(init);
      KeepShownSorted(init, elapsed);
      var last := deps[|deps| - 1];
      forall d | d in KeepShown(init, elapsed) ensures d.minutes <= last.minutes {
        var k :| 0 <= k < |init| && init[k] == d;
      }
    }
  }

  /** Over the service's sorted departures, the card shows the two earliest
      that are shown at all, earliest first. */
  lemma VisibleOfSortedAreEarliest(data: Option<BartData>, elapsed: int)
    requires data.Some? && SortedByMinutes(data.value.departures)
    ensures SortedByMinutes(VisibleDepartures(data, elapsed))
    ensures var r := VisibleDepartures(data, elapsed);
      forall d, x | d in r && x in data.value.departures && Shown(x, elapsed) && x !in r :: d.minutes <= x.minutes
  {
    var kept := KeepShown(data.value.departures, elapsed);
    KeepShownSorted(data.value.departures, elapsed);
    var r := VisibleDepartures(data, elapsed);
    forall d, x | d in r && x in data.value.departures && Shown(x, elapsed) && x !in r
      ensures d.minutes <= x.minutes
    {
      var i :| 0 <= i < |r| && r[i] == d;
      var j :| 0 <= j < |kept| && kept[j] == x;
    }
  }
}
