/** The drive-time service: one Distance Matrix request from home to the
    configured destinations, one row per destination in configuration order,
    with "Unavailable" wherever the matrix has no usable element, behind the
    stale-tolerant cache. */
module Maps {
  import opened Wrappers
  import opened JsStrings
  import opened FetchCache

  datatype Destination = Destination(name: string, address: string)

  /** DESTINATIONS. */
  const DESTINATIONS: seq<Destination> := [
    Destination("Work", "123 Business Ave, City, State 12345"),
    Destination("School", "456 Education Blvd, City, State 12345"),
    Destination("Gym", "789 Fitness Way, City, State 12345")
  ]

  const UNAVAILABLE := "Unavailable"

  /** One element of the matrix; each `text` is that of `duration`,
      `duration_in_traffic` and `distance`, when present. */
  datatype Element = Element(status: Option<string>, durationText: Option<string>,
                             durationInTrafficText: Option<string>, distanceText: Option<string>)
  datatype Row = Row(elements: Option<seq<Element>>)
  /** The response body: its top-level status and its rows (absent rows make `rows[0]` throw). */
  datatype MatrixResponse = MatrixResponse(status: Option<string>, rows: Option<seq<Row>>)

  datatype DriveTime = DriveTime(destination: string, address: string, duration: string,
                                 durationInTraffic: Option<string>, distance: string)

  /** The row for one destination from the element at its index, if there is one. */
  function DriveTimeFor(dest: Destination, element: Option<Element>): (t: DriveTime)
    ensures t.destination == dest.name && t.address == dest.address
    // an element that is missing or not OK yields the placeholder row
    ensures element.None? || element.value.status != Some("OK") ==>
      t == DriveTime(dest.name, dest.address, UNAVAILABLE, None, UNAVAILABLE)
    // a real duration or distance is always the element's own text
    ensures t.duration != UNAVAILABLE ==>
      element.Some? && element.value.status == Some("OK") && element.value.durationText == Some(t.duration)
    ensures t.distance != UNAVAILABLE ==>
      element.Some? && element.value.status == Some("OK") && element.value.distanceText == Some(t.distance)
    ensures t.durationInTraffic.Some? ==> element.Some? && t.durationInTraffic == element.value.durationInTrafficText
    // an OK element: its texts, "Unavailable" for a missing duration or distance, traffic as given
    ensures element.Some? && element.value.status == Some("OK") ==>
      t.duration == OrElse(element.value.durationText, UNAVAILABLE) &&
      t.distance == OrElse(element.value.distanceText, UNAVAILABLE) &&
      t.durationInTraffic == element.value.durationInTrafficText
  {
    match element
    case None => DriveTime(dest.name, dest.address, UNAVAILABLE, None, UNAVAILABLE)
    case Some(e) =>
      if e.status != Some("OK") then DriveTime(dest.name, dest.address, UNAVAILABLE, None, UNAVAILABLE)
      else DriveTime(dest.name, dest.address, OrElse(e.durationText, UNAVAILABLE),
                     e.durationInTrafficText, OrElse(e.distanceText, UNAVAILABLE))
  }

  /** `elements[index]`: undefined past the end. */
  function ElementAt(elements: seq<Element>, i: nat): (r: Option<Element>)
    ensures r.Some? <==> i < |elements|
    ensures i < |elements| ==> r == Some(elements[i])
  {
    if i < |elements| then Some(elements[i]) else None
  }

  /** DESTINATIONS.map over the elements of the first row. */
  function MapDriveTimes(elements: seq<Element>): (r: seq<DriveTime>)
    // one row per destination, in configuration order
    ensures |r| == |DESTINATIONS|
    ensures forall i :: 0 <= i < |r| ==> r[i].destination == DESTINATIONS[i].name && r[i].address == DESTINATIONS[i].address
    // each row is read from the element at the same index
    ensures forall i :: 0 <= i < |r| ==> r[i] == DriveTimeFor(DESTINATIONS[i], ElementAt(elements, i))
  {
    seq(|DESTINATIONS|, i requires 0 <= i < |DESTINATIONS| => DriveTimeFor(DESTINATIONS[i], ElementAt(elements, i)))
  }

  /** `data.rows[0]?.elements || []`, or the TypeError of indexing absent rows. */
  function FirstRowElements(rows: Option<seq<Row>>): (r: Result<seq<Element>>)
    // only absent rows throw
    ensures r.Err? <==> rows.None?
    // no first row, or one without elements, gives no elements
    ensures rows.Some? && (rows.value == [] || rows.value[0].elements.None?) ==> r == Ok([])
    ensures rows.Some? && rows.value != [] && rows.value[0].elements.Some? ==> r == Ok(rows.value[0].elements.value)
  {
    match rows
    case None => Err(MalformedResponse)
    case Some(rs) => if rs == [] then Ok([]) else Ok(rs[0].elements.GetOr([]))
  }

  /** What one fetch attempt produces from the HTTP call's outcome. */
  function DriveTimesOutcome(response: Result<MatrixResponse>): (r: Result<seq<DriveTime>>)
    ensures response.Err? ==> r == Err(response.error)
    // a top-level status other than OK is an error carrying that status
    ensures response.Ok? && response.value.status != Some("OK") ==>
      r == Err(UpstreamStatus(response.value.status.GetOr("undefined")))
    ensures r.Ok? ==> response.Ok? && response.value.status == Some("OK") && |r.value| == |DESTINATIONS|
    ensures response.Ok? && response.value.status == Some("OK") && response.value.rows.Some? ==> r.Ok?
    // the rows are the destinations read against the first row's elements
    ensures r.Ok? ==> FirstRowElements(response.value.rows).Ok? &&
                      r.value == MapDriveTimes(FirstRowElements(response.value.rows).value)
  {
    match response
    case Err(e) => Err(e)
    case Ok(data) =>
      if data.status != Some("OK") then Err(UpstreamStatus(data.status.GetOr("undefined")))
      else match FirstRowElements(data.rows)
        case Err(e) => Err(e)
        case Ok(elements) => Ok(MapDriveTimes(elements))
  }

  /** An OK response without elements lists every destination as unavailable. */
  lemma NoElementsAllUnavailable(rows: seq<Row>)
    requires rows == [] || rows[0].elements.None? || rows[0].elements == Some([])
    ensures var r := DriveTimesOutcome(Ok(MatrixResponse(Some("OK"), Some(rows))));
      && r.Ok?
      && forall i :: 0 <= i < |r.value| ==> r.value[i].duration == UNAVAILABLE && r.value[i].distance == UNAVAILABLE
  {
    var r := DriveTimesOutcome(Ok(MatrixResponse(Some("OK"), Some(rows))));
    assert forall i :: 0 <= i < |DESTINATIONS| ==> ElementAt([], i).None?;
  }

  /** One element of three not OK: that destination alone reads "Unavailable",
      the other two carry their elements' texts. */
  lemma OneElementNotOk(e0: Element, e1: Element, e2: Element)
    requires e0.status == Some("OK") && Truthy(e0.durationText) && Truthy(e0.distanceText)
    requires e1.status != Some("OK")
    requires e2.status == Some("OK") && Truthy(e2.durationText) && Truthy(e2.distanceText)
    ensures var r := DriveTimesOutcome(Ok(MatrixResponse(Some("OK"), Some([Row(Some([e0, e1, e2]))]))));
      && r.Ok?
      && r.value[0].duration == e0.durationText.value && r.value[0].distance == e0.distanceText.value
      && r.value[1].duration == UNAVAILABLE && r.value[1].distance == UNAVAILABLE && r.value[1].durationInTraffic.None?
      && r.value[2].duration == e2.durationText.value && r.value[2].distance == e2.distanceText.value
  {
    var elements := [e0, e1, e2];
    assert ElementAt(elements, 0) == Some(e0);
    assert ElementAt(elements, 1) == Some(e1);
    assert ElementAt(elements, 2) == Some(e2);
  }

  /** getDriveTimes at clock reading `now`; `response` is what the HTTP call produces. */
  method GetDriveTimes(cache: StaleCache<seq<DriveTime>>, now: int, response: Result<MatrixResponse>)
    returns (answer: Result<seq<DriveTime>>, attempted: bool)
    modifies cache
    ensures Step(answer, cache.entry, attempted) == CacheGet(old(cache.entry), cache.ttl, now, DriveTimesOutcome(response))
  {
    answer, attempted := cache.Get(now, DriveTimesOutcome(response));
  }
}
