/** The calendar service: the primary calendar's events of the coming week,
    each mapped to the dashboard's event shape, fetched with a valid access
    token (refreshed first when it is about to expire), behind the
    stale-tolerant cache. */
module GoogleCalendar {
  import opened Wrappers
  import opened JsStrings
  import opened FetchCache
  import opened TokenManager

  /** An event's `start` or `end`: a timed `dateTime` or an all-day `date`. */
  datatype EventTime = EventTime(dateTime: Option<string>, date: Option<string>)
  /** One item of the events list. */
  datatype ApiEvent = ApiEvent(id: Option<string>, summary: Option<string>, start: Option<EventTime>,
                               end: Option<EventTime>, location: Option<string>)
  /** The list call's response body. */
  datatype EventsPage = EventsPage(items: Option<seq<ApiEvent>>)

  datatype CalendarEvent = CalendarEvent(id: string, title: string, start: string, end: string,
                                         allDay: bool, location: Option<string>)

  /** `t?.dateTime || t?.date || ''`. */
  function TimeText(t: Option<EventTime>): (s: string)
    ensures t.Some? && Truthy(t.value.dateTime) ==> s == t.value.dateTime.value
    ensures s != "" ==> t.Some? && (Some(s) == t.value.dateTime || Some(s) == t.value.date)
  {
    if t.None? then "" else OrElse(t.value.dateTime, OrElse(t.value.date, ""))
  }

  /** An event is all-day exactly when its start has no (truthy) dateTime. */
  predicate IsAllDay(e: ApiEvent)
    // an all-day event's start is its date, if any; a timed one's is its dateTime
    ensures IsAllDay(e) ==> TimeText(e.start) == if e.start.Some? then OrElse(e.start.value.date, "") else ""
    ensures !IsAllDay(e) ==> TimeText(e.start) == e.start.value.dateTime.value
  {
    !(e.start.Some? && Truthy(e.start.value.dateTime))
  }

  function ToCalendarEvent(e: ApiEvent): (c: CalendarEvent)
    ensures c.allDay <==> IsAllDay(e)
    // a timed event starts at its dateTime
    ensures !c.allDay ==> c.start == e.start.value.dateTime.value
    ensures c.title == (if Truthy(e.summary) then e.summary.value else "Untitled Event")
    ensures c.title != ""
    ensures c.location == e.location
    ensures c.id == OrElse(e.id, "")
    ensures c.start == TimeText(e.start) && c.end == TimeText(e.end)
  {
    CalendarEvent(OrElse(e.id, ""), OrElse(e.summary, "Untitled Event"), TimeText(e.start), TimeText(e.end),
                  IsAllDay(e), e.location)
  }

  /** `(items || []).map(...)`: one event per item, in the order the API listed them. */
  function MapEvents(items: seq<ApiEvent>): (r: seq<CalendarEvent>)
    ensures |r| == |items|
    ensures forall i :: 0 <= i < |items| ==> r[i] == ToCalendarEvent(items[i])
  {
    seq(|items|, i requires 0 <= i < |items| => ToCalendarEvent(items[i]))
  }

  /** The events of a successful list call. */
  function EventsOf(page: EventsPage): (r: seq<CalendarEvent>)
    // no `items` at all: no events
    ensures page.items.None? ==> r == []
    ensures page.items.Some? ==> |r| == |page.items.value|
    ensures page.items.Some? ==> forall i :: 0 <= i < |r| ==> r[i] == ToCalendarEvent(page.items.value[i])
  {
    MapEvents(page.items.GetOr([]))
  }

  /** What one fetch attempt produces: the token step's failure, else the list call's outcome, mapped. */
  function CalendarOutcome(token: Result<string>, list: Result<EventsPage>): (r: Result<seq<CalendarEvent>>)
    ensures token.Err? ==> r == Err(token.error)
    ensures token.Ok? && list.Err? ==> r == Err(list.error)
    ensures r.Ok? <==> token.Ok? && list.Ok?
    ensures r.Ok? ==> |r.value| == |list.value.items.GetOr([])|
    ensures r.Ok? ==> r.value == MapEvents(list.value.items.GetOr([]))
  {
    if token.Err? then Err(token.error)
    else if list.Err? then Err(list.error)
    else Ok(EventsOf(list.value))
  }

  /** The outcome a signed-out household sees: NotAuthenticated, with no list call. */
  lemma SignedOutNoEvents(now: int, refresh: RefreshOutcome, list: Result<EventsPage>)
    ensures CalendarOutcome(ValidToken(None, now, refresh).result, list) == Err(NotAuthenticated)
  {
  }

  /** getUpcomingEvents at clock reading `now`; `refresh` is what the refresh
      grant answers if getValidToken calls it and `list` what the list call
      produces. The token is requested only on a miss. */
  method GetUpcomingEvents(cache: StaleCache<seq<CalendarEvent>>, store: CredentialStore, now: int,
                           refresh: RefreshOutcome, list: Result<EventsPage>)
    returns (answer: Result<seq<CalendarEvent>>, attempted: bool)
    modifies cache, store
    ensures Step(answer, cache.entry, attempted)
      == CacheGet(old(cache.entry), cache.ttl, now, CalendarOutcome(ValidToken(old(store.slot), now, refresh).result, list))
    // a hit leaves the credential alone; a miss persists what getValidToken did to it
    ensures store.slot == (if attempted then ValidToken(old(store.slot), now, refresh).slot else old(store.slot))
    ensures store.nextId == old(store.nextId)
  {
    if cache.Fresh(now) {
      return Ok(cache.entry.value.data), false;
    }
    var token, _ := store.GetValidToken(now, refresh);
    var outcome := if token.Err? then Err(token.error)
                   else if list.Err? then Err(list.error)
                   else Ok(MapEvents(list.value.items.GetOr([])));
    answer, attempted := cache.Get(now, outcome);
  }
}
