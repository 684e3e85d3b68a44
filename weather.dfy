/** The weather service: one current-conditions request for the configured
    location, reduced to a snapshot with defaults for a missing condition,
    behind the stale-tolerant cache. */
module Weather {
  import opened Wrappers
  import opened JsStrings
  import opened FetchCache

  /** WEATHER_LOCATION.name. */
  const LOCATION_NAME := "New York, NY"

  /** One entry of the `weather` array. */
  datatype Condition = Condition(description: Option<string>, main: Option<string>, icon: Option<string>)
  /** The `main` object, in whole degrees Fahrenheit and percent. */
  datatype Readings = Readings(temp: int, feelsLike: int, humidity: int)
  /** The response body; an absent `main`, `weather` or `wind` makes reading it throw. */
  datatype WeatherResponse = WeatherResponse(main: Option<Readings>, weather: Option<seq<Condition>>, windSpeed: Option<int>)

  datatype WeatherData = WeatherData(temperature: int, feelsLike: int, humidity: int, description: string,
                                     condition: string, icon: string, windSpeed: int, location: string)

  /** The snapshot of a well-formed body: the first condition's fields with
      "Unknown", "Clear" and "01d" in place of missing ones. */
  function Snapshot(readings: Readings, conditions: seq<Condition>, windSpeed: int): (w: WeatherData)
    ensures w.location == LOCATION_NAME
    ensures w.temperature == readings.temp && w.feelsLike == readings.feelsLike
    ensures w.humidity == readings.humidity && w.windSpeed == windSpeed
    // no condition at all: the defaults
    ensures conditions == [] ==> w.description == "Unknown" && w.condition == "Clear" && w.icon == "01d"
    // a real field is the first condition's own
    ensures w.description != "Unknown" ==> conditions != [] && conditions[0].description == Some(w.description)
    ensures w.condition != "Clear" ==> conditions != [] && conditions[0].main == Some(w.condition)
    ensures w.icon != "01d" ==> conditions != [] && conditions[0].icon == Some(w.icon)
    // a present, non-empty field of the first condition is carried over as is
    ensures conditions != [] && Truthy(conditions[0].description) ==> w.description == conditions[0].description.value
    ensures conditions != [] && Truthy(conditions[0].main) ==> w.condition == conditions[0].main.value
    ensures conditions != [] && Truthy(conditions[0].icon) ==> w.icon == conditions[0].icon.value
    ensures w.description != "" && w.condition != "" && w.icon != ""
  {
    var first := if conditions == [] then Condition(None, None, None) else conditions[0];
    WeatherData(readings.temp, readings.feelsLike, readings.humidity,
                OrElse(first.description, "Unknown"), OrElse(first.main, "Clear"), OrElse(first.icon, "01d"),
                windSpeed, LOCATION_NAME)
  }

  /** What one fetch attempt produces from the HTTP call's outcome. */
  function WeatherOutcome(response: Result<WeatherResponse>): (r: Result<WeatherData>)
    ensures response.Err? ==> r == Err(response.error)
    ensures response.Ok? ==>
      (r.Ok? <==> response.value.main.Some? && response.value.weather.Some? && response.value.windSpeed.Some?)
    ensures r.Ok? ==> r.value.location == LOCATION_NAME
    ensures r.Err? && response.Ok? ==> r == Err(MalformedResponse)
    ensures r.Ok? ==> r.value == Snapshot(response.value.main.value, response.value.weather.value, response.value.windSpeed.value)
  {
    match response
    case Err(e) => Err(e)
    case Ok(data) =>
      if data.main.None? || data.weather.None? || data.windSpeed.None? then Err(MalformedResponse)
      else Ok(Snapshot(data.main.value, data.weather.value, data.windSpeed.value))
  }

  /** getCurrentWeather at clock reading `now`; `response` is what the HTTP call produces. */
  method GetCurrentWeather(cache: StaleCache<WeatherData>, now: int, response: Result<WeatherResponse>)
    returns (answer: Result<WeatherData>, attempted: bool)
    modifies cache
    ensures Step(answer, cache.entry, attempted) == CacheGet(old(cache.entry), cache.ttl, now, WeatherOutcome(response))
  {
    answer, attempted := cache.Get(now, WeatherOutcome(response));
  }
}
