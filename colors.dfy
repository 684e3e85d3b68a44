/** The dashboard's colour tables: day-type accents, event-category
    backgrounds, weather-condition backgrounds and the four status
    backgrounds, as hex strings. */
module Colors {
  import opened Wrappers

  const TODAY_ACCENT := "#FF8C42"
  const TODAY_BACKGROUND := "#FFF4ED"
  const TOMORROW_ACCENT := "#5B9BD5"
  const TOMORROW_BACKGROUND := "#EFF6FC"
  const UPCOMING_ACCENT := "#757575"
  const UPCOMING_BACKGROUND := "#FFFFFF"

  const WEATHER_SUNNY := "#FFF9E6"
  const WEATHER_RAINY := "#E8F4F8"
  const WEATHER_CLOUDY := "#F5F5F5"
  const WEATHER_SNOWY := "#F0F8FF"

  const EVENT_CELEBRATION := "#FFF5F0"
  const EVENT_WORK := "#F0F5FA"
  const EVENT_HEALTH := "#FFF0F0"
  const EVENT_TRAVEL := "#F0F8FF"
  const EVENT_FOOD := "#FFF8E8"
  const EVENT_EDUCATION := "#F5F5FF"
  const EVENT_ENTERTAINMENT := "#FFF5FA"
  const EVENT_DEFAULT := "#FFFFFF"

  const TEXT_PRIMARY := "#1A1A1A"
  const TEXT_SECONDARY := "#666666"
  const TRAFFIC_RED := "#E84C3D"
  const TRAFFIC_NORMAL := "#4CAF50"

  /** The keys of `statusBackgrounds`. */
  datatype StatusLevel = Normal | Caution | Alert | Neutral

  /** `statusBackgrounds[level]`. */
  function StatusBackground(level: StatusLevel): (c: string)
    // a "#RRGGBB" colour
    ensures |c| == 7 && c[0] == '#'
  {
    match level
    case Normal => "#E8F5E9"
    case Caution => "#FFF3E0"
    case Alert => "#FFEBEE"
    case Neutral => "#F5F5F5"
  }

  /** The four levels have four distinct backgrounds. */
  lemma StatusBackgroundsDistinct(a: StatusLevel, b: StatusLevel)
    requires a != b
    ensures StatusBackground(a) != StatusBackground(b)
  {
  }

  datatype DayType = Today | Tomorrow | Upcoming

  datatype AccentColors = AccentColors(accent: string, background: string)

  /** getAccentColors: defined for every day type. */
  function GetAccentColors(day: DayType): (c: AccentColors)
    ensures day == Today ==> c == AccentColors(TODAY_ACCENT, TODAY_BACKGROUND)
    ensures day == Tomorrow ==> c == AccentColors(TOMORROW_ACCENT, TOMORROW_BACKGROUND)
    ensures day == Upcoming ==> c == AccentColors(UPCOMING_ACCENT, UPCOMING_BACKGROUND)
  {
    match day
    case Today => AccentColors(TODAY_ACCENT, TODAY_BACKGROUND)
    case Tomorrow => AccentColors(TOMORROW_ACCENT, TOMORROW_BACKGROUND)
    case Upcoming => AccentColors(UPCOMING_ACCENT, UPCOMING_BACKGROUND)
  }

  /** The three day types are told apart by both their accent and their background. */
  lemma AccentColorsDistinct(a: DayType, b: DayType)
    requires a != b
    ensures GetAccentColors(a).accent != GetAccentColors(b).accent
    ensures GetAccentColors(a).background != GetAccentColors(b).background
  {
  }

  /** The seven named event categories; every other string is the default. */
  const NAMED_CATEGORIES: seq<string> := ["celebration", "work", "health", "travel", "food", "education", "entertainment"]
  const NAMED_BACKGROUNDS: seq<string> :=
    [EVENT_CELEBRATION, EVENT_WORK, EVENT_HEALTH, EVENT_TRAVEL, EVENT_FOOD, EVENT_EDUCATION, EVENT_ENTERTAINMENT]

  /** getEventCategoryBackground: the switch over the category string. */
  function GetEventCategoryBackground(category: string): (c: string)
    // each named category has its own colour
    ensures forall i :: 0 <= i < |NAMED_CATEGORIES| && category == NAMED_CATEGORIES[i] ==> c == NAMED_BACKGROUNDS[i]
    // 'default' and every unnamed string fall through to eventDefault
    ensures category !in NAMED_CATEGORIES ==> c == EVENT_DEFAULT
    // a named category is never shown on the default background
    ensures category in NAMED_CATEGORIES ==> c != EVENT_DEFAULT
  {
    match category
    case "celebration" => EVENT_CELEBRATION
    case "work" => EVENT_WORK
    case "health" => EVENT_HEALTH
    case "travel" => EVENT_TRAVEL
    case "food" => EVENT_FOOD
    case "education" => EVENT_EDUCATION
    case "entertainment" => EVENT_ENTERTAINMENT
    case _ => EVENT_DEFAULT
  }

  /** Distinct named categories get distinct backgrounds. */
  lemma CategoryBackgroundsDistinct(a: string, b: string)
    requires a in NAMED_CATEGORIES && b in NAMED_CATEGORIES && a != b
    ensures GetEventCategoryBackground(a) != GetEventCategoryBackground(b)
  {
  }

  datatype WeatherStyle = WeatherStyle(background: string, name: string)

  /** WEATHER_CONDITIONS, keyed by the upstream condition name. */
  const WEATHER_CONDITIONS: map<string, WeatherStyle> := map[
    "Clear" := WeatherStyle(WEATHER_SUNNY, "Clear"),
    "Clouds" := WeatherStyle(WEATHER_CLOUDY, "Cloudy"),
    "Rain" := WeatherStyle(WEATHER_RAINY, "Rainy"),
    "Drizzle" := WeatherStyle(WEATHER_RAINY, "Drizzly"),
    "Snow" := WeatherStyle(WEATHER_SNOWY, "Snowy"),
    "Thunderstorm" := WeatherStyle(WEATHER_RAINY, "Stormy"),
    "Mist" := WeatherStyle(WEATHER_CLOUDY, "Misty"),
    "Fog" := WeatherStyle(WEATHER_CLOUDY, "Foggy"),
    "Haze" := WeatherStyle(WEATHER_CLOUDY, "Hazy")
  ]

  /** The style of a condition, if the table has one. */
  function WeatherStyleOf(condition: string): (s: Option<WeatherStyle>)
    ensures s.Some? <==> condition in WEATHER_CONDITIONS
    // wet conditions share the rainy background, overcast ones the cloudy one
    ensures condition in ["Rain", "Drizzle", "Thunderstorm"] ==> s.Some? && s.value.background == WEATHER_RAINY
    ensures condition in ["Clouds", "Mist", "Fog", "Haze"] ==> s.Some? && s.value.background == WEATHER_CLOUDY
    ensures condition == "Clear" ==> s == Some(WeatherStyle(WEATHER_SUNNY, "Clear"))
    ensures condition == "Snow" ==> s == Some(WeatherStyle(WEATHER_SNOWY, "Snowy"))
  {
    if condition in WEATHER_CONDITIONS then Some(WEATHER_CONDITIONS[condition]) else None
  }
}
