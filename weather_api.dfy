/** The OpenWeatherMap response path: parseWeather and the record built from it in
    getWeatherFromApi. Fetching the body (getWeatherString) and JSON text parsing are outside the
    model: their combined result is given as `parsed`, None when JSONParser.parse rejects the body
    (as it rejects the literal failure text getWeatherString returns on an exception). */
module WeatherApi {
  import opened Base
  import opened Dates
  import opened Json
  import opened Domain

  /** The map parseWeather returns: its "main", "icon" and "temp" entries, null when absent. */
  datatype WeatherFields = WeatherFields(main: Json, icon: Json, temp: Json)

  const WeatherMainPath: seq<Step> := [Key("weather"), Index(0), Key("main")]
  const WeatherIconPath: seq<Step> := [Key("weather"), Index(0), Key("icon")]
  const MainTempPath: seq<Step> := [Key("main"), Key("temp")]

  /** A cast to JSONObject followed by a call on the result. */
  function AsObject(j: Json): (r: Result<map<string, Json>>)
    ensures j.JNull? ==> r == Err(NullPointer)
    ensures j.JObject? ==> r == Ok(j.members)
    ensures !j.JNull? && !j.JObject? ==> r == Err(ClassCast)
  {
    match j
    case JNull => Err(NullPointer)
    case JObject(m) => Ok(m)
    case _ => Err(ClassCast)
  }

  /** A cast to JSONArray followed by a call on the result. */
  function AsArray(j: Json): (r: Result<seq<Json>>)
    ensures j.JNull? ==> r == Err(NullPointer)
    ensures j.JArray? ==> r == Ok(j.items)
    ensures !j.JNull? && !j.JArray? ==> r == Err(ClassCast)
  {
    match j
    case JNull => Err(NullPointer)
    case JArray(items) => Ok(items)
    case _ => Err(ClassCast)
  }

  /** A document parseWeather accepts: an object whose "main" is an object and whose "weather"
      is a non-empty array starting with an object. */
  predicate HasWeatherShape(doc: Json) {
    doc.JObject?
    && At(doc, [Key("main")]).JObject?
    && At(doc, [Key("weather")]).JArray?
    && |At(doc, [Key("weather")]).items| > 0
    && At(doc, [Key("weather"), Index(0)]).JObject?
  }

  /** parseWeather: weather[0].main, weather[0].icon and main.temp of the parsed body. */
  function ParseWeather(parsed: Option<Json>): (r: Result<WeatherFields>)
    ensures r.Ok? <==> parsed.Some? && HasWeatherShape(parsed.value)
    ensures r.Ok? ==> r.value == WeatherFields(At(parsed.value, WeatherMainPath),
                                               At(parsed.value, WeatherIconPath),
                                               At(parsed.value, MainTempPath))
    ensures parsed.None? ==> r == Err(JsonParseError)
    ensures parsed.Some? && AsObject(parsed.value).Err? ==> r == Err(AsObject(parsed.value).error)
    ensures (parsed.Some? && parsed.value.JObject? && AsObject(Get(parsed.value.members, "main")).Err?)
            ==> r == Err(AsObject(Get(parsed.value.members, "main")).error)
    ensures (parsed.Some? && parsed.value.JObject? && Get(parsed.value.members, "main").JObject?
             && AsArray(Get(parsed.value.members, "weather")).Err?)
            ==> r == Err(AsArray(Get(parsed.value.members, "weather")).error)
    ensures (parsed.Some? && parsed.value.JObject? && Get(parsed.value.members, "main").JObject?
             && Get(parsed.value.members, "weather").JArray? && |Get(parsed.value.members, "weather").items| > 0
             && AsObject(Get(parsed.value.members, "weather").items[0]).Err?)
            ==> r == Err(AsObject(Get(parsed.value.members, "weather").items[0]).error)
    ensures parsed.Some? && parsed.value.JObject? && "main" !in parsed.value.members ==> r == Err(NullPointer)
    ensures (parsed.Some? && parsed.value.JObject? && At(parsed.value, [Key("main")]).JObject?
             && At(parsed.value, [Key("weather")]) == JArray([])) ==> r == Err(IndexOutOfBounds)
  {
    match parsed
    case None => Err(JsonParseError)
    case Some(doc) =>
      match AsObject(doc)
      case Err(e) => Err(e)
      case Ok(top) =>
        match AsObject(Get(top, "main"))
        case Err(e) => Err(e)
        case Ok(mainData) =>
          match AsArray(Get(top, "weather"))
          case Err(e) => Err(e)
          case Ok(weatherArray) =>
            if |weatherArray| == 0 then Err(IndexOutOfBounds)
            else
              match AsObject(weatherArray[0])
              case Err(e) => Err(e)
              case Ok(weatherData) =>
                Ok(WeatherFields(Get(weatherData, "main"), Get(weatherData, "icon"), Get(mainData, "temp")))
  }

  /** toString() on a map entry: fails on null. */
  function ToLabel(j: Json): (r: Result<Label>)
    ensures r.Err? <==> j.JNull?
    ensures j.JString? ==> r == Ok(Text(j.s))
  {
    match j
    case JNull => Err(NullPointer)
    case JString(s) => Ok(Text(s))
    case _ => Ok(Rendered(j))
  }

  /** The (Double) cast: null stays null, a Double passes, anything else (a Long too) fails. */
  function AsDouble(j: Json): (r: Result<Option<Double>>)
    ensures r.Err? <==> !j.JNull? && !j.JDouble?
    ensures j.JNull? ==> r == Ok(None)
    ensures j.JDouble? ==> r == Ok(Some(j.d))
  {
    match j
    case JNull => Ok(None)
    case JDouble(d) => Ok(Some(d))
    case _ => Err(ClassCast)
  }

  /** getWeatherFromApi: the record built from the response, dated today whatever date the
      caller asked about. */
  function WeatherFromApi(parsed: Option<Json>, today: Date): (r: Result<DateWeather>)
    ensures r.Ok? ==> r.value.date == today
    ensures ParseWeather(parsed).Err? ==> r == Err(ParseWeather(parsed).error)
    ensures r.Ok? <==> ParseWeather(parsed).Ok? && ToLabel(ParseWeather(parsed).value.main).Ok?
                       && ToLabel(ParseWeather(parsed).value.icon).Ok? && AsDouble(ParseWeather(parsed).value.temp).Ok?
    ensures r.Err? && ParseWeather(parsed).Ok? ==>
            r.error == (if ToLabel(ParseWeather(parsed).value.main).Err? || ToLabel(ParseWeather(parsed).value.icon).Err?
                        then NullPointer else ClassCast)
    ensures r.Ok? ==> r.value == DateWeather(today, ToLabel(ParseWeather(parsed).value.main).value,
                                             ToLabel(ParseWeather(parsed).value.icon).value,
                                             AsDouble(ParseWeather(parsed).value.temp).value)
  {
    match ParseWeather(parsed)
    case Err(e) => Err(e)
    case Ok(fields) =>
      match ToLabel(fields.main)
      case Err(e) => Err(e)
      case Ok(weather) =>
        match ToLabel(fields.icon)
        case Err(e) => Err(e)
        case Ok(icon) =>
          match AsDouble(fields.temp)
          case Err(e) => Err(e)
          case Ok(temperature) => Ok(DateWeather(today, weather, icon, temperature))
  }

  /** The smallest response of the shape OpenWeatherMap sends, with the given fields. */
  function Response(main: Json, icon: Json, temp: Json): Json {
    JObject(map[
      "weather" := JArray([JObject(map["main" := main, "icon" := icon])]),
      "main" := JObject(map["temp" := temp])])
  }

  /** parseWeather recovers the three fields of such a response, whatever they are. */
  lemma ParseWeatherOfResponse(main: Json, icon: Json, temp: Json)
    ensures ParseWeather(Some(Response(main, icon, temp))) == Ok(WeatherFields(main, icon, temp))
  {
  }

  /** A well-formed response gives the record of today with its condition, icon and temperature. */
  lemma WeatherFromResponse(main: string, icon: string, temp: Double, today: Date)
    ensures WeatherFromApi(Some(Response(JString(main), JString(icon), JDouble(temp))), today)
            == Ok(DateWeather(today, Text(main), Text(icon), Some(temp)))
  {
  }

  /** An integral temperature is parsed as a Long, and the (Double) cast rejects it. */
  lemma IntegralTemperatureFails(main: string, icon: string, kelvin: int, today: Date)
    ensures WeatherFromApi(Some(Response(JString(main), JString(icon), JLong(kelvin))), today) == Err(ClassCast)
  {
  }

  /** A missing main.temp is not an error: the record's temperature is null. */
  lemma MissingTemperatureIsNull(main: string, icon: string, today: Date)
    ensures WeatherFromApi(Some(Response(JString(main), JString(icon), JNull)), today)
            == Ok(DateWeather(today, Text(main), Text(icon), None))
  {
  }

  /** A missing weather[0].main fails in toString(). */
  lemma MissingConditionFails(icon: Json, temp: Json, today: Date)
    ensures WeatherFromApi(Some(Response(JNull, icon, temp)), today) == Err(NullPointer)
  {
  }
}
