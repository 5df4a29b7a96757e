/** The two stored entities, DateWeather and Diary. */
module Domain {
  import opened Base
  import opened Dates
  import opened Json

  /** Text obtained by calling toString() on a JSON value: for a JSON string the string itself;
      for any other value json-simple's rendering of it, kept symbolic. */
  datatype Label = Text(s: string) | Rendered(value: Json)

  /** A stored weather observation. A temperature of None is a null Double. */
  datatype DateWeather = DateWeather(date: Date, weather: Label, icon: Label, temperature: Option<Double>)

  /** A diary entry, owning a copy of the weather fields. */
  datatype Diary = Diary(date: Date, text: string, weather: Label, icon: Label, temperature: Option<Double>)

  /** A new Diary after setDateWeather(w) and setText(text): every field but the text is copied
      from the weather record, the date included. */
  function NewDiary(w: DateWeather, text: string): (e: Diary)
    ensures WeatherOf(e) == w && e.text == text
  {
    Diary(w.date, text, w.weather, w.icon, w.temperature)
  }

  /** The weather snapshot an entry owns, as a record. */
  function WeatherOf(e: Diary): DateWeather {
    DateWeather(e.date, e.weather, e.icon, e.temperature)
  }
}
