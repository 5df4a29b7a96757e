# Weather diary service, modelled in Dafny

The service keeps a diary of text entries per calendar date. Each entry is annotated with that
day's weather. It holds two stores:

- a weather store of `DateWeather` records (date, condition, icon, temperature). A daily job
  fills it with the current OpenWeatherMap observation.
- a diary store of `Diary` entries (date, text and a copy of the weather fields).

`createDiary` resolves the weather for a date through the weather store. On a hit it takes the
first stored record. On a miss it takes the record built from a live API response. It then
appends one entry. `readDiary`, `readDiaries`, `updateDiary` and `deleteDiary` query and change
the diary store by date.

The model has eight modules:

- `Base`: `Option`, `Result`, `Outcome` and the error kinds. Each error kind names the
  exception the code raises at that point. `JsonParseError` is the `RuntimeException` that wraps
  the parser's `ParseException`.
- `Dates`: `LocalDate` as a (year, month, day) triple, ordered lexicographically as `isAfter`
  orders it.
- `Json`: the values json-simple produces (`JSONObject` is a map, and a missing key reads as
  null) and path lookup.
- `Sequences`: order-preserving selection (`Filter`) and the first matching position
  (`FirstIndex`), with their lemmas.
- `Domain`: the two entities, and `NewDiary` for `setDateWeather` followed by `setText`.
- `Repositories`: the derived queries of the two Spring Data repositories, over the store
  contents in store order.
- `WeatherApi`: `parseWeather` and the record construction of `getWeatherFromApi`.
- `DiaryService`: the queries as functions of the store contents. Each state change is a
  function that gives the new store contents. The class `Service` holds the two stores as `seq`
  fields, and its methods `SaveWeatherDate`, `CreateDiary`, `UpdateDiary` and `DeleteDiary`
  update those fields as the functions say.

Inputs stand in for what the service reads from outside:

- `today` stands for `LocalDate.now()`.
- `fetched: Option<Json>` stands for the response body after `JSONParser.parse`. `None` means
  the parser rejected the text, as it rejects the literal failure string `getWeatherString`
  returns when the connection fails.
- `CreateDiary` returns `apiCalled`, which says whether the lookup took the API branch. The flag
  is computed from the same condition as that branch. So the statement that the API response
  has no effect on a hit rests on the lemma `HitIgnoresApi`, not on the flag.

Assumptions about code that is not part of this model:

- `Diary.java`, `DateWeather.java` and the two repositories are not part of this model.
- The repositories follow their derived-query names:
  - `findAllByDate` returns the matches in store order.
  - `getFirstByDate` returns the first match, or null.
  - `findAllByDateBetween` is inclusive at both ends.
  - `deleteAllByDate` removes every match.
  - `save` of an entity that is already stored replaces it in place.
  - A `DateWeather`'s identity is a generated id, not its date. So `save` in `saveWeatherDate`
    always inserts a new row, and the store can hold several records for one date. If the date
    were the `@Id`, `save` would merge into the stored row, and `SaveWeatherWarmsCache`
    (one more record for today) would not hold.
- `DateWeather.setTemperature` takes a boxed `Double`, so a null map entry is stored as a null
  temperature. With a primitive `double` parameter, unboxing null at `DiaryService.java:84`
  would throw a NullPointerException instead, and `MissingTemperatureIsNull` would not hold.
- `Diary.setDateWeather` copies all four fields of the record, the date included (`NewDiary`).
  `createDiary` never passes the requested date to the new entry. So an entry created on a cache
  miss is dated `today`, not the date that was asked for (`CreateOnMissDatesToday`).

The code as written:

- The miss path of `getDateWeather` does not save the fetched record. A second lookup for the
  same date goes to the API again (`CreateTwiceOnMiss`).
- The far-future check (after 3050-01-01) is in `readDiary` only. `createDiary` accepts any date.
- `updateDiary` for a date with no entry fails with a `NullPointerException` (`UpdateDiaryIn`).
- After `createDiary`, `findAllByDate` for the same date finds the new entry on a hit
  (`CreateThenReadOnHit`). On a miss for a date other than today it does not
  (`CreateOnMissDatesToday`). `readDiary` returns that same list for any date up to
  3050-01-01 (`ReadDiary`).

The code also has these edge cases:

- The JSON parser reads an integral temperature (`"temp": 280`) as a `Long`, and the `(Double)`
  cast then fails (`IntegralTemperatureFails`).
- A missing `main.temp` is not an error: the record gets a null temperature
  (`MissingTemperatureIsNull`).

## Model

| member | source | states |
|---|---|---|
| `Sequences.Filter` | src/main/java/zerobase/weather/service/DiaryService.java:90 | the selection holds exactly the elements of the store that satisfy the condition |
| `Sequences.FilterAppend` | src/main/java/zerobase/weather/service/DiaryService.java:108 | selection distributes over concatenation, so results come in store order |
| `Sequences.FilterNested` | src/main/java/zerobase/weather/service/DiaryService.java:127 | selecting by a weaker condition first changes nothing (idempotence when the conditions agree) |
| `Sequences.FilterAtFirst` | src/main/java/zerobase/weather/service/DiaryService.java:119 | with k the first match, the selection is element k followed by the matches after k |
| `Sequences.FilterUpdateUnselected` | src/main/java/zerobase/weather/service/DiaryService.java:121 | replacing a non-matching element by another non-matching one leaves the selection unchanged |
| `Sequences.FirstIndex` | src/main/java/zerobase/weather/service/DiaryService.java:119 | the result is a matching position with no match before it; it is None only if nothing matches |
| `Sequences.FirstIndexHeadsFilter` | src/main/java/zerobase/weather/service/DiaryService.java:97 | element 0 of the selection is the element at the first matching position, and it exists exactly when something matches |
| `Repositories.FindAllWeatherByDate` | src/main/java/zerobase/weather/service/DiaryService.java:90 | exactly the stored weather records dated d |
| `Repositories.FindAllByDate` | src/main/java/zerobase/weather/service/DiaryService.java:108 | exactly the diary entries dated d |
| `Repositories.FindAllByDateBetween` | src/main/java/zerobase/weather/service/DiaryService.java:113 | exactly the entries with start <= date <= end, inclusive at both ends |
| `Repositories.GetFirstByDate` | src/main/java/zerobase/weather/service/DiaryService.java:119 | the position of the first entry dated d, or None (null) exactly when no entry has that date |
| `Repositories.DeleteAllByDate` | src/main/java/zerobase/weather/service/DiaryService.java:127 | exactly the entries not dated d remain |
| `Domain.NewDiary` | src/main/java/zerobase/weather/service/DiaryService.java:64-67 | the new entry carries the given text and a snapshot of the whole weather record, its date included |
| `Dates.IsAfterIsStrictTotalOrder` | src/main/java/zerobase/weather/service/DiaryService.java:104 | isAfter is irreflexive, asymmetric, transitive and total |
| `WeatherApi.ParseWeather` | src/main/java/zerobase/weather/service/DiaryService.java:167-190 | succeeds exactly on an object whose main is an object and whose weather is a non-empty array starting with an object; then gives weather[0].main, weather[0].icon and main.temp; otherwise the error is that of the first failing step in source order: unparsable text gives JsonParseError; a null or non-object document, main or weather[0] gives NullPointer or ClassCast as the cast does; a missing main gives NullPointer; a null or non-array weather gives NullPointer or ClassCast; an empty weather array gives IndexOutOfBounds |
| `Json.Get` | src/main/java/zerobase/weather/service/DiaryService.java:182-188 | JSONObject.get gives the stored value, or null for a missing key |
| `WeatherApi.AsObject` | src/main/java/zerobase/weather/service/DiaryService.java:182-183 | a cast to JSONObject followed by a call: null gives NullPointer, an object passes, any other kind gives ClassCast |
| `WeatherApi.AsArray` | src/main/java/zerobase/weather/service/DiaryService.java:185-186 | a cast to JSONArray followed by a call: null gives NullPointer, an array passes, any other kind gives ClassCast |
| `WeatherApi.ToLabel` | src/main/java/zerobase/weather/service/DiaryService.java:82-83 | toString() fails exactly on null, and a JSON string gives its own text |
| `WeatherApi.AsDouble` | src/main/java/zerobase/weather/service/DiaryService.java:84 | the Double cast fails exactly on a value that is neither null nor a Double; null stays null and a Double passes as itself |
| `WeatherApi.WeatherFromApi` | src/main/java/zerobase/weather/service/DiaryService.java:72-86 | succeeds exactly when parsing, both toString() calls and the Double cast succeed; the record is dated today and carries weather[0].main, weather[0].icon and main.temp as converted; a parse failure is passed on unchanged; after a good parse the error is NullPointer when main or icon is null, and ClassCast otherwise |
| `WeatherApi.ParseWeatherOfResponse` | src/main/java/zerobase/weather/service/DiaryService.java:182-189 | parseWeather gives back the three fields of a response built from them |
| `WeatherApi.WeatherFromResponse` | src/main/java/zerobase/weather/service/DiaryService.java:80-85 | a well-formed response gives today's record with that condition, icon and temperature |
| `WeatherApi.IntegralTemperatureFails` | src/main/java/zerobase/weather/service/DiaryService.java:84 | an integral main.temp (a Long) fails the Double cast |
| `WeatherApi.MissingTemperatureIsNull` | src/main/java/zerobase/weather/service/DiaryService.java:183 | a missing main.temp gives a record with a null temperature, not an error |
| `WeatherApi.MissingConditionFails` | src/main/java/zerobase/weather/service/DiaryService.java:82 | a missing weather[0].main fails with NullPointer |
| `DiaryService.ConsultsApiIffNoneFound` | src/main/java/zerobase/weather/service/DiaryService.java:90-91 | the API branch is taken exactly when no record is stored for the date |
| `DiaryService.GetDateWeather` | src/main/java/zerobase/weather/service/DiaryService.java:88-99 | on a hit the result is the first stored record for the date; on a miss it is the API record, dated today |
| `DiaryService.HitIgnoresApi` | src/main/java/zerobase/weather/service/DiaryService.java:96-98 | on a hit the result does not depend on the response or the clock |
| `DiaryService.ReadDiary` | src/main/java/zerobase/weather/service/DiaryService.java:101-109 | InvalidDate exactly for a date after 3050-01-01; otherwise the entries of that date |
| `DiaryService.ReadDiaryBound` | src/main/java/zerobase/weather/service/DiaryService.java:104 | 3050-01-01 is accepted; 3050-01-02 and 3051-01-01 are rejected |
| `DiaryService.ReadDiaries` | src/main/java/zerobase/weather/service/DiaryService.java:111-114 | exactly the entries with start <= date <= end |
| `DiaryService.ReadDiariesEmptyWhenReversed` | src/main/java/zerobase/weather/service/DiaryService.java:113 | a range whose start is after its end is not rejected and selects nothing |
| `DiaryService.ReadDiariesInStoreOrder` | src/main/java/zerobase/weather/service/DiaryService.java:113 | range results come in store order |
| `DiaryService.ReadDiariesOneDay` | src/main/java/zerobase/weather/service/DiaryService.java:113 | a one-day range gives the same entries as the exact-date query |
| `DiaryService.CreateDiaryIn` | src/main/java/zerobase/weather/service/DiaryService.java:56-70 | succeeds exactly when the weather lookup succeeds, on the hit and the miss path alike; a failed lookup fails with the same error; on success earlier entries are kept and exactly one entry is appended with the resolved weather and the text |
| `DiaryService.CreateThenReadOnHit` | src/main/java/zerobase/weather/service/DiaryService.java:61-68 | on a hit the new entry appears in findAllByDate's result for the date, after the earlier ones |
| `DiaryService.CreateOnMissDatesToday` | src/main/java/zerobase/weather/service/DiaryService.java:64-67 | on a miss the new entry is dated today, so for any other date findAllByDate does not find it |
| `DiaryService.UpdateDiaryIn` | src/main/java/zerobase/weather/service/DiaryService.java:117-122 | NullPointer exactly when no entry has the date; otherwise only the first entry of that date gets the new text and every other entry stays as it was |
| `DiaryService.UpdateThenRead` | src/main/java/zerobase/weather/service/DiaryService.java:119-121 | afterwards findAllByDate gives the first entry with the new text and the later entries of the date unchanged; other dates are untouched |
| `DiaryService.DeleteRemovesDate` | src/main/java/zerobase/weather/service/DiaryService.java:127 | afterwards no entry has the date |
| `DiaryService.DeleteKeepsOtherDates` | src/main/java/zerobase/weather/service/DiaryService.java:125-128 | entries of every other date remain, in order |
| `DiaryService.DeleteIdempotent` | src/main/java/zerobase/weather/service/DiaryService.java:125-128 | a second delete of the date changes nothing |
| `DiaryService.SaveWeatherIn` | src/main/java/zerobase/weather/service/DiaryService.java:48-53 | fails exactly when the API record cannot be built; otherwise appends that record, dated today, without checking for one already stored |
| `DiaryService.SaveWeatherWarmsCache` | src/main/java/zerobase/weather/service/DiaryService.java:52 | afterwards a lookup for today is a hit, and the store holds one more record for today (a duplicate if one was there) |
| `DiaryService.SaveWeatherKeepsFirst` | src/main/java/zerobase/weather/service/DiaryService.java:97 | for a date that already had a record, every lookup gives the same result after the save |
| `DiaryService.Service.constructor` | src/main/java/zerobase/weather/service/DiaryService.java:42-46 | the service starts with the stores it is given |
| `DiaryService.Service.SaveWeatherDate` | src/main/java/zerobase/weather/service/DiaryService.java:48-53 | the weather store becomes what SaveWeatherIn gives, and the diary store is unchanged |
| `DiaryService.Service.CreateDiary` | src/main/java/zerobase/weather/service/DiaryService.java:55-70 | the diary store becomes what CreateDiaryIn gives; the weather store is never written; apiCalled holds exactly when no record is stored for the date |
| `DiaryService.Service.UpdateDiary` | src/main/java/zerobase/weather/service/DiaryService.java:117-122 | the diary store becomes what UpdateDiaryIn gives, or stays as it was on failure |
| `DiaryService.Service.DeleteDiary` | src/main/java/zerobase/weather/service/DiaryService.java:125-128 | the diary store loses exactly the entries of the date, and the weather store is unchanged |
| `DiaryService.CreateTwiceOnMiss` | src/main/java/zerobase/weather/service/DiaryService.java:91-94 | two createDiary calls on a miss both go to the API, because the fetched record is not stored |

## Left out

- `getWeatherString` (HTTP connection, reading the body line by line, the swallowed exception
  and its literal failure text): this is I/O. Its result, after JSON parsing, is the input
  `fetched`. Because the failure text is not JSON, it arrives as `None`.
- The internals of `JSONParser`: text-to-JSON parsing is not modelled. Its outcome is the input
  `fetched`.
- What `toString()` renders for a non-string JSON value: the model keeps it symbolically, as
  `Label.Rendered(value)`, and does not render JSON text.
- `LocalDate.now()`: the clock is the parameter `today`.
- The `@Scheduled` daily trigger and the `@Transactional` / serializable isolation:
  `SaveWeatherDate` is an ordinary method that is called explicitly. Concurrency and rollback
  are not modelled. A failing operation writes nothing, which is also what rollback would give.
- Temperature arithmetic, which is floating point: `Double` is an opaque type and nothing
  computes with it. JSON numbers keep only json-simple's Long / Double distinction. The 64-bit
  range of a Long is not modelled.
- The `@Value` API key and logging: these are configuration and side output.
- `DiaryController`: it only routes HTTP requests and parses ISO dates before forwarding to the
  service.
- Entity ids and the persistence engine: an entity's identity is its position in the store
  sequence.
- `Date` admits triples that are no valid `LocalDate` (month 13, say). The order agrees with
  `LocalDate` on valid dates, and no operation depends on validity.
