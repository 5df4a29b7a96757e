/** DiaryService: the diary operations over a weather store and a diary store. The queries are
    functions of the store contents; the operations that change a store are methods of Service,
    each specified by a function that gives the new store contents. The clock and the HTTP
    response are parameters: `today` for LocalDate.now(), `fetched` for the parsed response. */
module DiaryService {
  import opened Base
  import opened Dates
  import opened Json
  import opened Domain
  import opened Sequences
  import opened Repositories
  import opened WeatherApi

  /** No weather record is stored for date, so getDateWeather goes to the API. */
  predicate ConsultsApi(ws: seq<DateWeather>, date: Date) {
    forall i :: 0 <= i < |ws| ==> ws[i].date != date
  }

  /** A lookup goes to the API exactly when findAllByDate finds nothing. */
  lemma ConsultsApiIffNoneFound(ws: seq<DateWeather>, date: Date)
    ensures ConsultsApi(ws, date) <==> FindAllWeatherByDate(ws, date) == []
  {
    FirstIndexHeadsFilter(ws, WeatherOn(date));
  }

  /** There is one first position at most. */
  lemma FirstWeatherUnique(ws: seq<DateWeather>, date: Date, k: int, k': int)
    requires IsFirst(ws, WeatherOn(date), k) && IsFirst(ws, WeatherOn(date), k')
    ensures k == k'
  {
  }

  /** getDateWeather: the first stored record for date; only when there is none, the record built
      from the API response, dated today. The fetched record is not stored. */
  function GetDateWeather(ws: seq<DateWeather>, date: Date, fetched: Option<Json>, today: Date): (r: Result<DateWeather>)
    ensures forall k :: IsFirst(ws, WeatherOn(date), k) ==> r == Ok(ws[k])
    ensures !ConsultsApi(ws, date) ==> r.Ok? && r.value in ws && r.value.date == date
    ensures ConsultsApi(ws, date) ==> r == WeatherFromApi(fetched, today)
    ensures ConsultsApi(ws, date) && r.Ok? ==> r.value.date == today
  {
    var stored := FindAllWeatherByDate(ws, date);
    ConsultsApiIffNoneFound(ws, date);
    FirstIndexHeadsFilter(ws, WeatherOn(date));
    if |stored| == 0 then WeatherFromApi(fetched, today)
    else
      var first := FirstIndex(ws, WeatherOn(date)).value;
      assert IsFirst(ws, WeatherOn(date), first);
      assert forall k :: IsFirst(ws, WeatherOn(date), k) ==> k == first by {
        forall k | IsFirst(ws, WeatherOn(date), k) ensures k == first {
          FirstWeatherUnique(ws, date, k, first);
        }
      }
      Ok(stored[0])
  }

  /** On a hit the response and the clock play no part: the API is not consulted. */
  lemma HitIgnoresApi(ws: seq<DateWeather>, date: Date, f1: Option<Json>, f2: Option<Json>, t1: Date, t2: Date)
    requires !ConsultsApi(ws, date)
    ensures GetDateWeather(ws, date, f1, t1) == GetDateWeather(ws, date, f2, t2)
  {
    FirstIndexHeadsFilter(ws, WeatherOn(date));
    var k := FirstIndex(ws, WeatherOn(date)).value;
    assert IsFirst(ws, WeatherOn(date), k);
  }

  /** readDiary: InvalidDate for a date strictly after 3050-01-01, otherwise the entries with
      that date, in store order. */
  function ReadDiary(ds: seq<Diary>, date: Date): (r: Result<seq<Diary>>)
    ensures r.Err? <==> IsAfter(date, FarFutureBound)
    ensures r.Err? ==> r.error == InvalidDate
    ensures r.Ok? ==> r.value == FindAllByDate(ds, date)
  {
    if IsAfter(date, FarFutureBound) then Err(InvalidDate) else Ok(FindAllByDate(ds, date))
  }

  /** The bound itself is accepted; the next day and later years are not. */
  lemma ReadDiaryBound(ds: seq<Diary>)
    ensures ReadDiary(ds, Date(3050, 1, 1)).Ok?
    ensures ReadDiary(ds, Date(3050, 1, 2)) == Err(InvalidDate)
    ensures ReadDiary(ds, Date(3051, 1, 1)) == Err(InvalidDate)
  {
  }

  /** readDiaries: the entries with start <= date <= end, in store order, with no validation. */
  function ReadDiaries(ds: seq<Diary>, start: Date, end: Date): (r: seq<Diary>)
    ensures forall i :: 0 <= i < |r| ==> r[i] in ds && NotAfter(start, r[i].date) && NotAfter(r[i].date, end)
    ensures forall i :: 0 <= i < |ds| && NotAfter(start, ds[i].date) && NotAfter(ds[i].date, end) ==> ds[i] in r
  {
    FindAllByDateBetween(ds, start, end)
  }

  /** A range whose start is after its end is not rejected; it selects nothing. */
  lemma ReadDiariesEmptyWhenReversed(ds: seq<Diary>, start: Date, end: Date)
    requires IsAfter(start, end)
    ensures ReadDiaries(ds, start, end) == []
  {
    forall i | 0 <= i < |ds| ensures !DiaryWithin(start, end)(ds[i]) {
      IsAfterIsStrictTotalOrder(start, ds[i].date, end);
    }
    FilterNone(ds, DiaryWithin(start, end));
  }

  /** readDiaries keeps store order: the result for a concatenation is the concatenation of the
      results. */
  lemma ReadDiariesInStoreOrder(a: seq<Diary>, b: seq<Diary>, start: Date, end: Date)
    ensures ReadDiaries(a + b, start, end) == ReadDiaries(a, start, end) + ReadDiaries(b, start, end)
  {
    FilterAppend(a, b, DiaryWithin(start, end));
  }

  /** A one-day range is the exact-date query. */
  lemma {:induction false} ReadDiariesOneDay(ds: seq<Diary>, date: Date)
    ensures ReadDiaries(ds, date, date) == FindAllByDate(ds, date)
    decreases |ds|
  {
    if ds != [] {
      IsAfterIsStrictTotalOrder(date, ds[0].date, date);
      ReadDiariesOneDay(ds[1..], date);
    }
  }

  /** createDiary on the store contents: the diary store with one entry appended, built from the
      resolved weather and the text; the error of the weather lookup otherwise. */
  function CreateDiaryIn(ws: seq<DateWeather>, ds: seq<Diary>, date: Date, text: string,
                         fetched: Option<Json>, today: Date): (r: Result<seq<Diary>>)
    ensures r.Ok? <==> GetDateWeather(ws, date, fetched, today).Ok?
    ensures GetDateWeather(ws, date, fetched, today).Err? ==> r == Err(GetDateWeather(ws, date, fetched, today).error)
    ensures r.Ok? ==> |r.value| == |ds| + 1 && r.value[..|ds|] == ds
                      && r.value[|ds|] == NewDiary(GetDateWeather(ws, date, fetched, today).value, text)
  {
    match GetDateWeather(ws, date, fetched, today)
    case Err(e) => Err(e)
    case Ok(w) => Ok(ds + [NewDiary(w, text)])
  }

  /** On a hit the new entry is dated date and is found, after the earlier ones, by findAllByDate. */
  lemma CreateThenReadOnHit(ws: seq<DateWeather>, ds: seq<Diary>, date: Date, text: string,
                            fetched: Option<Json>, today: Date)
    requires !ConsultsApi(ws, date)
    ensures CreateDiaryIn(ws, ds, date, text, fetched, today).Ok?
    ensures FindAllByDate(CreateDiaryIn(ws, ds, date, text, fetched, today).value, date)
            == FindAllByDate(ds, date) + [NewDiary(GetDateWeather(ws, date, fetched, today).value, text)]
  {
    HitIgnoresApi(ws, date, fetched, fetched, today, today);
    var w := GetDateWeather(ws, date, fetched, today).value;
    FilterAppend(ds, [NewDiary(w, text)], DiaryOn(date));
  }

  /** On a miss the new entry takes the fetched record's date, today; for any other requested
      date findAllByDate does not find it. */
  lemma CreateOnMissDatesToday(ws: seq<DateWeather>, ds: seq<Diary>, date: Date, text: string,
                               fetched: Option<Json>, today: Date)
    requires ConsultsApi(ws, date)
    requires CreateDiaryIn(ws, ds, date, text, fetched, today).Ok?
    ensures CreateDiaryIn(ws, ds, date, text, fetched, today).value[|ds|].date == today
    ensures date != today ==>
            FindAllByDate(CreateDiaryIn(ws, ds, date, text, fetched, today).value, date) == FindAllByDate(ds, date)
  {
    var w := GetDateWeather(ws, date, fetched, today).value;
    FilterAppend(ds, [NewDiary(w, text)], DiaryOn(date));
  }

  /** updateDiary on the store contents: the first entry dated date gets the new text; with no
      such entry getFirstByDate gives null and setText fails. */
  function UpdateDiaryIn(ds: seq<Diary>, date: Date, text: string): (r: Result<seq<Diary>>)
    ensures r.Err? <==> forall i :: 0 <= i < |ds| ==> ds[i].date != date
    ensures r.Err? ==> r.error == NullPointer
    ensures r.Ok? ==> |r.value| == |ds|
                      && exists k :: IsFirst(ds, DiaryOn(date), k) && r.value[k] == ds[k].(text := text)
                                     && forall j :: 0 <= j < |ds| && j != k ==> r.value[j] == ds[j]
  {
    match GetFirstByDate(ds, date)
    case None => Err(NullPointer)
    case Some(k) =>
      assert IsFirst(ds, DiaryOn(date), k);
      Ok(ds[k := ds[k].(text := text)])
  }

  /** After an update findAllByDate gives the first entry with the new text and the later ones as
      they were; entries of every other date are untouched. */
  lemma UpdateThenRead(ds: seq<Diary>, date: Date, text: string, other: Date)
    requires UpdateDiaryIn(ds, date, text).Ok?
    ensures var before := FindAllByDate(ds, date);
            before != []
            && FindAllByDate(UpdateDiaryIn(ds, date, text).value, date) == [before[0].(text := text)] + before[1..]
    ensures other != date ==>
            FindAllByDate(UpdateDiaryIn(ds, date, text).value, other) == FindAllByDate(ds, other)
  {
    var k := GetFirstByDate(ds, date).value;
    var v := ds[k].(text := text);
    var after := UpdateDiaryIn(ds, date, text).value;
    assert after == ds[k := v];
    FilterAtFirst(ds, DiaryOn(date), k);
    FilterAtFirst(after, DiaryOn(date), k);
    assert after[k + 1..] == ds[k + 1..];
    if other != date {
      FilterUpdateUnselected(ds, DiaryOn(other), k, v);
    }
  }

  /** After deleteDiary(date) nothing is dated date. */
  lemma DeleteRemovesDate(ds: seq<Diary>, date: Date)
    ensures FindAllByDate(DeleteAllByDate(ds, date), date) == []
  {
    var rest := DeleteAllByDate(ds, date);
    FilterNone(rest, DiaryOn(date));
  }

  /** deleteDiary(date) keeps the entries of every other date, in their order. */
  lemma DeleteKeepsOtherDates(ds: seq<Diary>, date: Date, other: Date)
    requires other != date
    ensures FindAllByDate(DeleteAllByDate(ds, date), other) == FindAllByDate(ds, other)
  {
    FilterNested(ds, DiaryNotOn(date), DiaryOn(other));
  }

  /** A second deleteDiary(date) changes nothing. */
  lemma DeleteIdempotent(ds: seq<Diary>, date: Date)
    ensures DeleteAllByDate(DeleteAllByDate(ds, date), date) == DeleteAllByDate(ds, date)
  {
    FilterNested(ds, DiaryNotOn(date), DiaryNotOn(date));
  }

  /** saveWeatherDate on the store contents: the weather store with today's record appended,
      whether or not one is stored already. */
  function SaveWeatherIn(ws: seq<DateWeather>, fetched: Option<Json>, today: Date): (r: Result<seq<DateWeather>>)
    ensures r.Err? <==> WeatherFromApi(fetched, today).Err?
    ensures r.Err? ==> r.error == WeatherFromApi(fetched, today).error
    ensures r.Ok? ==> |r.value| == |ws| + 1 && r.value[..|ws|] == ws
                      && r.value[|ws|] == WeatherFromApi(fetched, today).value && r.value[|ws|].date == today
  {
    match WeatherFromApi(fetched, today)
    case Err(e) => Err(e)
    case Ok(w) => Ok(ws + [w])
  }

  /** After a save, a lookup for today is a hit, and the store holds one more record for today. */
  lemma SaveWeatherWarmsCache(ws: seq<DateWeather>, fetched: Option<Json>, today: Date)
    requires SaveWeatherIn(ws, fetched, today).Ok?
    ensures !ConsultsApi(SaveWeatherIn(ws, fetched, today).value, today)
    ensures |FindAllWeatherByDate(SaveWeatherIn(ws, fetched, today).value, today)|
            == |FindAllWeatherByDate(ws, today)| + 1
  {
    var w := WeatherFromApi(fetched, today).value;
    var after := SaveWeatherIn(ws, fetched, today).value;
    assert after[|ws|].date == today;
    assert after == ws + [w];
    FilterAppend(ws, [w], WeatherOn(today));
  }

  /** For any date that already has a stored record, saving another record changes no lookup:
      the first record still wins, so duplicates are harmless to readers. */
  lemma SaveWeatherKeepsFirst(ws: seq<DateWeather>, fetched: Option<Json>, today: Date,
                              date: Date, later: Option<Json>, laterToday: Date)
    requires SaveWeatherIn(ws, fetched, today).Ok?
    requires !ConsultsApi(ws, date)
    ensures GetDateWeather(SaveWeatherIn(ws, fetched, today).value, date, later, laterToday)
            == GetDateWeather(ws, date, later, laterToday)
  {
    var after := SaveWeatherIn(ws, fetched, today).value;
    FirstIndexHeadsFilter(ws, WeatherOn(date));
    var k := FirstIndex(ws, WeatherOn(date)).value;
    assert IsFirst(ws, WeatherOn(date), k);
    assert after[..|ws|] == ws;
    assert IsFirst(after, WeatherOn(date), k) by {
      forall j | 0 <= j < k ensures after[j].date != date {
        assert after[j] == ws[j];
      }
    }
  }

  /** The two stores of the service, held as sequences in store order. */
  class Service {
    var weathers: seq<DateWeather>
    var diaries: seq<Diary>

    constructor (weathers0: seq<DateWeather>, diaries0: seq<Diary>)
      ensures weathers == weathers0 && diaries == diaries0
    {
      weathers := weathers0;
      diaries := diaries0;
    }

    /** saveWeatherDate: append today's record from the API; the diary store is not touched. */
    method SaveWeatherDate(fetched: Option<Json>, today: Date) returns (res: Outcome)
      modifies this
      ensures diaries == old(diaries)
      ensures match SaveWeatherIn(old(weathers), fetched, today)
              case Ok(ws) => res == Pass && weathers == ws
              case Err(e) => res == Fail(e) && weathers == old(weathers)
    {
      match SaveWeatherIn(weathers, fetched, today)
      case Ok(ws) =>
        weathers := ws;
        res := Pass;
      case Err(e) =>
        res := Fail(e);
    }

    /** createDiary: resolve the weather, then append one entry. The weather store is never
        written; apiCalled says whether the lookup went to the API. */
    method CreateDiary(date: Date, text: string, fetched: Option<Json>, today: Date)
      returns (res: Outcome, apiCalled: bool)
      modifies this
      ensures weathers == old(weathers)
      ensures apiCalled <==> ConsultsApi(old(weathers), date)
      ensures match CreateDiaryIn(old(weathers), old(diaries), date, text, fetched, today)
              case Ok(ds) => res == Pass && diaries == ds
              case Err(e) => res == Fail(e) && diaries == old(diaries)
    {
      apiCalled := |FindAllWeatherByDate(weathers, date)| == 0;
      ConsultsApiIffNoneFound(weathers, date);
      match CreateDiaryIn(weathers, diaries, date, text, fetched, today)
      case Ok(ds) =>
        diaries := ds;
        res := Pass;
      case Err(e) =>
        res := Fail(e);
    }

    /** updateDiary: new text for the first entry dated date only. */
    method UpdateDiary(date: Date, text: string) returns (res: Outcome)
      modifies this
      ensures weathers == old(weathers)
      ensures match UpdateDiaryIn(old(diaries), date, text)
              case Ok(ds) => res == Pass && diaries == ds
              case Err(e) => res == Fail(e) && diaries == old(diaries)
    {
      match UpdateDiaryIn(diaries, date, text)
      case Ok(ds) =>
        diaries := ds;
        res := Pass;
      case Err(e) =>
        res := Fail(e);
    }

    /** deleteDiary: remove every entry dated date. */
    method DeleteDiary(date: Date)
      modifies this
      ensures weathers == old(weathers)
      ensures diaries == DeleteAllByDate(old(diaries), date)
    {
      diaries := DeleteAllByDate(diaries, date);
    }
  }

  /** A client of Service: the record fetched on a miss is not stored, so a second createDiary
      for the same date goes to the API again. */
  method CreateTwiceOnMiss(service: Service, date: Date, text: string, f1: Option<Json>, f2: Option<Json>, today: Date)
    returns (firstCalled: bool, secondCalled: bool)
    requires ConsultsApi(service.weathers, date)
    modifies service
    ensures firstCalled && secondCalled
    ensures service.weathers == old(service.weathers)
  {
    var res1, res2;
    res1, firstCalled := service.CreateDiary(date, text, f1, today);
    res2, secondCalled := service.CreateDiary(date, text, f2, today);
  }
}
