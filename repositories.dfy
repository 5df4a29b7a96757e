/** The derived queries of DiaryRepository and DateWeatherRepository, over the store contents in
    store order. */
module Repositories {
  import opened Base
  import opened Dates
  import opened Domain
  import opened Sequences

  function WeatherOn(d: Date): DateWeather -> bool {
    (w: DateWeather) => w.date == d
  }

  function DiaryOn(d: Date): Diary -> bool {
    (e: Diary) => e.date == d
  }

  function DiaryNotOn(d: Date): Diary -> bool {
    (e: Diary) => e.date != d
  }

  function DiaryWithin(start: Date, end: Date): Diary -> bool {
    (e: Diary) => NotAfter(start, e.date) && NotAfter(e.date, end)
  }

  /** DateWeatherRepository.findAllByDate: the records dated d, in store order. */
  function FindAllWeatherByDate(ws: seq<DateWeather>, d: Date): (r: seq<DateWeather>)
    ensures forall i :: 0 <= i < |r| ==> r[i] in ws && r[i].date == d
    ensures forall i :: 0 <= i < |ws| && ws[i].date == d ==> ws[i] in r
  {
    Filter(ws, WeatherOn(d))
  }

  /** DiaryRepository.findAllByDate: the entries dated d, in store order. */
  function FindAllByDate(ds: seq<Diary>, d: Date): (r: seq<Diary>)
    ensures forall i :: 0 <= i < |r| ==> r[i] in ds && r[i].date == d
    ensures forall i :: 0 <= i < |ds| && ds[i].date == d ==> ds[i] in r
  {
    Filter(ds, DiaryOn(d))
  }

  /** DiaryRepository.findAllByDateBetween: the entries with start <= date <= end, in store order. */
  function FindAllByDateBetween(ds: seq<Diary>, start: Date, end: Date): (r: seq<Diary>)
    ensures forall i :: 0 <= i < |r| ==> r[i] in ds && NotAfter(start, r[i].date) && NotAfter(r[i].date, end)
    ensures forall i :: 0 <= i < |ds| && NotAfter(start, ds[i].date) && NotAfter(ds[i].date, end) ==> ds[i] in r
  {
    Filter(ds, DiaryWithin(start, end))
  }

  /** DiaryRepository.getFirstByDate: the position of the first entry dated d, None for null. */
  function GetFirstByDate(ds: seq<Diary>, d: Date): (r: Option<nat>)
    ensures r.Some? ==> r.value < |ds| && ds[r.value].date == d
                        && forall j :: 0 <= j < r.value ==> ds[j].date != d
    ensures r.None? <==> forall j :: 0 <= j < |ds| ==> ds[j].date != d
  {
    FirstIndex(ds, DiaryOn(d))
  }

  /** DiaryRepository.deleteAllByDate: the store without its entries dated d. */
  function DeleteAllByDate(ds: seq<Diary>, d: Date): (r: seq<Diary>)
    ensures forall i :: 0 <= i < |r| ==> r[i] in ds && r[i].date != d
    ensures forall i :: 0 <= i < |ds| && ds[i].date != d ==> ds[i] in r
  {
    Filter(ds, DiaryNotOn(d))
  }
}
