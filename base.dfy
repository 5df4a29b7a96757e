/** Option, Result and the error kinds the service's operations can end in. */
module Base {

  datatype Option<+T> = None | Some(value: T)

  /** The ways an operation of the service can fail. Each names the exception the code as
      written raises at that point. */
  datatype Error =
    | InvalidDate          // zerobase.weather.error.InvalidDate, thrown by readDiary
    | JsonParseError       // a RuntimeException wrapping the ParseException of JSONParser.parse
    | NullPointer          // a method called on a null reference
    | ClassCast            // a cast to JSONObject, JSONArray or Double of a value of another kind
    | IndexOutOfBounds     // element 0 of an empty JSONArray

  /** The value of an operation that returns something, or the error it ended in. */
  datatype Result<+T> = Ok(value: T) | Err(error: Error)

  /** The end of an operation that returns nothing. */
  datatype Outcome = Pass | Fail(error: Error)
}
