/** The responses the route handlers send, and the JSON request values they inspect. */
module Http {
  import opened Schema

  /** A response body: a `{ message }` object, a record, a list, a validation report, or nothing. */
  datatype Body =
    | Message(text: string)
    | ValidationErrors
    | UserJson(user: User)
    | CarJson(car: Car)
    | CarsJson(cars: seq<Car>)
    | VideoJson(video: Video)
    | VideosJson(videos: seq<Video>)
    | NoContent

  datatype Response = Response(status: int, body: Body)

  /** A parsed JSON request body (numbers are kept integral: the handlers only test their type). */
  datatype Json =
    | JNull
    | JBool(b: bool)
    | JNumber(n: int)
    | JString(s: string)
    | JArray(items: seq<Json>)
    | JObject(fields: map<string, Json>)
}
