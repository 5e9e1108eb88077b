/**
 * Record shapes of the `users`, `cars` and `videos` tables and of their
 * insert payloads. A not-null column is a plain field; the one nullable
 * column (`tag`) is an `Option`; a field an insert payload may omit is an
 * `Optional`, which distinguishes `undefined` from a given value.
 */
module Schema {
  import opened Wrappers

  /** Milliseconds since the epoch, as a JavaScript `Date` holds them. */
  type Timestamp = int

  /** A row of `users`: every column is not-null; `isAdmin` defaults to false. */
  datatype User = User(id: int, username: string, password: string, isAdmin: bool)

  /** A row of `cars`: only `tag` is nullable. */
  datatype Car = Car(
    id: int,
    name: string,
    year: int,
    speed: string,
    price: string,
    description: string,
    imageUrl: string,
    tag: Option<string>)

  /** A row of `videos`: `featured` defaults to false, `uploadDate` to the current time. */
  datatype Video = Video(
    id: int,
    title: string,
    description: string,
    videoUrl: string,
    thumbnailUrl: string,
    duration: string,
    featured: bool,
    uploadDate: Timestamp)

  /** `InsertUser`: username and password are required, `isAdmin` may be omitted (it has a default). */
  datatype InsertUser = InsertUser(username: string, password: string, isAdmin: Optional<bool>)

  /** `InsertCar`: no `id`; `tag` may be omitted, given as null, or given as a string. */
  datatype InsertCar = InsertCar(
    name: string,
    year: int,
    speed: string,
    price: string,
    description: string,
    imageUrl: string,
    tag: Optional<Option<string>>)

  /** `InsertVideo`: neither `id` nor `uploadDate`; `featured` may be omitted. */
  datatype InsertVideo = InsertVideo(
    title: string,
    description: string,
    videoUrl: string,
    thumbnailUrl: string,
    duration: string,
    featured: Optional<bool>)

  /** `Partial<InsertCar>`: every field of the insert payload may be omitted. */
  datatype CarPatch = CarPatch(
    name: Optional<string>,
    year: Optional<int>,
    speed: Optional<string>,
    price: Optional<string>,
    description: Optional<string>,
    imageUrl: Optional<string>,
    tag: Optional<Option<string>>)

  /** `Partial<InsertVideo>`: every field of the insert payload may be omitted. */
  datatype VideoPatch = VideoPatch(
    title: Optional<string>,
    description: Optional<string>,
    videoUrl: Optional<string>,
    thumbnailUrl: Optional<string>,
    duration: Optional<string>,
    featured: Optional<bool>)

  /** `LoginData`: the username and password of `InsertUser`, nothing else. */
  datatype LoginData = LoginData(username: string, password: string)
}
