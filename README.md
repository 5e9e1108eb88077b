# Car showcase server and client rules, modelled in Dafny

This project models the core of a car-showcase web application: an Express
server, a React client, and one record schema shared by both. The pieces
modelled are these:

- **The in-memory entity store `MemStorage`** (module `Storage`, with the
  table bookkeeping in `Tables`).
  - It keeps three JavaScript `Map`s: users, cars and videos.
  - Each `Map` is keyed by an integer id. The id comes from a counter for
    that table, which starts at 1 and is incremented after each use.
  - A `Map` is modelled as three things: a `map<int, R>`, the keys in
    insertion order as a `seq<int>` (a `Map` iterates in that order), and
    the counter as a `nat`.
  - The class `Storage.MemStorage` changes these fields in place. Its
    invariant `Valid` says:
    - every key in the order is stored, and every stored key is in the order;
    - the order is strictly increasing;
    - every key is below the counter;
    - every record's `id` is its key.
  - `server/storage.ts` and `tmp_compress/server/storage.ts` hold the same
    class, and one class models both.
- **Password hashing, the login check and registration** (modules
  `Credentials` and `Auth`).
  - A password is stored as `hex(key).hex(salt)`.
  - The verify callback compares hashes when the stored string has a '.'.
    Otherwise it compares plain strings.
  - An empty username or password is refused with 401 "Missing
    credentials" before the store is asked. This is passport-local's own
    check.
  - Past that check, an unknown username and a wrong password get the same
    401 "Invalid username or password".
  - Registering a username that is already taken gives 400.
  - The key derivation function (scrypt) is a function parameter, and the
    random salt is an input.
- **The routes** (modules `Routes` and `JsParseInt`).
  - The admin gate checks authentication (401) before the role (403).
  - Ids are parsed with JavaScript's `parseInt`. The model follows section
    19.2.5 of ECMA-262, so "5x" names record 5, and text without digits
    gives NaN and then 400.
  - A record that is not there gives 404, and a delete gives 204.
  - The `featured` flag must be a boolean.
  - Each handler is a module-level method of `Routes` that takes the store
    as a parameter.
  - What zod's `parse` returns is given to the handler as an `Option`:
    `None` stands for a `ZodError`.
- **The record shapes** of `shared/schema.ts` (module `Schema`).
  - Nullable columns are `Option`.
  - Optional insert fields are `Optional`, which separates `undefined` from
    a value that is given.
  - The insert payloads have no `id`, and the video payload has no
    `uploadDate`.
- **The client rules.**
  - The hero carousel (module `Hero`) is a class with the component's four
    state fields.
  - The login and registration validators and the redirect are in module
    `AuthPage`.
  - URL resolution, the tag badge and the upload-date line are in module
    `Media`.

Inputs the program reads from its environment are parameters of the model:
- the clock reading used for `uploadDate`;
- the key derivation function;
- the salt;
- whether the build is a production build;
- the date formatter's outcome.

The tmp_compress copy of `auth.ts` imports a store that is `DatabaseStorage`.
Here, login and registration are modelled against `MemStorage`, which is the
store `server/routes.ts` uses.

## Model

| member | source | states |
|---|---|---|
| Tables.InsertKeepsInv | server/storage.ts:135-145 | the counter is a fresh key above every stored key, and inserting under it and then incrementing it preserves the table invariant, so ids are unique and strictly increasing |
| Tables.RemoveKeepsInv | server/storage.ts:177-179 | removing a key (present or not) preserves the table invariant without touching the counter |
| Tables.ListingHasEveryValue | tmp_compress/server/storage.ts:345-347 | the listing holds exactly the stored records, each under its own id, in strictly increasing id order |
| Tables.WithoutIncreasing | server/storage.ts:177-179 | deleting a key from the iteration order keeps it strictly increasing |
| Storage.NewUser | server/storage.ts:135-145 | the stored user has the given id, username and password; `isAdmin` is true exactly when the payload gave true, so an absent flag is false |
| Storage.NewCar | server/storage.ts:156-166 | every given field is copied; `tag` is non-null exactly when the payload gave a non-null tag, so an absent tag is null and an explicit null or string is kept |
| Storage.NewVideo | server/storage.ts:194-205 | `uploadDate` is always the clock reading; `featured` is true exactly when the payload gave true; the other fields are copied |
| Storage.MergeCar | server/storage.ts:168-175 | the shallow merge keeps `id`; each field is the patch's value when given and the old value otherwise |
| Storage.MergeVideo | tmp_compress/server/storage.ts:404-411 | the merge keeps `id` and `uploadDate`; each other field is the patch's when given, else the old one |
| Storage.MergeCarIdentityAndIdempotent | server/storage.ts:172 | an empty patch changes nothing, and applying a patch twice equals applying it once |
| Storage.MergeCarCompose | server/storage.ts:172 | two successive updates equal one update with the second patch spread over the first |
| Storage.MergeVideoIdentityAndIdempotent | server/storage.ts:211 | an empty video patch changes nothing; applying a patch twice equals once |
| Storage.FirstWithUsername | server/storage.ts:129-133 | absent exactly when no listed user has the name; otherwise a listed user with that name |
| Storage.Featured | server/storage.ts:190-192 | holds exactly the featured videos of its input, and is no longer than it |
| Storage.FeaturedAppend | server/storage.ts:190-192 | the filter distributes over concatenation, so it keeps the listing order |
| Storage.FeaturedAllFeatured | tmp_compress/server/storage.ts:387-389 | a listing of only featured videos is its own filter, as for the freshly seeded store |
| Storage.UsernameLookup | tmp_compress/server/storage.ts:326-330 | over a valid users table the lookup finds a stored holder of the name with the smallest id, i.e. the first in insertion order, and nothing only when no user has the name |
| Storage.SeedRecords | tmp_compress/server/storage.ts:254-318 | the seed admin is user 1 "admin" with the plain password "adminpassword" and `isAdmin` true; the cars are tagged "جديد", null and "هجين"; all three videos are featured |
| Storage.MemStorage.constructor | tmp_compress/server/storage.ts:243-319 | the fresh store holds exactly the admin under id 1, cars 1..3 and videos 1..3 built from the seed payloads, with the counters at 2, 4 and 4 |
| Storage.MemStorage.GetUser | server/storage.ts:125-127 | the user stored under the id, absent exactly when the id is not a key |
| Storage.MemStorage.Users | tmp_compress/server/storage.ts:327 | the users in insertion order |
| Storage.MemStorage.GetUserByUsername | tmp_compress/server/storage.ts:326-330 | absent exactly when no stored user has the name; otherwise a stored user with the name whose id is the least among them |
| Storage.MemStorage.CreateUser | server/storage.ts:135-145 | stores `NewUser` under the old counter, which exceeds every existing id, appends it to the order and increments the counter; duplicate usernames are not refused |
| Storage.MemStorage.GetCars | tmp_compress/server/storage.ts:345-347 | the cars in insertion order: exactly the stored cars, in increasing id order, with no other sorting |
| Storage.MemStorage.GetCar | server/storage.ts:152-154 | the car stored under the id, absent exactly when there is none |
| Storage.MemStorage.CreateCar | server/storage.ts:156-166 | stores `NewCar` under the next id, appends it to the order, increments the counter |
| Storage.MemStorage.UpdateCar | server/storage.ts:168-175 | an unknown id gives undefined and leaves the map unchanged (no record is created); a known id is replaced by the merge, which is returned |
| Storage.MemStorage.DeleteCar | server/storage.ts:177-179 | returns true exactly when the id was present; the id leaves the map and the order; the counter is untouched |
| Storage.MemStorage.GetVideos | tmp_compress/server/storage.ts:379-381 | the videos in insertion order, not sorted by upload date |
| Storage.MemStorage.GetVideo | server/storage.ts:186-188 | the video stored under the id, absent exactly when there is none |
| Storage.MemStorage.GetFeaturedVideos | server/storage.ts:190-192 | exactly the stored videos whose `featured` is true |
| Storage.MemStorage.CreateVideo | server/storage.ts:194-205 | stores `NewVideo` with the clock reading under the next id and increments the counter |
| Storage.MemStorage.UpdateVideo | tmp_compress/server/storage.ts:404-411 | an unknown id changes nothing; a known id is replaced by the merge, which keeps `id` and `uploadDate` |
| Storage.MemStorage.DeleteVideo | server/storage.ts:216-218 | true exactly when present; the id leaves the map and the order |
| Storage.MemStorage.SetVideoFeatured | tmp_compress/server/storage.ts:417-424 | on a known id only `featured` changes; an unknown id gives undefined and changes nothing |
| Storage.DeleteCarTwice | server/storage.ts:177-178 | a second delete of the same id reports false and the car is gone |
| Storage.DeletedCarIdNotReused | tmp_compress/server/storage.ts:353-376 | after deleting car `id` the next created car gets a larger id, is listed, and `id` stays unknown |
| Storage.UpdateKeepsListingPosition | tmp_compress/server/storage.ts:365-372 | an update keeps the listing's length and every position; only the updated car's entry changes, to its merge |
| Credentials.Hex | tmp_compress/server/auth.ts:19-21 | hex text has two digits per byte, only hex digits, hence no '.' |
| Credentials.HexDecode | tmp_compress/server/auth.ts:26 | the decoded buffer has at most half as many bytes as the text has characters |
| Credentials.HexRoundTrip | tmp_compress/server/auth.ts:21-26 | decoding the hex text of a buffer gives the buffer back |
| Credentials.Split | tmp_compress/server/auth.ts:25 | the pieces contain no separator, there is at least one, joining them gives the input back, and text without the separator is one piece |
| Credentials.SplitAfterPiece | tmp_compress/server/auth.ts:25 | splitting separator-free text followed by the separator and more text gives that piece followed by the split of the rest |
| Credentials.TimingSafeEqual | tmp_compress/server/auth.ts:28 | throws exactly when the lengths differ; otherwise true exactly when the buffers are equal |
| Credentials.HashPassword | tmp_compress/server/auth.ts:18-22 | the stored form contains '.' and splits into exactly the hex key derived with the hex salt at 64 bytes and the hex salt |
| Credentials.ComparePasswords | tmp_compress/server/auth.ts:24-29 | without '.' the salt is undefined and the call fails; otherwise it is the timing-safe comparison of the decoded first piece with the key derived from the supplied password and the second piece |
| Credentials.HashedCheck | tmp_compress/server/auth.ts:18-29 | comparing against a hash succeeds, and is true exactly when the supplied password derives the same key |
| Credentials.HashRoundTrip | tmp_compress/server/auth.ts:18-29 | `comparePasswords(p, hashPassword(p))` is true |
| Credentials.HashShape | tmp_compress/server/auth.ts:18-22 | the stored form is 161 characters with the '.' after the 128 hex digits of the 64-byte key |
| Auth.VerifyLocal | tmp_compress/server/auth.ts:61-86 | an unknown username is rejected with "Invalid username or password"; every rejection carries that message; an accepted user is the one looked up; an error arises only on the hashed path |
| Auth.HashedPasswordPath | tmp_compress/server/auth.ts:69-74 | with a '.' in the stored password, acceptance and rejection are decided only by the hash comparison |
| Auth.LegacyPasswordPath | tmp_compress/server/auth.ts:75-80 | without a '.', the user is accepted exactly when the passwords are equal, and no error arises |
| Auth.DottedPlainPasswordErrors | tmp_compress/server/auth.ts:68-85 | a plain stored password with a '.' and a short first piece makes every login of that user an error, answered with 500 |
| Auth.RegisteredUserLogin | tmp_compress/server/auth.ts:103-108 | a user stored with `hashPassword(p)` is accepted exactly for passwords deriving the same key, `p` included, and never errors |
| Auth.LoginResponse | tmp_compress/server/auth.ts:119-134 | 200 with the user exactly when authenticated; a rejection is 401 with its message; an error is 500 |
| Auth.LoginIndistinguishable | tmp_compress/server/auth.ts:63-79 | a wrong password gets the same response as an unknown username: 401 "Invalid username or password" |
| Auth.Login | tmp_compress/server/auth.ts:60-134 | an empty username or password gets 401 "Missing credentials"; otherwise the response of the callback for the store's lookup, and a name no user holds gets 401 "Invalid username or password" |
| Auth.SeededAdminLogin | tmp_compress/server/storage.ts:254-259 | on a fresh store "admin"/"adminpassword" logs in with 200 as the admin, and a wrong password gets the same 401 as an unknown user |
| Auth.LoginsAgainstAdminOnly | tmp_compress/server/auth.ts:75-80 | the same outcomes for any store whose only user is the seeded admin |
| Auth.UniqueNameFindsItsUser | shared/schema.ts:7 | while usernames are unique, the lookup of a stored user's name finds that user |
| Auth.Register | tmp_compress/server/auth.ts:95-117 | a taken username gives 400 "Username already exists" and stores nothing; otherwise 201 with a new user whose password is `hashPassword` of the supplied one, which the lookup now finds; uniqueness of usernames is preserved |
| Auth.SessionUser | tmp_compress/server/auth.ts:89-93 | a session's user id yields the stored user while it exists, and nothing otherwise |
| Auth.SessionRoundTrip | tmp_compress/server/auth.ts:89-93 | serialising a stored user to its id and deserialising gives the user back |
| Auth.CurrentUserResponse | tmp_compress/server/auth.ts:143-146 | 401 exactly when no user is authenticated, otherwise 200 with the user |
| JsParseInt.ParseDecimalPrefix | server/routes.ts:60-63 | a decimal numeral, followed by anything that does not continue it, parses to its value, also after a minus sign |
| JsParseInt.ParseFiveX | server/routes.ts:60 | "5x" and "5" both parse to 5 |
| JsParseInt.LeadingWhiteSpaceIgnored | server/routes.ts:60 | white space in front of the id does not change the result |
| JsParseInt.ParseInt | server/routes.ts:60-63 | `parseInt(req.params.id)`: text without a decimal digit is NaN; its values are given by `ParseDecimalPrefix`, `ParseFiveX` and `LeadingWhiteSpaceIgnored` |
| JsParseInt.ParseSigned | server/routes.ts:60 | a number is read only when a decimal digit comes first, or right after one sign |
| JsParseInt.ParseUnsigned | server/routes.ts:60 | a numeral starts with a decimal digit; after "0x" or "0X" it is NaN exactly when no hexadecimal digit follows |
| JsParseInt.DecimalValue | server/routes.ts:60 | the digits `String(n)` writes denote `n` |
| Routes.AdminGate | server/routes.ts:9-19 | 401 "Authentication required" exactly when unauthenticated, checked first; 403 "Admin access required" exactly for a non-admin; only an admin proceeds |
| Routes.ListCars | server/routes.ts:28-35 | 200 with the store's listing: each stored car once, in insertion order, and no other |
| Routes.ListVideos | server/routes.ts:38-45 | 200 with the store's listing: each stored video once, in insertion order, and no other |
| Routes.ListFeaturedVideos | server/routes.ts:48-55 | 200 with the store's featured listing, which is the video listing filtered on `featured`: exactly the featured videos, in insertion order |
| Routes.ShowCar | server/routes.ts:58-74 | 400 "Invalid car ID" exactly when the id is NaN; 404 "Car not found" exactly when it is not stored; otherwise 200 with the car as stored |
| Routes.ShowVideo | server/routes.ts:77-93 | the same three outcomes for videos |
| Routes.CreateCarRoute | server/routes.ts:98-112 | the gate's answer, or 400 "Validation error" with no change, or 201 with the created car, which is stored under the next id |
| Routes.UpdateCarRoute | server/routes.ts:115-139 | gate, then 400 for a NaN id, then 400 for a failed parse, all leaving the cars unchanged; then 404 without change or 200 with the merged car stored |
| Routes.DeleteCarRoute | server/routes.ts:142-158 | after the gate and the id check, 204 exactly when the car was present and 404 exactly when not; the id is no longer stored |
| Routes.CreateVideoRoute | server/routes.ts:161-175 | the gate's answer, 400 with no change, or 201 with the video created at the clock reading |
| Routes.UpdateVideoRoute | server/routes.ts:178-202 | as for cars: 400, 400, 404 without change, or 200 with the merged video stored |
| Routes.DeleteVideoRoute | server/routes.ts:205-221 | 204 exactly when the video was present, 404 otherwise; the id is no longer stored |
| Routes.FeaturedField | server/routes.ts:231 | reading `featured` fails exactly for a null body, and yields a boolean exactly when the body object holds that boolean |
| Routes.RequestedFeatured | server/routes.ts:231-234 | a flag exactly when the body's `featured` is a boolean, and that flag |
| Routes.SetFeaturedRoute | server/routes.ts:224-246 | after gate and id check, a null body gives 500 and a non-boolean `featured` 400, neither calling the store; a boolean gives 404 without change or 200 with only `featured` changed |
| Routes.ShowCarFiveX | server/routes.ts:58-70 | the path parameter "5x" shows car 5 |
| Hero.Forward | client/src/components/hero-section.tsx:124-128 | with n > 0 videos the next index is below n: one up inside the list, 0 after the last; with none it is unchanged |
| Hero.Backward | client/src/components/hero-section.tsx:132-136 | with n > 0 the previous index is below n: one down inside the list, n-1 from 0; with none it is unchanged |
| Hero.BackwardUndoesForward | client/src/components/hero-section.tsx:124-136 | for an index in [0, n), previous after next and next after previous give the index back |
| Hero.ForwardTimesSplit | client/src/components/hero-section.tsx:124-128 | pressing next a+b times is pressing it a times and then b times |
| Hero.ForwardTimesClimbs | client/src/components/hero-section.tsx:124-128 | below the end of the list each press moves one place |
| Hero.FullTurn | client/src/components/hero-section.tsx:124-128 | n presses of next bring an index in [0, n) back to itself |
| Hero.Carousel.constructor | client/src/components/hero-section.tsx:27-30 | index 0, not paused, muted, autoplay enabled |
| Hero.Carousel.NextVideo | client/src/components/hero-section.tsx:124-129 | the index becomes `Forward` of the old one for the current list length |
| Hero.Carousel.PreviousVideo | client/src/components/hero-section.tsx:132-137 | the index becomes `Backward` of the old one |
| Hero.Carousel.HandleVideoEnded | client/src/components/hero-section.tsx:52-58 | the index advances only when autoplay is on and the list is non-empty, and is unchanged otherwise |
| Hero.Carousel.ToggleAutoplay | client/src/components/hero-section.tsx:119-121 | flips only `isAutoplayEnabled` |
| Hero.Carousel.ToggleMute | client/src/components/hero-section.tsx:111-116 | flips `isMuted` only when the video element is mounted |
| Hero.Carousel.TogglePlay | client/src/components/hero-section.tsx:98-108 | with an element, `isPaused` becomes the opposite of the element's paused state; without one nothing changes |
| Hero.NextThenPrevious | client/src/components/hero-section.tsx:124-136 | on the component, next then previous leaves an in-range index unchanged |
| Hero.CurrentVideoAsWritten | client/src/components/hero-section.tsx:145-152 | the fixed default slide for an empty or missing list, the indexed video inside the list, and undefined exactly when a non-empty list is no longer than the index |
| Hero.ShrunkenListLeavesNoVideo | client/src/components/hero-section.tsx:146-147 | a carousel on the third of three videos shows undefined after the list shrinks to one |
| Hero.CurrentVideo | client/src/components/hero-section.tsx:145-152 | the default slide ("سيارات فاخرة 2023", the default URL, "00:10") for no videos, otherwise always one of the featured videos |
| Hero.CurrentVideoAgreesInRange | client/src/components/hero-section.tsx:146-147 | wherever the original shows a video, the corrected definition shows the same |
| AuthPage.LoginIssues | tmp_compress/client/src/pages/auth-page.tsx:18-21 | no issue exactly when the username has at least 3 characters and the password at least 6, one issue per failing field (client/src/components/hero-section.tsx:15-18 declares the same schema) |
| AuthPage.RegisterIssues | tmp_compress/client/src/pages/auth-page.tsx:24-30 | no issue exactly when the password has at least 6 characters and equals the confirmation; a mismatch is reported on `confirmPassword`; nothing is ever reported on the username |
| AuthPage.NoUsernameMinimum | tmp_compress/client/src/pages/auth-page.tsx:24-27 | with good passwords any username, the empty one included, registers, while login needs 3 characters |
| AuthPage.DefaultFormRefused | tmp_compress/client/src/pages/auth-page.tsx:59-67 | the default form has `isAdmin` false and is refused only for its empty password |
| AuthPage.RegisterPayload | tmp_compress/client/src/pages/auth-page.tsx:75-78 | drops `confirmPassword` and sends username, password and the given `isAdmin` |
| AuthPage.RegisterPayloadKeepsAdminFlag | tmp_compress/client/src/pages/auth-page.tsx:75-78 | the stored user's `isAdmin` is the form's flag, so the form can request an administrator |
| AuthPage.Redirect | tmp_compress/client/src/pages/auth-page.tsx:39-47 | no redirect without a user; "/admin" exactly for an admin; "/" exactly for any other user |
| Media.Cdn | tmp_compress/client/src/components/car-card.tsx:11-13 | "https://app.qalb9.com" in production, "" otherwise |
| Media.ResolveUrl | tmp_compress/client/src/components/car-card.tsx:16-24 | "" stays "", an "http" URL is unchanged, anything else gets the CDN in front (tmp_compress/client/src/components/video-item.tsx:17-25 is the same function) |
| Media.DevelopmentIsIdentity | tmp_compress/client/src/components/video-item.tsx:12-25 | outside production every URL passes through unchanged |
| Media.ProductionIsIdempotent | tmp_compress/client/src/components/car-card.tsx:16-24 | in production a resolved URL is empty or starts with "http", so resolving twice equals resolving once |
| Media.TagBadge | tmp_compress/client/src/components/car-card.tsx:33-39 | no badge exactly for a null or empty tag; green exactly for "هجين"; amber for every other tag |
| Media.SeededCarBadges | tmp_compress/client/src/components/car-card.tsx:33-35 | the seeded cars show amber, no badge and green |
| Media.UploadDateText | tmp_compress/client/src/components/video-item.tsx:28-37 | empty without an upload date, "مؤخراً" when the formatter throws, the formatter's text otherwise |

## Findings

| source | as written | input that shows it | evidently intended | confidence | as-written member | corrected member |
|---|---|---|---|---|---|---|
| client/src/components/hero-section.tsx:146-147 | a non-empty list is indexed with the saved index, which is not kept below the current list length | three featured videos, the carousel on index 2, then a refetch returns one video: `featuredVideos[2]` is undefined and the render reads `.videoUrl` of it | show one of the featured videos, e.g. the index taken modulo the list length | medium, not executed | Hero.CurrentVideoAsWritten, Hero.ShrunkenListLeavesNoVideo | Hero.CurrentVideo, Hero.CurrentVideoAgreesInRange |

## Left out

- `DatabaseStorage` (tmp_compress/server/storage.ts:41-231) forwards to drizzle and Postgres, which are not part of this model. Its listings are sorted by `uploadDate` descending in SQL. `MemStorage` lists in insertion order.
- The session store, the cookie settings, passport's and express-session's plumbing, and `/api/logout`: these are foreign libraries and HTTP I/O. A session is modelled only as the user id it keeps (`Auth.SessionUser`).
- The callback of `req.login` and its error path: after a successful register or login the model answers directly.
- scrypt, `randomBytes` and the internals of `timingSafeEqual`: the key derivation is a function parameter and the salt is an input. `Credentials.HonoursKeyLength` states the one assumption the proofs make about the derivation, that it returns the requested length.
- Promises and `await`: every store call is synchronous.
- The race in which two registrations of one name both pass the lookup: a concurrency issue, not modelled.
- Auth.Register: the body is used without validation. The model takes it as a typed `InsertUser`, so extra properties, and a non-boolean `isAdmin` that JavaScript would treat as truthy, are not represented. A boolean `isAdmin` sent by the client is honoured, as the contract states.
- Routes.CreateCarRoute, Routes.UpdateCarRoute, Routes.CreateVideoRoute, Routes.UpdateVideoRoute: the zod schemas are not re-implemented. The handler receives the outcome of `parse`, and the issue list sent with "Validation error" is not modelled.
- The 500 answers in the route handlers' `catch` blocks: the memory store never throws, so they are not modelled. The exception is the featured route, where destructuring a null body throws.
- Routes.SetFeaturedRoute: the body is taken as any JSON value. The JSON body parser's strict mode, which refuses a bare `null` before the handler runs, is not modelled.
- Auth.Login: a missing `username` or `password` field is modelled as the empty string. passport-local's fallback to the query string and its configurable message are not modelled.
- Auth.LoginResponse: the error page of Express's default handler is modelled as a 500 response with a fixed message.
- JsParseInt.ParseInt: exact integers are returned. The rounding of numerals past 2^53 to the nearest double is not modelled.
- AuthPage.LoginIssues, AuthPage.RegisterIssues: lengths are counted in code points. zod counts UTF-16 code units, which differ for characters outside the Basic Multilingual Plane.
- React rendering and the DOM video element's calls (`play`, `load`, `muted`, event listeners) are not modelled. Neither is the effect that reloads the video when the index changes, or the floating-point progress percentage. The featured list is an input to each carousel handler.
- date-fns relative-time formatting: its outcome is an input to `Media.UploadDateText`.
- The presentation-only pages and components, and the netlify functions: UI wiring and canned mock responses.
