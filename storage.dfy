/**
 * The in-memory entity store (`MemStorage`): three JS Maps (users, cars,
 * videos), each keyed by an integer id from its own counter, which starts at
 * 1 and is post-incremented on every insert.
 */
module Storage {
  import opened Wrappers
  import opened Schema
  import opened Tables

  // ---------------------------------------------------------------------------
  // Building and merging records

  /** The record `createUser` stores: the payload plus its id, with an absent `isAdmin` made false. */
  function NewUser(id: int, p: InsertUser): (u: User)
    ensures u.id == id && u.username == p.username && u.password == p.password
    ensures u.isAdmin <==> p.isAdmin == Given(true)
  {
    User(id, p.username, p.password, p.isAdmin.GetOr(false))
  }

  /** The record `createCar` stores: the payload plus its id, with an absent `tag` made null. */
  function NewCar(id: int, p: InsertCar): (c: Car)
    ensures c.id == id && c.name == p.name && c.year == p.year && c.speed == p.speed
    ensures c.price == p.price && c.description == p.description && c.imageUrl == p.imageUrl
    ensures c.tag.Some? <==> p.tag.Given? && p.tag.value.Some?
    ensures c.tag.Some? ==> c.tag == p.tag.value
  {
    Car(id, p.name, p.year, p.speed, p.price, p.description, p.imageUrl, p.tag.GetOr(None))
  }

  /** The record `createVideo` stores: the payload, its id, the current time, and an absent `featured` made false. */
  function NewVideo(id: int, p: InsertVideo, now: Timestamp): (v: Video)
    ensures v.id == id && v.uploadDate == now
    ensures v.title == p.title && v.description == p.description && v.videoUrl == p.videoUrl
    ensures v.thumbnailUrl == p.thumbnailUrl && v.duration == p.duration
    ensures v.featured <==> p.featured == Given(true)
  {
    Video(id, p.title, p.description, p.videoUrl, p.thumbnailUrl, p.duration, p.featured.GetOr(false), now)
  }

  /** The object spread of `updateCar`: a shallow merge in which every given field wins. */
  function MergeCar(c: Car, p: CarPatch): (r: Car)
    ensures r.id == c.id
    ensures r.name == p.name.GetOr(c.name) && r.year == p.year.GetOr(c.year)
    ensures r.speed == p.speed.GetOr(c.speed) && r.price == p.price.GetOr(c.price)
    ensures r.description == p.description.GetOr(c.description)
    ensures r.imageUrl == p.imageUrl.GetOr(c.imageUrl) && r.tag == p.tag.GetOr(c.tag)
  {
    c.(name := p.name.GetOr(c.name), year := p.year.GetOr(c.year), speed := p.speed.GetOr(c.speed),
       price := p.price.GetOr(c.price), description := p.description.GetOr(c.description),
       imageUrl := p.imageUrl.GetOr(c.imageUrl), tag := p.tag.GetOr(c.tag))
  }

  /** The object spread of `updateVideo`; the patch cannot carry `id` or `uploadDate`. */
  function MergeVideo(v: Video, p: VideoPatch): (r: Video)
    ensures r.id == v.id && r.uploadDate == v.uploadDate
    ensures r.title == p.title.GetOr(v.title) && r.description == p.description.GetOr(v.description)
    ensures r.videoUrl == p.videoUrl.GetOr(v.videoUrl) && r.thumbnailUrl == p.thumbnailUrl.GetOr(v.thumbnailUrl)
    ensures r.duration == p.duration.GetOr(v.duration) && r.featured == p.featured.GetOr(v.featured)
  {
    v.(title := p.title.GetOr(v.title), description := p.description.GetOr(v.description),
       videoUrl := p.videoUrl.GetOr(v.videoUrl), thumbnailUrl := p.thumbnailUrl.GetOr(v.thumbnailUrl),
       duration := p.duration.GetOr(v.duration), featured := p.featured.GetOr(v.featured))
  }

  /** The patch that gives no field. */
  const EmptyCarPatch := CarPatch(Absent, Absent, Absent, Absent, Absent, Absent, Absent)
  const EmptyVideoPatch := VideoPatch(Absent, Absent, Absent, Absent, Absent, Absent)

  /** The spread of patch `q` over patch `p`: a field given in `q` wins. */
  function ThenCar(p: CarPatch, q: CarPatch): CarPatch {
    CarPatch(Over(p.name, q.name), Over(p.year, q.year), Over(p.speed, q.speed), Over(p.price, q.price),
             Over(p.description, q.description), Over(p.imageUrl, q.imageUrl), Over(p.tag, q.tag))
  }

  function Over<T>(a: Optional<T>, b: Optional<T>): Optional<T> {
    if b.Given? then b else a
  }

  /** An empty patch leaves a car as it is, and applying a patch twice is applying it once. */
  lemma MergeCarIdentityAndIdempotent(c: Car, p: CarPatch)
    ensures MergeCar(c, EmptyCarPatch) == c
    ensures MergeCar(MergeCar(c, p), p) == MergeCar(c, p)
  {
  }

  /** Two successive updates are one update with the spread of the two patches. */
  lemma MergeCarCompose(c: Car, p: CarPatch, q: CarPatch)
    ensures MergeCar(MergeCar(c, p), q) == MergeCar(c, ThenCar(p, q))
  {
  }

  /** An empty patch leaves a video as it is, and applying a patch twice is applying it once. */
  lemma MergeVideoIdentityAndIdempotent(v: Video, p: VideoPatch)
    ensures MergeVideo(v, EmptyVideoPatch) == v
    ensures MergeVideo(MergeVideo(v, p), p) == MergeVideo(v, p)
  {
  }

  // ---------------------------------------------------------------------------
  // Queries over listings

  /** The position of the first user named `name`, or `|us|` when there is none. */
  function FirstIndexWithUsername(us: seq<User>, name: string): (i: nat)
    ensures i <= |us|
    ensures forall j | 0 <= j < i :: us[j].username != name
    ensures i < |us| ==> us[i].username == name
  {
    if us == [] then 0
    else if us[0].username == name then 0
    else 1 + FirstIndexWithUsername(us[1..], name)
  }

  /** The lookup of `getUserByUsername`: the first match in listing order. */
  function FirstWithUsername(us: seq<User>, name: string): (r: Option<User>)
    ensures r.None? <==> forall i | 0 <= i < |us| :: us[i].username != name
    ensures r.Some? ==> r.value in us && r.value.username == name
  {
    var i := FirstIndexWithUsername(us, name);
    if i < |us| then Some(us[i]) else None
  }

  /** The filter of `getFeaturedVideos`: the featured videos, in order. */
  function Featured(vs: seq<Video>): (r: seq<Video>)
    ensures forall v :: v in r <==> v in vs && v.featured
    ensures |r| <= |vs|
  {
    if vs == [] then []
    else if vs[0].featured then [vs[0]] + Featured(vs[1..])
    else Featured(vs[1..])
  }

  /** The filter distributes over concatenation, so it keeps the listing order. */
  lemma {:induction false} FeaturedAppend(a: seq<Video>, b: seq<Video>)
    ensures Featured(a + b) == Featured(a) + Featured(b)
  {
    if a != [] {
      assert (a + b)[0] == a[0];
      assert (a + b)[1..] == a[1..] + b;
      FeaturedAppend(a[1..], b);
      if a[0].featured {
        calc {
          Featured(a + b);
          [a[0]] + Featured(a[1..] + b);
          [a[0]] + (Featured(a[1..]) + Featured(b));
          ([a[0]] + Featured(a[1..])) + Featured(b);
        }
      }
    } else {
      assert a + b == b;
    }
  }

  /** A listing whose videos are all featured is its own filter. */
  lemma {:induction false} FeaturedAllFeatured(vs: seq<Video>)
    requires forall i | 0 <= i < |vs| :: vs[i].featured
    ensures Featured(vs) == vs
  {
    if vs != [] {
      FeaturedAllFeatured(vs[1..]);
    }
  }

  /** Every stored key sits at some position of the iteration order. */
  lemma KeyPosition<R>(m: map<int, R>, order: seq<int>, next: nat, k: int) returns (j: int)
    requires TableInv(m, order, next) && k in m
    ensures 0 <= j < |order| && order[j] == k && Listing(m, order)[j] == m[k]
  {
    assert k in order;
    j :| 0 <= j < |order| && order[j] == k;
  }

  /** Looking a username up in a users table finds its earliest-inserted holder, if any. */
  lemma UsernameLookup(m: map<int, User>, order: seq<int>, next: nat, name: string)
    requires TableInv(m, order, next) && forall k | k in m :: m[k].id == k
    ensures var r := FirstWithUsername(Listing(m, order), name);
      && (r.None? <==> forall k | k in m :: m[k].username != name)
      && (r.Some? ==> r.value.id in m && m[r.value.id] == r.value && r.value.username == name)
      && (r.Some? ==> forall k | k in m && m[k].username == name :: r.value.id <= k)
  {
    var us := Listing(m, order);
    var r := FirstWithUsername(us, name);
    var i := FirstIndexWithUsername(us, name);
    if i < |us| {
      assert us[i] == m[order[i]];
      forall k | k in m && m[k].username == name ensures r.value.id <= k {
        var j := KeyPosition(m, order, next, k);
        if j > i {
          assert order[i] < order[j];
        }
      }
    } else {
      forall k | k in m ensures m[k].username != name {
        var j := KeyPosition(m, order, next, k);
      }
    }
  }

  // ---------------------------------------------------------------------------
  // Seed data of the constructor

  const SeedAdmin := InsertUser("admin", "adminpassword", Given(true))

  const SeedCar1 := InsertCar("مرسيدس AMG GT", 2023, "315 كم/س", "$145,000",
    "سيارة رياضية فاخرة بمحرك V8 بقوة 585 حصان، تتميز بالأداء العالي والتصميم الأنيق",
    "https://images.unsplash.com/photo-1555353540-64580b51c258", Given(Some("جديد")))
  const SeedCar2 := InsertCar("بورش 911 تيربو", 2023, "330 كم/س", "$175,000",
    "أيقونة السيارات الرياضية مع محرك سداسي الاسطوانات، تجمع بين الأداء الرياضي والاستخدام اليومي",
    "https://images.unsplash.com/photo-1603584173870-7f23fdae1b7a", Given(None))
  const SeedCar3 := InsertCar("فيراري SF90", 2023, "340 كم/س", "$520,000",
    "سيارة هجينة فائقة بقوة 986 حصان، تجمع بين أحدث تقنيات المحركات الكهربائية ومحرك V8",
    "https://images.unsplash.com/photo-1580274455191-1c62238fa333", Given(Some("هجين")))

  const SeedVideo1 := InsertVideo("تجربة قيادة بورش 911 الجديدة على مضمار السباق",
    "تجربة حصرية لأداء بورش 911 الجديدة على مضمار السباق",
    "https://commondatastorage.googleapis.com/gtv-videos-bucket/sample/ForBiggerBlazes.mp4",
    "https://images.unsplash.com/photo-1606016159991-dfe4f2746ad5", "04:32", Given(true))
  const SeedVideo2 := InsertVideo("استعراض شامل لفيراري روما: الأداء والتصميم والقيادة",
    "استعراض تفصيلي لفيراري روما الجديدة",
    "https://commondatastorage.googleapis.com/gtv-videos-bucket/sample/BigBuckBunny.mp4",
    "https://images.unsplash.com/photo-1503376780353-7e6692767b70", "08:15", Given(true))
  const SeedVideo3 := InsertVideo("استعراض لامبورغيني أفينتادور الجديدة",
    "لامبورغيني أفينتادور SVJ - سيارة رياضية فائقة بتصميم مذهل وأداء لا يضاهى",
    "https://commondatastorage.googleapis.com/gtv-videos-bucket/sample/ElephantsDream.mp4",
    "https://images.unsplash.com/photo-1526726538690-5cbf956ae2fd", "10:22", Given(true))

  /**
   * What the seed payloads become: the admin keeps its plain password and is
   * an admin, the cars are tagged "جديد", null and "هجين", every video is featured.
   */
  lemma SeedRecords(t1: Timestamp, t2: Timestamp, t3: Timestamp)
    ensures NewUser(1, SeedAdmin) == User(1, "admin", "adminpassword", true)
    ensures NewCar(1, SeedCar1).tag == Some("جديد") && NewCar(2, SeedCar2).tag == None
    ensures NewCar(3, SeedCar3).tag == Some("هجين")
    ensures NewVideo(1, SeedVideo1, t1).featured && NewVideo(2, SeedVideo2, t2).featured
    ensures NewVideo(3, SeedVideo3, t3).featured
  {
  }

  // ---------------------------------------------------------------------------
  // The store

  class MemStorage {
    var users: map<int, User>
    var userOrder: seq<int>
    var userId: nat
    var cars: map<int, Car>
    var carOrder: seq<int>
    var carId: nat
    var videos: map<int, Video>
    var videoOrder: seq<int>
    var videoId: nat

    /** Each table keeps its invariant, and every record's `id` is its key. */
    ghost predicate Valid()
      reads this
    {
      && TableInv(users, userOrder, userId) && (forall k | k in users :: users[k].id == k)
      && TableInv(cars, carOrder, carId) && (forall k | k in cars :: cars[k].id == k)
      && TableInv(videos, videoOrder, videoId) && (forall k | k in videos :: videos[k].id == k)
    }

    /** Empty maps, three counters at 1, then the seed records inserted through the create methods. */
    constructor (t1: Timestamp, t2: Timestamp, t3: Timestamp)
      ensures Valid()
      ensures users == map[1 := User(1, "admin", "adminpassword", true)] && userOrder == [1] && userId == 2
      ensures cars == map[1 := NewCar(1, SeedCar1), 2 := NewCar(2, SeedCar2), 3 := NewCar(3, SeedCar3)]
      ensures carOrder == [1, 2, 3] && carId == 4
      ensures videos == map[1 := NewVideo(1, SeedVideo1, t1), 2 := NewVideo(2, SeedVideo2, t2), 3 := NewVideo(3, SeedVideo3, t3)]
      ensures videoOrder == [1, 2, 3] && videoId == 4
    {
      users, userOrder, userId := map[], [], 1;
      cars, carOrder, carId := map[], [], 1;
      videos, videoOrder, videoId := map[], [], 1;
      new;
      var _ := CreateUser(SeedAdmin);
      InsertSeedCars();
      InsertSeedVideos(t1, t2, t3);
    }

    /** The constructor's three `createCar` calls, on an empty car table. */
    method InsertSeedCars()
      requires Valid() && cars == map[] && carOrder == [] && carId == 1
      modifies this`cars, this`carOrder, this`carId
      ensures Valid()
      ensures cars == map[1 := NewCar(1, SeedCar1), 2 := NewCar(2, SeedCar2), 3 := NewCar(3, SeedCar3)]
      ensures carOrder == [1, 2, 3] && carId == 4
    {
      var _ := CreateCar(SeedCar1);
      var _ := CreateCar(SeedCar2);
      var _ := CreateCar(SeedCar3);
    }

    /** The constructor's three `createVideo` calls, on an empty video table. */
    method InsertSeedVideos(t1: Timestamp, t2: Timestamp, t3: Timestamp)
      requires Valid() && videos == map[] && videoOrder == [] && videoId == 1
      modifies this`videos, this`videoOrder, this`videoId
      ensures Valid()
      ensures videos == map[1 := NewVideo(1, SeedVideo1, t1), 2 := NewVideo(2, SeedVideo2, t2), 3 := NewVideo(3, SeedVideo3, t3)]
      ensures videoOrder == [1, 2, 3] && videoId == 4
    {
      var _ := CreateVideo(SeedVideo1, t1);
      var _ := CreateVideo(SeedVideo2, t2);
      var _ := CreateVideo(SeedVideo3, t3);
    }

    // --- users

    /** `getUser`: the user stored under `id`, if any. */
    function GetUser(id: int): (r: Option<User>)
      reads this
      requires Valid()
      ensures r.Some? <==> id in users
      ensures r.Some? ==> r.value == users[id] && r.value.id == id
    {
      if id in users then Some(users[id]) else None
    }

    /** Every stored user, in insertion order. */
    function Users(): (r: seq<User>)
      reads this
      requires Valid()
      ensures |r| == |userOrder|
      ensures forall i | 0 <= i < |r| :: r[i] == users[userOrder[i]]
    {
      Listing(users, userOrder)
    }

    /**
     * `getUserByUsername`: the earliest-inserted user with that username;
     * absent exactly when no stored user has it.
     */
    function GetUserByUsername(name: string): (r: Option<User>)
      reads this
      requires Valid()
      ensures r.None? <==> forall k | k in users :: users[k].username != name
      ensures r.Some? ==> r.value.id in users && users[r.value.id] == r.value && r.value.username == name
      ensures r.Some? ==> forall k | k in users && users[k].username == name :: r.value.id <= k
    {
      UsernameLookup(users, userOrder, userId, name);
      FirstWithUsername(Users(), name)
    }

    /**
     * `createUser`: stores the payload under the next id; `isAdmin` absent
     * becomes false. Duplicate usernames are not rejected here.
     */
    method CreateUser(insertUser: InsertUser) returns (user: User)
      requires Valid()
      modifies this`users, this`userOrder, this`userId
      ensures Valid()
      ensures user == NewUser(old(userId), insertUser)
      ensures forall k | k in old(users) :: k < user.id
      ensures users == old(users)[user.id := user] && userOrder == old(userOrder) + [user.id]
      ensures userId == old(userId) + 1
    {
      InsertKeepsInv(users, userOrder, userId, NewUser(userId, insertUser));
      var id := userId;
      userId := userId + 1;
      user := NewUser(id, insertUser);
      users := users[id := user];
      userOrder := userOrder + [id];
    }

    // --- cars

    /** `getCars`: insertion order, which is increasing id order. */
    function GetCars(): (r: seq<Car>)
      reads this
      requires Valid()
      ensures |r| == |carOrder|
      ensures forall i | 0 <= i < |r| :: r[i] == cars[carOrder[i]]
      ensures forall c :: c in r <==> c.id in cars && cars[c.id] == c
      ensures forall i, j | 0 <= i < j < |r| :: r[i].id < r[j].id
    {
      ListingHasEveryValue(cars, carOrder, carId, (c: Car) => c.id);
      Listing(cars, carOrder)
    }

    /** `getCar`: the car stored under `id`, if any. */
    function GetCar(id: int): (r: Option<Car>)
      reads this
      requires Valid()
      ensures r.Some? <==> id in cars
      ensures r.Some? ==> r.value == cars[id] && r.value.id == id
    {
      if id in cars then Some(cars[id]) else None
    }

    /** `createCar`: stores the payload under the next id; `tag` absent becomes null. */
    method CreateCar(insertCar: InsertCar) returns (car: Car)
      requires Valid()
      modifies this`cars, this`carOrder, this`carId
      ensures Valid()
      ensures car == NewCar(old(carId), insertCar)
      ensures forall k | k in old(cars) :: k < car.id
      ensures cars == old(cars)[car.id := car] && carOrder == old(carOrder) + [car.id]
      ensures carId == old(carId) + 1
    {
      InsertKeepsInv(cars, carOrder, carId, NewCar(carId, insertCar));
      var id := carId;
      carId := carId + 1;
      car := NewCar(id, insertCar);
      cars := cars[id := car];
      carOrder := carOrder + [id];
    }

    /**
     * `updateCar`: an unknown id gives undefined and changes nothing; a known
     * id is overwritten in place by the shallow merge (its listing position is kept).
     */
    method UpdateCar(id: int, carUpdate: CarPatch) returns (r: Option<Car>)
      requires Valid()
      modifies this`cars
      ensures Valid()
      ensures r.Some? <==> id in old(cars)
      ensures id !in old(cars) ==> cars == old(cars)
      ensures id in old(cars) ==> r.value == MergeCar(old(cars)[id], carUpdate) && cars == old(cars)[id := r.value]
    {
      if id !in cars {
        return None;
      }
      var updated := MergeCar(cars[id], carUpdate);
      OverwriteKeepsInv(cars, carOrder, carId, id, updated);
      cars := cars[id := updated];
      r := Some(updated);
    }

    /** `deleteCar`: true exactly when the id was present; the counter is not rewound. */
    method DeleteCar(id: int) returns (deleted: bool)
      requires Valid()
      modifies this`cars, this`carOrder
      ensures Valid()
      ensures deleted <==> id in old(cars)
      ensures cars == old(cars) - {id} && carOrder == Without(old(carOrder), id)
    {
      deleted := id in cars;
      RemoveKeepsInv(cars, carOrder, carId, id);
      cars := cars - {id};
      carOrder := Without(carOrder, id);
    }

    // --- videos

    /** `getVideos`: insertion order, not sorted by upload date. */
    function GetVideos(): (r: seq<Video>)
      reads this
      requires Valid()
      ensures |r| == |videoOrder|
      ensures forall i | 0 <= i < |r| :: r[i] == videos[videoOrder[i]]
      ensures forall v :: v in r <==> v.id in videos && videos[v.id] == v
      ensures forall i, j | 0 <= i < j < |r| :: r[i].id < r[j].id
    {
      ListingHasEveryValue(videos, videoOrder, videoId, (v: Video) => v.id);
      Listing(videos, videoOrder)
    }

    /** `getVideo`: the video stored under `id`, if any. */
    function GetVideo(id: int): (r: Option<Video>)
      reads this
      requires Valid()
      ensures r.Some? <==> id in videos
      ensures r.Some? ==> r.value == videos[id] && r.value.id == id
    {
      if id in videos then Some(videos[id]) else None
    }

    /** `getFeaturedVideos`: exactly the stored videos whose `featured` is true. */
    function GetFeaturedVideos(): (r: seq<Video>)
      reads this
      requires Valid()
      ensures forall v :: v in r <==> v.id in videos && videos[v.id] == v && v.featured
      ensures |r| <= |videoOrder|
    {
      Featured(GetVideos())
    }

    /** `createVideo`: the next id, `uploadDate` is the clock's `now`, `featured` absent becomes false. */
    method CreateVideo(insertVideo: InsertVideo, now: Timestamp) returns (video: Video)
      requires Valid()
      modifies this`videos, this`videoOrder, this`videoId
      ensures Valid()
      ensures video == NewVideo(old(videoId), insertVideo, now)
      ensures forall k | k in old(videos) :: k < video.id
      ensures videos == old(videos)[video.id := video] && videoOrder == old(videoOrder) + [video.id]
      ensures videoId == old(videoId) + 1
    {
      InsertKeepsInv(videos, videoOrder, videoId, NewVideo(videoId, insertVideo, now));
      var id := videoId;
      videoId := videoId + 1;
      video := NewVideo(id, insertVideo, now);
      videos := videos[id := video];
      videoOrder := videoOrder + [id];
    }

    /** `updateVideo`: like `updateCar`; `id` and `uploadDate` survive the merge. */
    method UpdateVideo(id: int, videoUpdate: VideoPatch) returns (r: Option<Video>)
      requires Valid()
      modifies this`videos
      ensures Valid()
      ensures r.Some? <==> id in old(videos)
      ensures id !in old(videos) ==> videos == old(videos)
      ensures id in old(videos) ==> r.value == MergeVideo(old(videos)[id], videoUpdate) && videos == old(videos)[id := r.value]
    {
      if id !in videos {
        return None;
      }
      var updated := MergeVideo(videos[id], videoUpdate);
      OverwriteKeepsInv(videos, videoOrder, videoId, id, updated);
      videos := videos[id := updated];
      r := Some(updated);
    }

    /** `deleteVideo`: true exactly when the id was present. */
    method DeleteVideo(id: int) returns (deleted: bool)
      requires Valid()
      modifies this`videos, this`videoOrder
      ensures Valid()
      ensures deleted <==> id in old(videos)
      ensures videos == old(videos) - {id} && videoOrder == Without(old(videoOrder), id)
    {
      deleted := id in videos;
      RemoveKeepsInv(videos, videoOrder, videoId, id);
      videos := videos - {id};
      videoOrder := Without(videoOrder, id);
    }

    /** `setVideoFeatured`: only `featured` changes; an unknown id changes nothing. */
    method SetVideoFeatured(id: int, featured: bool) returns (r: Option<Video>)
      requires Valid()
      modifies this`videos
      ensures Valid()
      ensures r.Some? <==> id in old(videos)
      ensures id !in old(videos) ==> videos == old(videos)
      ensures id in old(videos) ==> r.value == old(videos)[id].(featured := featured) && videos == old(videos)[id := r.value]
    {
      if id !in videos {
        return None;
      }
      var updated := videos[id].(featured := featured);
      OverwriteKeepsInv(videos, videoOrder, videoId, id, updated);
      videos := videos[id := updated];
      r := Some(updated);
    }
  }

  // ---------------------------------------------------------------------------
  // What callers can conclude from the contracts alone

  /** Deleting the same car twice: the first delete reports the car, the second reports false. */
  method DeleteCarTwice(s: MemStorage, id: int) returns (first: bool, second: bool)
    requires s.Valid()
    modifies s`cars, s`carOrder
    ensures s.Valid()
    ensures first <==> id in old(s.cars)
    ensures !second && id !in s.cars
  {
    first := s.DeleteCar(id);
    second := s.DeleteCar(id);
  }

  /** A deleted car's id is never handed out again. */
  method DeletedCarIdNotReused(s: MemStorage, id: int, p: InsertCar) returns (c: Car)
    requires s.Valid() && id in s.cars
    modifies s`cars, s`carOrder, s`carId
    ensures s.Valid()
    ensures c.id > id && c in s.GetCars() && s.GetCar(id).None?
  {
    var _ := s.DeleteCar(id);
    c := s.CreateCar(p);
  }

  /** Updating a car keeps its position in `getCars` and leaves every other car unchanged. */
  method UpdateKeepsListingPosition(s: MemStorage, id: int, p: CarPatch) returns (r: Option<Car>)
    requires s.Valid()
    modifies s`cars
    ensures s.Valid()
    ensures |s.GetCars()| == |old(s.GetCars())|
    ensures forall i | 0 <= i < |s.GetCars()| ::
      s.GetCars()[i] == if old(s.GetCars())[i].id == id then MergeCar(old(s.GetCars())[i], p) else old(s.GetCars())[i]
  {
    r := s.UpdateCar(id, p);
  }
}
