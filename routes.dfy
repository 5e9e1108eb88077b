/**
 * The REST routes over the store: the admin gate, id parsing with
 * `parseInt`, and the status code each handler answers with.
 */
module Routes {
  import opened Wrappers
  import opened Schema
  import opened Http
  import opened Storage
  import opened JsParseInt

  const AuthenticationRequired := "Authentication required"
  const AdminRequired := "Admin access required"
  const InvalidCarId := "Invalid car ID"
  const InvalidVideoId := "Invalid video ID"
  const CarNotFound := "Car not found"
  const VideoNotFound := "Video not found"
  const FeaturedNotBoolean := "Featured status must be a boolean"
  const FeatureUpdateFailed := "Failed to update video feature status"

  /** What a middleware decides: pass the request on, or answer it. */
  datatype Gate = Proceed | Deny(response: Response)

  /** The `isAdmin` middleware: authentication is checked before the role. */
  function AdminGate(requester: Option<User>): (g: Gate)
    ensures requester.None? <==> g == Deny(Response(401, Message(AuthenticationRequired)))
    ensures (requester.Some? && !requester.value.isAdmin) <==> g == Deny(Response(403, Message(AdminRequired)))
    ensures g.Proceed? <==> requester.Some? && requester.value.isAdmin
  {
    match requester
    case None => Deny(Response(401, Message(AuthenticationRequired)))
    case Some(u) => if !u.isAdmin then Deny(Response(403, Message(AdminRequired))) else Proceed
  }

  /** `GET /api/cars` */
  method ListCars(store: MemStorage) returns (resp: Response)
    requires store.Valid()
    ensures resp.status == 200 && resp.body.CarsJson?
    ensures forall c :: c in resp.body.cars <==> c.id in store.cars && store.cars[c.id] == c
    ensures resp.body.cars == store.GetCars()
    ensures |resp.body.cars| == |store.carOrder|
    ensures forall i | 0 <= i < |resp.body.cars| :: resp.body.cars[i] == store.cars[store.carOrder[i]]
  {
    resp := Response(200, CarsJson(store.GetCars()));
  }

  /** `GET /api/videos` */
  method ListVideos(store: MemStorage) returns (resp: Response)
    requires store.Valid()
    ensures resp.status == 200 && resp.body.VideosJson?
    ensures forall v :: v in resp.body.videos <==> v.id in store.videos && store.videos[v.id] == v
    ensures resp.body.videos == store.GetVideos()
    ensures |resp.body.videos| == |store.videoOrder|
    ensures forall i | 0 <= i < |resp.body.videos| :: resp.body.videos[i] == store.videos[store.videoOrder[i]]
  {
    resp := Response(200, VideosJson(store.GetVideos()));
  }

  /** `GET /api/videos/featured` */
  method ListFeaturedVideos(store: MemStorage) returns (resp: Response)
    requires store.Valid()
    ensures resp.status == 200 && resp.body.VideosJson?
    ensures forall v :: v in resp.body.videos <==> v.id in store.videos && store.videos[v.id] == v && v.featured
    ensures resp.body.videos == store.GetFeaturedVideos() == Featured(store.GetVideos())
  {
    resp := Response(200, VideosJson(store.GetFeaturedVideos()));
  }

  /** `GET /api/cars/:id`: 400 for NaN before the store is asked, 404 when absent. */
  method ShowCar(store: MemStorage, rawId: string) returns (resp: Response)
    requires store.Valid()
    ensures ParseInt(rawId).None? <==> resp == Response(400, Message(InvalidCarId))
    ensures ParseInt(rawId).Some? && ParseInt(rawId).value !in store.cars <==> resp == Response(404, Message(CarNotFound))
    ensures ParseInt(rawId).Some? && ParseInt(rawId).value in store.cars
        ==> resp == Response(200, CarJson(store.cars[ParseInt(rawId).value]))
  {
    var carId := ParseInt(rawId);
    if carId.None? {
      return Response(400, Message(InvalidCarId));
    }
    var car := store.GetCar(carId.value);
    if car.None? {
      return Response(404, Message(CarNotFound));
    }
    resp := Response(200, CarJson(car.value));
  }

  /** `GET /api/videos/:id` */
  method ShowVideo(store: MemStorage, rawId: string) returns (resp: Response)
    requires store.Valid()
    ensures ParseInt(rawId).None? <==> resp == Response(400, Message(InvalidVideoId))
    ensures ParseInt(rawId).Some? && ParseInt(rawId).value !in store.videos <==> resp == Response(404, Message(VideoNotFound))
    ensures ParseInt(rawId).Some? && ParseInt(rawId).value in store.videos
        ==> resp == Response(200, VideoJson(store.videos[ParseInt(rawId).value]))
  {
    var videoId := ParseInt(rawId);
    if videoId.None? {
      return Response(400, Message(InvalidVideoId));
    }
    var video := store.GetVideo(videoId.value);
    if video.None? {
      return Response(404, Message(VideoNotFound));
    }
    resp := Response(200, VideoJson(video.value));
  }

  /**
   * `POST /api/cars`: behind the admin gate; `validated` is what
   * `insertCarSchema.parse` produced, `None` for a `ZodError` (400).
   */
  method CreateCarRoute(store: MemStorage, requester: Option<User>, validated: Option<InsertCar>) returns (resp: Response)
    requires store.Valid()
    modifies store`cars, store`carOrder, store`carId
    ensures store.Valid()
    ensures AdminGate(requester).Deny? ==> resp == AdminGate(requester).response
    ensures AdminGate(requester).Proceed? && validated.None? ==> resp == Response(400, ValidationErrors)
    ensures AdminGate(requester).Deny? || validated.None? ==> unchanged(store`cars, store`carOrder, store`carId)
    ensures AdminGate(requester).Proceed? && validated.Some? ==>
      && resp == Response(201, CarJson(NewCar(old(store.carId), validated.value)))
      && store.cars == old(store.cars)[old(store.carId) := resp.body.car]
      && store.carOrder == old(store.carOrder) + [old(store.carId)]
      && store.carId == old(store.carId) + 1
  {
    var gate := AdminGate(requester);
    if gate.Deny? {
      return gate.response;
    }
    if validated.None? {
      return Response(400, ValidationErrors);
    }
    var car := store.CreateCar(validated.value);
    resp := Response(201, CarJson(car));
  }

  /** `PUT /api/cars/:id`: gate, then id (400), then the partial schema (400), then 404 or the merged car. */
  method UpdateCarRoute(store: MemStorage, requester: Option<User>, rawId: string, validated: Option<CarPatch>)
    returns (resp: Response)
    requires store.Valid()
    modifies store`cars
    ensures store.Valid()
    ensures AdminGate(requester).Deny? ==> resp == AdminGate(requester).response && store.cars == old(store.cars)
    ensures AdminGate(requester).Proceed? && ParseInt(rawId).None? ==>
      resp == Response(400, Message(InvalidCarId)) && store.cars == old(store.cars)
    ensures AdminGate(requester).Proceed? && ParseInt(rawId).Some? && validated.None? ==>
      resp == Response(400, ValidationErrors) && store.cars == old(store.cars)
    ensures AdminGate(requester).Proceed? && ParseInt(rawId).Some? && validated.Some? ==>
      var id := ParseInt(rawId).value;
      && (id !in old(store.cars) ==> resp == Response(404, Message(CarNotFound)) && store.cars == old(store.cars))
      && (id in old(store.cars) ==>
            && resp == Response(200, CarJson(MergeCar(old(store.cars)[id], validated.value)))
            && store.cars == old(store.cars)[id := resp.body.car])
  {
    var gate := AdminGate(requester);
    if gate.Deny? {
      return gate.response;
    }
    var carId := ParseInt(rawId);
    if carId.None? {
      return Response(400, Message(InvalidCarId));
    }
    if validated.None? {
      return Response(400, ValidationErrors);
    }
    var updated := store.UpdateCar(carId.value, validated.value);
    if updated.None? {
      return Response(404, Message(CarNotFound));
    }
    resp := Response(200, CarJson(updated.value));
  }

  /** `DELETE /api/cars/:id`: 404 when the store reports false, 204 with no body when true. */
  method DeleteCarRoute(store: MemStorage, requester: Option<User>, rawId: string) returns (resp: Response)
    requires store.Valid()
    modifies store`cars, store`carOrder
    ensures store.Valid()
    ensures AdminGate(requester).Deny? || ParseInt(rawId).None? ==> unchanged(store`cars, store`carOrder)
    ensures AdminGate(requester).Deny? ==> resp == AdminGate(requester).response
    ensures AdminGate(requester).Proceed? && ParseInt(rawId).None? ==> resp == Response(400, Message(InvalidCarId))
    ensures AdminGate(requester).Proceed? && ParseInt(rawId).Some? ==>
      var id := ParseInt(rawId).value;
      && (resp == Response(204, NoContent) <==> id in old(store.cars))
      && (resp == Response(404, Message(CarNotFound)) <==> id !in old(store.cars))
      && store.cars == old(store.cars) - {id}
  {
    var gate := AdminGate(requester);
    if gate.Deny? {
      return gate.response;
    }
    var carId := ParseInt(rawId);
    if carId.None? {
      return Response(400, Message(InvalidCarId));
    }
    var deleted := store.DeleteCar(carId.value);
    if !deleted {
      return Response(404, Message(CarNotFound));
    }
    resp := Response(204, NoContent);
  }

  /** `POST /api/videos`; the upload date is the clock reading `now`. */
  method CreateVideoRoute(store: MemStorage, requester: Option<User>, validated: Option<InsertVideo>, now: Timestamp)
    returns (resp: Response)
    requires store.Valid()
    modifies store`videos, store`videoOrder, store`videoId
    ensures store.Valid()
    ensures AdminGate(requester).Deny? ==> resp == AdminGate(requester).response
    ensures AdminGate(requester).Proceed? && validated.None? ==> resp == Response(400, ValidationErrors)
    ensures AdminGate(requester).Deny? || validated.None? ==> unchanged(store`videos, store`videoOrder, store`videoId)
    ensures AdminGate(requester).Proceed? && validated.Some? ==>
      && resp == Response(201, VideoJson(NewVideo(old(store.videoId), validated.value, now)))
      && store.videos == old(store.videos)[old(store.videoId) := resp.body.video]
      && store.videoOrder == old(store.videoOrder) + [old(store.videoId)]
      && store.videoId == old(store.videoId) + 1
  {
    var gate := AdminGate(requester);
    if gate.Deny? {
      return gate.response;
    }
    if validated.None? {
      return Response(400, ValidationErrors);
    }
    var video := store.CreateVideo(validated.value, now);
    resp := Response(201, VideoJson(video));
  }

  /** `PUT /api/videos/:id` */
  method UpdateVideoRoute(store: MemStorage, requester: Option<User>, rawId: string, validated: Option<VideoPatch>)
    returns (resp: Response)
    requires store.Valid()
    modifies store`videos
    ensures store.Valid()
    ensures AdminGate(requester).Deny? ==> resp == AdminGate(requester).response && store.videos == old(store.videos)
    ensures AdminGate(requester).Proceed? && ParseInt(rawId).None? ==>
      resp == Response(400, Message(InvalidVideoId)) && store.videos == old(store.videos)
    ensures AdminGate(requester).Proceed? && ParseInt(rawId).Some? && validated.None? ==>
      resp == Response(400, ValidationErrors) && store.videos == old(store.videos)
    ensures AdminGate(requester).Proceed? && ParseInt(rawId).Some? && validated.Some? ==>
      var id := ParseInt(rawId).value;
      && (id !in old(store.videos) ==> resp == Response(404, Message(VideoNotFound)) && store.videos == old(store.videos))
      && (id in old(store.videos) ==>
            && resp == Response(200, VideoJson(MergeVideo(old(store.videos)[id], validated.value)))
            && store.videos == old(store.videos)[id := resp.body.video])
  {
    var gate := AdminGate(requester);
    if gate.Deny? {
      return gate.response;
    }
    var videoId := ParseInt(rawId);
    if videoId.None? {
      return Response(400, Message(InvalidVideoId));
    }
    if validated.None? {
      return Response(400, ValidationErrors);
    }
    var updated := store.UpdateVideo(videoId.value, validated.value);
    if updated.None? {
      return Response(404, Message(VideoNotFound));
    }
    resp := Response(200, VideoJson(updated.value));
  }

  /** `DELETE /api/videos/:id` */
  method DeleteVideoRoute(store: MemStorage, requester: Option<User>, rawId: string) returns (resp: Response)
    requires store.Valid()
    modifies store`videos, store`videoOrder
    ensures store.Valid()
    ensures AdminGate(requester).Deny? || ParseInt(rawId).None? ==> unchanged(store`videos, store`videoOrder)
    ensures AdminGate(requester).Deny? ==> resp == AdminGate(requester).response
    ensures AdminGate(requester).Proceed? && ParseInt(rawId).None? ==> resp == Response(400, Message(InvalidVideoId))
    ensures AdminGate(requester).Proceed? && ParseInt(rawId).Some? ==>
      var id := ParseInt(rawId).value;
      && (resp == Response(204, NoContent) <==> id in old(store.videos))
      && (resp == Response(404, Message(VideoNotFound)) <==> id !in old(store.videos))
      && store.videos == old(store.videos) - {id}
  {
    var gate := AdminGate(requester);
    if gate.Deny? {
      return gate.response;
    }
    var videoId := ParseInt(rawId);
    if videoId.None? {
      return Response(400, Message(InvalidVideoId));
    }
    var deleted := store.DeleteVideo(videoId.value);
    if !deleted {
      return Response(404, Message(VideoNotFound));
    }
    resp := Response(204, NoContent);
  }

  /**
   * The `featured` property the handler destructures from the request body:
   * destructuring `null` throws, a missing property is `undefined`.
   */
  function FeaturedField(body: Json): (r: Result<Optional<Json>, ()>)
    ensures r.Failure? <==> body.JNull?
    ensures r == Success(Given(JBool(true))) <==> body.JObject? && "featured" in body.fields && body.fields["featured"] == JBool(true)
    ensures r == Success(Given(JBool(false))) <==> body.JObject? && "featured" in body.fields && body.fields["featured"] == JBool(false)
  {
    match body
    case JNull => Failure(())
    case JObject(fields) => Success(if "featured" in fields then Given(fields["featured"]) else Absent)
    case _ => Success(Absent)
  }

  /** The `featured` of the body when its type is boolean. */
  function RequestedFeatured(body: Json): (r: Option<bool>)
    ensures r.Some? <==> body.JObject? && "featured" in body.fields && body.fields["featured"].JBool?
    ensures r.Some? ==> body.fields["featured"] == JBool(r.value)
  {
    match FeaturedField(body)
    case Success(Given(JBool(b))) => Some(b)
    case _ => None
  }

  /**
   * `PATCH /api/videos/:id/featured`: anything but a boolean `featured`
   * is refused with 400 before the store is called.
   */
  method SetFeaturedRoute(store: MemStorage, requester: Option<User>, rawId: string, body: Json) returns (resp: Response)
    requires store.Valid()
    modifies store`videos
    ensures store.Valid()
    ensures AdminGate(requester).Deny? ==> resp == AdminGate(requester).response
    ensures AdminGate(requester).Proceed? && ParseInt(rawId).None? ==> resp == Response(400, Message(InvalidVideoId))
    ensures AdminGate(requester).Proceed? && ParseInt(rawId).Some? && body.JNull? ==>
      resp == Response(500, Message(FeatureUpdateFailed))
    ensures AdminGate(requester).Proceed? && ParseInt(rawId).Some? && !body.JNull? && RequestedFeatured(body).None? ==>
      resp == Response(400, Message(FeaturedNotBoolean))
    ensures !(AdminGate(requester).Proceed? && ParseInt(rawId).Some? && RequestedFeatured(body).Some?) ==>
      store.videos == old(store.videos)
    ensures AdminGate(requester).Proceed? && ParseInt(rawId).Some? && RequestedFeatured(body).Some? ==>
      var id := ParseInt(rawId).value;
      && (id !in old(store.videos) ==> resp == Response(404, Message(VideoNotFound)) && store.videos == old(store.videos))
      && (id in old(store.videos) ==>
            && resp == Response(200, VideoJson(old(store.videos)[id].(featured := RequestedFeatured(body).value)))
            && store.videos == old(store.videos)[id := resp.body.video])
  {
    var gate := AdminGate(requester);
    if gate.Deny? {
      return gate.response;
    }
    var videoId := ParseInt(rawId);
    if videoId.None? {
      return Response(400, Message(InvalidVideoId));
    }
    var field := FeaturedField(body);
    if field.Failure? {
      return Response(500, Message(FeatureUpdateFailed));
    }
    if !(field.value.Given? && field.value.value.JBool?) {
      return Response(400, Message(FeaturedNotBoolean));
    }
    var updated := store.SetVideoFeatured(videoId.value, field.value.value.b);
    if updated.None? {
      return Response(404, Message(VideoNotFound));
    }
    resp := Response(200, VideoJson(updated.value));
  }

  /** With "5x" as the path parameter, the car with id 5 is the one shown. */
  method ShowCarFiveX(store: MemStorage) returns (resp: Response)
    requires store.Valid() && 5 in store.cars
    ensures resp == Response(200, CarJson(store.cars[5]))
  {
    ParseFiveX();
    resp := ShowCar(store, "5x");
  }
}
