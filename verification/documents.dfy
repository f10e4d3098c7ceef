/** The hotel documents, the store that holds them, the calls the handlers
    make on it, and the replies they send. The store is an in-memory map; its
    query engine, id generation and schema validation are outside the model,
    and each of its failures is an explicit flag of the handler that meets it. */
module Documents {
  import opened JsValues
  import opened FloatParsing

  type HotelId = string
  type ReviewId = string

  /** A review embedded in a hotel. `rating` is `parseInt` of the request
      field, so `None` stands for NaN; the text fields are `None` when the
      request omitted them. */
  datatype Review = Review(id: ReviewId, name: Option<string>, rating: Option<int>, text: Option<string>)

  /** `coordinates` is `[lng, lat]` as `parseFloat` read them. */
  datatype Location = Location(address: Option<string>, coordinates: seq<Float>)

  /** The fields a create sets and an update overwrites. */
  datatype HotelFields = HotelFields(
    name: Option<string>,
    description: Option<string>,
    stars: Option<int>,
    services: seq<string>,
    photos: seq<string>,
    currency: Option<string>,
    location: Location)

  /** A room; its contents are not part of this model. */
  datatype Room = Room(attributes: map<string, string>)

  /** A hotel document. `reviews` is `None` when the document has no review
      array at all. */
  datatype Hotel = Hotel(id: HotelId, fields: HotelFields, reviews: Option<seq<Review>>, rooms: seq<Room>)

  type Store = map<HotelId, Hotel>

  /** Review ids are unique within one hotel. */
  predicate UniqueReviewIds(rs: seq<Review>) {
    forall i, j | 0 <= i < j < |rs| :: rs[i].id != rs[j].id
  }

  predicate ValidHotel(h: Hotel) {
    h.reviews.Some? ==> UniqueReviewIds(h.reviews.value)
  }

  /** Every document sits under its own id and keeps its review ids unique. */
  predicate ValidStore(store: Store) {
    forall id | id in store :: store[id].id == id && ValidHotel(store[id])
  }

  /** Which parts of a document a fetch loads. */
  datatype Projection = WholeDocument | OnlyReviews | WithoutReviewsAndRooms

  /** The options of a nearest-neighbour search. */
  datatype GeoQuery = GeoQuery(coordinates: seq<Float>, spherical: bool, maxDistance: int, num: int)

  /** What saving a loaded document writes back: only the paths it loaded. */
  datatype Change = SetFields(fields: HotelFields) | SetReviews(reviews: seq<Review>)

  /** A call a handler makes on the store. */
  datatype StoreCall =
    | Find(skip: int, limit: int)
    | GeoNear(query: GeoQuery)
    | FindById(id: HotelId, projection: Projection)
    | Create(fields: HotelFields)
    | Save(id: HotelId, change: Change)
    | FindByIdAndRemove(id: HotelId)

  predicate IsSave(c: StoreCall) {
    c.Save?
  }

  /** Whether a trace of calls contains a save. */
  predicate Saves(calls: seq<StoreCall>) {
    exists i | 0 <= i < |calls| :: IsSave(calls[i])
  }

  /** The document after a successful save of `change`. */
  function ApplyChange(h: Hotel, change: Change): Hotel {
    match change
    case SetFields(f) => h.(fields := f)
    case SetReviews(rs) => h.(reviews := Some(rs))
  }

  /** A response body. `StoreError` is the error object the store reported,
      forwarded as it is. */
  datatype Body =
    | NoBody
    | StoreError
    | Message(text: string)
    | HotelDoc(hotel: Hotel)
    | HotelList(hotels: seq<Hotel>)
    | ReviewDoc(review: Review)
    | ReviewList(reviews: seq<Review>)

  /** An exception thrown inside a store callback before any response. */
  datatype JsError = ReferenceError(identifier: string) | TypeError

  /** What the client sees: a response, or none because the handler threw. */
  datatype Reply = Send(status: nat, body: Body) | Crash(error: JsError)

  /** One handled request: the reply, the store calls made in order, and the
      store afterwards. */
  datatype Outcome = Outcome(reply: Reply, calls: seq<StoreCall>, store: Store)
}
