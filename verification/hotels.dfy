/** The hotel request handlers of api/controllers/hotels.controllers.js:
    list (paged or nearest-neighbour), fetch one, create, update, delete. */
module Hotels {
  import opened JsValues
  import opened IntParsing
  import opened FloatParsing
  import opened Splitting
  import opened Documents

  const DefaultOffset: int := 0
  const DefaultCount: int := 19
  const MaxCount: int := 20
  const GeoMaxDistance: int := 2000
  const GeoResultLimit: int := 5

  const BadCoordinates: string := "if supplied in QueryString, lng and lng should be Float values"
  const BadPaging: string := "if supplied in QueryString, count and offset should be Integer values"
  const CountTooLarge: string := "If supplied in QueryString, count cannot exceed 10"
  const HotelNotFound: string := "Hotel ID not found"

  /** The query string of the list endpoint. */
  datatype ListQuery = ListQuery(lat: Option<string>, lng: Option<string>, offset: Option<string>, count: Option<string>)

  /** The request body of create and update. */
  datatype HotelBody = HotelBody(
    name: Option<string>,
    description: Option<string>,
    stars: Option<string>,
    services: Option<string>,
    photos: Option<string>,
    currency: Option<string>,
    address: Option<string>,
    lng: Option<string>,
    lat: Option<string>)

  /** A handled list request: the reply and the store calls made. The list
      handlers only read, so there is no store afterwards. */
  datatype QueryOutcome = QueryOutcome(reply: Reply, calls: seq<StoreCall>)

  /** Both coordinates present and non-empty: the list runs as a geo search. */
  predicate GeoMode(q: ListQuery) {
    Truthy(q.lat) && Truthy(q.lng)
  }

  /** The nearest-neighbour search `runGeoQuery`; `hits` is what the store
      answers when the search runs and does not fail. */
  function RunGeoQuery(lng: string, lat: string, queryFails: bool, hits: seq<Hotel>): (o: QueryOutcome)
    ensures o.calls == [] <==> IsNaN(FloatOf(lng)) || IsNaN(FloatOf(lat))
    ensures o.calls == [] ==> o.reply == Send(400, Message(BadCoordinates))
    ensures o.calls != [] ==>
      && o.calls == [GeoNear(GeoQuery([FloatOf(lng), FloatOf(lat)], true, GeoMaxDistance, GeoResultLimit))]
      && o.reply == (if queryFails then Send(500, StoreError) else Send(200, HotelList(hits)))
  {
    var x := FloatOf(lng);
    var y := FloatOf(lat);
    if IsNaN(x) || IsNaN(y) then
      QueryOutcome(Send(400, Message(BadCoordinates)), [])
    else
      var query := GeoQuery([x, y], true, GeoMaxDistance, GeoResultLimit);
      var reply := if queryFails then Send(500, StoreError) else Send(200, HotelList(hits));
      QueryOutcome(reply, [GeoNear(query)])
  }

  /** A paging parameter: `parseInt` of it when truthy, else the default. */
  function PageParam(p: Option<string>, default: int): (r: Option<int>)
    ensures !Truthy(p) ==> r == Some(default)
    ensures r.None? <==> Truthy(p) && ParseInt(p.value).None?
    ensures Truthy(p) ==> r == ParseInt(p.value)
  {
    if Truthy(p) then ParseInt(p.value) else Some(default)
  }

  /** `hotelsGetAll`: a geo search when both coordinates are given, otherwise
      one page of `count` hotels from `offset`. `rows` is what the store
      answers to the query that is issued. */
  function HotelsGetAll(q: ListQuery, queryFails: bool, rows: seq<Hotel>): (o: QueryOutcome)
    ensures o.reply.Send? && |o.calls| <= 1
    ensures o.calls == [] <==> o.reply.status == 400
    ensures o.calls != [] ==> (o.reply.status == 500 <==> queryFails)
    ensures o.calls != [] && !queryFails ==> o.reply == Send(200, HotelList(rows))
    ensures !GeoMode(q) && o.calls != [] ==>
      && PageParam(q.offset, DefaultOffset).Some? && PageParam(q.count, DefaultCount).Some?
      && PageParam(q.count, DefaultCount).value <= MaxCount
      && o.calls == [Find(PageParam(q.offset, DefaultOffset).value, PageParam(q.count, DefaultCount).value)]
  {
    if GeoMode(q) then
      RunGeoQuery(q.lng.value, q.lat.value, queryFails, rows)
    else
      var offset := PageParam(q.offset, DefaultOffset);
      var count := PageParam(q.count, DefaultCount);
      if offset.None? || count.None? then
        QueryOutcome(Send(400, Message(BadPaging)), [])
      else if count.value > MaxCount then
        QueryOutcome(Send(400, Message(CountTooLarge)), [])
      else
        var reply := if queryFails then Send(500, StoreError) else Send(200, HotelList(rows));
        QueryOutcome(reply, [Find(offset.value, count.value)])
  }

  /** With both coordinates given the list is the geo search, and neither
      `offset` nor `count` is read. */
  lemma GeoTakesPrecedence(q: ListQuery, offset: Option<string>, count: Option<string>, queryFails: bool, rows: seq<Hotel>)
    requires GeoMode(q)
    ensures HotelsGetAll(q, queryFails, rows) == RunGeoQuery(q.lng.value, q.lat.value, queryFails, rows)
    ensures HotelsGetAll(q, queryFails, rows) == HotelsGetAll(q.(offset := offset, count := count), queryFails, rows)
  {
  }

  /** Absent or empty paging parameters mean offset 0 and count 19. */
  lemma PagingDefaults(q: ListQuery, queryFails: bool, rows: seq<Hotel>)
    requires !GeoMode(q) && !Truthy(q.offset) && !Truthy(q.count)
    ensures HotelsGetAll(q, queryFails, rows).calls == [Find(DefaultOffset, DefaultCount)]
  {
  }

  /** Each paging parameter is read on its own, defaulting when absent or
      empty: a count within the cap reaches the store as exactly `skip(offset)`
      and `limit(count)`, and one above it is refused before any store call,
      whatever text `parseInt` read it from. */
  lemma PagingCall(q: ListQuery, offset: int, count: int, queryFails: bool, rows: seq<Hotel>)
    requires !GeoMode(q)
    requires PageParam(q.offset, DefaultOffset) == Some(offset) && PageParam(q.count, DefaultCount) == Some(count)
    ensures count <= MaxCount ==> HotelsGetAll(q, queryFails, rows).calls == [Find(offset, count)]
    ensures count > MaxCount ==> HotelsGetAll(q, queryFails, rows) == QueryOutcome(Send(400, Message(CountTooLarge)), [])
  {
  }

  /** A supplied paging parameter that is NaN is refused before any store call. */
  lemma PagingRejectsNaN(q: ListQuery, queryFails: bool, rows: seq<Hotel>)
    requires !GeoMode(q)
    requires (Truthy(q.offset) && ParseInt(q.offset.value).None?) || (Truthy(q.count) && ParseInt(q.count.value).None?)
    ensures HotelsGetAll(q, queryFails, rows) == QueryOutcome(Send(400, Message(BadPaging)), [])
  {
  }

  /** A count above the cap is refused before any store call. */
  lemma {:induction false} CountAboveCapRejected(q: ListQuery, count: int, queryFails: bool, rows: seq<Hotel>)
    requires !GeoMode(q) && q.count == Some(IntToDecimal(count)) && count > MaxCount
    ensures HotelsGetAll(q, queryFails, rows).reply.status == 400
    ensures HotelsGetAll(q, queryFails, rows).calls == []
  {
    ParseIntRoundTrip(count, []);
    assert IntToDecimal(count) + [] == IntToDecimal(count);
  }

  /** Any integers within the cap, negative ones included, reach the store as
      exactly `skip(offset)` and `limit(count)`: there is no lower bound. */
  lemma {:induction false} PageCallIsExact(q: ListQuery, offset: int, count: int, queryFails: bool, rows: seq<Hotel>)
    requires !GeoMode(q)
    requires q.offset == Some(IntToDecimal(offset)) && q.count == Some(IntToDecimal(count))
    requires count <= MaxCount
    ensures HotelsGetAll(q, queryFails, rows).calls == [Find(offset, count)]
    ensures HotelsGetAll(q, queryFails, rows).reply == (if queryFails then Send(500, StoreError) else Send(200, HotelList(rows)))
  {
    ParseIntRoundTrip(offset, []);
    ParseIntRoundTrip(count, []);
    assert IntToDecimal(offset) + [] == IntToDecimal(offset);
    assert IntToDecimal(count) + [] == IntToDecimal(count);
  }

  /** `hotelsGetOne`. */
  function HotelsGetOne(store: Store, id: HotelId, fetchFails: bool): (o: Outcome)
    ensures o.calls == [FindById(id, WholeDocument)] && o.store == store
    ensures fetchFails ==> o.reply == Send(500, StoreError)
    ensures !fetchFails && id !in store ==> o.reply == Send(404, Message(HotelNotFound))
    ensures !fetchFails && id in store ==> o.reply == Send(200, HotelDoc(store[id]))
  {
    var reply :=
      if fetchFails then Send(500, StoreError)
      else if id !in store then Send(404, Message(HotelNotFound))
      else Send(200, HotelDoc(store[id]));
    Outcome(reply, [FindById(id, WholeDocument)], store)
  }

  /** The fields create and update take from a request body: `stars` through
      `parseInt`, `services` and `photos` through the splitter, the
      coordinates through `parseFloat` in the order `[lng, lat]`. */
  function FieldsFromBody(body: HotelBody): (f: HotelFields)
    ensures f.name == body.name && f.description == body.description && f.currency == body.currency
    ensures f.stars == ParseIntParam(body.stars)
    ensures Truthy(body.services) ==> Join(f.services) == body.services.value && NoSeparator(f.services)
    ensures !Truthy(body.services) ==> f.services == []
    ensures Truthy(body.photos) ==> Join(f.photos) == body.photos.value && NoSeparator(f.photos)
    ensures !Truthy(body.photos) ==> f.photos == []
    ensures f.location.address == body.address
    ensures f.location.coordinates == [FloatOfParam(body.lng), FloatOfParam(body.lat)]
  {
    HotelFields(
      body.name,
      body.description,
      ParseIntParam(body.stars),
      SplitArray(body.services),
      SplitArray(body.photos),
      body.currency,
      Location(body.address, [FloatOfParam(body.lng), FloatOfParam(body.lat)]))
  }

  /** A field the body omits ends up absent, empty or NaN: update is a full
      overwrite, not a patch. */
  lemma OmittedFieldsCleared(body: HotelBody)
    requires body.name.None? && body.description.None? && body.stars.None? && body.services.None?
    requires body.photos.None? && body.currency.None? && body.address.None? && body.lng.None? && body.lat.None?
    ensures var f := FieldsFromBody(body);
      && f.name.None? && f.description.None? && f.stars.None?
      && f.services == [] && f.photos == [] && f.currency.None?
      && f.location.address.None? && |f.location.coordinates| == 2
      && IsNaN(f.location.coordinates[0]) && IsNaN(f.location.coordinates[1])
  {
    IntParsing.AbsentParamIsNaN();
    FloatParsing.AbsentParamIsNaN();
  }

  /** Services given as "wifi;pool;spa" are stored as three entries. */
  lemma ServicesExample()
    ensures SplitArray(Some("wifi;pool;spa")) == ["wifi", "pool", "spa"]
  {
    var pieces := ["wifi", "pool", "spa"];
    assert Join(pieces) == "wifi;pool;spa" by {
      assert pieces[1..] == ["pool", "spa"];
      assert pieces[1..][1..] == ["spa"];
    }
    SplitArrayUnique(Some("wifi;pool;spa"), pieces);
  }

  /** The document a successful create stores under the fresh id. */
  function NewHotel(id: HotelId, body: HotelBody): Hotel {
    Hotel(id, FieldsFromBody(body), Some([]), [])
  }

  /** `hotelsAddOne`. The store assigns `freshId`, an id no hotel has. */
  function HotelsAddOne(store: Store, body: HotelBody, freshId: HotelId, createFails: bool): (o: Outcome)
    requires freshId !in store
    ensures o.calls == [Create(FieldsFromBody(body))]
    ensures createFails ==> o.reply == Send(400, StoreError) && o.store == store
    ensures !createFails ==> o.reply == Send(201, HotelDoc(NewHotel(freshId, body)))
    ensures !createFails ==> o.store == store[freshId := NewHotel(freshId, body)]
    ensures !createFails ==> o.store.Keys == store.Keys + {freshId}
    ensures forall id | id in store :: id in o.store && o.store[id] == store[id]
    ensures ValidStore(store) ==> ValidStore(o.store)
  {
    var fields := FieldsFromBody(body);
    if createFails then
      Outcome(Send(400, StoreError), [Create(fields)], store)
    else
      var h := NewHotel(freshId, body);
      Outcome(Send(201, HotelDoc(h)), [Create(fields)], store[freshId := h])
  }

  /** `hotelsUpdateOne`: fetch without reviews and rooms, overwrite every
      field from the body, save. */
  function HotelsUpdateOne(store: Store, id: HotelId, body: HotelBody, fetchFails: bool, saveFails: bool): (o: Outcome)
    ensures o.reply.Send?
    ensures |o.calls| >= 1 && o.calls[0] == FindById(id, WithoutReviewsAndRooms)
    ensures Saves(o.calls) <==> !fetchFails && id in store
    ensures fetchFails ==> o.reply == Send(500, StoreError)
    ensures !fetchFails && id !in store ==> o.reply == Send(404, Message(HotelNotFound))
    ensures !fetchFails && id in store && saveFails ==> o.reply == Send(500, StoreError)
    ensures o.reply.status == 204 <==> !fetchFails && id in store && !saveFails
    ensures o.reply.status != 204 ==> o.store == store
    ensures o.reply.status == 204 ==>
      o.store == store[id := store[id].(fields := FieldsFromBody(body))]
    ensures ValidStore(store) ==> ValidStore(o.store)
  {
    var fetch := FindById(id, WithoutReviewsAndRooms);
    if fetchFails then
      Outcome(Send(500, StoreError), [fetch], store)
    else if id !in store then
      Outcome(Send(404, Message(HotelNotFound)), [fetch], store)
    else
      var change := SetFields(FieldsFromBody(body));
      var calls := [fetch, Save(id, change)];
      assert IsSave(calls[1]);
      if saveFails then
        Outcome(Send(500, StoreError), calls, store)
      else
        Outcome(Send(204, NoBody), calls, store[id := ApplyChange(store[id], change)])
  }

  /** `hotelsDeleteOne`: only a store error gives 404; deleting an id that
      is not there succeeds. */
  function HotelsDeleteOne(store: Store, id: HotelId, removeFails: bool): (o: Outcome)
    ensures o.reply.Send?
    ensures o.calls == [FindByIdAndRemove(id)]
    ensures o.reply.status == 404 <==> removeFails
    ensures removeFails ==> o.reply == Send(404, StoreError) && o.store == store
    ensures !removeFails ==> o.reply == Send(204, NoBody) && o.store == store - {id}
    ensures ValidStore(store) ==> ValidStore(o.store)
  {
    if removeFails then
      Outcome(Send(404, StoreError), [FindByIdAndRemove(id)], store)
    else
      Outcome(Send(204, NoBody), [FindByIdAndRemove(id)], store - {id})
  }

  /** A created hotel can be fetched under its new id. */
  lemma CreateThenFetch(store: Store, body: HotelBody, freshId: HotelId)
    requires freshId !in store
    ensures var o := HotelsAddOne(store, body, freshId, false);
      HotelsGetOne(o.store, freshId, false).reply == Send(200, HotelDoc(NewHotel(freshId, body)))
  {
  }

  /** After a successful update a fetch shows exactly the body's coerced
      fields, with the id, reviews and rooms as they were. */
  lemma UpdateThenFetch(store: Store, id: HotelId, body: HotelBody)
    requires id in store
    ensures var o := HotelsUpdateOne(store, id, body, false, false);
      && o.reply == Send(204, NoBody)
      && var h := store[id];
      HotelsGetOne(o.store, id, false).reply == Send(200, HotelDoc(Hotel(h.id, FieldsFromBody(body), h.reviews, h.rooms)))
  {
  }

  /** After a successful delete the hotel is gone. */
  lemma DeleteThenFetch(store: Store, id: HotelId)
    ensures var o := HotelsDeleteOne(store, id, false);
      HotelsGetOne(o.store, id, false).reply == Send(404, Message(HotelNotFound))
  {
  }
}
