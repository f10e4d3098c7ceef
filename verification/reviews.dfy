/** The review request handlers of api/controllers/reviews.controllers.js.
    Each fetches the parent hotel with only its reviews, locates, mutates the
    embedded sequence in memory and saves the parent. */
module Reviews {
  import opened JsValues
  import opened IntParsing
  import opened Documents
  import opened ReviewLists

  const ReviewNotFound: string := "Review ID not found "

  /** The request body of add and update. */
  datatype ReviewBody = ReviewBody(name: Option<string>, rating: Option<string>, review: Option<string>)

  /** Where the fetch-and-locate sequence shared by fetch-one, update and
      delete ends. */
  datatype Located =
    | FetchFailed
    | HotelMissing
    | NoReviewArray
    | ReviewMissing
    | Found(hotel: Hotel, index: nat)

  /** Every hotel-not-found branch logs the undeclared variable `id`, which
      throws before a response is sent. */
  const HotelMissingCrash: Reply := Crash(ReferenceError("id"))

  /** The fetch of the parent every review handler starts with. */
  function FetchReviews(hid: HotelId): StoreCall {
    FindById(hid, OnlyReviews)
  }

  /** Fetch the hotel, then find the review with `rid` in its reviews. */
  function Locate(store: Store, hid: HotelId, rid: ReviewId, fetchFails: bool): (l: Located)
    ensures l.FetchFailed? <==> fetchFails
    ensures l.HotelMissing? <==> !fetchFails && hid !in store
    ensures l.NoReviewArray? <==> !fetchFails && hid in store && store[hid].reviews.None?
    ensures l.ReviewMissing? <==>
      !fetchFails && hid in store && store[hid].reviews.Some? && IdAbsent(store[hid].reviews.value, rid)
    ensures l.Found? ==>
      && hid in store && l.hotel == store[hid] && l.hotel.reviews.Some?
      && l.index < |l.hotel.reviews.value| && l.hotel.reviews.value[l.index].id == rid
      && FindReview(l.hotel.reviews.value, rid) == Some(l.index)
  {
    if fetchFails then FetchFailed
    else if hid !in store then HotelMissing
    else
      var h := store[hid];
      if h.reviews.None? then NoReviewArray
      else
        match FindReview(h.reviews.value, rid)
        case None => ReviewMissing
        case Some(i) => Found(h, i)
  }

  /** The reply when locating did not find the review. */
  function NotLocatedReply(l: Located, rid: ReviewId): Reply
    requires !l.Found?
  {
    match l
    case FetchFailed => Send(500, StoreError)
    case HotelMissing => HotelMissingCrash
    case NoReviewArray => Crash(TypeError)
    case ReviewMissing => Send(404, Message(ReviewNotFound + rid))
  }

  /** The store after a successful save of new reviews for `hid`. */
  function SaveReviews(store: Store, hid: HotelId, rs: seq<Review>): Store
    requires hid in store
  {
    store[hid := ApplyChange(store[hid], SetReviews(rs))]
  }

  /** `reviewsGetAll`. */
  function ReviewsGetAll(store: Store, hid: HotelId, fetchFails: bool): (o: Outcome)
    ensures o.calls == [FetchReviews(hid)] && o.store == store
    ensures fetchFails ==> o.reply == Send(500, StoreError)
    ensures !fetchFails && hid !in store ==> o.reply == HotelMissingCrash
    ensures !fetchFails && hid in store ==> o.reply == Send(200, ReviewList(store[hid].reviews.GetOr([])))
  {
    var reply :=
      if fetchFails then Send(500, StoreError)
      else if hid !in store then HotelMissingCrash
      else Send(200, ReviewList(store[hid].reviews.GetOr([])));
    Outcome(reply, [FetchReviews(hid)], store)
  }

  /** `reviewsGetOne`. */
  function ReviewsGetOne(store: Store, hid: HotelId, rid: ReviewId, fetchFails: bool): (o: Outcome)
    ensures o.calls == [FetchReviews(hid)] && o.store == store
    ensures o.reply.Send? && o.reply.status == 200 ==>
      && hid in store && store[hid].reviews.Some?
      && exists i | 0 <= i < |store[hid].reviews.value| :: o.reply.body == ReviewDoc(store[hid].reviews.value[i])
    ensures !fetchFails && hid in store && store[hid].reviews.Some? ==>
      var rs := store[hid].reviews.value;
      (o.reply.Send? && o.reply.status == 200 <==> !IdAbsent(rs, rid))
    ensures o.reply.Send? && o.reply.status == 200 ==> o.reply.body.ReviewDoc? && o.reply.body.review.id == rid
    ensures !fetchFails && hid in store && store[hid].reviews.Some? && IdAbsent(store[hid].reviews.value, rid) ==>
      o.reply == Send(404, Message(ReviewNotFound + rid))
    ensures fetchFails ==> o.reply == Send(500, StoreError)
    ensures !fetchFails && hid !in store ==> o.reply == HotelMissingCrash
    ensures !fetchFails && hid in store && store[hid].reviews.None? ==> o.reply == Crash(TypeError)
  {
    var l := Locate(store, hid, rid, fetchFails);
    var reply :=
      if l.Found? then Send(200, ReviewDoc(l.hotel.reviews.value[l.index]))
      else NotLocatedReply(l, rid);
    Outcome(reply, [FetchReviews(hid)], store)
  }

  /** The review an add appends; the store assigns `freshId`. */
  function NewReview(body: ReviewBody, freshId: ReviewId): (r: Review)
    ensures r.id == freshId && r.name == body.name && r.text == body.review
    ensures r.rating == ParseIntParam(body.rating)
    ensures body.rating.None? ==> r.rating.None?
  {
    AbsentParamIsNaN();
    Review(freshId, body.name, ParseIntParam(body.rating), body.review)
  }

  /** `_addReview`: append to the loaded hotel's reviews and save it. */
  function AddReview(store: Store, hid: HotelId, body: ReviewBody, freshId: ReviewId, saveFails: bool): (o: Outcome)
    requires hid in store
    ensures store[hid].reviews.None? ==> o == Outcome(Crash(TypeError), [], store)
    ensures store[hid].reviews.Some? ==>
      var rs := store[hid].reviews.value;
      var added := rs + [NewReview(body, freshId)];
      && o.calls == [Save(hid, SetReviews(added))]
      && (saveFails ==> o.reply == Send(500, StoreError) && o.store == store)
      && (!saveFails ==> o.reply == Send(201, ReviewDoc(NewReview(body, freshId))))
      && (!saveFails ==> o.store == SaveReviews(store, hid, added))
      && (!saveFails ==>
          && hid in o.store && o.store[hid].reviews.Some?
          && var saved := o.store[hid].reviews.value;
          && |saved| == |rs| + 1 && saved[..|rs|] == rs && saved[|rs|] == NewReview(body, freshId))
  {
    var h := store[hid];
    if h.reviews.None? then
      Outcome(Crash(TypeError), [], store)
    else
      var added := h.reviews.value + [NewReview(body, freshId)];
      var calls := [Save(hid, SetReviews(added))];
      if saveFails then Outcome(Send(500, StoreError), calls, store)
      else Outcome(Send(201, ReviewDoc(added[|added| - 1])), calls, SaveReviews(store, hid, added))
  }

  /** `freshId` is not the id of any review of the hotel. */
  predicate FreshReviewId(store: Store, hid: HotelId, freshId: ReviewId) {
    hid in store && store[hid].reviews.Some? ==> IdAbsent(store[hid].reviews.value, freshId)
  }

  /** `reviewsAddOne`. */
  function ReviewsAddOne(store: Store, hid: HotelId, body: ReviewBody, freshId: ReviewId, fetchFails: bool, saveFails: bool): (o: Outcome)
    ensures |o.calls| >= 1 && o.calls[0] == FetchReviews(hid)
    ensures fetchFails ==> o == Outcome(Send(500, StoreError), [FetchReviews(hid)], store)
    ensures !fetchFails && hid !in store ==> o == Outcome(HotelMissingCrash, [FetchReviews(hid)], store)
    ensures !fetchFails && hid in store ==>
      var added := AddReview(store, hid, body, freshId, saveFails);
      o == Outcome(added.reply, [FetchReviews(hid)] + added.calls, added.store)
    ensures o.store != store ==> o.reply == Send(201, ReviewDoc(NewReview(body, freshId)))
    ensures ValidStore(store) && FreshReviewId(store, hid, freshId) ==> ValidStore(o.store)
  {
    var fetch := FetchReviews(hid);
    if fetchFails then Outcome(Send(500, StoreError), [fetch], store)
    else if hid !in store then Outcome(HotelMissingCrash, [fetch], store)
    else
      var added := AddReview(store, hid, body, freshId, saveFails);
      if FreshReviewId(store, hid, freshId) && store[hid].reviews.Some? then
        AppendFresh(store[hid].reviews.value, NewReview(body, freshId));
        Outcome(added.reply, [fetch] + added.calls, added.store)
      else
        Outcome(added.reply, [fetch] + added.calls, added.store)
  }

  /** `reviewsUpdateOne`: overwrite the located review's three fields and
      save the parent. */
  function ReviewsUpdateOne(store: Store, hid: HotelId, rid: ReviewId, body: ReviewBody, fetchFails: bool, saveFails: bool): (o: Outcome)
    ensures |o.calls| >= 1 && o.calls[0] == FetchReviews(hid)
    ensures var l := Locate(store, hid, rid, fetchFails);
      && (Saves(o.calls) <==> l.Found?)
      && (!l.Found? ==> o == Outcome(NotLocatedReply(l, rid), [FetchReviews(hid)], store))
      && (l.Found? && saveFails ==> o.reply == Send(500, StoreError) && o.store == store)
      && (l.Found? && !saveFails ==>
          && o.reply == Send(204, NoBody)
          && var rs := l.hotel.reviews.value;
          o.store == SaveReviews(store, hid, Overwrite(rs, l.index, body.name, ParseIntParam(body.rating), body.review)))
    ensures ValidStore(store) ==> ValidStore(o.store)
  {
    var fetch := FetchReviews(hid);
    var l := Locate(store, hid, rid, fetchFails);
    if !l.Found? then
      Outcome(NotLocatedReply(l, rid), [fetch], store)
    else
      var rs := l.hotel.reviews.value;
      var rating := ParseIntParam(body.rating);
      var updated := Overwrite(rs, l.index, body.name, rating, body.review);
      OverwriteKeepsIds(rs, rid, body.name, rating, body.review);
      var calls := [fetch, Save(hid, SetReviews(updated))];
      assert IsSave(calls[1]);
      if saveFails then Outcome(Send(500, StoreError), calls, store)
      else Outcome(Send(204, NoBody), calls, SaveReviews(store, hid, updated))
  }

  /** `reviewsDeleteOne`: remove the located review and save the parent. */
  function ReviewsDeleteOne(store: Store, hid: HotelId, rid: ReviewId, fetchFails: bool, saveFails: bool): (o: Outcome)
    ensures |o.calls| >= 1 && o.calls[0] == FetchReviews(hid)
    ensures var l := Locate(store, hid, rid, fetchFails);
      && (Saves(o.calls) <==> l.Found?)
      && (!l.Found? ==> o == Outcome(NotLocatedReply(l, rid), [FetchReviews(hid)], store))
      && (l.Found? && saveFails ==> o.reply == Send(500, StoreError) && o.store == store)
      && (l.Found? && !saveFails ==>
          && o.reply == Send(204, NoBody)
          && o.store == SaveReviews(store, hid, RemoveAt(l.hotel.reviews.value, l.index)))
    ensures ValidStore(store) ==> ValidStore(o.store)
  {
    var fetch := FetchReviews(hid);
    var l := Locate(store, hid, rid, fetchFails);
    if !l.Found? then
      Outcome(NotLocatedReply(l, rid), [fetch], store)
    else
      var rs := l.hotel.reviews.value;
      var remaining := RemoveAt(rs, l.index);
      var calls := [fetch, Save(hid, SetReviews(remaining))];
      assert IsSave(calls[1]);
      RemoveFound(rs, rid);
      if saveFails then Outcome(Send(500, StoreError), calls, store)
      else Outcome(Send(204, NoBody), calls, SaveReviews(store, hid, remaining))
  }

  /** In every review handler a fetch that succeeds without finding the hotel
      throws, leaving the store as it was and saving nothing. */
  lemma HotelMissingCrashes(store: Store, hid: HotelId, rid: ReviewId, body: ReviewBody, freshId: ReviewId, saveFails: bool)
    requires hid !in store
    ensures ReviewsGetAll(store, hid, false).reply == HotelMissingCrash
    ensures ReviewsGetOne(store, hid, rid, false).reply == HotelMissingCrash
    ensures ReviewsAddOne(store, hid, body, freshId, false, saveFails) == Outcome(HotelMissingCrash, [FetchReviews(hid)], store)
    ensures ReviewsUpdateOne(store, hid, rid, body, false, saveFails) == Outcome(HotelMissingCrash, [FetchReviews(hid)], store)
    ensures ReviewsDeleteOne(store, hid, rid, false, saveFails) == Outcome(HotelMissingCrash, [FetchReviews(hid)], store)
  {
  }

  /** A fetch failure on add answers 500 and neither appends nor saves. */
  lemma AddFetchFailure(store: Store, hid: HotelId, body: ReviewBody, freshId: ReviewId, saveFails: bool)
    ensures var o := ReviewsAddOne(store, hid, body, freshId, true, saveFails);
      o.reply == Send(500, StoreError) && !Saves(o.calls) && o.store == store
  {
  }

  /** With the hotel found but not the review, update and delete answer 404
      with the review message, save nothing and change nothing. */
  lemma ReviewMissingIsNotFound(store: Store, hid: HotelId, rid: ReviewId, body: ReviewBody, saveFails: bool)
    requires hid in store && store[hid].reviews.Some? && IdAbsent(store[hid].reviews.value, rid)
    ensures var o := ReviewsUpdateOne(store, hid, rid, body, false, saveFails);
      o.reply == Send(404, Message(ReviewNotFound + rid)) && !Saves(o.calls) && o.store == store
    ensures var o := ReviewsDeleteOne(store, hid, rid, false, saveFails);
      o.reply == Send(404, Message(ReviewNotFound + rid)) && !Saves(o.calls) && o.store == store
  {
  }

  /** An added review can be fetched by its new id. */
  lemma AddThenFetch(store: Store, hid: HotelId, body: ReviewBody, freshId: ReviewId)
    requires hid in store && store[hid].reviews.Some? && FreshReviewId(store, hid, freshId)
    ensures var o := ReviewsAddOne(store, hid, body, freshId, false, false);
      && o.reply == Send(201, ReviewDoc(NewReview(body, freshId)))
      && ReviewsGetOne(o.store, hid, freshId, false).reply == Send(200, ReviewDoc(NewReview(body, freshId)))
  {
  }

  /** After a successful update a fetch of the review shows the body's
      fields under the same id. */
  lemma UpdateThenFetch(store: Store, hid: HotelId, rid: ReviewId, body: ReviewBody)
    requires Locate(store, hid, rid, false).Found?
    ensures var o := ReviewsUpdateOne(store, hid, rid, body, false, false);
      && o.reply == Send(204, NoBody)
      && ReviewsGetOne(o.store, hid, rid, false).reply == Send(200, ReviewDoc(Review(rid, body.name, ParseIntParam(body.rating), body.review)))
  {
  }

  /** After a successful delete, with review ids unique, a fetch of the review
      answers 404. */
  lemma DeleteThenFetch(store: Store, hid: HotelId, rid: ReviewId)
    requires ValidStore(store) && Locate(store, hid, rid, false).Found?
    ensures var o := ReviewsDeleteOne(store, hid, rid, false, false);
      && o.reply == Send(204, NoBody)
      && ReviewsGetOne(o.store, hid, rid, false).reply == Send(404, Message(ReviewNotFound + rid))
  {
  }

  /** Every listed review, with ids unique, is the one a fetch by its id
      returns. */
  lemma ListedReviewsCanBeFetched(store: Store, hid: HotelId, i: nat)
    requires ValidStore(store) && hid in store && store[hid].reviews.Some?
    requires i < |store[hid].reviews.value|
    ensures var listed := ReviewsGetAll(store, hid, false).reply.body.reviews;
      && i < |listed|
      && ReviewsGetOne(store, hid, listed[i].id, false).reply == Send(200, ReviewDoc(listed[i]))
  {
  }

  /** After a successful add the list is the previous reviews followed by the
      new one. */
  lemma AddThenList(store: Store, hid: HotelId, body: ReviewBody, freshId: ReviewId)
    requires hid in store && store[hid].reviews.Some?
    ensures var o := ReviewsAddOne(store, hid, body, freshId, false, false);
      ReviewsGetAll(o.store, hid, false).reply
        == Send(200, ReviewList(store[hid].reviews.value + [NewReview(body, freshId)]))
  {
  }
}
