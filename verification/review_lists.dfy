/** Operations on a hotel's embedded review sequence: locate by id, overwrite
    in place, remove. Each states what changes and that nothing else does. */
module ReviewLists {
  import opened JsValues
  import opened Documents

  /** `reviews.id(reviewId)`: the position of the first review with that id,
      or `None` when there is none. */
  function FindReview(rs: seq<Review>, rid: ReviewId): (r: Option<nat>)
    ensures r.Some? ==> r.value < |rs| && rs[r.value].id == rid
    ensures r.Some? ==> forall j | 0 <= j < r.value :: rs[j].id != rid
    ensures r.None? ==> forall j | 0 <= j < |rs| :: rs[j].id != rid
  {
    if |rs| == 0 then None
    else if rs[0].id == rid then Some(0)
    else
      match FindReview(rs[1..], rid)
      case None => None
      case Some(k) => Some(k + 1)
  }

  /** Sets the name, rating and text of the review at `i`. */
  function Overwrite(rs: seq<Review>, i: nat, name: Option<string>, rating: Option<int>, text: Option<string>): (out: seq<Review>)
    requires i < |rs|
    ensures |out| == |rs|
    ensures out[i] == Review(rs[i].id, name, rating, text)
    ensures forall j | 0 <= j < |rs| && j != i :: out[j] == rs[j]
  {
    rs[i := rs[i].(name := name, rating := rating, text := text)]
  }

  /** Drops the review at `i`; the others keep their relative order. */
  function RemoveAt(rs: seq<Review>, i: nat): (out: seq<Review>)
    requires i < |rs|
    ensures |out| == |rs| - 1
    ensures forall j | 0 <= j < i :: out[j] == rs[j]
    ensures forall j | i <= j < |out| :: out[j] == rs[j + 1]
    ensures multiset(out) + multiset{rs[i]} == multiset(rs)
  {
    assert rs == rs[..i] + [rs[i]] + rs[i + 1..];
    rs[..i] + rs[i + 1..]
  }

  /** No review in the sequence carries `rid`. */
  predicate IdAbsent(rs: seq<Review>, rid: ReviewId) {
    forall j | 0 <= j < |rs| :: rs[j].id != rid
  }

  /** Appending a review with a fresh id keeps ids unique, and it is then the
      one a lookup of its id finds, at the end. */
  lemma AppendFresh(rs: seq<Review>, r: Review)
    requires IdAbsent(rs, r.id)
    ensures UniqueReviewIds(rs) ==> UniqueReviewIds(rs + [r])
    ensures FindReview(rs + [r], r.id) == Some(|rs|)
  {
    var out := rs + [r];
    assert forall j | 0 <= j < |rs| :: out[j] == rs[j];
    assert out[|rs|].id == r.id;
    if UniqueReviewIds(rs) {
      forall a, b | 0 <= a < b < |out|
        ensures out[a].id != out[b].id
      {
        assert out[a] == rs[a];
      }
    }
  }

  /** Overwriting keeps ids unique, and a lookup of the id still finds the
      same position. */
  lemma OverwriteKeepsIds(rs: seq<Review>, rid: ReviewId, name: Option<string>, rating: Option<int>, text: Option<string>)
    requires FindReview(rs, rid).Some?
    ensures var i := FindReview(rs, rid).value;
      && (UniqueReviewIds(rs) ==> UniqueReviewIds(Overwrite(rs, i, name, rating, text)))
      && FindReview(Overwrite(rs, i, name, rating, text), rid) == Some(i)
  {
  }

  /** With unique ids, removing the review found for `rid` leaves no review
      with that id and keeps the others unique. */
  lemma RemoveFound(rs: seq<Review>, rid: ReviewId)
    requires FindReview(rs, rid).Some?
    ensures UniqueReviewIds(rs) ==>
      var out := RemoveAt(rs, FindReview(rs, rid).value);
      UniqueReviewIds(out) && FindReview(out, rid) == None
  {
  }
}
