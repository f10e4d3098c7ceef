# Hotel and review request handlers, modelled in Dafny

This project models the request-handling core of a small hotel REST API: the
two controllers that serve hotels (`api/controllers/hotels.controllers.js`) and
the reviews embedded in each hotel (`api/controllers/reviews.controllers.js`).

The document store behind them becomes an immutable `map<HotelId, Hotel>`.
Each handler is a pure function from the request, the store and explicit
failure flags to an `Outcome`. An `Outcome` holds three things:
- the reply: a status code and body, or a `Crash` when the handler throws before responding;
- the store calls made, in order;
- the store afterwards.

The call trace makes "no store call" and "no save" statable. The list
endpoint does not read the map. The rows the store answers are a parameter
there, and the handler returns only its reply and the call it issued.

Modules, one per concern:
- `JsValues` (`js_values.dfy`): `Option`, truthiness of a query parameter, and `ToString` of an absent parameter.
- `IntParsing` (`int_parsing.dfy`): `parseInt(x, 10)` as in section 19.2.5 of ECMA-262 (2021 edition). It skips leading white space, takes an optional sign, then the longest decimal-digit prefix. No digits gives NaN, modelled as `None`.
- `FloatParsing` (`float_parsing.dfy`): `parseFloat` reduced to whether it yields a number or NaN (section 19.2.4 of the same edition).
- `Splitting` (`splitting.dfy`): `_splitArray`, the `;`-splitter.
- `Documents` (`documents.dfy`): hotels, reviews, the store, store calls, replies.
- `Hotels` (`hotels.dfy`): list/geo search, fetch one, create, update, delete.
- `ReviewLists` (`review_lists.dfy`): locate, overwrite and remove on a hotel's embedded review sequence, with frame conditions.
- `Reviews` (`reviews.dfy`): the five review handlers and `_addReview`.

## Model

| member | source | states |
|---|---|---|
| IntParsing.ParseIntRoundTrip | api/controllers/hotels.controllers.js:58-64 | `parseInt` reads the decimal text of every integer back to that integer, negative ones included, whatever non-digit text follows |
| IntParsing.ParseIntSkipsWhiteSpace | api/controllers/hotels.controllers.js:63 | leading white space never changes what `parseInt` returns |
| IntParsing.ParseInt | api/controllers/hotels.controllers.js:58-66 | `parseInt(x, 10)` is NaN exactly when no digit follows the white space and the optional sign. Otherwise its magnitude is the value of the digit run, and it is negative only after a '-' |
| IntParsing.AbsentParamIsNaN | api/controllers/hotels.controllers.js:149 | `parseInt` of an absent body field reads the text "undefined" and is NaN |
| IntParsing.ParseIntScan | api/controllers/reviews.controllers.js:85 | a left-to-right scan (skip white space, sign, digit run) returns exactly the declarative `parseInt` on every input |
| FloatParsing.FloatParses | api/controllers/hotels.controllers.js:5-8 | the `isNaN(parseFloat(..))` test. A number needs some text after the white space and sign, and every text `parseInt` reads as a number passes |
| FloatParsing.IntegerTextIsNumber | api/controllers/hotels.controllers.js:5-8 | any text `parseInt` reads as a number is not NaN for `parseFloat` either |
| FloatParsing.AbsentParamIsNaN | api/controllers/hotels.controllers.js:156-157 | `parseFloat` of an absent coordinate is NaN |
| Splitting.SplitArray | api/controllers/hotels.controllers.js:133-142 | absent or empty input gives `[]`; otherwise at least one piece, no piece holds `;`, and the pieces joined with `;` are the input |
| Splitting.Split | api/controllers/hotels.controllers.js:136 | `input.split(';')` always yields at least one piece (the round trip is stated by the two lemmas below) |
| Splitting.SplitJoin | api/controllers/hotels.controllers.js:136 | splitting on `;` yields separator-free pieces whose join is the original text |
| Splitting.JoinSplit | api/controllers/hotels.controllers.js:136 | splitting the join of separator-free pieces gives back those pieces (the inverse direction) |
| Splitting.SplitArrayUnique | api/controllers/hotels.controllers.js:133-142 | the splitter's result is the only separator-free list that joins to the input |
| Hotels.RunGeoQuery | api/controllers/hotels.controllers.js:4-45 | a NaN coordinate gives 400 and no store call. Otherwise one search centred at `[lng, lat]`, spherical, max distance 2000, 5 results, then 500 on store error or 200 with the hits |
| Hotels.PageParam | api/controllers/hotels.controllers.js:58-64 | an absent or empty paging parameter gives its default and is never NaN. A present one is `parseInt` of its text, and NaN exactly when that text has no leading digits |
| Hotels.HotelsGetAll | api/controllers/hotels.controllers.js:47-102 | at most one store call. 400 exactly when no call is made. Once a call is made, 500 exactly on store error, else 200 with the rows. Outside geo mode the call is `skip`/`limit` of the two paging values, with the count within the cap |
| Hotels.PagingCall | api/controllers/hotels.controllers.js:49-88 | each paging parameter defaults on its own. A count within the cap issues exactly `skip(offset)` and `limit(count)`, and one above 20 gives 400 with no store call, whatever text `parseInt` read it from |
| Hotels.GeoTakesPrecedence | api/controllers/hotels.controllers.js:53-56 | with `lat` and `lng` both present and non-empty the list is the geo search, whatever `offset` and `count` are |
| Hotels.PagingDefaults | api/controllers/hotels.controllers.js:49-64 | absent or empty `offset`/`count` give `skip(0)` and `limit(19)` |
| Hotels.PagingRejectsNaN | api/controllers/hotels.controllers.js:66-73 | a supplied `offset` or `count` that parses to NaN gives 400 before any store call |
| Hotels.CountAboveCapRejected | api/controllers/hotels.controllers.js:75-83 | any `count` above 20 gives 400 before any store call |
| Hotels.PageCallIsExact | api/controllers/hotels.controllers.js:85-101 | any integer `offset` and any `count` up to 20, negatives included, reach the store as exactly `skip(offset)` and `limit(count)`: there is no lower bound |
| Hotels.HotelsGetOne | api/controllers/hotels.controllers.js:104-131 | store error gives 500, a missing document 404, otherwise 200 with the stored document; nothing is written |
| Hotels.FieldsFromBody | api/controllers/hotels.controllers.js:204-216 | every field comes from the body: text fields as given, `stars` through `parseInt`, `services`/`photos` as the separator-free pieces that join to the text (or `[]`), and coordinates `[lng, lat]` through `parseFloat` |
| Hotels.OmittedFieldsCleared | api/controllers/hotels.controllers.js:204-216 | fields the body omits become absent, empty lists or NaN: the field assignment is a full overwrite |
| Hotels.ServicesExample | api/controllers/hotels.controllers.js:150 | `services` given as "wifi;pool;spa" becomes the three entries in order |
| Hotels.HotelsAddOne | api/controllers/hotels.controllers.js:144-173 | create failure gives 400 and no change. Otherwise 201 with the new document, inserted under the fresh id while every existing hotel stays as it was. Store validity is kept |
| Hotels.HotelsUpdateOne | api/controllers/hotels.controllers.js:175-233 | the fetch excludes reviews and rooms. Store error gives 500 and a missing document 404, and neither saves. Otherwise the fields are overwritten from the body and saved: 204 on success with only that hotel's fields changed, 500 and no change on failure |
| Hotels.HotelsDeleteOne | api/controllers/hotels.controllers.js:235-253 | 404 exactly when the store reports an error. Otherwise 204 and the id is absent afterwards, even when no hotel had it |
| Hotels.CreateThenFetch | api/controllers/hotels.controllers.js:144-173 | a created hotel is then fetched with 200 under its new id |
| Hotels.UpdateThenFetch | api/controllers/hotels.controllers.js:204-229 | after a successful update a fetch returns exactly the body's coerced fields, with id, reviews and rooms as before |
| Hotels.DeleteThenFetch | api/controllers/hotels.controllers.js:238-251 | after a successful delete a fetch of that id gives 404 |
| ReviewLists.FindReview | api/controllers/reviews.controllers.js:66 | `reviews.id(reviewId)` gives the first position holding that id, or none when no review has it |
| ReviewLists.Overwrite | api/controllers/reviews.controllers.js:184-186 | only the target review's name, rating and text change; its id, the other reviews and the length stay |
| ReviewLists.RemoveAt | api/controllers/reviews.controllers.js:248 | length drops by one, the others keep their relative order, and the multiset loses exactly the removed review |
| ReviewLists.AppendFresh | api/controllers/reviews.controllers.js:83-87 | appending a review with a fresh id keeps ids unique, and a lookup of that id finds it at the end |
| ReviewLists.OverwriteKeepsIds | api/controllers/reviews.controllers.js:167-186 | overwriting keeps ids unique and the lookup still finds the same position |
| ReviewLists.RemoveFound | api/controllers/reviews.controllers.js:231-248 | with unique ids, after the removal no review carries the id and ids stay unique |
| Reviews.Locate | api/controllers/reviews.controllers.js:54-74 | the fetch-then-locate sequence ends in exactly one of: fetch error, hotel missing, no review array, review missing, or found at the first position with that id |
| Reviews.ReviewsGetAll | api/controllers/reviews.controllers.js:5-38 | store error gives 500. A missing hotel crashes on the undeclared `id`. A found hotel gives 200 with its reviews, or `[]` when it has none |
| Reviews.ReviewsGetOne | api/controllers/reviews.controllers.js:40-79 | 200 exactly when the review exists, with a review carrying that id. A missing review gives 404 "Review ID not found " + id. A missing hotel crashes on `id`, and a hotel without a review array crashes with a TypeError |
| Reviews.NewReview | api/controllers/reviews.controllers.js:83-87 | the pushed review carries the fresh id, the body's name and text, and `parseInt` of the rating, which is NaN when the rating is omitted |
| Reviews.AddReview | api/controllers/reviews.controllers.js:81-101 | exactly one review `{name, parseInt(rating), review}` is appended and earlier reviews are unchanged. Save success gives 201 with that review; failure gives 500 and no change |
| Reviews.ReviewsAddOne | api/controllers/reviews.controllers.js:103-138 | fetch error gives 500 with only the fetch call. A missing hotel crashes. Otherwise it is `_addReview`. The store changes only on 201, and validity is kept for a fresh review id |
| Reviews.ReviewsUpdateOne | api/controllers/reviews.controllers.js:141-202 | a save happens exactly when the review is located; otherwise the locate outcome's reply with no change. On save success 204 and only that review's three fields change |
| Reviews.ReviewsDeleteOne | api/controllers/reviews.controllers.js:205-264 | a save happens exactly when the review is located; otherwise the locate outcome's reply with no change. On save success 204 and exactly that review is removed |
| Reviews.HotelMissingCrashes | api/controllers/reviews.controllers.js:23-28 | in all five review handlers a fetch that finds no hotel throws a ReferenceError on `id`: no response, no save, no change |
| Reviews.AddFetchFailure | api/controllers/reviews.controllers.js:116-135 | a fetch error on add gives 500 with no append and no save |
| Reviews.ReviewMissingIsNotFound | api/controllers/reviews.controllers.js:165-182 | hotel found but review missing: update and delete give 404 with the review message, no save, no change |
| Reviews.AddThenFetch | api/controllers/reviews.controllers.js:81-100 | an added review (fresh id) is then fetched with 200 by its id, equal to the 201 body |
| Reviews.UpdateThenFetch | api/controllers/reviews.controllers.js:183-199 | after a successful update the review is fetched with the body's fields under the same id |
| Reviews.DeleteThenFetch | api/controllers/reviews.controllers.js:247-261 | with unique review ids, after a successful delete a fetch of that review gives 404 |
| Reviews.ListedReviewsCanBeFetched | api/controllers/reviews.controllers.js:29-30 | with unique ids, every review the list returns is exactly what a fetch by its id returns |
| Reviews.AddThenList | api/controllers/reviews.controllers.js:83-98 | after a successful add the list is the previous reviews followed by the new one |

## Behaviour kept as written

Three behaviours of the code look like bugs. The model keeps them as written.

- Hotel not found in a review handler: the code does not answer 404. Each such branch logs the undeclared variable `id` and throws before responding. The model gives `Crash(ReferenceError("id"))`.
- Hotel delete: the code answers 404 only on a store error. A delete of an id that no hotel has answers 204.
- Review list: a found hotel without a review array gives 200 with `[]`. The other review handlers call `.id` or `.push` on that missing array and throw. The model gives `Crash(TypeError)`.

## Left out

- Store internals are left out: the query engine, `geoNear` distances and ordering, ObjectId generation and casting, and schema validation. Each store failure is a boolean flag. New hotel and review ids are supplied parameters. The rows a list or geo query returns are a parameter.
- Hotels.HotelsGetAll: the meaning of `skip`/`limit` inside the store is not modelled (for example that `limit(0)` means no limit, or that a negative skip is refused). The model states only the call the handler issues.
- FloatParsing: the binary64 value `parseFloat` yields is not modelled, because it is floating point. A coordinate is the text it was parsed from, and only "number or NaN" is decided.
- IntParsing: `parseInt` returns the exact integer. Rounding to binary64 above 2^53, overflow to Infinity and the sign of `-0` are not modelled. None of them changes a NaN test or the comparison with 20.
- Message texts are kept verbatim, typos included. The hotel-not-found message key (`"messgae"`) is not modelled.
- Hotels.RunGeoQuery: the store answers a geo search with `{dis, obj}` records. The model shows only the hotels and drops the distance each record carries, because distances are floating point and computed inside the store.
- Hotels.HotelsAddOne: it requires a fresh id that no hotel has, because the store generates ids and never reuses one. A duplicate insert is not modelled.
- The exact error objects the store forwards are not modelled: each one is the body `StoreError`.
- Express request/response plumbing, JSON serialisation and `console.log` calls are left out.
- Query parameters given as arrays, or body fields given as non-strings, are left out: every parameter is an optional string.
- The last-writer-wins race between two read-modify-write review requests on one hotel is left out: it is a concurrency property, and each handler is one atomic request here.
- The contents of a hotel's rooms are left out. Rooms are only carried along, untouched.
