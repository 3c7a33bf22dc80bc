/**
 * The Place Details call of `getReviews`: one request per place id, whose
 * parsed response is checked for a `result.reviews` list.
 */
module PlaceDetails {
  import opened JsValues
  import opened Places

  datatype Review = Review(text: JsValue)

  datatype DetailResult = DetailResult(reviews: Option<seq<Review>>)

  /** The parsed body; `result` is `None` when it is undefined or null. */
  datatype DetailsBody = DetailsBody(result: Option<DetailResult>)

  /** What `getReviews` does: throw, return `false`, or return the reviews. */
  datatype ReviewsOutcome = DetailsThrew | NoReviews | Reviews(list: seq<Review>)

  /**
   * `getReviews`: a failed call or parse propagates; a defined
   * `result.reviews` is returned as it is, an empty list included; anything
   * else yields `false`.
   */
  function GetReviews(reply: Reply<DetailsBody>): (r: ReviewsOutcome)
    ensures r.DetailsThrew? <==> reply.Failed?
    ensures r.Reviews? <==> reply.Parsed? && reply.body.result.Some? && reply.body.result.value.reviews.Some?
    ensures r.Reviews? ==> r.list == reply.body.result.value.reviews.value
  {
    match reply
    case Failed => DetailsThrew
    case Parsed(body) =>
      match body.result
      case None => NoReviews
      case Some(result) =>
        match result.reviews
        case None => NoReviews
        case Some(list) => Reviews(list)
  }
}
