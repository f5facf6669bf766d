/** The review routes: GET /reviews (reviews newest first, each with its comments),
    POST /reviews (rating defaulted and clamped) and POST /reviews/:reviewId/comments. */
module ReviewRoutes {
  import opened Common
  import opened Text
  import opened Seqs
  import opened Tables
  import opened Schema

  /** The name stored for an author who gave none: `user_name || "Гость"`. */
  const GuestName: string := "Гость"

  function AuthorName(userName: Option<string>): (r: string)
    ensures userName.None? || userName == Some("") ==> r == GuestName
    ensures userName.Some? && userName.value != "" ==> r == userName.value
  {
    if userName.Some? && userName.value != "" then userName.value else GuestName
  }

  /** `Math.min(5, Math.max(1, Number(rating) || 5))`, `Number` being `Text.NumberValue`:
      NaN and 0 fall back to 5 before the clamp; anything below 1 becomes 1 and anything
      above 5 becomes 5. */
  function StoredRating(rating: JsValue): (r: int)
    ensures 1 <= r <= 5
    ensures NumberValue(rating) == None || NumberValue(rating) == Some(0) ==> r == DefaultRating
    ensures NumberValue(rating).Some? && NumberValue(rating).value != 0 ==>
      var n := NumberValue(rating).value;
      (n < 1 ==> r == 1) && (n > 5 ==> r == 5) && (1 <= n <= 5 ==> r == n)
  {
    var n := match NumberValue(rating) case Some(x) => (if x == 0 then DefaultRating else x) case None => DefaultRating;
    if n > 5 then 5 else if n < 1 then 1 else n
  }

  /** Arrays are read as `Number` reads them: `[3]` is 3, `[-4]` is clamped to 1, `[]` is 0
      and falls back to 5, and `[1, 2]` is NaN and falls back to 5. */
  lemma StoredRatingOfArrays()
    ensures StoredRating(Arr([Num(3)])) == 3
    ensures StoredRating(Arr([Num(-4)])) == 1
    ensures StoredRating(Arr([])) == DefaultRating
    ensures StoredRating(Arr([Num(1), Num(2)])) == DefaultRating
  {
  }

  /** A stored rating submitted again is stored unchanged. */
  lemma StoredRatingStable(rating: JsValue)
    ensures StoredRating(Num(StoredRating(rating))) == StoredRating(rating)
  {
  }

  /** The body of POST /reviews; a missing `user_id` or `text` is "". */
  datatype ReviewBody = ReviewBody(userId: string, userName: Option<string>, rating: JsValue, text: string)

  /** POST /reviews: 400 without a user id or a text; otherwise one new review whose
      rating lies in [1, 5], its id returned. */
  method AddReview(db: Db, body: ReviewBody) returns (reply: Reply)
    requires db.Valid()
    modifies db`reviews, db`nextReviewId
    ensures db.Valid()
    ensures body.userId == "" || body.text == "" ==> reply == BadRequest && unchanged(db)
    ensures body.userId != "" && body.text != "" ==>
      && reply == CreatedId(old(db.nextReviewId))
      && db.reviews == old(db.reviews) + [ReviewRow(old(db.nextReviewId), body.userId, AuthorName(body.userName),
                                                    StoredRating(body.rating), body.text, db.clock)]
      && db.nextReviewId == old(db.nextReviewId) + 1
  {
    if body.userId == "" || body.text == "" {
      return BadRequest;
    }
    var id := db.nextReviewId;
    var row := ReviewRow(id, body.userId, AuthorName(body.userName), StoredRating(body.rating), body.text, db.clock);
    AppendKeepsIds(db.reviews, (r: ReviewRow) => r.id, id, row);
    AppendKeepsTimes(db.reviews, (r: ReviewRow) => r.createdAt, db.clock, row);
    db.reviews, db.nextReviewId := db.reviews + [row], id + 1;
    reply := CreatedId(id);
  }

  /** The body of POST /reviews/:reviewId/comments. */
  datatype CommentBody = CommentBody(userId: string, userName: Option<string>, text: string)

  /** POST /reviews/:reviewId/comments: 400 without a user id or a text; otherwise one new
      comment. The review is not looked up, so a comment can name a review that does not
      exist. */
  method AddComment(db: Db, reviewId: int, body: CommentBody) returns (reply: Reply)
    requires db.Valid()
    modifies db`comments, db`nextCommentId
    ensures db.Valid()
    ensures body.userId == "" || body.text == "" ==> reply == BadRequest && unchanged(db)
    ensures body.userId != "" && body.text != "" ==>
      && reply == CreatedId(old(db.nextCommentId))
      && db.comments == old(db.comments) + [CommentRow(old(db.nextCommentId), reviewId, body.userId,
                                                       AuthorName(body.userName), body.text, db.clock)]
      && db.nextCommentId == old(db.nextCommentId) + 1
  {
    if body.userId == "" || body.text == "" {
      return BadRequest;
    }
    var id := db.nextCommentId;
    var row := CommentRow(id, reviewId, body.userId, AuthorName(body.userName), body.text, db.clock);
    AppendKeepsIds(db.comments, (c: CommentRow) => c.id, id, row);
    AppendKeepsTimes(db.comments, (c: CommentRow) => c.createdAt, db.clock, row);
    db.comments, db.nextCommentId := db.comments + [row], id + 1;
    reply := CreatedId(id);
  }

  function ForReview(reviewId: int): CommentRow -> bool
  {
    (c: CommentRow) => c.reviewId == reviewId
  }

  /** The comments of one review, in the order of the comment query. */
  function CommentsOf(comments: seq<CommentRow>, reviewId: int): (r: seq<CommentRow>)
    ensures forall c :: c in r <==> c in comments && c.reviewId == reviewId
  {
    Filter(comments, ForReview(reviewId))
  }

  /** One more comment of the table extends the list of its own review only. */
  lemma CommentsOfSnoc(comments: seq<CommentRow>, i: int, id: int)
    requires 0 <= i < |comments|
    ensures CommentsOf(comments[..i + 1], id) ==
      CommentsOf(comments[..i], id) + (if comments[i].reviewId == id then [comments[i]] else [])
  {
    assert comments[..i + 1][..i] == comments[..i];
  }

  /** The loop that fills `byReview`: every review id that has comments maps to exactly its
      comments, in their order; an id without comments is absent. */
  method GroupComments(comments: seq<CommentRow>) returns (byReview: map<int, seq<CommentRow>>)
    ensures forall id :: id in byReview ==> byReview[id] == CommentsOf(comments, id) && byReview[id] != []
    ensures forall id :: id !in byReview ==> CommentsOf(comments, id) == []
  {
    byReview := map[];
    for i := 0 to |comments|
      invariant forall id :: id in byReview ==> byReview[id] == CommentsOf(comments[..i], id) && byReview[id] != []
      invariant forall id :: id !in byReview ==> CommentsOf(comments[..i], id) == []
    {
      var c := comments[i];
      var list := if c.reviewId in byReview then byReview[c.reviewId] else [];
      list := list + [c];
      ghost var before := byReview;
      byReview := byReview[c.reviewId := list];
      forall id ensures id in byReview ==> byReview[id] == CommentsOf(comments[..i + 1], id) && byReview[id] != []
        ensures id !in byReview ==> CommentsOf(comments[..i + 1], id) == []
      {
        CommentsOfSnoc(comments, i, id);
        if id == c.reviewId {
          assert byReview[id] == list;
        } else {
          assert (id in byReview) == (id in before);
        }
      }
    }
    assert comments[..|comments|] == comments;
  }

  /** A listed review with its comments. */
  datatype ReviewView = ReviewView(review: ReviewRow, comments: seq<CommentRow>)

  /** GET /reviews: the reviews newest first, each carrying exactly its comments in
      ascending time, [] when it has none. Among equal times the model lists the
      later-inserted review first and the earlier-inserted comment first. */
  method ListReviews(reviews: seq<ReviewRow>, comments: seq<CommentRow>) returns (result: seq<ReviewView>)
    requires NonDecreasing(reviews, (r: ReviewRow) => r.createdAt)
    requires NonDecreasing(comments, (c: CommentRow) => c.createdAt)
    ensures |result| == |reviews|
    ensures forall k :: 0 <= k < |result| ==> result[k].review == reviews[|reviews| - 1 - k]
    ensures forall i, j :: 0 <= i < j < |result| ==> result[i].review.createdAt >= result[j].review.createdAt
    ensures forall k :: 0 <= k < |result| ==> result[k].comments == CommentsOf(comments, result[k].review.id)
    ensures forall k :: 0 <= k < |result| ==> NonDecreasing(result[k].comments, (c: CommentRow) => c.createdAt)
  {
    var byReview := GroupComments(comments);
    var newestFirst := Reverse(reviews);
    result := seq(|newestFirst|, k requires 0 <= k < |newestFirst| =>
      ReviewView(newestFirst[k], if newestFirst[k].id in byReview then byReview[newestFirst[k].id] else []));
    forall k | 0 <= k < |result| ensures NonDecreasing(result[k].comments, (c: CommentRow) => c.createdAt) {
      FilterKeepsNonDecreasing(comments, (c: CommentRow) => c.createdAt, ForReview(result[k].review.id));
    }
  }

  /** A comment whose review does not exist appears under no listed review. */
  lemma OrphanCommentsHidden(reviews: seq<ReviewRow>, comments: seq<CommentRow>, result: seq<ReviewView>, c: CommentRow)
    requires forall k :: 0 <= k < |result| ==> result[k].review in reviews
    requires forall k :: 0 <= k < |result| ==> result[k].comments == CommentsOf(comments, result[k].review.id)
    requires forall r :: r in reviews ==> r.id != c.reviewId
    ensures forall k :: 0 <= k < |result| ==> c !in result[k].comments
  {
  }
}
