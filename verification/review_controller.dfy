/**
 * ReviewController: one review per user and menu item, created or updated by
 * `store`, changed or deleted only by its author, and listed per menu item
 * newest first. Review ids come from an auto-increment counter, since reviews
 * can be deleted.
 */
module ReviewController {
  import opened Wrappers
  import opened Seqs
  import opened Http
  import opened Records

  datatype Review = Review(id: nat, userId: nat, menuItemId: int, rating: int, comment: Option<string>, createdAt: int)

  /** The reviews table and the next auto-increment id. */
  datatype ReviewTable = ReviewTable(reviews: seq<Review>, nextId: nat)

  predicate ValidRating(rating: int) { 1 <= rating <= 5 }

  /** Ids are unique and below the counter, a user reviews an item at most once, and ratings lie in 1..5. */
  ghost predicate Valid(t: ReviewTable) {
    && (forall i :: 0 <= i < |t.reviews| ==> t.reviews[i].id < t.nextId && ValidRating(t.reviews[i].rating))
    && (forall i, j :: 0 <= i < j < |t.reviews| ==> t.reviews[i].id != t.reviews[j].id)
    && (forall i, j :: 0 <= i < j < |t.reviews| ==>
          t.reviews[i].userId != t.reviews[j].userId || t.reviews[i].menuItemId != t.reviews[j].menuItemId)
  }

  datatype ReviewReply = ReviewReply(code: int, table: ReviewTable)

  // ---------------------------------------------------------------------------
  // store

  /** `comment` is `None` when the key is absent and `Some(None)` when it is null. */
  datatype StoreRequest = StoreRequest(menuItemId: Option<int>, rating: Option<int>, comment: Option<Option<string>>)

  /** `'menu_item_id' => 'required|exists:menu_items,id'`, `'rating' => 'required|integer|min:1|max:5'`. */
  predicate StoreRequestValid(menu: map<int, MenuItem>, req: StoreRequest) {
    && req.menuItemId.Some? && req.menuItemId.value in menu
    && req.rating.Some? && ValidRating(req.rating.value)
  }

  /** `Review::where('user_id', $u)->where('menu_item_id', $m)->first()`. */
  function ReviewOf(reviews: seq<Review>, userId: nat, menuItemId: int): Option<nat> {
    FirstIndex(reviews, (r: Review) => r.userId == userId && r.menuItemId == menuItemId)
  }

  /**
   * POST /reviews. 422 for an invalid request, 401 without a user, 500 when
   * the `comment` key is absent (the validated array has no such key and
   * reading it raises); otherwise the user's review of the item is updated in
   * place, or created when there is none, and the reply is 200.
   */
  function Store(t: ReviewTable, menu: map<int, MenuItem>, user: Option<nat>, req: StoreRequest, now: int): (r: ReviewReply)
    ensures r.code in {Ok, Unauthorized, Unprocessable, ServerError}
    ensures r.code != Ok ==> r.table == t
    ensures r.code == Unprocessable <==> !StoreRequestValid(menu, req)
    ensures r.code == Unauthorized <==> StoreRequestValid(menu, req) && user.None?
    ensures r.code == ServerError <==> StoreRequestValid(menu, req) && user.Some? && req.comment.None?
    ensures r.code == Ok ==>
      var u, m := user.value, req.menuItemId.value;
      match ReviewOf(t.reviews, u, m)
      case Some(i) =>
        && r.table.nextId == t.nextId
        && r.table.reviews == t.reviews[i := t.reviews[i].(rating := req.rating.value, comment := req.comment.value)]
      case None =>
        && r.table.nextId == t.nextId + 1
        && r.table.reviews == t.reviews + [Review(t.nextId, u, m, req.rating.value, req.comment.value, now)]
  {
    if !StoreRequestValid(menu, req) then ReviewReply(Unprocessable, t)
    else if user.None? then ReviewReply(Unauthorized, t)
    else if req.comment.None? then ReviewReply(ServerError, t)
    else
      var u, m := user.value, req.menuItemId.value;
      match ReviewOf(t.reviews, u, m)
      case Some(i) =>
        ReviewReply(Ok, t.(reviews := t.reviews[i := t.reviews[i].(rating := req.rating.value, comment := req.comment.value)]))
      case None =>
        ReviewReply(Ok, ReviewTable(t.reviews + [Review(t.nextId, u, m, req.rating.value, req.comment.value, now)], t.nextId + 1))
  }

  /** The upsert keeps the table valid: still one review per user and item. */
  lemma StorePreservesValid(t: ReviewTable, menu: map<int, MenuItem>, user: Option<nat>, req: StoreRequest, now: int)
    requires Valid(t)
    ensures Valid(Store(t, menu, user, req, now).table)
  {
    var r := Store(t, menu, user, req, now);
    if r.code == Ok {
      var u, m := user.value, req.menuItemId.value;
      if ReviewOf(t.reviews, u, m).None? {
        assert forall i :: 0 <= i < |t.reviews| ==> r.table.reviews[i] == t.reviews[i];
      }
    }
  }

  /** After a successful `store` the user has exactly the review just sent for the item. */
  lemma StoreThenReviewOf(t: ReviewTable, menu: map<int, MenuItem>, user: Option<nat>, req: StoreRequest, now: int)
    requires Store(t, menu, user, req, now).code == Ok
    ensures var r := Store(t, menu, user, req, now);
      var i := ReviewOf(r.table.reviews, user.value, req.menuItemId.value);
      && i.Some?
      && r.table.reviews[i.value].rating == req.rating.value
      && r.table.reviews[i.value].comment == req.comment.value
  {
    var r := Store(t, menu, user, req, now);
    var u, m := user.value, req.menuItemId.value;
    match ReviewOf(t.reviews, u, m)
    case Some(i) =>
      FirstIndexAgree(r.table.reviews, (x: Review) => x.userId == u && x.menuItemId == m,
                      t.reviews, (x: Review) => x.userId == u && x.menuItemId == m);
    case None =>
      FirstIndexSomeIff(r.table.reviews, (x: Review) => x.userId == u && x.menuItemId == m, |t.reviews|);
  }

  /** Sending the same review twice leaves what the first request left. */
  lemma StoreIdempotent(t: ReviewTable, menu: map<int, MenuItem>, user: Option<nat>, req: StoreRequest, now: int, later: int)
    ensures var r1 := Store(t, menu, user, req, now);
      var r2 := Store(r1.table, menu, user, req, later);
      r1.code == Ok ==> r2.code == Ok && r2.table == r1.table
  {
    var r1 := Store(t, menu, user, req, now);
    if r1.code == Ok {
      StoreThenReviewOf(t, menu, user, req, now);
      var i := ReviewOf(r1.table.reviews, user.value, req.menuItemId.value).value;
      assert r1.table.reviews[i := r1.table.reviews[i].(rating := req.rating.value, comment := req.comment.value)]
          == r1.table.reviews;
    }
  }

  /** `store` reading the comment as null when the key is absent, as its `nullable` rule allows. */
  function StoreIntended(t: ReviewTable, menu: map<int, MenuItem>, user: Option<nat>, req: StoreRequest, now: int): (r: ReviewReply)
    ensures r.code in {Ok, Unauthorized, Unprocessable}
    ensures r.code == Ok <==> StoreRequestValid(menu, req) && user.Some?
    ensures req.comment.Some? ==> r == Store(t, menu, user, req, now)
    ensures req.comment.None? ==> r == Store(t, menu, user, req.(comment := Some(None)), now)
  {
    Store(t, menu, user, req.(comment := Some(req.comment.GetOr(None))), now)
  }

  /** As written, a valid review without a `comment` key fails with 500 and is not saved. */
  lemma StoreWithoutCommentFails(t: ReviewTable, menu: map<int, MenuItem>, userId: nat, menuItemId: int, rating: int, now: int)
    requires menuItemId in menu && ValidRating(rating)
    ensures var r := Store(t, menu, Some(userId), StoreRequest(Some(menuItemId), Some(rating), None), now);
      r.code == ServerError && r.table == t
  {
  }

  /** The intended `store` saves that review, with no comment. */
  lemma StoreIntendedSavesWithoutComment(t: ReviewTable, menu: map<int, MenuItem>, userId: nat, menuItemId: int,
                                         rating: int, now: int)
    requires menuItemId in menu && ValidRating(rating)
    ensures var r := StoreIntended(t, menu, Some(userId), StoreRequest(Some(menuItemId), Some(rating), None), now);
      var i := ReviewOf(r.table.reviews, userId, menuItemId);
      r.code == Ok && i.Some? && r.table.reviews[i.value].rating == rating && r.table.reviews[i.value].comment.None?
  {
    StoreThenReviewOf(t, menu, Some(userId), StoreRequest(Some(menuItemId), Some(rating), Some(None)), now);
  }

  // ---------------------------------------------------------------------------
  // update and destroy

  /** `Review::where('id', $id)->where('user_id', $user->id)->first()`. */
  function OwnedReview(reviews: seq<Review>, id: int, userId: nat): Option<nat> {
    FirstIndex(reviews, (r: Review) => r.id == id && r.userId == userId)
  }

  /**
   * PUT /reviews/{id}. 404 unless the caller wrote the review; then 422 when
   * a rating is sent outside 1..5; otherwise the keys sent are stored.
   */
  function Update(t: ReviewTable, userId: nat, id: int, rating: Option<int>, comment: Option<Option<string>>): (r: ReviewReply)
    ensures r.code in {Ok, NotFound, Unprocessable}
    ensures r.code != Ok ==> r.table == t
    ensures r.code == NotFound <==> forall i :: 0 <= i < |t.reviews| ==> !(t.reviews[i].id == id && t.reviews[i].userId == userId)
    ensures r.code == Unprocessable <==> r.code != NotFound && rating.Some? && !ValidRating(rating.value)
    ensures r.code == Ok ==>
      var i := OwnedReview(t.reviews, id, userId).value;
      var prev := t.reviews[i];
      && r.table.nextId == t.nextId
      && |r.table.reviews| == |t.reviews|
      && (forall j :: 0 <= j < |t.reviews| && j != i ==> r.table.reviews[j] == t.reviews[j])
      && r.table.reviews[i].id == id && r.table.reviews[i].userId == userId
      && r.table.reviews[i].menuItemId == prev.menuItemId && r.table.reviews[i].createdAt == prev.createdAt
      && r.table.reviews[i].rating == rating.GetOr(prev.rating)
      && r.table.reviews[i].comment == comment.GetOr(prev.comment)
  {
    match OwnedReview(t.reviews, id, userId)
    case None => ReviewReply(NotFound, t)
    case Some(i) =>
      if rating.Some? && !ValidRating(rating.value) then ReviewReply(Unprocessable, t)
      else
        var rv := t.reviews[i];
        var rv' := rv.(rating := rating.GetOr(rv.rating), comment := comment.GetOr(rv.comment));
        ReviewReply(Ok, t.(reviews := t.reviews[i := rv']))
  }

  /** An update keeps the table valid. */
  lemma UpdatePreservesValid(t: ReviewTable, userId: nat, id: int, rating: Option<int>, comment: Option<Option<string>>)
    requires Valid(t)
    ensures Valid(Update(t, userId, id, rating, comment).table)
  {
  }

  /**
   * DELETE /reviews/{id}. 404 unless the caller wrote the review; otherwise
   * exactly that review is removed.
   */
  function Destroy(t: ReviewTable, userId: nat, id: int): (r: ReviewReply)
    ensures r.code in {Ok, NotFound}
    ensures r.code == NotFound ==> r.table == t
    ensures r.code == NotFound <==> forall i :: 0 <= i < |t.reviews| ==> !(t.reviews[i].id == id && t.reviews[i].userId == userId)
    ensures r.code == Ok ==>
      var i := OwnedReview(t.reviews, id, userId).value;
      && r.table.nextId == t.nextId
      && multiset(r.table.reviews) + multiset{t.reviews[i]} == multiset(t.reviews)
      && r.table.reviews == t.reviews[..i] + t.reviews[i + 1..]
  {
    match OwnedReview(t.reviews, id, userId)
    case None => ReviewReply(NotFound, t)
    case Some(i) =>
      assert t.reviews == t.reviews[..i] + [t.reviews[i]] + t.reviews[i + 1..];
      ReviewReply(Ok, t.(reviews := t.reviews[..i] + t.reviews[i + 1..]))
  }

  /** A deletion keeps the table valid, and in a valid table no review with the id is left. */
  lemma DestroyPreservesValid(t: ReviewTable, userId: nat, id: int)
    requires Valid(t)
    ensures Valid(Destroy(t, userId, id).table)
    ensures Destroy(t, userId, id).code == Ok ==>
      forall j :: 0 <= j < |Destroy(t, userId, id).table.reviews| ==> Destroy(t, userId, id).table.reviews[j].id != id
  {
    var r := Destroy(t, userId, id);
    if r.code == Ok {
      var i := OwnedReview(t.reviews, id, userId).value;
      var s := r.table.reviews;
      assert forall j :: 0 <= j < i ==> s[j] == t.reviews[j];
      assert forall j :: i <= j < |s| ==> s[j] == t.reviews[j + 1];
    }
  }

  // ---------------------------------------------------------------------------
  // getByMenuItem

  /** The reply: the item's reviews, their count and the sum of their ratings (the average is left to the reader). */
  datatype ItemReviews = ItemReviews(code: int, reviews: seq<Review>, total: nat, ratingSum: int)

  predicate OfItem(r: Review, menuItemId: int) { r.menuItemId == menuItemId }

  /**
   * GET /menu-items/{id}/reviews. 404 for a missing item; otherwise the
   * item's reviews newest first, with `total_reviews` their number.
   */
  function GetByMenuItem(t: ReviewTable, menu: map<int, MenuItem>, menuItemId: int): (r: ItemReviews)
    ensures r.code in {Ok, NotFound}
    ensures r.code == NotFound <==> menuItemId !in menu
    ensures r.code == NotFound ==> r.reviews == [] && r.total == 0
    ensures r.code == Ok ==>
      && multiset(r.reviews) == multiset(Filter(t.reviews, (x: Review) => OfItem(x, menuItemId)))
      && (forall x :: x in r.reviews <==> x in t.reviews && OfItem(x, menuItemId))
      && SortedBy(r.reviews, (x: Review) => x.createdAt, true)
      && r.total == |r.reviews|
      && r.ratingSum == SumBy(r.reviews, (x: Review) => x.rating)
  {
    if menuItemId !in menu then ItemReviews(NotFound, [], 0, 0)
    else
      var mine := Filter(t.reviews, (x: Review) => OfItem(x, menuItemId));
      FilterContents(t.reviews, (x: Review) => OfItem(x, menuItemId));
      var sorted := SortBy(mine, (x: Review) => x.createdAt, true);
      assert forall x :: x in sorted <==> x in mine by {
        forall x ensures x in sorted <==> x in mine {
          assert x in sorted <==> multiset(sorted)[x] > 0;
          assert x in mine <==> multiset(mine)[x] > 0;
        }
      }
      ItemReviews(Ok, sorted, |sorted|, SumBy(sorted, (x: Review) => x.rating))
  }

  /** The count is the number of reviews of the item, however they are ordered. */
  lemma GetByMenuItemCounts(t: ReviewTable, menu: map<int, MenuItem>, menuItemId: int)
    requires menuItemId in menu
    ensures GetByMenuItem(t, menu, menuItemId).total == |Filter(t.reviews, (x: Review) => OfItem(x, menuItemId))|
  {
    var r := GetByMenuItem(t, menu, menuItemId);
    assert |multiset(r.reviews)| == |multiset(Filter(t.reviews, (x: Review) => OfItem(x, menuItemId)))|;
  }
}
