/** The review upsert of `lib/actions/review.actions.ts`: at most one review
    per (product, user); a second submission edits the first; after every
    write the product's average rating and review count are recomputed in
    the same transaction. */
module Reviews {
  import opened Common
  import opened Catalog

  datatype Review = Review(
    id: Id,
    productId: Id,
    userId: Id,
    title: string,
    description: string,
    rating: int)

  /** The submitted form; the author comes from the session. */
  datatype ReviewInput = ReviewInput(productId: Id, title: string, description: string, rating: int)

  /** Sum of the ratings of one product's reviews. */
  function RatingSum(reviews: seq<Review>, productId: Id): (r: int)
    ensures ReviewCount(reviews, productId) == 0 ==> r == 0
    decreases |reviews|
  {
    if reviews == [] then 0
    else
      var last := reviews[|reviews| - 1];
      RatingSum(reviews[..|reviews| - 1], productId) + (if last.productId == productId then last.rating else 0)
  }

  /** Number of one product's reviews (`tx.review.count`). */
  function ReviewCount(reviews: seq<Review>, productId: Id): (n: nat)
    ensures n <= |reviews|
    decreases |reviews|
  {
    if reviews == [] then 0
    else
      var last := reviews[|reviews| - 1];
      ReviewCount(reviews[..|reviews| - 1], productId) + (if last.productId == productId then 1 else 0)
  }

  /** `_avg.rating || 0`: the mean rating, 0 when the product has none. */
  function AverageRating(reviews: seq<Review>, productId: Id): (r: real)
    ensures ReviewCount(reviews, productId) == 0 ==> r == 0.0
    ensures ReviewCount(reviews, productId) > 0 ==>
      r * ReviewCount(reviews, productId) as real == RatingSum(reviews, productId) as real
  {
    var n := ReviewCount(reviews, productId);
    if n == 0 then 0.0 else RatingSum(reviews, productId) as real / n as real
  }

  /** A product has a review count of 0 exactly when none of the reviews
      is about it. */
  lemma {:induction false} NoReviewsIffZeroCount(reviews: seq<Review>, productId: Id)
    ensures ReviewCount(reviews, productId) == 0 <==>
      forall k :: 0 <= k < |reviews| ==> reviews[k].productId != productId
    decreases |reviews|
  {
    if reviews != [] {
      var init := reviews[..|reviews| - 1];
      NoReviewsIffZeroCount(init, productId);
      assert forall k :: 0 <= k < |init| ==> init[k] == reviews[k];
    }
  }

  /** When every rating of the product lies in `lo..hi`, its sum lies
      between `count` copies of `lo` and `count` copies of `hi`. */
  lemma {:induction false} RatingSumBounds(reviews: seq<Review>, productId: Id, lo: int, hi: int)
    requires forall k :: 0 <= k < |reviews| && reviews[k].productId == productId ==> lo <= reviews[k].rating <= hi
    ensures lo * ReviewCount(reviews, productId) <= RatingSum(reviews, productId) <= hi * ReviewCount(reviews, productId)
    decreases |reviews|
  {
    if reviews != [] {
      var init, last := reviews[..|reviews| - 1], reviews[|reviews| - 1];
      assert forall k :: 0 <= k < |init| ==> init[k] == reviews[k];
      RatingSumBounds(init, productId, lo, hi);
      var n := ReviewCount(init, productId);
      if last.productId == productId {
        assert ReviewCount(reviews, productId) == n + 1;
        assert lo <= last.rating <= hi;
        MulSucc(lo, n);
        MulSucc(hi, n);
      }
    }
  }

  lemma MulSucc(a: int, n: int)
    ensures a * (n + 1) == a * n + a
  {
  }

  /** The stored average never leaves the range of the ratings given. */
  lemma AverageWithinRatings(reviews: seq<Review>, productId: Id, lo: int, hi: int)
    requires forall k :: 0 <= k < |reviews| && reviews[k].productId == productId ==> lo <= reviews[k].rating <= hi
    requires ReviewCount(reviews, productId) > 0
    ensures lo as real <= AverageRating(reviews, productId) <= hi as real
  {
    var n := ReviewCount(reviews, productId);
    var sum := RatingSum(reviews, productId);
    assert lo * n <= sum <= hi * n by {
      RatingSumBounds(reviews, productId, lo, hi);
    }
    QuotientWithin(sum, n, lo, hi);
  }

  /** An integer sum bounded by `n` copies of `lo` and of `hi` has its mean
      between `lo` and `hi`. */
  lemma QuotientWithin(sum: int, n: nat, lo: int, hi: int)
    requires n > 0 && lo * n <= sum <= hi * n
    ensures lo as real <= sum as real / n as real <= hi as real
  {
    BoundsAsReal(lo, hi, n, sum);
    ScaledBetween(sum as real / n as real, n as real, sum as real, lo as real, hi as real);
  }

  /** A positive multiple of `r` lying between the same multiples of `lo`
      and `hi` puts `r` itself between `lo` and `hi`. */
  lemma ScaledBetween(r: real, n: real, sum: real, lo: real, hi: real)
    requires n > 0.0 && r * n == sum && lo * n <= sum <= hi * n
    ensures lo <= r <= hi
  {
  }

  lemma BoundsAsReal(lo: int, hi: int, n: int, sum: int)
    requires lo * n <= sum <= hi * n
    ensures lo as real * n as real <= sum as real <= hi as real * n as real
  {
    MulAsReal(lo, n);
    MulAsReal(hi, n);
  }

  lemma MulAsReal(a: int, b: int)
    ensures (a * b) as real == a as real * b as real
  {
  }

  /** A worked example: ratings 5 and 3 average 4.0 over a count of 2. */
  lemma AverageOfFiveAndThree(a: Review, b: Review)
    requires a.productId == b.productId && a.rating == 5 && b.rating == 3
    ensures ReviewCount([a, b], a.productId) == 2
    ensures AverageRating([a, b], a.productId) == 4.0
  {
    var p := a.productId;
    assert [a, b][..1] == [a];
    assert [a][..0] == [];
    assert ReviewCount([a], p) == 1 && RatingSum([a], p) == 5;
    assert ReviewCount([a, b], p) == 2 && RatingSum([a, b], p) == 8;
  }

  /** At most one review per (product, user). */
  ghost predicate OnePerAuthor(reviews: seq<Review>)
  {
    forall i, j :: 0 <= i < j < |reviews| ==>
      !(reviews[i].productId == reviews[j].productId && reviews[i].userId == reviews[j].userId)
  }

  lemma {:induction false} AppendAggregates(reviews: seq<Review>, r: Review, productId: Id)
    ensures ReviewCount(reviews + [r], productId) ==
      ReviewCount(reviews, productId) + (if r.productId == productId then 1 else 0)
    ensures RatingSum(reviews + [r], productId) ==
      RatingSum(reviews, productId) + (if r.productId == productId then r.rating else 0)
  {
    assert (reviews + [r])[..|reviews|] == reviews;
  }

  /** Editing one review (keeping its product) leaves every count as it was
      and moves its product's sum by the change of rating. */
  lemma {:induction false} EditAggregates(reviews: seq<Review>, k: nat, r: Review, productId: Id)
    requires k < |reviews| && r.productId == reviews[k].productId
    ensures ReviewCount(reviews[k := r], productId) == ReviewCount(reviews, productId)
    ensures RatingSum(reviews[k := r], productId) ==
      RatingSum(reviews, productId) + (if r.productId == productId then r.rating - reviews[k].rating else 0)
    decreases |reviews|
  {
    var last, edited := |reviews| - 1, reviews[k := r];
    if k == last {
      assert edited[..last] == reviews[..last] && edited[last] == r;
    } else {
      assert edited[..last] == reviews[..last][k := r] && edited[last] == reviews[last];
      EditAggregates(reviews[..last], k, r, productId);
    }
  }

  ghost predicate ValidTable(reviews: seq<Review>, nextId: Id)
  {
    && (forall k :: 0 <= k < |reviews| ==> reviews[k].id < nextId)
    && (forall k, l :: 0 <= k < l < |reviews| ==> reviews[k].id != reviews[l].id)
    && OnePerAuthor(reviews)
  }

  /** The review an author already wrote for a product. */
  function FindOwnReview(reviews: seq<Review>, productId: Id, userId: Id): (r: Option<nat>)
    ensures r.Some? ==> r.value < |reviews| && reviews[r.value].productId == productId && reviews[r.value].userId == userId
    ensures r.None? <==> forall k :: 0 <= k < |reviews| ==> !(reviews[k].productId == productId && reviews[k].userId == userId)
  {
    FirstWhere(reviews, (rv: Review) => rv.productId == productId && rv.userId == userId)
  }

  /** Rewriting a review's text and rating keeps its id, product and
      author, so the table stays valid and no id is consumed. */
  lemma EditKeepsValid(reviews: seq<Review>, nextId: Id, k: nat, edited: Review)
    requires ValidTable(reviews, nextId) && k < |reviews|
    requires edited.id == reviews[k].id && edited.productId == reviews[k].productId && edited.userId == reviews[k].userId
    ensures ValidTable(reviews[k := edited], nextId) && ValidTable(reviews[k := edited], nextId + 1)
  {
    var t := reviews[k := edited];
    forall i, j | 0 <= i < j < |t|
      ensures !(t[i].productId == t[j].productId && t[i].userId == t[j].userId)
    {
      assert t[i].productId == reviews[i].productId && t[i].userId == reviews[i].userId;
      assert t[j].productId == reviews[j].productId && t[j].userId == reviews[j].userId;
    }
  }

  /** A new review by an author without one for that product, under the
      next id, keeps the table valid for the advanced counter. */
  lemma AppendKeepsValid(reviews: seq<Review>, nextId: Id, added: Review)
    requires ValidTable(reviews, nextId) && added.id == nextId
    requires forall k :: 0 <= k < |reviews| ==>
      !(reviews[k].productId == added.productId && reviews[k].userId == added.userId)
    ensures ValidTable(reviews + [added], nextId + 1)
  {
    var t := reviews + [added];
    forall i, j | 0 <= i < j < |t|
      ensures !(t[i].productId == t[j].productId && t[i].userId == t[j].userId)
    {
      assert t[i] == reviews[i];
    }
  }

  /** The review table after a successful upsert by `userId`. */
  function Upserted(reviews: seq<Review>, nextId: Id, userId: Id, input: ReviewInput): (r: seq<Review>)
    requires ValidTable(reviews, nextId)
    ensures ValidTable(r, nextId + 1)
    ensures FindOwnReview(reviews, input.productId, userId).Some? ==> ValidTable(r, nextId)
    ensures FindOwnReview(reviews, input.productId, userId).Some? ==>
      var k := FindOwnReview(reviews, input.productId, userId).value;
      r == reviews[k := reviews[k].(title := input.title, description := input.description, rating := input.rating)]
    ensures FindOwnReview(reviews, input.productId, userId).None? ==>
      r == reviews + [Review(nextId, input.productId, userId, input.title, input.description, input.rating)]
    ensures ReviewCount(r, input.productId) ==
      ReviewCount(reviews, input.productId) + (if FindOwnReview(reviews, input.productId, userId).None? then 1 else 0)
    ensures forall p :: p != input.productId ==>
      ReviewCount(r, p) == ReviewCount(reviews, p) && RatingSum(r, p) == RatingSum(reviews, p)
  {
    match FindOwnReview(reviews, input.productId, userId)
    case Some(k) =>
      var edited := reviews[k].(title := input.title, description := input.description, rating := input.rating);
      EditKeepsValid(reviews, nextId, k, edited);
      forall p ensures ReviewCount(reviews[k := edited], p) == ReviewCount(reviews, p)
        && (p != input.productId ==> RatingSum(reviews[k := edited], p) == RatingSum(reviews, p)) {
        EditAggregates(reviews, k, edited, p);
      }
      reviews[k := edited]
    case None =>
      var added := Review(nextId, input.productId, userId, input.title, input.description, input.rating);
      AppendKeepsValid(reviews, nextId, added);
      forall p ensures ReviewCount(reviews + [added], p) == ReviewCount(reviews, p) + (if p == input.productId then 1 else 0)
        && (p != input.productId ==> RatingSum(reviews + [added], p) == RatingSum(reviews, p)) {
        AppendAggregates(reviews, added, p);
      }
      reviews + [added]
  }

  class ReviewStore {
    var reviews: seq<Review>
    var nextId: Id

    ghost predicate Valid()
      reads this
    {
      ValidTable(reviews, nextId)
    }

    constructor ()
      ensures Valid() && reviews == []
    {
      reviews, nextId := [], 0;
    }

    /** `upsertReview`. A session without a user id fails the form's
        schema (its author is missing); nothing is written on any failure. */
    method UpsertReview(auth: Option<Session>, input: ReviewInput, products: ProductStore) returns (r: ActionResult)
      requires Valid() && products.Valid()
      modifies this, products
      ensures Valid() && products.Valid()
      ensures auth.None? ==> r == Fail("You need to be authenticated to review a product")
      ensures auth.Some? && auth.value.userId.None? ==> r == Fail("Invalid review")
      ensures SessionUserId(auth).Some? && input.productId !in old(products.rows) ==> r == Fail("Product not found")
      ensures r.success <==> SessionUserId(auth).Some? && input.productId in old(products.rows)
      ensures !r.success ==> reviews == old(reviews) && nextId == old(nextId) && products.rows == old(products.rows)
      ensures r.success ==>
        && r.message == "Review submitted successfully"
        && reviews == Upserted(old(reviews), old(nextId), SessionUserId(auth).value, input)
        && nextId == old(nextId) + (if FindOwnReview(old(reviews), input.productId, SessionUserId(auth).value).None? then 1 else 0)
        && products.rows == old(products.rows)[input.productId := old(products.rows)[input.productId].(
             rating := AverageRating(reviews, input.productId),
             numReviews := ReviewCount(reviews, input.productId))]
    {
      if auth.None? {
        return Fail("You need to be authenticated to review a product");
      }
      if auth.value.userId.None? {
        return Fail("Invalid review");
      }
      var userId := auth.value.userId.value;
      if input.productId !in products.rows {
        return Fail("Product not found");
      }
      var existing := FindOwnReview(reviews, input.productId, userId);
      ghost var table := Upserted(reviews, nextId, userId, input);
      if existing.Some? {
        var k := existing.value;
        reviews := reviews[k := reviews[k].(title := input.title, description := input.description, rating := input.rating)];
      } else {
        reviews := reviews + [Review(nextId, input.productId, userId, input.title, input.description, input.rating)];
        nextId := nextId + 1;
      }
      assert reviews == table;
      assert nextId == old(nextId) + (if existing.None? then 1 else 0);
      var average, count := AverageRating(reviews, input.productId), ReviewCount(reviews, input.productId);
      products.SetReviewAggregate(input.productId, average, count);
      r := ActionResult(true, "Review submitted successfully");
    }

    /** `getReviewByProductId`: requires a session and yields the caller's
        own review of the product. A session lacking a user id leaves the
        author filter `undefined`, which Prisma drops: the first review of
        the product by anyone is returned then. */
    function GetReviewByProductId(auth: Option<Session>, productId: Id): (r: Result<Option<Review>>)
      reads this
      ensures r.Err? <==> auth.None?
      ensures r.Err? ==> r.message == "You need to be authenticated to review a product"
      ensures r.Ok? && r.value.Some? ==> r.value.value in reviews && r.value.value.productId == productId
      ensures SessionUserId(auth).Some? && r.Ok? && r.value.Some? ==> r.value.value.userId == SessionUserId(auth).value
      ensures SessionUserId(auth).Some? ==>
        (r == Ok(None) <==> FindOwnReview(reviews, productId, SessionUserId(auth).value).None?)
    {
      if auth.None? then Err("You need to be authenticated to review a product")
      else match auth.value.userId
        case Some(uid) =>
          (match FindOwnReview(reviews, productId, uid)
           case None => Ok(None)
           case Some(k) => Ok(Some(reviews[k])))
        case None =>
          (match FirstWhere(reviews, (rv: Review) => rv.productId == productId)
           case None => Ok(None)
           case Some(k) => Ok(Some(reviews[k])))
    }
  }
}
