// src/components/Reviews/Reviews.tsx: the review section of a product page.
// It shows the mean rating and the number of reviews per star, and sends the
// "submit", "helpful" and "report" requests only for a logged-in user. The
// HTTP calls and photo uploads are modelled by what they send and by a
// success flag supplied by the caller.

module Reviews {
  import opened Common
  import Seqs
  import ReviewForm

  /** `reviews.reduce((acc, r) => acc + r.rating, 0) / reviews.length || 0`:
      the mean, and 0 for no reviews (where the division gives NaN). */
  function AverageRating(ratings: seq<int>): (r: real)
    ensures ratings == [] ==> r == 0.0
    ensures ratings != [] ==> r * |ratings| as real == Seqs.SumInt(ratings, (x: int) => x) as real
  {
    if ratings == [] then 0.0
    else Seqs.SumInt(ratings, (x: int) => x) as real / |ratings| as real
  }

  lemma {:induction false} StarSumBounds(ratings: seq<int>)
    requires forall x :: x in ratings ==> 1 <= x <= 5
    ensures |ratings| <= Seqs.SumInt(ratings, (x: int) => x) <= 5 * |ratings|
    decreases |ratings|
  {
    if ratings != [] {
      assert forall x :: x in ratings[1..] ==> x in ratings;
      StarSumBounds(ratings[1..]);
      assert ratings[0] in ratings;
    }
  }

  lemma QuotientBounds(s: real, n: real)
    requires 0.0 < n <= s <= 5.0 * n
    ensures 1.0 <= s / n <= 5.0
  {
  }

  /** With every rating between 1 and 5 the mean is between 1 and 5 too. */
  lemma AverageWithinStars(ratings: seq<int>)
    requires ratings != []
    requires forall x :: x in ratings ==> 1 <= x <= 5
    ensures 1.0 <= AverageRating(ratings) <= 5.0
  {
    StarSumBounds(ratings);
    var n := |ratings| as real;
    var s := Seqs.SumInt(ratings, (x: int) => x) as real;
    QuotientBounds(s, n);
    assert AverageRating(ratings) == s / n;
  }

  /** The test `review.rating === k` behind bucket k. */
  function Is(k: int): int -> bool
  {
    (x: int) => x == k
  }

  /** The number of ratings equal to k. */
  function Tally(ratings: seq<int>, k: int): nat
  {
    Seqs.Count(ratings, Is(k))
  }

  lemma TallySnoc(ratings: seq<int>, x: int, k: int)
    ensures Tally(ratings + [x], k) == Tally(ratings, k) + (if x == k then 1 else 0)
  {
    Seqs.CountAppend(ratings, [x], Is(k));
  }

  /** `ratingDistribution`: a counter per star, each review adding one to
      the counter of its rating. Counters 1 to 5 are returned, in order. */
  method RatingDistribution(ratings: seq<int>) returns (dist: seq<nat>)
    ensures |dist| == 5
    ensures forall k :: 1 <= k <= 5 ==> dist[k - 1] == Tally(ratings, k)
  {
    var acc := new nat[6](_ => 0);
    var i := 0;
    while i < |ratings|
      invariant 0 <= i <= |ratings|
      invariant forall k :: 1 <= k <= 5 ==> acc[k] == Tally(ratings[..i], k)
    {
      var r := ratings[i];
      if 1 <= r <= 5 {
        acc[r] := acc[r] + 1;
      }
      assert ratings[..i + 1] == ratings[..i] + [r];
      forall k | 1 <= k <= 5 ensures acc[k] == Tally(ratings[..i + 1], k) {
        TallySnoc(ratings[..i], r, k);
      }
      i := i + 1;
    }
    assert ratings[..i] == ratings;
    dist := acc[1..6];
  }

  /** When every rating is a whole number of stars, the five counters add up
      to the number of reviews. */
  lemma {:induction false} BucketsCoverReviews(ratings: seq<int>)
    requires forall x :: x in ratings ==> 1 <= x <= 5
    ensures Tally(ratings, 1) + Tally(ratings, 2) + Tally(ratings, 3) + Tally(ratings, 4) + Tally(ratings, 5)
            == |ratings|
    decreases |ratings|
  {
    if ratings != [] {
      assert ratings[0] in ratings;
      assert forall x :: x in ratings[1..] ==> x in ratings;
      BucketsCoverReviews(ratings[1..]);
    }
  }

  // ---------------------------------------------------------------- handlers

  /** The requests the section sends. */
  datatype Request =
    | PostReview(productId: string, rating: int, comment: string, photos: seq<string>)
    | PostHelpful(productId: string, reviewId: string)
    | PostReport(productId: string, reviewId: string)

  type UserId = string

  class Section {
    const productId: string
    var isModalOpen: bool
    var loading: bool
    /** How many times `onReviewAdded` has been called. */
    var refreshes: nat

    constructor (productId: string)
      ensures this.productId == productId
      ensures !isModalOpen && !loading && refreshes == 0
    {
      this.productId := productId;
      isModalOpen, loading, refreshes := false, false, 0;
    }

    /** `handleSubmitReview`: without a user nothing is sent; otherwise the
        photos are uploaded and the review posted, and a successful post
        closes the modal and calls `onReviewAdded` once. */
    method HandleSubmitReview(user: Option<UserId>, data: ReviewForm.ReviewData,
                              upload: string -> string, succeeds: bool) returns (sent: Option<Request>)
      modifies this
      ensures user.None? ==> sent.None? && isModalOpen == old(isModalOpen) && refreshes == old(refreshes)
      ensures user.Some? ==> sent.Some? && sent.value.PostReview? && sent.value.productId == productId
                             && sent.value.rating == data.rating && sent.value.comment == data.comment
                             && |sent.value.photos| == |data.photos|
                             && forall k :: 0 <= k < |data.photos| ==> sent.value.photos[k] == upload(data.photos[k])
      ensures user.Some? && succeeds ==> !isModalOpen && refreshes == old(refreshes) + 1
      ensures user.Some? && !succeeds ==> isModalOpen == old(isModalOpen) && refreshes == old(refreshes)
      ensures user.None? ==> loading == old(loading)
      ensures user.Some? ==> !loading
    {
      if user.None? {
        return None;
      }
      loading := true;
      var photos := data.photos;
      var urls := seq(|photos|, k requires 0 <= k < |photos| => upload(photos[k]));
      sent := Some(PostReview(productId, data.rating, data.comment, urls));
      if succeeds {
        isModalOpen := false;
        refreshes := refreshes + 1;
      }
      loading := false;
    }

    /** `handleHelpful`: sent only for a logged-in user; success refreshes. */
    method HandleHelpful(user: Option<UserId>, reviewId: string, succeeds: bool) returns (sent: Option<Request>)
      modifies this
      ensures user.None? ==> sent.None?
      ensures user.Some? ==> sent == Some(PostHelpful(productId, reviewId))
      ensures refreshes == old(refreshes) + (if user.Some? && succeeds then 1 else 0)
      ensures isModalOpen == old(isModalOpen) && loading == old(loading)
    {
      if user.None? {
        return None;
      }
      sent := Some(PostHelpful(productId, reviewId));
      if succeeds {
        refreshes := refreshes + 1;
      }
    }

    /** `handleReport`: sent only for a logged-in user; nothing is refreshed. */
    method HandleReport(user: Option<UserId>, reviewId: string) returns (sent: Option<Request>)
      ensures user.None? ==> sent.None?
      ensures user.Some? ==> sent == Some(PostReport(productId, reviewId))
    {
      if user.None? {
        return None;
      }
      sent := Some(PostReport(productId, reviewId));
    }
  }
}
