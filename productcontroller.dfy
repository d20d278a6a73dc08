// server/controllers/productController.js: the review handlers, the order a
// new product gets, the product search and the admin list of all reviews.
// The review handlers load one product document, change its embedded
// reviews in place and save it; the products collection is a map from id to
// document. Fresh ids and the clock reading are inputs.

module ProductController {
  import opened Common
  import Seqs
  import Text
  import Catalog

  type Product = Catalog.Product
  type Review = Catalog.Review

  datatype Response =
    | Error(status: Status, message: string)
    | ReviewBody(review: Review)
    | Message(text: string)
    | ProductBody(product: Product)

  const ProductNotFound: string := "Product not found"
  const ReviewNotFound: string := "Review not found"

  // ------------------------------------------------------------ review lookup

  /** `product.reviews.id(reviewId)`: the position of the first review with that id. */
  function ReviewIndex(reviews: seq<Review>, reviewId: string): (r: Option<nat>)
    ensures r.None? <==> !Catalog.HasReview(reviews, reviewId)
    ensures r.Some? ==> r.value < |reviews| && reviews[r.value].id == reviewId
                        && forall k :: 0 <= k < r.value ==> reviews[k].id != reviewId
    decreases |reviews|
  {
    if reviews == [] then None
    else if reviews[0].id == reviewId then Some(0)
    else
      match ReviewIndex(reviews[1..], reviewId)
      case None =>
        assert forall k :: 1 <= k < |reviews| ==> reviews[k] == reviews[1..][k - 1];
        None
      case Some(i) => Some(i + 1)
  }

  // ---------------------------------------------------------- review updates

  /** The review `addReview` pushes. */
  function NewReview(reviewId: string, user: string, rating: int, comment: string,
                     photos: Option<seq<string>>, now: int): Review
  {
    Catalog.Review(reviewId, user, rating, comment, if photos.Some? then photos.value else [],
                   None, false, true, now)
  }

  /** The product after a review is pushed and the rating recomputed. */
  function WithReview(p: Product, review: Review): (q: Product)
    ensures q.reviews == p.reviews + [review]
    ensures Catalog.RatingConsistent(q)
    ensures q.(reviews := p.reviews, rating := p.rating) == p
  {
    var reviews := p.reviews + [review];
    p.(reviews := reviews, rating := Catalog.RatingSum(reviews) as real / |reviews| as real)
  }

  /** The product after the review at position i is removed and the rating
      recomputed, 0 when none is left. */
  function WithoutReviewAt(p: Product, i: nat): (q: Product)
    requires i < |p.reviews|
    ensures q.reviews == Seqs.RemoveAt(p.reviews, i)
    ensures Catalog.RatingConsistent(q)
    ensures q.(reviews := p.reviews, rating := p.rating) == p
  {
    var reviews := Seqs.RemoveAt(p.reviews, i);
    p.(reviews := reviews, rating := if |reviews| > 0 then Catalog.RatingSum(reviews) as real / |reviews| as real else 0.0)
  }

  /** `review.helpful || 0` */
  function HelpfulCount(r: Review): int
  {
    if r.helpful.None? then 0 else r.helpful.value
  }

  function MarkedHelpful(r: Review): (s: Review)
    ensures HelpfulCount(s) == HelpfulCount(r) + 1
    ensures s.(helpful := r.helpful) == r
  {
    r.(helpful := Some(HelpfulCount(r) + 1))
  }

  function Reported(r: Review): (s: Review)
    ensures s.reported && s.(reported := r.reported) == r
  {
    r.(reported := true)
  }

  function Verified(r: Review): (s: Review)
    ensures s.verified && s.(verified := r.verified) == r
  {
    r.(verified := true)
  }

  /** The product with the review at position i replaced. */
  function ReplaceReview(p: Product, i: nat, r: Review): (q: Product)
    requires i < |p.reviews|
    ensures |q.reviews| == |p.reviews| && q.reviews[i] == r
    ensures forall k :: 0 <= k < |p.reviews| && k != i ==> q.reviews[k] == p.reviews[k]
    ensures q.(reviews := p.reviews) == p
  {
    p.(reviews := p.reviews[i := r])
  }

  // ----------------------------------------------------------- rating lemmas

  lemma RatingSumAppend(reviews: seq<Review>, r: Review)
    ensures Catalog.RatingSum(reviews + [r]) == Catalog.RatingSum(reviews) + r.rating
  {
    Seqs.SumIntAppend(reviews, [r], (x: Review) => x.rating);
  }

  /** The rating after `addReview` is the running mean: with n reviews before
      and a consistent rating, (n + 1) × new rating = n × old rating + the new
      review's stars. */
  lemma AddReviewUpdatesMean(p: Product, review: Review)
    requires Catalog.RatingConsistent(p)
    ensures WithReview(p, review).rating * (|p.reviews| + 1) as real ==
            p.rating * |p.reviews| as real + review.rating as real
  {
    RatingSumAppend(p.reviews, review);
    assert p.rating * |p.reviews| as real == Catalog.RatingSum(p.reviews) as real;
  }

  /** Three five-star reviews and a new one-star review give a rating of 4. */
  lemma AddReviewExample(p: Product, review: Review)
    requires |p.reviews| == 3 && forall k :: 0 <= k < 3 ==> p.reviews[k].rating == 5
    requires review.rating == 1
    ensures WithReview(p, review).rating == 4.0
  {
    var r := p.reviews;
    assert r == [] + [r[0]] + [r[1]] + [r[2]];
    RatingSumAppend([], r[0]);
    RatingSumAppend([r[0]], r[1]);
    RatingSumAppend([r[0], r[1]], r[2]);
    assert [r[0]] + [r[1]] == [r[0], r[1]] && [r[0], r[1]] + [r[2]] == r;
    RatingSumAppend(r, review);
  }

  /** Deleting a review that was just added restores the product exactly,
      its rating included, when the rating agreed with its reviews. */
  lemma AddThenDeleteReview(p: Product, review: Review)
    requires Catalog.RatingConsistent(p)
    requires !Catalog.HasReview(p.reviews, review.id)
    ensures ReviewIndex(WithReview(p, review).reviews, review.id) == Some(|p.reviews|)
    ensures WithoutReviewAt(WithReview(p, review), |p.reviews|) == p
  {
    var q := WithReview(p, review);
    assert q.reviews[|p.reviews|] == review;
    assert forall k :: 0 <= k < |p.reviews| ==> q.reviews[k] == p.reviews[k];
    assert Seqs.RemoveAt(q.reviews, |p.reviews|) == p.reviews;
  }

  /** After `deleteReview` with distinct review ids, no review with that id
      is left and every other review still is. */
  lemma DeleteRemovesExactlyThatReview(p: Product, reviewId: string)
    requires Catalog.UniqueReviewIds(p.reviews)
    requires ReviewIndex(p.reviews, reviewId).Some?
    ensures var q := WithoutReviewAt(p, ReviewIndex(p.reviews, reviewId).value);
            && !Catalog.HasReview(q.reviews, reviewId)
            && |q.reviews| == |p.reviews| - 1
            && (forall r :: r in p.reviews && r.id != reviewId ==> r in q.reviews)
            && Catalog.UniqueReviewIds(q.reviews)
  {
    var i := ReviewIndex(p.reviews, reviewId).value;
    var q := WithoutReviewAt(p, i);
    forall r | r in p.reviews && r.id != reviewId ensures r in q.reviews {
      var k :| 0 <= k < |p.reviews| && p.reviews[k] == r;
      if k < i {
        assert q.reviews[k] == r;
      } else {
        assert q.reviews[k - 1] == r;
      }
    }
  }

  /** Adding a review with a fresh id keeps the review ids distinct. */
  lemma AddKeepsIdsUnique(p: Product, review: Review)
    requires Catalog.UniqueReviewIds(p.reviews)
    requires !Catalog.HasReview(p.reviews, review.id)
    ensures Catalog.UniqueReviewIds(WithReview(p, review).reviews)
  {
  }

  /** Reporting or verifying twice is the same as once. */
  lemma FlagsAreIdempotent(p: Product, i: nat)
    requires i < |p.reviews|
    ensures var once := ReplaceReview(p, i, Reported(p.reviews[i]));
            ReplaceReview(once, i, Reported(once.reviews[i])) == once
    ensures var once := ReplaceReview(p, i, Verified(p.reviews[i]));
            ReplaceReview(once, i, Verified(once.reviews[i])) == once
  {
    var once := ReplaceReview(p, i, Reported(p.reviews[i]));
    assert once.reviews[i := Reported(once.reviews[i])] == once.reviews;
    var once' := ReplaceReview(p, i, Verified(p.reviews[i]));
    assert once'.reviews[i := Verified(once'.reviews[i])] == once'.reviews;
  }

  /** Marking helpful is not idempotent: two marks add two, with no check of who marked. */
  lemma HelpfulCountsEveryMark(r: Review)
    ensures HelpfulCount(MarkedHelpful(MarkedHelpful(r))) == HelpfulCount(r) + 2
  {
  }

  // ------------------------------------------------------------ featured order

  /** `Product.countDocuments({ isFeatured: true })` */
  function FeaturedIds(products: map<string, Product>): set<string>
  {
    set id | id in products && products[id].isFeatured
  }

  /** The featured products hold the positions 0 .. count − 1, each once. */
  ghost predicate FeaturedOrdersDense(products: map<string, Product>)
  {
    && (forall id :: id in FeaturedIds(products) ==> 0 <= products[id].order < |FeaturedIds(products)|)
    && (forall a, b :: a in FeaturedIds(products) && b in FeaturedIds(products) && a != b ==>
          products[a].order != products[b].order)
  }

  /** The document `createProduct` saves: the body with `order` set to the
      featured count when featured, 0 otherwise. */
  function Created(products: map<string, Product>, body: Product, newId: string): Product
  {
    body.(id := newId, order := if body.isFeatured then |FeaturedIds(products)| else 0)
  }

  lemma FeaturedIdsAfterInsert(products: map<string, Product>, newId: string, p: Product)
    requires newId !in products
    ensures FeaturedIds(products[newId := p]) == FeaturedIds(products) + (if p.isFeatured then {newId} else {})
    ensures |FeaturedIds(products[newId := p])| == |FeaturedIds(products)| + (if p.isFeatured then 1 else 0)
  {
    var after := FeaturedIds(products[newId := p]);
    assert after == FeaturedIds(products) + (if p.isFeatured then {newId} else {});
    assert newId !in FeaturedIds(products);
  }

  /** Creating products one at a time keeps the featured positions dense:
      a new featured product takes the next free position. */
  lemma CreateKeepsOrdersDense(products: map<string, Product>, body: Product, newId: string)
    requires newId !in products
    requires FeaturedOrdersDense(products)
    ensures FeaturedOrdersDense(products[newId := Created(products, body, newId)])
  {
    var q := Created(products, body, newId);
    var after := products[newId := q];
    FeaturedIdsAfterInsert(products, newId, q);
    forall a | a in FeaturedIds(after) ensures 0 <= after[a].order < |FeaturedIds(after)| {
      if a != newId {
        assert a in FeaturedIds(products);
      }
    }
    forall a, b | a in FeaturedIds(after) && b in FeaturedIds(after) && a != b
      ensures after[a].order != after[b].order
    {
      if a != newId && b != newId {
        assert a in FeaturedIds(products) && b in FeaturedIds(products);
      } else if a == newId {
        assert b in FeaturedIds(products);
      } else {
        assert a in FeaturedIds(products);
      }
    }
  }

  // -------------------------------------------------------------------- search

  /** What the search returns of each product: `select('name price images category')`
      (with `_id`, which Mongo always includes). */
  datatype Hit = Hit(id: string, name: string, price: real, images: seq<string>)

  const SearchLimit: nat := 12

  /** The `$regex` with option `i` on name or description, as a
      case-insensitive substring test. */
  predicate Matches(p: Product, query: string)
  {
    Text.Contains(Text.ToLower(p.name), Text.ToLower(query)) ||
    Text.Contains(Text.ToLower(p.description), Text.ToLower(query))
  }

  function HitOf(p: Product): Hit
  {
    Hit(p.id, p.name, p.price, p.images)
  }

  /** `sort('-createdAt')` */
  function NewestFirst(a: Product, b: Product): bool
  {
    b.createdAt <= a.createdAt
  }

  /** The matching products, newest first, cut at twelve. */
  function Ranked(products: seq<Product>, query: string): seq<Product>
  {
    Seqs.Take(Seqs.SortBy(Seqs.Filter(products, (p: Product) => Matches(p, query)), NewestFirst), SearchLimit)
  }

  /** `searchProducts`: nothing for an empty query; otherwise the matching
      products, newest first, at most twelve. */
  function SearchProducts(products: seq<Product>, query: string): seq<Hit>
  {
    if query == "" then []
    else
      var ranked := Ranked(products, query);
      seq(|ranked|, k requires 0 <= k < |ranked| => HitOf(ranked[k]))
  }

  lemma NewestFirstIsTotalPreorder()
    ensures Seqs.TotalPreorder(NewestFirst)
  {
  }

  /** Every ranked product matches; there are at most twelve, newest first. */
  lemma RankedMatchAndAreSorted(products: seq<Product>, query: string)
    ensures |Ranked(products, query)| <= SearchLimit
    ensures |Ranked(products, query)| <= |Seqs.Filter(products, (p: Product) => Matches(p, query))|
    ensures forall p :: p in Ranked(products, query) ==> p in products && Matches(p, query)
    ensures Seqs.SortedBy(Ranked(products, query), NewestFirst)
  {
    var matching := Seqs.Filter(products, (p: Product) => Matches(p, query));
    var sorted := Seqs.SortBy(matching, NewestFirst);
    NewestFirstIsTotalPreorder();
    Seqs.SortBySorted(matching, NewestFirst);
    forall p | p in Ranked(products, query) ensures p in products && Matches(p, query) {
      assert p in multiset(sorted);
    }
  }

  /** A matching product that is not ranked is no newer than any ranked one,
      and the twelve places are full. */
  lemma RankedAreNewest(products: seq<Product>, query: string, p: Product)
    requires p in products && Matches(p, query) && p !in Ranked(products, query)
    ensures |Ranked(products, query)| == SearchLimit
    ensures forall q :: q in Ranked(products, query) ==> p.createdAt <= q.createdAt
  {
    var matching := Seqs.Filter(products, (p: Product) => Matches(p, query));
    var sorted := Seqs.SortBy(matching, NewestFirst);
    var ranked := Ranked(products, query);
    NewestFirstIsTotalPreorder();
    Seqs.SortBySorted(matching, NewestFirst);
    Seqs.FilterComplete(products, (p: Product) => Matches(p, query), p);
    assert p in multiset(sorted);
    var i :| 0 <= i < |sorted| && sorted[i] == p;
    assert i >= |ranked|;
    forall q | q in ranked ensures p.createdAt <= q.createdAt {
      var k :| 0 <= k < |ranked| && ranked[k] == q;
      assert sorted[k] == q;
    }
  }

  /** The hits are the selected fields of matching products, at most
      twelve, taken newest first, and a matching product left out is no
      newer than any product shown (and then the twelve places are full). */
  lemma SearchSpec(products: seq<Product>, query: string)
    requires query != ""
    ensures var hits := SearchProducts(products, query);
            var ranked := Ranked(products, query);
            && |hits| == |ranked| <= SearchLimit
            && (forall k :: 0 <= k < |hits| ==> hits[k] == HitOf(ranked[k]) && ranked[k] in products && Matches(ranked[k], query))
            && (forall i, j :: 0 <= i < j < |ranked| ==> ranked[j].createdAt <= ranked[i].createdAt)
            && (forall p :: p in products && Matches(p, query) && HitOf(p) !in hits ==>
                  |hits| == SearchLimit && forall q :: q in ranked ==> p.createdAt <= q.createdAt)
  {
    var ranked := Ranked(products, query);
    var hits := SearchProducts(products, query);
    RankedMatchAndAreSorted(products, query);
    forall k | 0 <= k < |hits| ensures ranked[k] in products && Matches(ranked[k], query) {
      assert ranked[k] in ranked;
    }
    forall q | q in ranked ensures HitOf(q) in hits {
      var k :| 0 <= k < |ranked| && ranked[k] == q;
      assert hits[k] == HitOf(q);
    }
    forall p | p in products && Matches(p, query) && HitOf(p) !in hits
      ensures |hits| == SearchLimit && forall q :: q in ranked ==> p.createdAt <= q.createdAt
    {
      assert p !in ranked;
      RankedAreNewest(products, query, p);
    }
  }

  /** A product whose name contains the query, in any letter case, is found
      when fewer than twelve products match. */
  lemma SearchFindsByName(products: seq<Product>, query: string, p: Product)
    requires query != "" && p in products
    requires Text.Contains(Text.ToLower(p.name), Text.ToLower(query))
    requires |Seqs.Filter(products, (x: Product) => Matches(x, query))| < SearchLimit
    ensures HitOf(p) in SearchProducts(products, query)
  {
    SearchSpec(products, query);
    RankedMatchAndAreSorted(products, query);
  }

  // ----------------------------------------------------------- all reviews

  /** A review as `getAllReviews` lists it, with its product's id, name and images. */
  datatype ListedReview = ListedReview(review: Review, productId: string, productName: string, productImages: seq<string>)

  function Listed(p: Product): seq<ListedReview>
  {
    seq(|p.reviews|, k requires 0 <= k < |p.reviews| => ListedReview(p.reviews[k], p.id, p.name, p.images))
  }

  /** The `reduce` concatenating every product's reviews, in product order. */
  function AllReviews(products: seq<Product>): seq<ListedReview>
    decreases |products|
  {
    if products == [] then [] else AllReviews(products[..|products| - 1]) + Listed(products[|products| - 1])
  }

  function ReviewCount(products: seq<Product>): nat
    decreases |products|
  {
    if products == [] then 0 else ReviewCount(products[..|products| - 1]) + |products[|products| - 1].reviews|
  }

  /** Every review of every product is listed once with its product, and nothing else is. */
  lemma {:induction false} AllReviewsSpec(products: seq<Product>)
    ensures |AllReviews(products)| == ReviewCount(products)
    ensures forall e :: e in AllReviews(products) <==>
              exists p :: p in products && e in Listed(p)
    decreases |products|
  {
    if products != [] {
      var init := products[..|products| - 1];
      var last := products[|products| - 1];
      AllReviewsSpec(init);
      assert forall p :: p in products <==> p in init || p == last;
    }
  }

  // ------------------------------------------------------------------ store

  class ProductStore {
    var products: map<string, Product>

    constructor (products: map<string, Product>)
      ensures this.products == products
    {
      this.products := products;
    }

    /** `createProduct`. `newId` is the id the database gives the document. */
    method CreateProduct(body: Product, newId: string) returns (res: Response)
      requires newId !in products
      modifies this
      ensures products == old(products)[newId := Created(old(products), body, newId)]
      ensures res == ProductBody(Created(old(products), body, newId))
      ensures body.isFeatured ==> products[newId].order == |FeaturedIds(old(products))|
      ensures !body.isFeatured ==> products[newId].order == 0
    {
      var order := 0;
      if body.isFeatured {
        order := |FeaturedIds(products)|;
      }
      var saved := body.(id := newId, order := order);
      products := products[newId := saved];
      res := ProductBody(saved);
    }

    /** `addReview`: 404 for an unknown product; otherwise the review is
        pushed and the rating set to the mean over all reviews. `reviewId`
        is the id the database gives the new review and `now` is `new Date()`. */
    method AddReview(productId: string, user: string, rating: int, comment: string,
                     photos: Option<seq<string>>, reviewId: string, now: int) returns (res: Response)
      requires productId in products ==> !Catalog.HasReview(products[productId].reviews, reviewId)
      modifies this
      ensures productId !in old(products) ==> res == Error(NotFound404, ProductNotFound) && products == old(products)
      ensures productId in old(products) ==>
                var review := NewReview(reviewId, user, rating, comment, photos, now);
                && products == old(products)[productId := WithReview(old(products)[productId], review)]
                && res == ReviewBody(review)
    {
      if productId !in products {
        return Error(NotFound404, ProductNotFound);
      }
      var product := products[productId];
      var review := Catalog.Review(reviewId, user, rating, comment, if photos.Some? then photos.value else [],
                                   None, false, true, now);
      var reviews := product.reviews + [review];
      var totalRating := Catalog.RatingSum(reviews);
      product := product.(reviews := reviews, rating := totalRating as real / |reviews| as real);
      products := products[productId := product];
      res := ReviewBody(review);
    }

    /** `markReviewHelpful`: 404 for an unknown product or review; otherwise
        the review's count goes up by one and nothing else changes. */
    method MarkReviewHelpful(productId: string, reviewId: string) returns (res: Response)
      modifies this
      ensures productId !in old(products) ==> res == Error(NotFound404, ProductNotFound) && products == old(products)
      ensures productId in old(products) && !Catalog.HasReview(old(products)[productId].reviews, reviewId) ==>
                res == Error(NotFound404, ReviewNotFound) && products == old(products)
      ensures productId in old(products) && Catalog.HasReview(old(products)[productId].reviews, reviewId) ==>
                var p := old(products)[productId];
                var i := ReviewIndex(p.reviews, reviewId).value;
                && products == old(products)[productId := ReplaceReview(p, i, MarkedHelpful(p.reviews[i]))]
                && res == ReviewBody(MarkedHelpful(p.reviews[i]))
    {
      if productId !in products {
        return Error(NotFound404, ProductNotFound);
      }
      var product := products[productId];
      var index := ReviewIndex(product.reviews, reviewId);
      if index.None? {
        return Error(NotFound404, ReviewNotFound);
      }
      var review := product.reviews[index.value];
      review := review.(helpful := Some(HelpfulCount(review) + 1));
      products := products[productId := product.(reviews := product.reviews[index.value := review])];
      res := ReviewBody(review);
    }

    /** `reportReview`: 404s as above; otherwise the review is flagged. */
    method ReportReview(productId: string, reviewId: string) returns (res: Response)
      modifies this
      ensures productId !in old(products) ==> res == Error(NotFound404, ProductNotFound) && products == old(products)
      ensures productId in old(products) && !Catalog.HasReview(old(products)[productId].reviews, reviewId) ==>
                res == Error(NotFound404, ReviewNotFound) && products == old(products)
      ensures productId in old(products) && Catalog.HasReview(old(products)[productId].reviews, reviewId) ==>
                var p := old(products)[productId];
                var i := ReviewIndex(p.reviews, reviewId).value;
                && products == old(products)[productId := ReplaceReview(p, i, Reported(p.reviews[i]))]
                && res == Message("Review reported successfully")
    {
      if productId !in products {
        return Error(NotFound404, ProductNotFound);
      }
      var product := products[productId];
      var index := ReviewIndex(product.reviews, reviewId);
      if index.None? {
        return Error(NotFound404, ReviewNotFound);
      }
      var review := product.reviews[index.value].(reported := true);
      products := products[productId := product.(reviews := product.reviews[index.value := review])];
      res := Message("Review reported successfully");
    }

    /** `verifyReview`: 404s as above; otherwise the review is marked verified. */
    method VerifyReview(productId: string, reviewId: string) returns (res: Response)
      modifies this
      ensures productId !in old(products) ==> res == Error(NotFound404, ProductNotFound) && products == old(products)
      ensures productId in old(products) && !Catalog.HasReview(old(products)[productId].reviews, reviewId) ==>
                res == Error(NotFound404, ReviewNotFound) && products == old(products)
      ensures productId in old(products) && Catalog.HasReview(old(products)[productId].reviews, reviewId) ==>
                var p := old(products)[productId];
                var i := ReviewIndex(p.reviews, reviewId).value;
                && products == old(products)[productId := ReplaceReview(p, i, Verified(p.reviews[i]))]
                && res == ReviewBody(Verified(p.reviews[i]))
    {
      if productId !in products {
        return Error(NotFound404, ProductNotFound);
      }
      var product := products[productId];
      var index := ReviewIndex(product.reviews, reviewId);
      if index.None? {
        return Error(NotFound404, ReviewNotFound);
      }
      var review := product.reviews[index.value].(verified := true);
      products := products[productId := product.(reviews := product.reviews[index.value := review])];
      res := ReviewBody(review);
    }

    /** `deleteReview`: 404s as above; otherwise the review is removed and
        the rating recomputed over the rest, 0 when none is left. */
    method DeleteReview(productId: string, reviewId: string) returns (res: Response)
      modifies this
      ensures productId !in old(products) ==> res == Error(NotFound404, ProductNotFound) && products == old(products)
      ensures productId in old(products) && !Catalog.HasReview(old(products)[productId].reviews, reviewId) ==>
                res == Error(NotFound404, ReviewNotFound) && products == old(products)
      ensures productId in old(products) && Catalog.HasReview(old(products)[productId].reviews, reviewId) ==>
                var p := old(products)[productId];
                && products == old(products)[productId := WithoutReviewAt(p, ReviewIndex(p.reviews, reviewId).value)]
                && res == Message("Review deleted successfully")
    {
      if productId !in products {
        return Error(NotFound404, ProductNotFound);
      }
      var product := products[productId];
      var index := ReviewIndex(product.reviews, reviewId);
      if index.None? {
        return Error(NotFound404, ReviewNotFound);
      }
      var reviews := Seqs.RemoveAt(product.reviews, index.value);
      var rating := 0.0;
      if |reviews| > 0 {
        var totalRating := Catalog.RatingSum(reviews);
        rating := totalRating as real / |reviews| as real;
      }
      products := products[productId := product.(reviews := reviews, rating := rating)];
      res := Message("Review deleted successfully");
    }
  }
}
