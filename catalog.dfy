// The product document as the server controllers read and write it: its
// embedded reviews, its stock and its featured position. Only the fields
// the controllers touch are kept; the Mongoose schema of server/models/Product.js
// is not part of this model.

module Catalog {
  import opened Common
  import Seqs

  /** An embedded review; `helpful` may be missing on old documents. */
  datatype Review = Review(id: string, user: string, rating: int, comment: string, photos: seq<string>,
                           helpful: Option<int>, reported: bool, verified: bool, createdAt: int)

  datatype Product = Product(id: string, name: string, description: string, price: real, stock: int,
                             images: seq<string>, isFeatured: bool, order: int, createdAt: int,
                             rating: real, reviews: seq<Review>)

  /** `images[0]`, absent when there is no image. */
  function FirstImage(p: Product): Option<string>
  {
    if p.images == [] then None else Some(p.images[0])
  }

  function RatingSum(reviews: seq<Review>): int
  {
    Seqs.SumInt(reviews, (r: Review) => r.rating)
  }

  /** The mean rating the controllers store: the sum over the count, 0 with no review. */
  function Mean(reviews: seq<Review>): (m: real)
    ensures reviews == [] ==> m == 0.0
    ensures reviews != [] ==> m * |reviews| as real == RatingSum(reviews) as real
  {
    if reviews == [] then 0.0 else RatingSum(reviews) as real / |reviews| as real
  }

  /** A product's stored rating agrees with its reviews. */
  predicate RatingConsistent(p: Product)
  {
    p.rating == Mean(p.reviews)
  }

  /** The ids of a product's reviews are distinct, as Mongoose subdocument ids are. */
  ghost predicate UniqueReviewIds(reviews: seq<Review>)
  {
    forall i, j :: 0 <= i < j < |reviews| ==> reviews[i].id != reviews[j].id
  }

  predicate HasReview(reviews: seq<Review>, id: string)
  {
    exists k :: 0 <= k < |reviews| && reviews[k].id == id
  }
}
