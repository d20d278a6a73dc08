// src/components/Featured/Featured.tsx: the featured-products carousel.
// It keeps the products flagged as featured, sorted by their `order`, shows
// one at a time, steps through them with wrap-around, and puts the shown
// product in the cart or on the wishlist. With no featured product nothing is rendered, so the
// arrow and cart buttons exist only over a non-empty list.

module Featured {
  import opened Common
  import Seqs
  import Wishlist

  datatype Product = Product(id: string, name: string, price: real, images: seq<string>,
                             isFeatured: bool, order: int)

  /** The line `handleAddToCart` passes to `addToCart`; the image is
      `images[0]`, undefined when the product has none. */
  datatype CartLine = CartLine(id: string, name: string, price: real, image: Option<string>)

  predicate IsFeatured(p: Product) { p.isFeatured }

  predicate OrderLe(a: Product, b: Product) { a.order <= b.order }

  /** `fetchFeaturedProducts`: the featured products, ascending by `order`. */
  function FeaturedProducts(all: seq<Product>): (r: seq<Product>)
    ensures multiset(r) == multiset(Seqs.Filter(all, IsFeatured))
  {
    Seqs.SortBy(Seqs.Filter(all, IsFeatured), OrderLe)
  }

  lemma FeaturedProductsSpec(all: seq<Product>)
    ensures forall p :: p in FeaturedProducts(all) <==> p in all && p.isFeatured
    ensures forall i, j :: 0 <= i < j < |FeaturedProducts(all)| ==>
              FeaturedProducts(all)[i].order <= FeaturedProducts(all)[j].order
  {
    var featured := Seqs.Filter(all, IsFeatured);
    forall p | p in all && p.isFeatured ensures p in featured {
      Seqs.FilterComplete(all, IsFeatured, p);
    }
    forall p ensures p in FeaturedProducts(all) <==> p in featured {
      assert p in multiset(FeaturedProducts(all)) <==> p in multiset(featured);
    }
    Seqs.KeyOrderIsTotalPreorder((p: Product) => p.order);
    assert Seqs.TotalPreorder(OrderLe);
    Seqs.SortBySorted(featured, OrderLe);
  }

  /** `handleAddToCart`'s payload for a product. */
  function CartLineOf(p: Product): (r: CartLine)
    ensures r.id == p.id && r.name == p.name && r.price == p.price
    ensures r.image == if p.images == [] then None else Some(p.images[0])
  {
    CartLine(p.id, p.name, p.price, if p.images == [] then None else Some(p.images[0]))
  }

  /** The entry `toggleWishlist` adds for a product: its stored price in
      US dollars, not converted to the shopper's currency. */
  function WishlistItemOf(p: Product): (r: Wishlist.WishlistItem)
    ensures r.id == p.id && r.name == p.name && r.price == p.price
    ensures r.image == CartLineOf(p).image
  {
    Wishlist.WishlistItem(p.id, p.name, p.price, if p.images == [] then None else Some(p.images[0]))
  }

  class Carousel {
    var products: seq<Product>
    var currentIndex: int

    predicate Valid()
      reads this
    {
      |products| > 0 ==> 0 <= currentIndex < |products|
    }

    /** The component once the products are fetched: index 0. */
    constructor Mount(all: seq<Product>)
      ensures products == FeaturedProducts(all) && currentIndex == 0
      ensures Valid()
    {
      products := FeaturedProducts(all);
      currentIndex := 0;
    }

    /** The product on show, or None when the component renders nothing. */
    function Shown(): (r: Option<Product>)
      reads this
      requires Valid()
      ensures r.None? <==> products == []
      ensures r.Some? ==> r.value == products[currentIndex] && r.value in products
    {
      if products == [] then None else Some(products[currentIndex])
    }

    method HandleNext()
      modifies this
      requires Valid() && products != []
      ensures products == old(products)
      ensures currentIndex == (old(currentIndex) + 1) % |products|
      ensures Valid()
    {
      currentIndex := (currentIndex + 1) % |products|;
    }

    method HandlePrevious()
      modifies this
      requires Valid() && products != []
      ensures products == old(products)
      ensures currentIndex == (old(currentIndex) - 1 + |products|) % |products|
      ensures Valid()
    {
      currentIndex := (currentIndex - 1 + |products|) % |products|;
    }

    /** `handleAddToCart`: the line for the product on show. */
    method HandleAddToCart() returns (line: CartLine)
      requires Valid() && products != []
      ensures line == CartLineOf(products[currentIndex])
    {
      var p := products[currentIndex];
      line := CartLine(p.id, p.name, p.price, if |p.images| > 0 then Some(p.images[0]) else None);
    }

    /** `toggleWishlist`: removes the product on show when it is on the list
        and adds it, priced as stored, otherwise, so its membership flips. */
    method ToggleWishlist(wishlist: Wishlist.WishlistState)
      requires Valid() && products != []
      modifies wishlist
      ensures Wishlist.InList(old(wishlist.items), products[currentIndex].id) ==>
                wishlist.items == Wishlist.Removed(old(wishlist.items), products[currentIndex].id)
      ensures !Wishlist.InList(old(wishlist.items), products[currentIndex].id) ==>
                wishlist.items == Wishlist.Added(old(wishlist.items), WishlistItemOf(products[currentIndex]))
      ensures Wishlist.InList(wishlist.items, products[currentIndex].id) <==>
              !Wishlist.InList(old(wishlist.items), products[currentIndex].id)
    {
      var p := products[currentIndex];
      if wishlist.IsInWishlist(p.id) {
        wishlist.RemoveFromWishlist(p.id);
      } else {
        wishlist.AddToWishlist(Wishlist.WishlistItem(p.id, p.name, p.price, if |p.images| > 0 then Some(p.images[0]) else None));
      }
    }
  }

  /** The two steps, as index arithmetic: both stay in range, and going back
      after going forward (or the reverse) returns to the start. */
  lemma StepsUndoEachOther(i: int, n: nat)
    requires 0 <= i < n
    ensures 0 <= (i + 1) % n < n && 0 <= (i - 1 + n) % n < n
    ensures ((i + 1) % n - 1 + n) % n == i
    ensures ((i - 1 + n) % n + 1) % n == i
  {
    Seqs.WrapMod(i + 1, n);
    Seqs.WrapMod(i - 1 + n, n);
    Seqs.WrapMod((i + 1) % n - 1 + n, n);
    Seqs.WrapMod((i - 1 + n) % n + 1, n);
  }
}
