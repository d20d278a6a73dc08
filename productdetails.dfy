// src/pages/ProductDetailsPage.tsx: the product page. Once the product is
// loaded the first colour and the first size are preselected. Adding to the
// cart is refused without a size, then without a colour, then when the
// chosen size is unknown or has no stock; otherwise the cart line carries
// the price in the display currency. The heart button toggles the product
// on the wishlist.

module ProductDetails {
  import opened Common
  import Currency
  import Wishlist

  datatype Color = Color(name: string, code: string)

  datatype Size = Size(name: string, stock: int)

  datatype Product = Product(id: string, name: string, price: real, images: seq<string>,
                             colors: seq<Color>, sizes: seq<Size>)

  /** The line passed to `addToCart`. */
  datatype CartItem = CartItem(id: string, name: string, price: real, image: Option<string>,
                               color: string, size: string)

  datatype AddOutcome = Refused(message: string) | Added(item: CartItem)

  const SelectSize: string := "Please select a size"
  const SelectColor: string := "Please select a color"
  const OutOfStock: string := "Selected size is out of stock"

  /** `product.sizes.find(s => s.name === name)?.stock || 0`: the stock of
      the first size with that name, 0 when there is none. */
  function SizeStock(sizes: seq<Size>, name: string): (r: int)
    ensures (forall k :: 0 <= k < |sizes| ==> sizes[k].name != name) ==> r == 0
    ensures forall k | 0 <= k < |sizes| && sizes[k].name == name &&
                       (forall j :: 0 <= j < k ==> sizes[j].name != name) :: r == sizes[k].stock
    decreases |sizes|
  {
    if sizes == [] then 0
    else if sizes[0].name == name then sizes[0].stock
    else
      var r := SizeStock(sizes[1..], name);
      assert forall k | 1 <= k < |sizes| :: sizes[k] == sizes[1..][k - 1];
      r
  }

  /** A non-zero stock is the stock of some size with that name. */
  lemma {:induction false} SizeStockFound(sizes: seq<Size>, name: string)
    requires SizeStock(sizes, name) != 0
    ensures exists k :: 0 <= k < |sizes| && sizes[k].name == name && sizes[k].stock == SizeStock(sizes, name)
    decreases |sizes|
  {
    if sizes[0].name != name {
      SizeStockFound(sizes[1..], name);
      var k :| 0 <= k < |sizes[1..]| && sizes[1..][k].name == name && sizes[1..][k].stock == SizeStock(sizes, name);
      assert sizes[k + 1] == sizes[1..][k];
    }
  }

  function FirstImage(p: Product): Option<string>
  {
    if p.images == [] then None else Some(p.images[0])
  }

  /** `displayPrice`: the stored dollar price in the chosen currency. */
  function DisplayPrice(p: Product, currency: string): real
  {
    Currency.ConvertPrice(Currency.Number(p.price), Currency.USD, currency)
  }

  class Page {
    var product: Product
    var selectedColor: string
    var selectedSize: string

    /** The page once `fetchProduct` has answered: the first colour and size
        are preselected, and nothing is selected where the list is empty. */
    constructor Load(p: Product)
      ensures product == p
      ensures selectedColor == (if p.colors == [] then "" else p.colors[0].name)
      ensures selectedSize == (if p.sizes == [] then "" else p.sizes[0].name)
    {
      product := p;
      selectedColor := "";
      selectedSize := "";
      if |p.colors| > 0 {
        selectedColor := p.colors[0].name;
      }
      if |p.sizes| > 0 {
        selectedSize := p.sizes[0].name;
      }
    }

    method ChooseColor(name: string)
      modifies this
      ensures selectedColor == name && selectedSize == old(selectedSize) && product == old(product)
    {
      selectedColor := name;
    }

    method ChooseSize(name: string)
      modifies this
      ensures selectedSize == name && selectedColor == old(selectedColor) && product == old(product)
    {
      selectedSize := name;
    }

    /** `handleAddToCart`: the three guards in order, then the line. */
    method HandleAddToCart(currency: string) returns (r: AddOutcome)
      ensures selectedSize == "" ==> r == Refused(SelectSize)
      ensures selectedSize != "" && selectedColor == "" ==> r == Refused(SelectColor)
      ensures selectedSize != "" && selectedColor != "" &&
              (forall k :: 0 <= k < |product.sizes| ==> product.sizes[k].name != selectedSize) ==>
                r == Refused(OutOfStock)
      ensures r.Added? ==>
                && selectedSize != "" && selectedColor != ""
                && (exists k :: 0 <= k < |product.sizes| && product.sizes[k].name == selectedSize
                                && product.sizes[k].stock != 0)
                && r.item == CartItem(product.id, product.name, DisplayPrice(product, currency),
                                      FirstImage(product), selectedColor, selectedSize)
      ensures r.Refused? <==> selectedSize == "" || selectedColor == "" || SizeStock(product.sizes, selectedSize) == 0
    {
      if selectedSize == "" {
        return Refused(SelectSize);
      }
      if selectedColor == "" {
        return Refused(SelectColor);
      }
      var stock := SizeStock(product.sizes, selectedSize);
      if stock == 0 {
        return Refused(OutOfStock);
      }
      SizeStockFound(product.sizes, selectedSize);
      var image := if |product.images| > 0 then Some(product.images[0]) else None;
      r := Added(CartItem(product.id, product.name, DisplayPrice(product, currency), image,
                          selectedColor, selectedSize));
    }

    /** `toggleWishlist`: removes the product when it is on the list and adds
        it otherwise, so its membership flips. */
    method ToggleWishlist(wishlist: Wishlist.WishlistState, currency: string)
      modifies wishlist
      ensures Wishlist.InList(old(wishlist.items), product.id) ==>
                wishlist.items == Wishlist.Removed(old(wishlist.items), product.id)
      ensures !Wishlist.InList(old(wishlist.items), product.id) ==>
                wishlist.items == Wishlist.Added(old(wishlist.items),
                  Wishlist.WishlistItem(product.id, product.name, DisplayPrice(product, currency), FirstImage(product)))
      ensures Wishlist.InList(wishlist.items, product.id) <==> !Wishlist.InList(old(wishlist.items), product.id)
    {
      if wishlist.IsInWishlist(product.id) {
        wishlist.RemoveFromWishlist(product.id);
      } else {
        var image := if |product.images| > 0 then Some(product.images[0]) else None;
        wishlist.AddToWishlist(Wishlist.WishlistItem(product.id, product.name, DisplayPrice(product, currency), image));
      }
    }
  }
}
