// src/components/Admin/AddProductModal.tsx: the "add product" form. The
// modal holds the chosen image files with their preview URLs (at most five),
// the colours and sizes entered so far, and one draft colour and one draft
// size. Submitting checks that there is an image, a colour and a size, in
// that order, uploads the images and hands the form on with the stock set
// to the sum of the sizes' stock. Preview URLs, uploads and number parsing
// are supplied by the caller.

module AddProduct {
  import Seqs
  import Currency

  /** A file chosen in the browser, by name. */
  type File = string

  datatype Color = Color(name: string, code: string)

  datatype Size = Size(name: string, stock: int)

  const MaxImages: nat := 5

  const NoImage: string := "Please add at least one image"
  const NoColor: string := "Please add at least one color"
  const NoSize: string := "Please add at least one size"

  /** What `onSubmit` receives. */
  datatype Payload = Payload(name: string, description: string, price: Currency.PriceInput,
                             category: string, isNew: bool, isFeatured: bool,
                             colors: seq<Color>, sizes: seq<Size>, stock: int, images: seq<string>)

  datatype Submission = Rejected(message: string) | Submitted(payload: Payload)

  /** `formData.sizes.reduce((sum, size) => sum + size.stock, 0)` */
  function TotalStock(sizes: seq<Size>): int
  {
    Seqs.SumInt(sizes, (s: Size) => s.stock)
  }

  /** Adding a size raises the total by its stock. */
  lemma TotalStockAppend(sizes: seq<Size>, s: Size)
    ensures TotalStock(sizes + [s]) == TotalStock(sizes) + s.stock
  {
    Seqs.SumIntAppend(sizes, [s], (x: Size) => x.stock);
  }

  class ProductForm {
    var name: string
    var description: string
    var price: string
    var category: string
    var isNew: bool
    var isFeatured: bool
    var colors: seq<Color>
    var sizes: seq<Size>
    var images: seq<File>
    var imagePreviews: seq<string>
    var newColor: Color
    var newSize: Size

    /** At most five images, one preview per image, and no size with negative stock. */
    predicate Valid()
      reads this
    {
      && |images| <= MaxImages
      && |imagePreviews| == |images|
      && forall s :: s in sizes ==> s.stock >= 0
    }

    /** The empty form the modal opens with. */
    constructor ()
      ensures Valid()
      ensures images == [] && imagePreviews == [] && colors == [] && sizes == []
      ensures newColor == Color("", "") && newSize == Size("", 0)
    {
      name, description, price, category := "", "", "", "";
      isNew, isFeatured := false, false;
      colors, sizes := [], [];
      images, imagePreviews := [], [];
      newColor, newSize := Color("", ""), Size("", 0);
    }

    /** `handleImageChange`: a batch that would take the count above five is
        refused whole; otherwise every file and its preview URL is appended. */
    method HandleImageChange(files: seq<File>, previews: seq<string>) returns (accepted: bool)
      requires Valid() && |previews| == |files|
      modifies this
      ensures accepted <==> |files| + |old(images)| <= MaxImages
      ensures accepted ==> images == old(images) + files && imagePreviews == old(imagePreviews) + previews
      ensures !accepted ==> images == old(images) && imagePreviews == old(imagePreviews)
      ensures colors == old(colors) && sizes == old(sizes)
      ensures newColor == old(newColor) && newSize == old(newSize)
      ensures Valid()
    {
      if |files| + |images| > MaxImages {
        return false;
      }
      images := images + files;
      imagePreviews := imagePreviews + previews;
      return true;
    }

    /** `removeImage(index)`: the image and its preview at that position go. */
    method RemoveImage(index: int)
      requires Valid()
      modifies this
      ensures images == Seqs.RemoveAt(old(images), index)
      ensures imagePreviews == Seqs.RemoveAt(old(imagePreviews), index)
      ensures colors == old(colors) && sizes == old(sizes)
      ensures newColor == old(newColor) && newSize == old(newSize)
      ensures Valid()
    {
      images := Seqs.RemoveAt(images, index);
      imagePreviews := Seqs.RemoveAt(imagePreviews, index);
    }

    /** `addColor`: the draft is appended when both its name and its code are
        non-empty, and then cleared; otherwise nothing changes. */
    method AddColor() returns (added: bool)
      requires Valid()
      modifies this
      ensures added <==> old(newColor).name != "" && old(newColor).code != ""
      ensures added ==> colors == old(colors) + [old(newColor)] && newColor == Color("", "")
      ensures !added ==> colors == old(colors) && newColor == old(newColor)
      ensures sizes == old(sizes) && newSize == old(newSize)
      ensures images == old(images) && imagePreviews == old(imagePreviews)
      ensures Valid()
    {
      if newColor.name == "" || newColor.code == "" {
        return false;
      }
      colors := colors + [newColor];
      newColor := Color("", "");
      return true;
    }

    method RemoveColor(index: int)
      requires Valid()
      modifies this
      ensures colors == Seqs.RemoveAt(old(colors), index)
      ensures sizes == old(sizes) && images == old(images) && imagePreviews == old(imagePreviews)
      ensures newColor == old(newColor) && newSize == old(newSize)
      ensures Valid()
    {
      colors := Seqs.RemoveAt(colors, index);
    }

    /** `addSize`: the draft is appended when it has a name and a stock of at
        least 0, and then reset; otherwise nothing changes. */
    method AddSize() returns (added: bool)
      requires Valid()
      modifies this
      ensures added <==> old(newSize).name != "" && old(newSize).stock >= 0
      ensures added ==> sizes == old(sizes) + [old(newSize)] && newSize == Size("", 0)
      ensures added ==> TotalStock(sizes) == TotalStock(old(sizes)) + old(newSize).stock
      ensures !added ==> sizes == old(sizes) && newSize == old(newSize)
      ensures colors == old(colors) && newColor == old(newColor)
      ensures images == old(images) && imagePreviews == old(imagePreviews)
      ensures Valid()
    {
      if newSize.name == "" || newSize.stock < 0 {
        return false;
      }
      TotalStockAppend(sizes, newSize);
      sizes := sizes + [newSize];
      newSize := Size("", 0);
      return true;
    }

    method RemoveSize(index: int)
      requires Valid()
      modifies this
      ensures sizes == Seqs.RemoveAt(old(sizes), index)
      ensures colors == old(colors) && images == old(images) && imagePreviews == old(imagePreviews)
      ensures newColor == old(newColor) && newSize == old(newSize)
      ensures Valid()
    {
      sizes := Seqs.RemoveAt(sizes, index);
    }

    /** `handleSubmit`: the first missing part is reported; a complete form
        is passed on with the uploaded image URLs, in order, and the stock
        summed over the sizes, which is never negative. */
    method Submit(upload: File -> string, parseFloat: string -> Currency.PriceInput) returns (r: Submission)
      requires Valid()
      ensures images == [] ==> r == Rejected(NoImage)
      ensures images != [] && colors == [] ==> r == Rejected(NoColor)
      ensures images != [] && colors != [] && sizes == [] ==> r == Rejected(NoSize)
      ensures images != [] && colors != [] && sizes != [] ==>
                && r.Submitted?
                && r.payload.stock == TotalStock(sizes) && r.payload.stock >= 0
                && |r.payload.images| == |images|
                && (forall k :: 0 <= k < |images| ==> r.payload.images[k] == upload(images[k]))
                && r.payload.colors == colors && r.payload.sizes == sizes
                && r.payload.price == parseFloat(price)
                && r.payload.name == name && r.payload.description == description
                && r.payload.category == category
                && r.payload.isNew == isNew && r.payload.isFeatured == isFeatured
    {
      if |images| == 0 {
        return Rejected(NoImage);
      }
      if |colors| == 0 {
        return Rejected(NoColor);
      }
      if |sizes| == 0 {
        return Rejected(NoSize);
      }
      var files := images;
      var urls := seq(|files|, k requires 0 <= k < |files| => upload(files[k]));
      Seqs.SumIntNonNegative(sizes, (s: Size) => s.stock);
      var total := TotalStock(sizes);
      r := Submitted(Payload(name, description, parseFloat(price), category, isNew, isFeatured,
                             colors, sizes, total, urls));
    }
  }
}
