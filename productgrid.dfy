// src/components/ProductGrid/ProductGrid.tsx: the storefront grid. A product
// refers to its category either by id or by an embedded category document;
// the grid keeps the products of the selected category and, when extra
// filters are chosen, those matching one of them by size, colour or price
// band. The category list shown beside it holds the active categories
// sorted by name.

module ProductGrid {
  import opened Common
  import Seqs
  import Text

  datatype Category = Category(id: string, name: string, isActive: bool)

  /** `product.category`: an id string, or the populated category document. */
  datatype CategoryRef = ById(id: string) | Embedded(doc: Category)

  /** The fields of a product the grid reads; colours and sizes by name. */
  datatype Product = Product(id: string, name: string, price: real, category: CategoryRef,
                             colors: seq<string>, sizes: seq<string>)

  /** `getCategoryId` */
  function CategoryId(p: Product): (r: string)
    ensures p.category.ById? ==> r == p.category.id
    ensures p.category.Embedded? ==> r == p.category.doc.id
  {
    match p.category
    case ById(id) => id
    case Embedded(doc) => doc.id
  }

  /** `categories.find(cat => cat._id === id)`: the first category with that id. */
  function FindCategory(categories: seq<Category>, id: string): (r: Option<Category>)
    ensures r.Some? ==> r.value in categories && r.value.id == id
    ensures r.None? ==> forall c :: c in categories ==> c.id != id
    ensures r.Some? ==> exists k :: 0 <= k < |categories| && categories[k] == r.value &&
                          forall j :: 0 <= j < k ==> categories[j].id != id
    decreases |categories|
  {
    if categories == [] then None
    else if categories[0].id == id then Some(categories[0])
    else
      var r := FindCategory(categories[1..], id);
      if r.Some? then
        var k :| 0 <= k < |categories[1..]| && categories[1..][k] == r.value &&
                 forall j :: 0 <= j < k ==> categories[1..][j].id != id;
        assert categories[k + 1] == r.value;
        assert forall j :: 1 <= j < k + 1 ==> categories[j] == categories[1..][j - 1];
        r
      else r
  }

  const Uncategorized: string := "Uncategorized"

  /** `getCategoryName` (also `getCategoryName` in src/components/Admin/Products.tsx):
      an embedded document gives its own name; an id is looked up, and a
      missing category or an empty name gives "Uncategorized". */
  function CategoryName(categories: seq<Category>, p: Product): (r: string)
    ensures p.category.Embedded? ==> r == p.category.doc.name
    ensures p.category.ById? && FindCategory(categories, p.category.id).None? ==> r == Uncategorized
    ensures p.category.ById? && FindCategory(categories, p.category.id).Some? ==>
              r == (if FindCategory(categories, p.category.id).value.name == "" then Uncategorized
                    else FindCategory(categories, p.category.id).value.name)
    ensures p.category.ById? ==> r != ""
  {
    match p.category
    case Embedded(doc) => doc.name
    case ById(id) =>
      match FindCategory(categories, id)
      case None => Uncategorized
      case Some(c) => if c.name != "" then c.name else Uncategorized
  }

  // ------------------------------------------------------------ price bands

  const Bands: seq<string> := ["under-50", "50-100", "100-200", "200-500", "over-500"]

  /** The `switch` on a filter value inside `hasPriceRange`. */
  predicate InBand(filter: string, price: real)
  {
    if filter == "under-50" then price < 50.0
    else if filter == "50-100" then 50.0 <= price <= 100.0
    else if filter == "100-200" then 100.0 <= price <= 200.0
    else if filter == "200-500" then 200.0 <= price <= 500.0
    else if filter == "over-500" then price > 500.0
    else false
  }

  /** Every price lies in exactly one band, except 100 and 200, which lie in
      two because neighbouring bands share their end points; a string that is
      not a band name matches no price. */
  lemma BandsCoverPrices(price: real, other: string)
    requires other !in Bands
    ensures Seqs.Count(Bands, (b: string) => InBand(b, price)) ==
            (if price == 100.0 || price == 200.0 then 2 else 1)
    ensures !InBand(other, price)
  {
    var p := (b: string) => InBand(b, price);
    assert Bands[1..][1..][1..][1..][1..] == [];
    assert Seqs.Count(Bands[1..][1..][1..][1..], p) == (if price > 500.0 then 1 else 0);
    assert Seqs.Count(Bands[1..][1..][1..], p) ==
           (if 200.0 <= price <= 500.0 then 1 else 0) + (if price > 500.0 then 1 else 0);
    assert Seqs.Count(Bands[1..][1..], p) ==
           (if 100.0 <= price <= 200.0 then 1 else 0) + (if 200.0 <= price <= 500.0 then 1 else 0)
           + (if price > 500.0 then 1 else 0);
  }

  // ----------------------------------------------------------------- filter

  predicate HasSize(filters: seq<string>, p: Product)
  {
    exists f :: f in filters && f in p.sizes
  }

  predicate HasColor(filters: seq<string>, p: Product)
  {
    exists f :: f in filters && f in p.colors
  }

  predicate HasPriceRange(filters: seq<string>, p: Product)
  {
    exists f :: f in filters && InBand(f, p.price)
  }

  /** `filterProducts(product)` for the selected category and filters. */
  predicate FilterProduct(selectedCategory: string, filters: seq<string>, p: Product)
  {
    if selectedCategory != "all" && CategoryId(p) != selectedCategory then false
    else if |filters| > 0 then HasSize(filters, p) || HasColor(filters, p) || HasPriceRange(filters, p)
    else true
  }

  /** A product passes exactly when its category is selected (or every
      category is) and, if filters are chosen, SOME filter matches one of its
      sizes, one of its colours or its price band: the three tests are joined
      by OR, not AND. */
  lemma FilterProductIff(selectedCategory: string, filters: seq<string>, p: Product)
    ensures FilterProduct(selectedCategory, filters, p) <==>
              (selectedCategory == "all" || CategoryId(p) == selectedCategory) &&
              (filters == [] ||
               exists f :: f in filters && (f in p.sizes || f in p.colors || InBand(f, p.price)))
  {
    if exists f :: f in filters && (f in p.sizes || f in p.colors || InBand(f, p.price)) {
      var f :| f in filters && (f in p.sizes || f in p.colors || InBand(f, p.price));
      assert f in p.sizes ==> HasSize(filters, p);
      assert f in p.colors ==> HasColor(filters, p);
      assert InBand(f, p.price) ==> HasPriceRange(filters, p);
    }
  }

  /** `products.filter(filterProducts)` */
  function FilteredProducts(products: seq<Product>, selectedCategory: string, filters: seq<string>): (r: seq<Product>)
    ensures Seqs.IsSubsequence(r, products)
    ensures forall x :: x in r ==> FilterProduct(selectedCategory, filters, x)
  {
    Seqs.FilterIsSubsequence(products, (x: Product) => FilterProduct(selectedCategory, filters, x));
    Seqs.Filter(products, (x: Product) => FilterProduct(selectedCategory, filters, x))
  }

  /** No product that passes is dropped. */
  lemma FilteredProductsComplete(products: seq<Product>, selectedCategory: string, filters: seq<string>)
    ensures forall x :: x in FilteredProducts(products, selectedCategory, filters) <==>
                        x in products && FilterProduct(selectedCategory, filters, x)
  {
    forall x | x in products && FilterProduct(selectedCategory, filters, x)
      ensures x in FilteredProducts(products, selectedCategory, filters)
    {
      Seqs.FilterComplete(products, (x: Product) => FilterProduct(selectedCategory, filters, x), x);
    }
  }

  /** With category "all" and no filters the grid shows every product, in order. */
  lemma NothingSelectedShowsAll(products: seq<Product>)
    ensures FilteredProducts(products, "all", []) == products
  {
    Seqs.FilterAll(products, (x: Product) => FilterProduct("all", [], x));
  }

  // -------------------------------------------------------------- categories

  /** `a.name.localeCompare(b.name) <= 0` */
  predicate NameLe(a: Category, b: Category)
  {
    Text.LexLe(a.name, b.name)
  }

  lemma NameLeIsTotalPreorder()
    ensures Seqs.TotalPreorder(NameLe)
  {
    forall a: Category, b: Category ensures NameLe(a, b) || NameLe(b, a) {
      Text.LexLeTotal(a.name, b.name);
    }
    forall a: Category, b: Category, c: Category | NameLe(a, b) && NameLe(b, c) ensures NameLe(a, c) {
      Text.LexLeTransitive(a.name, b.name, c.name);
    }
  }

  predicate IsActive(c: Category) { c.isActive }

  /** `fetchCategories`: the active categories, sorted by name. */
  function ActiveCategories(fetched: seq<Category>): (r: seq<Category>)
    ensures multiset(r) == multiset(Seqs.Filter(fetched, IsActive))
  {
    Seqs.SortBy(Seqs.Filter(fetched, IsActive), NameLe)
  }

  /** The list holds exactly the active categories, sorted by name. */
  lemma ActiveCategoriesSpec(fetched: seq<Category>)
    ensures forall c :: c in ActiveCategories(fetched) <==> c in fetched && c.isActive
    ensures Seqs.SortedBy(ActiveCategories(fetched), NameLe)
  {
    var active := Seqs.Filter(fetched, IsActive);
    forall c | c in fetched && c.isActive ensures c in active {
      Seqs.FilterComplete(fetched, IsActive, c);
    }
    forall c ensures c in ActiveCategories(fetched) <==> c in active {
      assert c in multiset(ActiveCategories(fetched)) <==> c in multiset(active);
    }
    NameLeIsTotalPreorder();
    Seqs.SortBySorted(active, NameLe);
  }
}
