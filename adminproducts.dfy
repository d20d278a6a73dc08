// src/components/Admin/Products.tsx: the admin product table. It names each
// product's category as the storefront grid does, adds a product by sending
// the form with its price converted back to US dollars and appending what
// the server returns, and deletes a product by id. The list changes only
// after the request succeeds; whether it did is an input.

module AdminProducts {
  import opened Common
  import Seqs
  import Currency
  import ProductGrid
  import AddProduct

  /** A row of the table: the fields the handlers read. */
  datatype Product = Product(id: string, name: string, price: real, category: ProductGrid.CategoryRef)

  /** `getCategoryName`, which is the grid's rule: an embedded category gives
      its own name, an id is looked up, and a missing category or an empty
      name gives "Uncategorized". */
  function CategoryName(categories: seq<ProductGrid.Category>, p: Product): (r: string)
    ensures p.category.Embedded? ==> r == p.category.doc.name
    ensures p.category.ById? && ProductGrid.FindCategory(categories, p.category.id).None? ==> r == ProductGrid.Uncategorized
    ensures p.category.ById? && ProductGrid.FindCategory(categories, p.category.id).Some? ==>
              r == (if ProductGrid.FindCategory(categories, p.category.id).value.name == "" then ProductGrid.Uncategorized
                    else ProductGrid.FindCategory(categories, p.category.id).value.name)
    ensures p.category.ById? ==> r != ""
  {
    ProductGrid.CategoryName(categories, ProductGrid.Product(p.id, p.name, p.price, p.category, [], []))
  }

  /** The body of `POST /products`: the form with its price in US dollars. */
  function Outgoing(form: AddProduct.Payload, currency: string): AddProduct.Payload
  {
    form.(price := Currency.Number(Currency.ConvertPrice(form.price, currency, Currency.USD)))
  }

  /** The price sent is the form's price when the admin works in dollars, 0
      for what is not a number, and a whole number of cents within half a
      cent of the exact dollar value when the currency is ILS or EUR. */
  lemma OutgoingPriceInDollars(form: AddProduct.Payload, currency: string)
    ensures currency == Currency.USD && form.price.Number? ==> Outgoing(form, currency).price == form.price
    ensures form.price.NotANumber? ==> Outgoing(form, currency).price == Currency.Number(0.0)
    ensures form.price.Number? && (currency == Currency.ILS || currency == Currency.EUR) ==>
              var sent := Outgoing(form, currency).price.value;
              && Currency.IsCents(sent)
              && -0.005 <= sent - form.price.value / Currency.Rate(currency) <= 0.005
  {
    if form.price.Number? && (currency == Currency.ILS || currency == Currency.EUR) {
      assert Currency.Exact(form.price.value, currency, Currency.USD) == form.price.value / Currency.Rate(currency) * 1.0;
    }
  }

  /** `products.filter(product => product._id !== id)` */
  function WithoutId(products: seq<Product>, id: string): (r: seq<Product>)
    ensures forall p :: p in r <==> p in products && p.id != id
    ensures Seqs.IsSubsequence(r, products)
  {
    Seqs.FilterIsSubsequence(products, (p: Product) => p.id != id);
    forall p | p in products && p.id != id ensures p in Seqs.Filter(products, (p: Product) => p.id != id) {
      Seqs.FilterComplete(products, (p: Product) => p.id != id, p);
    }
    Seqs.Filter(products, (p: Product) => p.id != id)
  }

  /** Deleting the product the table just added gives back the table as it
      was, when its id was new. */
  lemma AddThenDelete(products: seq<Product>, created: Product)
    requires forall p :: p in products ==> p.id != created.id
    ensures WithoutId(products + [created], created.id) == products
  {
    var keep := (p: Product) => p.id != created.id;
    Seqs.FilterAppend(products, [created], keep);
    Seqs.FilterAll(products, keep);
    assert Seqs.Filter([created], keep) == [];
  }

  // ------------------------------------------------------ the add flow

  /** A toast shown to the admin. */
  datatype Toast = Success(text: string) | Failure(text: string)

  const Added: string := "Product added successfully!"
  const AddFailed: string := "Failed to add product"
  /** The modal's own toast once `onSubmit` has returned. */
  const ModalAdded: string := "Product added successfully"

  /** The table, the modal's visibility and the toasts after one press of
      the modal's submit button. */
  datatype AddFlow = AddFlow(products: seq<Product>, modalOpen: bool, toasts: seq<Toast>)

  /** The flow as written: the modal awaits `onSubmit`, which is
      `handleAddProduct`; that handler catches a failed request itself, so
      the modal goes on to `onClose()` and its success toast whatever the
      server answered. */
  function AddFlowAsWritten(products: seq<Product>, submission: AddProduct.Submission, returned: Option<Product>): AddFlow
  {
    match submission
    case Rejected(message) => AddFlow(products, true, [Failure(message)])
    case Submitted(_) =>
      if returned.Some? then AddFlow(products + [returned.value], false, [Success(Added), Success(ModalAdded)])
      else AddFlow(products, false, [Failure(AddFailed), Success(ModalAdded)])
  }

  /** A request the server refuses closes the modal, throwing the form away,
      and the admin is told the product was added, although the table has
      not changed. */
  lemma FailedAddReportsSuccess(products: seq<Product>, payload: AddProduct.Payload)
    ensures var r := AddFlowAsWritten(products, AddProduct.Submitted(payload), None);
            && r.products == products
            && !r.modalOpen
            && Success(ModalAdded) in r.toasts
  {
    assert AddFlowAsWritten(products, AddProduct.Submitted(payload), None).toasts[1] == Success(ModalAdded);
  }

  /** The flow with the failure passed back to the modal: the modal closes
      and reports success only when the product was stored. */
  function AddFlowFixed(products: seq<Product>, submission: AddProduct.Submission, returned: Option<Product>): (r: AddFlow)
    ensures submission.Rejected? ==> r == AddFlow(products, true, [Failure(submission.message)])
    ensures submission.Submitted? && returned.Some? ==>
              r.products == products + [returned.value] && !r.modalOpen
    ensures submission.Submitted? && returned.None? ==>
              r.products == products && r.modalOpen && r.toasts == [Failure(AddFailed)]
    ensures (exists t :: t in r.toasts && t.Success?) <==> submission.Submitted? && returned.Some?
  {
    match submission
    case Rejected(message) => AddFlow(products, true, [Failure(message)])
    case Submitted(_) =>
      if returned.Some? then
        var r := AddFlow(products + [returned.value], false, [Success(Added), Success(ModalAdded)]);
        assert r.toasts[0].Success?;
        r
      else AddFlow(products, true, [Failure(AddFailed)])
  }

  class ProductList {
    var products: seq<Product>
    var isAddModalOpen: bool

    constructor (fetched: seq<Product>)
      ensures products == fetched && !isAddModalOpen
    {
      products := fetched;
      isAddModalOpen := false;
    }

    /** `handleAddProduct`: the form goes out with its price in dollars; the
        product the server returns is appended and the modal closed, and a
        failed request changes nothing. */
    method HandleAddProduct(form: AddProduct.Payload, currency: string, returned: Option<Product>)
      returns (sent: AddProduct.Payload)
      modifies this
      ensures sent == Outgoing(form, currency)
      ensures returned.Some? ==> products == old(products) + [returned.value] && !isAddModalOpen
      ensures returned.None? ==> products == old(products) && isAddModalOpen == old(isAddModalOpen)
    {
      var usdPrice := Currency.ConvertPrice(form.price, currency, Currency.USD);
      sent := form.(price := Currency.Number(usdPrice));
      if returned.Some? {
        products := products + [returned.value];
        isAddModalOpen := false;
      }
    }

    /** The modal's submit button as written: `handleSubmit` checks the
        form and, when it is complete, awaits `handleAddProduct`, then calls
        `onClose` and shows its own success toast. */
    method SubmitAddForm(form: AddProduct.ProductForm, upload: AddProduct.File -> string,
                         parseFloat: string -> Currency.PriceInput, currency: string, returned: Option<Product>)
      returns (submission: AddProduct.Submission, sent: Option<AddProduct.Payload>, toasts: seq<Toast>)
      requires form.Valid() && isAddModalOpen
      modifies this
      ensures submission.Submitted? <==> form.images != [] && form.colors != [] && form.sizes != []
      ensures sent.Some? <==> submission.Submitted?
      ensures sent.Some? ==> sent.value == Outgoing(submission.payload, currency)
      ensures AddFlow(products, isAddModalOpen, toasts) == AddFlowAsWritten(old(products), submission, returned)
    {
      submission := form.Submit(upload, parseFloat);
      if submission.Rejected? {
        return submission, None, [Failure(submission.message)];
      }
      var body := HandleAddProduct(submission.payload, currency, returned);
      sent := Some(body);
      toasts := if returned.Some? then [Success(Added)] else [Failure(AddFailed)];
      isAddModalOpen := false;
      toasts := toasts + [Success(ModalAdded)];
    }

    /** The submit button with `handleAddProduct` passing its failure back
        to the modal, which then keeps itself open. */
    method SubmitAddFormFixed(form: AddProduct.ProductForm, upload: AddProduct.File -> string,
                              parseFloat: string -> Currency.PriceInput, currency: string, returned: Option<Product>)
      returns (submission: AddProduct.Submission, sent: Option<AddProduct.Payload>, toasts: seq<Toast>)
      requires form.Valid() && isAddModalOpen
      modifies this
      ensures submission.Submitted? <==> form.images != [] && form.colors != [] && form.sizes != []
      ensures sent.Some? <==> submission.Submitted?
      ensures sent.Some? ==> sent.value == Outgoing(submission.payload, currency)
      ensures AddFlow(products, isAddModalOpen, toasts) == AddFlowFixed(old(products), submission, returned)
    {
      submission := form.Submit(upload, parseFloat);
      if submission.Rejected? {
        return submission, None, [Failure(submission.message)];
      }
      var body := HandleAddProduct(submission.payload, currency, returned);
      sent := Some(body);
      if returned.None? {
        return submission, sent, [Failure(AddFailed)];
      }
      isAddModalOpen := false;
      toasts := [Success(Added), Success(ModalAdded)];
    }

    /** `handleDeleteProduct`: after a successful delete every row with that
        id goes and the rest keep their order; a failed request changes nothing. */
    method HandleDeleteProduct(id: string, succeeded: bool)
      modifies this
      ensures succeeded ==> products == WithoutId(old(products), id)
      ensures !succeeded ==> products == old(products)
      ensures isAddModalOpen == old(isAddModalOpen)
    {
      if succeeded {
        products := Seqs.Filter(products, (p: Product) => p.id != id);
      }
    }
  }
}
