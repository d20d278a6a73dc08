// src/components/Cart/PaymentForm.tsx: the last checkout step. Submitting
// builds the order request from the cart and the shipping form, posts it to
// `POST /api/orders`, and on success shows the confirmation with the order
// number and empties the cart; on failure it shows the server's message.
// The server's reply is an input (the response of the order controller).

module PaymentForm {
  import opened Common
  import Seqs
  import Text
  import OrderController

  /** A cart line, with the fields the payload copies. */
  datatype CartEntry = CartEntry(id: string, quantity: int, price: real, size: Option<string>, color: Option<string>)

  /** The shipping form's fields. */
  datatype ShippingData = ShippingData(firstName: string, lastName: string, email: string, mobile: string,
                                       countryCode: string, address: string, city: string, postalCode: string)

  const DefaultMethod: string := "card"
  const FallbackError: string := "Failed to create order"

  /** `${countryCode}${mobile.replace(/\D/g, '')}` */
  function Mobile(sd: ShippingData): (r: string)
    ensures |r| == |sd.countryCode| + Seqs.Count(sd.mobile, Text.IsDigit)
    ensures r[..|sd.countryCode|] == sd.countryCode
    ensures forall c :: c in r[|sd.countryCode|..] ==> Text.IsDigit(c)
    ensures Seqs.IsSubsequence(r[|sd.countryCode|..], sd.mobile)
  {
    sd.countryCode + Text.DigitsOnly(sd.mobile)
  }

  function LineOf(item: CartEntry): OrderController.LineRequest
  {
    OrderController.LineRequest(item.id, item.quantity, item.price, item.size, item.color)
  }

  /** `orderData` */
  function Payload(items: seq<CartEntry>, sd: ShippingData, paymentMethod: string, total: real): OrderController.OrderRequest
  {
    OrderController.OrderRequest(
      Some(seq(|items|, k requires 0 <= k < |items| => LineOf(items[k]))),
      Some(OrderController.Address(Some(sd.address), Some(sd.city), Some(sd.postalCode), Some("US"))),
      Some(paymentMethod),
      Some(OrderController.CustomerInfo(Some(sd.firstName), Some(sd.lastName), Some(sd.email), Some(Mobile(sd)))),
      Some(total))
  }

  /** One line per cart entry, in order, naming the entry's product with its
      quantity, price, size and colour; the address fields renamed, with the
      country fixed to US; the client's total carried along. */
  lemma PayloadSpec(items: seq<CartEntry>, sd: ShippingData, paymentMethod: string, total: real)
    ensures var req := Payload(items, sd, paymentMethod, total);
            && req.items.Some? && |req.items.value| == |items|
            && (forall k :: 0 <= k < |items| ==>
                  && req.items.value[k].product == items[k].id
                  && req.items.value[k].quantity == items[k].quantity
                  && req.items.value[k].price == items[k].price
                  && req.items.value[k].size == items[k].size
                  && req.items.value[k].color == items[k].color)
            && req.shippingAddress == Some(OrderController.Address(Some(sd.address), Some(sd.city), Some(sd.postalCode), Some("US")))
            && req.customerInfo.Some? && req.customerInfo.value.email == Some(sd.email)
            && req.customerInfo.value.mobile == Some(sd.countryCode + Text.DigitsOnly(sd.mobile))
            && req.paymentMethod == Some(paymentMethod) && req.totalAmount == Some(total)
  {
  }

  /** The request passes the server's checks exactly when the cart is not
      empty and the email, the mobile number (country code included), the
      address, the city and the postal code are not empty. */
  lemma PayloadValidation(items: seq<CartEntry>, sd: ShippingData, paymentMethod: string, total: real)
    ensures OrderController.Validate(Payload(items, sd, paymentMethod, total)).None? <==>
              |items| > 0 && sd.email != "" && Mobile(sd) != "" &&
              sd.address != "" && sd.city != "" && sd.postalCode != ""
  {
  }

  /** The total the client shows plays no part in the order the server
      places: two payloads differing only in it place the same order. */
  lemma ClientTotalIgnored(products: map<string, OrderController.Catalog.Product>, items: seq<CartEntry>,
                           sd: ShippingData, paymentMethod: string, t1: real, t2: real, now: nat, newId: string, saved: bool)
    ensures OrderController.PlaceOrder(products, Payload(items, sd, paymentMethod, t1), now, newId, saved) ==
            OrderController.PlaceOrder(products, Payload(items, sd, paymentMethod, t2), now, newId, saved)
  {
  }

  /** `error.response?.data?.message || 'Failed to create order'` */
  function ErrorMessage(serverMessage: Option<string>): (r: string)
    ensures Truthy(serverMessage) ==> r == serverMessage.value
    ensures !Truthy(serverMessage) ==> r == FallbackError
    ensures r != ""
  {
    if Truthy(serverMessage) then serverMessage.value else FallbackError
  }

  /** What the form learns from `api.post`: the order number on success,
      the body's message (if any) on failure. */
  datatype Reply = Placed(orderNumber: string) | Failed(message: Option<string>)

  /** The reply the client sees for a response of the order controller. */
  function ReplyOf(res: OrderController.Response): (r: Reply)
    ensures res.Created? <==> r.Placed?
  {
    match res
    case Created(_, orderNumber, _, _) => Placed(orderNumber)
    case Error(_, message) => Failed(Some(message))
    case Updated(_) => Failed(None)
  }

  /** Any request the server turns down is shown with the server's own reason. */
  lemma RejectionsShowServerReason(res: OrderController.Response)
    requires res.Error? && res.message != ""
    ensures ReplyOf(res).Failed? && ErrorMessage(ReplyOf(res).message) == res.message
  {
  }

  class Checkout {
    var paymentMethod: string
    var isProcessing: bool
    var showConfirmation: bool
    var orderNumber: string
    /** The cart context's items. */
    var cart: seq<CartEntry>

    constructor (cart: seq<CartEntry>)
      ensures this.cart == cart && paymentMethod == DefaultMethod
      ensures !isProcessing && !showConfirmation && orderNumber == ""
    {
      this.cart := cart;
      paymentMethod := DefaultMethod;
      isProcessing, showConfirmation, orderNumber := false, false, "";
    }

    /** Choosing card or cash on delivery. */
    method ChooseMethod(m: string)
      requires m == "card" || m == "cod"
      modifies this
      ensures paymentMethod == m
      ensures cart == old(cart) && showConfirmation == old(showConfirmation) && orderNumber == old(orderNumber)
    {
      paymentMethod := m;
    }

    /** `handleSubmit`: the payload sent is built from the cart as it stands;
        a placed order sets the order number, shows the confirmation and
        empties the cart; a failure shows the error and keeps the cart. */
    method HandleSubmit(sd: ShippingData, total: real, reply: Reply) returns (sent: OrderController.OrderRequest, error: Option<string>)
      modifies this
      ensures sent == Payload(old(cart), sd, old(paymentMethod), total)
      ensures reply.Placed? ==> orderNumber == reply.orderNumber && showConfirmation && cart == [] && error.None?
      ensures reply.Failed? ==> cart == old(cart) && orderNumber == old(orderNumber)
                                && showConfirmation == old(showConfirmation)
                                && error == Some(ErrorMessage(reply.message))
      ensures !isProcessing && paymentMethod == old(paymentMethod)
    {
      isProcessing := true;
      var items := cart;
      var lines := seq(|items|, k requires 0 <= k < |items| => LineOf(items[k]));
      sent := OrderController.OrderRequest(
        Some(lines),
        Some(OrderController.Address(Some(sd.address), Some(sd.city), Some(sd.postalCode), Some("US"))),
        Some(paymentMethod),
        Some(OrderController.CustomerInfo(Some(sd.firstName), Some(sd.lastName), Some(sd.email),
                                          Some(sd.countryCode + Text.DigitsOnly(sd.mobile)))),
        Some(total));
      match reply {
        case Placed(number) =>
          orderNumber := number;
          showConfirmation := true;
          cart := [];
          error := None;
        case Failed(message) =>
          error := Some(ErrorMessage(message));
      }
      isProcessing := false;
    }
  }
}
