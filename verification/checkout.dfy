/** The checkout page: the total it shows, the guard and payload of its submit, and what
    the backend does with that payload. */
module CheckoutPage {
  import opened Common
  import opened Text
  import opened Tables
  import opened Schema
  import opened Api
  import opened CartPage
  import opened OrderRoutes

  /** The body `createOrder` sends; `None` is a field left undefined. */
  datatype OrderRequest = OrderRequest(
    userName: Option<string>, userPhone: string, userAddress: Option<string>,
    items: seq<CartItem>, total: int)

  /** The submit's guard and payload: nothing is sent when the phone is blank; otherwise
      name and address are trimmed (dropped when empty), the phone is trimmed, and the
      items and total are those on screen. */
  function BuildRequest(name: string, phone: string, address: string, items: seq<CartItem>): (r: Option<OrderRequest>)
    ensures r.None? <==> IsBlank(phone)
    ensures r.Some? ==>
      && r.value.userName == TrimmedOrNone(name)
      && r.value.userPhone == Trim(phone) && r.value.userPhone != ""
      && r.value.userAddress == TrimmedOrNone(address)
      && r.value.items == items && r.value.total == Total(items)
  {
    TrimEmptyIffBlank(phone);
    if Trim(phone) == "" then None
    else Some(OrderRequest(TrimmedOrNone(name), Trim(phone), TrimmedOrNone(address), items, Total(items)))
  }

  /** The page's state. */
  class CheckoutForm {
    var items: seq<CartItem>
    var submitting: bool
    var name: string
    var phone: string
    var address: string

    constructor (items: seq<CartItem>)
      ensures this.items == items && !submitting && name == "" && phone == "" && address == ""
    {
      this.items := items;
      submitting := false;
      name, phone, address := "", "", "";
    }

    /** `handleSubmit`. `succeeds` is the outcome of the order request. Returns the request
        sent (none when the phone is blank), whether `submitting` was set while it was in
        flight, and whether `onDone` was called, which happens only after a success. */
    method HandleSubmit(succeeds: bool) returns (sent: Option<OrderRequest>, busyDuringRequest: bool, doneCalled: bool)
      modifies this`submitting
      ensures sent == old(BuildRequest(name, phone, address, items))
      ensures sent.None? ==> !busyDuringRequest && !doneCalled && submitting == old(submitting)
      ensures sent.Some? ==> busyDuringRequest && !submitting
      ensures doneCalled <==> sent.Some? && succeeds
    {
      sent := BuildRequest(name, phone, address, items);
      busyDuringRequest, doneCalled := false, false;
      if sent.None? {
        return;
      }
      submitting := true;
      busyDuringRequest := submitting;
      if succeeds {
        doneCalled := true;
      }
      submitting := false;
    }
  }

  /** The JSON body the backend receives for a request: the items travel as a JSON array
      (`encode` stands for the serialisation of one line), undefined fields as absent. */
  function BodyOf(req: OrderRequest, encode: CartItem -> JsValue): OrderBody
  {
    OrderBody(req.userName, Some(req.userPhone), req.userAddress,
              Arr(seq(|req.items|, k requires 0 <= k < |req.items| => encode(req.items[k]))), Some(req.total))
  }

  /** Every request the page sends passes the backend's guard, even with an empty cart, and
      the stored order carries the trimmed contact fields and exactly the total the page
      displayed. */
  lemma CheckoutAccepted(name: string, phone: string, address: string, items: seq<CartItem>,
                         encode: CartItem -> JsValue, stringify: JsValue -> string, id: int, userId: string, at: nat)
    requires !IsBlank(phone)
    ensures var req := BuildRequest(name, phone, address, items).value;
      && Accepted(BodyOf(req, encode))
      && var o := NewOrder(id, userId, BodyOf(req, encode), stringify, at);
         && o.total == Total(items) && o.status == PendingStatus
         && o.userPhone == Some(Trim(phone)) && o.userName == TrimmedOrNone(name)
         && o.userAddress == TrimmedOrNone(address)
  {
  }
}
