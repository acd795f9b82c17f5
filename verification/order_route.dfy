/** The older order router: `/create` checks three fields by truthiness, asks the gateway
    for an order and stores a pending row; `/verify` checks the gateway's signature and marks
    the row completed. Neither runs behind the token gate or the validators, and every error
    becomes a 500 reply. */
module OrderRoute {
  import opened Wrappers
  import opened Text
  import opened JsValue
  import opened Gateway
  import opened Middleware
  import opened OrdersModel

  /** `err.message || fallback`. */
  function ErrorText(message: string, fallback: string): (text: string)
    ensures message != "" ==> text == message
    ensures message == "" ==> text == fallback
    ensures fallback != "" ==> text != ""
  {
    if message != "" then message else fallback
  }

  datatype Created = Created(razorpayOrder: GatewayOrder, dbOrder: OrderRow)

  /** `POST /create`. A falsy user, ebook or amount (so an amount of 0 as well) gives 400
      "Missing fields" and touches nothing; otherwise the gateway is asked for `amount * 100`
      paise in INR and a pending row with only the user and the ebook is stored. */
  method Create(orders: OrderTable, body: Body, gateway: OrdersApi, now: int, failure: Option<string>)
    returns (reply: Reply<Created>, request: Option<OrderRequest>)
    requires orders.Valid()
    modifies orders
    ensures orders.Valid()
    ensures !reply.Ok? ==> orders.rows == old(orders.rows)
    ensures reply == Status(400, "Missing fields") <==>
      !Truthy(Field(body, "userId")) || !Truthy(Field(body, "ebookId")) || !Truthy(Field(body, "amount"))
    ensures reply == Status(400, "Missing fields") ==> request == None
    ensures reply != Status(400, "Missing fields") ==>
      request == Some(OrderRequest(Paise(Field(body, "amount")), "INR", EbookReceipt(Field(body, "ebookId"), now)))
    ensures request.Some? && gateway(request.value).Failure? ==>
      reply == Status(500, ErrorText(gateway(request.value).error, "Failed to create Razorpay order"))
    ensures reply.Status? && reply.code == 500 ==> request.Some? && (gateway(request.value).Failure? || failure.Some?)
    ensures request.Some? && gateway(request.value).Success? && failure.Some? ==>
      reply == Status(500, ErrorText(failure.value, "Failed to create Razorpay order"))
    ensures request.Some? ==> (reply.Ok? <==> gateway(request.value).Success? && failure.None?)
    ensures reply.Status? ==> reply.code == 400 || reply.code == 500
    ensures reply.Ok? ==>
      request.Some? && gateway(request.value).Success? && failure.None? &&
      reply.payload.razorpayOrder == gateway(request.value).value &&
      orders.rows == old(orders.rows) + [reply.payload.dbOrder] &&
      reply.payload.dbOrder.userId == Field(body, "userId") && reply.payload.dbOrder.ebookId == Field(body, "ebookId") &&
      reply.payload.dbOrder.status == Str("pending") && reply.payload.dbOrder.amount == Null
    ensures reply.Ok? || reply.Status?
  {
    var userId, ebookId, amount := Field(body, "userId"), Field(body, "ebookId"), Field(body, "amount");
    if !Truthy(userId) || !Truthy(ebookId) || !Truthy(amount) {
      return Status(400, "Missing fields"), None;
    }
    var options := OrderRequest(Paise(amount), "INR", EbookReceipt(ebookId, now));
    request := Some(options);
    var razorpayOrder := gateway(options);
    if razorpayOrder.Failure? {
      return Status(500, ErrorText(razorpayOrder.error, "Failed to create Razorpay order")), request;
    }
    var dbOrder := OrdersModel.CreateOrder(orders, userId, ebookId, now, failure);
    if dbOrder.Failure? {
      return Status(500, ErrorText(dbOrder.error, "Failed to create Razorpay order")), request;
    }
    reply := Ok(Created(razorpayOrder.value, dbOrder.value));
  }

  /** `POST /verify`. No field is checked first. A signature that does not match gives 400
      and changes nothing; otherwise the row with `orderId` becomes "completed" and is
      returned, or the datastore's error gives 500. */
  method Verify(orders: OrderTable, body: Body, hmac: Signer, failure: Option<string>)
    returns (reply: Reply<OrderRow>)
    requires orders.Valid()
    modifies orders
    ensures orders.Valid()
    ensures !SignatureMatches(hmac, Field(body, "razorpay_order_id"), Field(body, "razorpay_payment_id"), Field(body, "razorpay_signature")) ==>
      reply == Status(400, "Payment verification failed") && orders.rows == old(orders.rows)
    ensures !reply.Ok? ==> orders.rows == old(orders.rows)
    ensures reply.Ok? || reply.Status?
    ensures reply.Status? && reply.code == 500 ==>
      failure.Some? || !exists i :: 0 <= i < |old(orders.rows)| && IdIs(old(orders.rows)[i], Field(body, "orderId"))
    ensures reply.Ok? <==>
      SignatureMatches(hmac, Field(body, "razorpay_order_id"), Field(body, "razorpay_payment_id"), Field(body, "razorpay_signature")) &&
      failure.None? && exists i :: 0 <= i < |old(orders.rows)| && IdIs(old(orders.rows)[i], Field(body, "orderId"))
    ensures reply.Ok? ==>
      var k := MatchIndex(old(orders.rows), Field(body, "orderId"));
      k < |old(orders.rows)| && reply.payload == old(orders.rows)[k].(status := Str("completed")) &&
      orders.rows == old(orders.rows)[k := reply.payload]
  {
    if !SignatureMatches(hmac, Field(body, "razorpay_order_id"), Field(body, "razorpay_payment_id"), Field(body, "razorpay_signature")) {
      return Status(400, "Payment verification failed");
    }
    var updated := UpdateOrderStatus(orders, Field(body, "orderId"), Str("completed"), failure);
    if updated.Failure? {
      return Status(500, ErrorText(updated.error, "Payment verification failed"));
    }
    reply := Ok(updated.value);
  }
}
