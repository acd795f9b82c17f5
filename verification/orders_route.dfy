/** The orders router that talks to the datastore directly: `/create` stores a pending order
    with a default currency and affiliate code, `/update-status` writes a status and the
    payment identifiers and, for a paid order with an affiliate code, tries to mail the
    affiliate. Every datastore error becomes a 500 reply with a fixed message. */
module OrdersRoute {
  import opened Wrappers
  import opened Text
  import opened JsValue
  import opened Query
  import opened Middleware
  import opened OrdersModel

  /** `POST /create`: one pending row with the body's user, ebook and amount, its currency
      or "INR", and its affiliate code or null. */
  method Create(orders: OrderTable, body: Body, now: int, failure: Option<string>) returns (reply: Reply<OrderRow>)
    requires orders.Valid()
    modifies orders
    ensures orders.Valid()
    ensures failure.Some? ==> reply == Status(500, "Failed to create order") && orders.rows == old(orders.rows)
    ensures failure.None? ==> reply.Ok? && orders.rows == old(orders.rows) + [reply.payload]
    ensures reply.Ok? ==>
      var row := reply.payload;
      row.status == Str("pending") && row.id == old(orders.nextId) && row.createdAt == now &&
      row.userId == Column(Field(body, "userId")) && row.ebookId == Column(Field(body, "ebookId")) &&
      row.amount == Column(Field(body, "amount")) &&
      row.currency == (if Truthy(Field(body, "currency")) then Field(body, "currency") else Str("INR")) &&
      row.affiliateCode == (if Truthy(Field(body, "affiliateCode")) then Field(body, "affiliateCode") else Null)
  {
    var draft := OrderDraft(Field(body, "userId"), Field(body, "ebookId"), Field(body, "amount"),
                            Or(Field(body, "currency"), Str("INR")), Or(Field(body, "affiliateCode"), Null), Str("pending"));
    var inserted := orders.Insert(draft, now, failure);
    if inserted.Failure? {
      return Status(500, "Failed to create order");
    }
    reply := Ok(inserted.value);
  }

  /** A row of the `affiliates` table as `notifyAffiliate` selects it. */
  datatype AffiliateRow = AffiliateRow(code: Value, name: Value, email: Value)

  /** A row of the `users` table as `notifyAffiliate` selects it. */
  datatype UserRow = UserRow(id: Value, name: Value)

  /** The sale notification: recipient, affiliate's name, buyer's name, amount and time. */
  datatype SaleEmail = SaleEmail(to: Value, affiliateName: Value, buyerName: Value, amount: Value, time: int)

  /** What the `sendEmail` the router imports is. The mail helper it imports from exports no
      `sendEmail`, so in this repository it is `Missing` and calling it throws. */
  datatype Sender = Missing | Sends | Throws(message: string)

  /** `.eq("code", order.affiliate_code).single()`. */
  function AffiliateFor(affiliates: seq<AffiliateRow>, code: Value): (r: Option<AffiliateRow>)
    ensures r.Some? ==> r.value in affiliates && Matches(r.value.code, code)
    ensures r.None? <==> Count(affiliates, (a: AffiliateRow) => Matches(a.code, code)) != 1
  {
    Single(affiliates, (a: AffiliateRow) => Matches(a.code, code))
  }

  /** `buyer?.name || "Anonymous"` for the user `.eq("id", order.user_id).single()` finds. */
  function BuyerName(users: seq<UserRow>, userId: Value): (name: Value)
    ensures Truthy(name)
    ensures Single(users, (u: UserRow) => Matches(u.id, userId)).None? ==> name == Str("Anonymous")
    ensures var buyer := Single(users, (u: UserRow) => Matches(u.id, userId));
      buyer.Some? ==> name == (if Truthy(buyer.value.name) then buyer.value.name else Str("Anonymous"))
  {
    var buyer := Single(users, (u: UserRow) => Matches(u.id, userId));
    Or(if buyer.Some? then buyer.value.name else Undefined, Str("Anonymous"))
  }

  /** `notifyAffiliate(order)`: no affiliate with the order's code (or several) means no
      mail; otherwise the mail is composed for the affiliate and handed to `sendEmail`.
      Whatever the sending throws is caught: the result says only whether a mail was
      composed and whether it went out, which needs a sender that exists and succeeds. */
  method NotifyAffiliate(affiliates: seq<AffiliateRow>, users: seq<UserRow>, order: OrderRow, sendEmail: Sender)
    returns (mail: Option<SaleEmail>, delivered: bool)
    ensures AffiliateFor(affiliates, order.affiliateCode).None? ==> mail == None
    ensures AffiliateFor(affiliates, order.affiliateCode).Some? ==>
      var affiliate := AffiliateFor(affiliates, order.affiliateCode).value;
      mail == Some(SaleEmail(affiliate.email, affiliate.name, BuyerName(users, order.userId), order.amount, order.createdAt))
    ensures delivered <==> mail.Some? && sendEmail == Sends
  {
    var affiliate := AffiliateFor(affiliates, order.affiliateCode);
    if affiliate.None? {
      return None, false;
    }
    var buyerName := BuyerName(users, order.userId);
    mail := Some(SaleEmail(affiliate.value.email, affiliate.value.name, buyerName, order.amount, order.createdAt));
    match sendEmail
    case Missing => delivered := false;
    case Throws(_) => delivered := false;
    case Sends => delivered := true;
  }

  /** A payment identifier as the patch writes it: a truthy value, or null. */
  predicate IdOrNull(v: Value) {
    Truthy(v) || v.Null?
  }

  /** The patch `/update-status` writes: the status, and each payment identifier of
      `paymentData` or null. */
  function StatusPatch(body: Body): (p: OrderPatch)
    ensures p.status == Field(body, "status")
    ensures IdOrNull(p.razorpayOrderId) && IdOrNull(p.razorpayPaymentId) && IdOrNull(p.razorpaySignature)
    ensures var data := Field(body, "paymentData");
      p.razorpayOrderId == (if Truthy(Member(data, "razorpay_order_id")) then Member(data, "razorpay_order_id") else Null) &&
      p.razorpayPaymentId == (if Truthy(Member(data, "razorpay_payment_id")) then Member(data, "razorpay_payment_id") else Null) &&
      p.razorpaySignature == (if Truthy(Member(data, "razorpay_signature")) then Member(data, "razorpay_signature") else Null)
  {
    var data := Field(body, "paymentData");
    OrderPatch(Field(body, "status"), Or(Member(data, "razorpay_order_id"), Null),
               Or(Member(data, "razorpay_payment_id"), Null), Or(Member(data, "razorpay_signature"), Null))
  }

  /** `POST /update-status`. Exactly one row with `orderId` is patched and returned; with
      no such row, or a datastore error, nothing changes and the reply is 500. A mail is
      attempted only when the status is exactly "paid" and the updated row has a truthy
      affiliate code, and it never changes the reply. */
  method UpdateStatus(orders: OrderTable, affiliates: seq<AffiliateRow>, users: seq<UserRow>, body: Body,
                      sendEmail: Sender, failure: Option<string>)
    returns (reply: Reply<OrderRow>, mail: Option<SaleEmail>, delivered: bool)
    requires orders.Valid()
    modifies orders
    ensures orders.Valid()
    ensures reply.Ok? || reply == Status(500, "Failed to update order status")
    ensures !reply.Ok? ==> orders.rows == old(orders.rows) && mail == None && !delivered
    ensures reply.Ok? <==>
      failure.None? && exists i :: 0 <= i < |old(orders.rows)| && IdIs(old(orders.rows)[i], Field(body, "orderId"))
    ensures reply.Ok? ==>
      var k := MatchIndex(old(orders.rows), Field(body, "orderId"));
      k < |old(orders.rows)| && reply.payload == Patched(old(orders.rows)[k], StatusPatch(body)) &&
      orders.rows == old(orders.rows)[k := reply.payload]
    ensures mail.Some? ==> reply.Ok? && Field(body, "status") == Str("paid") && Truthy(reply.payload.affiliateCode)
    ensures reply.Ok? && Field(body, "status") == Str("paid") && Truthy(reply.payload.affiliateCode) ==>
      (mail.Some? <==> AffiliateFor(affiliates, reply.payload.affiliateCode).Some?)
    ensures delivered <==> mail.Some? && sendEmail == Sends
  {
    IdSelectsOneRow(orders.rows, orders.nextId, Field(body, "orderId"));
    var updated := orders.Update(Field(body, "orderId"), StatusPatch(body), failure);
    if updated.Failure? {
      return Status(500, "Failed to update order status"), None, false;
    }
    var order := updated.value;
    mail, delivered := None, false;
    if Field(body, "status") == Str("paid") && Truthy(order.affiliateCode) {
      mail, delivered := NotifyAffiliate(affiliates, users, order, sendEmail);
    }
    reply := Ok(order);
  }
}
