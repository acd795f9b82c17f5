/** The payments router: `/create-order` asks the gateway for an order and stores a pending
    row; `/verify` checks the gateway's signature, marks the row completed and, for an order
    with an affiliate code, records the affiliate's commission. Both run behind the token
    gate (`Middleware.Exchange.AuthMiddleware`), whose payload arrives here as `user`. */
module PaymentsRoute {
  import opened Wrappers
  import opened Text
  import opened JsValue
  import opened Query
  import opened Gateway
  import opened Middleware
  import opened OrdersModel
  import opened TransactionModel

  const CreateOrderRules: seq<Rule> :=
    [NotEmpty("userId"), NotEmpty("ebookId"), IsFloatMin("amount", 1.0), Optional("affiliateCode")]

  const VerifyRules: seq<Rule> :=
    [NotEmpty("razorpay_order_id"), NotEmpty("razorpay_payment_id"), NotEmpty("razorpay_signature"), NotEmpty("orderId")]

  /** `/create-order` turns a request away exactly when the user or the ebook is missing or
      empty, or the amount is not a number of at least 1. */
  lemma CreateOrderValidation(body: Body)
    ensures Validate(CreateOrderRules, body) == [] <==>
      CheckedText(Field(body, "userId")) != "" && CheckedText(Field(body, "ebookId")) != "" &&
      Field(body, "amount").Number? && Field(body, "amount").n >= 1.0
  {
    var rs := CreateOrderRules;
    ValidateFour(rs[0], rs[1], rs[2], rs[3], body);
    assert rs == [rs[0], rs[1], rs[2], rs[3]];
  }

  /** `/verify` turns a request away exactly when one of its four identifiers is missing or
      empty. */
  lemma VerifyValidation(body: Body)
    ensures Validate(VerifyRules, body) == [] <==>
      CheckedText(Field(body, "razorpay_order_id")) != "" && CheckedText(Field(body, "razorpay_payment_id")) != "" &&
      CheckedText(Field(body, "razorpay_signature")) != "" && CheckedText(Field(body, "orderId")) != ""
  {
    var rs := VerifyRules;
    ValidateFour(rs[0], rs[1], rs[2], rs[3], body);
    assert rs == [rs[0], rs[1], rs[2], rs[3]];
  }

  /** The reply of `/create-order`: the gateway's order and the stored row. */
  datatype Created = Created(razorpayOrder: GatewayOrder, dbOrder: OrderRow)

  /** `POST /create-order`. The gateway is asked for `amount * 100` paise in INR; then a
      pending row is stored with the user and the ebook only (the affiliate code and the
      amount the handler also passes are not parameters of `createOrder`). `request` is the
      order asked of the gateway, if any. */
  method CreateOrder(orders: OrderTable, body: Body, gateway: OrdersApi, now: int, failure: Option<string>)
    returns (reply: Reply<Created>, request: Option<OrderRequest>)
    requires orders.Valid()
    modifies orders
    ensures orders.Valid()
    ensures Validate(CreateOrderRules, body) != [] ==>
      reply == Invalid(Validate(CreateOrderRules, body)) && request == None && orders.rows == old(orders.rows)
    ensures Validate(CreateOrderRules, body) == [] ==>
      Field(body, "amount").Number? &&
      request.Some? && request.value.amount.Some? && request.value.amount.value == Field(body, "amount").n * 100.0 &&
      request == Some(OrderRequest(request.value.amount, "INR", EbookReceipt(Field(body, "ebookId"), now)))
    ensures reply.Forwarded? ==> orders.rows == old(orders.rows)
    ensures Validate(CreateOrderRules, body) == [] ==>
      request.Some? && (reply.Ok? <==> gateway(request.value).Success? && failure.None?)
    ensures reply.Forwarded? <==> request.Some? && (gateway(request.value).Failure? || failure.Some?)
    ensures reply.Ok? ==>
      request.Some? && reply.payload.razorpayOrder == gateway(request.value).value &&
      orders.rows == old(orders.rows) + [reply.payload.dbOrder] &&
      reply.payload.dbOrder.userId == Field(body, "userId") && reply.payload.dbOrder.ebookId == Field(body, "ebookId") &&
      reply.payload.dbOrder.status == Str("pending") &&
      reply.payload.dbOrder.affiliateCode == Null && reply.payload.dbOrder.amount == Null
  {
    var errors := Validate(CreateOrderRules, body);
    if errors != [] {
      return Invalid(errors), None;
    }
    CreateOrderValidation(body);
    var amount, ebookId, userId := Field(body, "amount"), Field(body, "ebookId"), Field(body, "userId");
    var req := OrderRequest(Paise(amount), "INR", EbookReceipt(ebookId, now));
    request := Some(req);
    var razorpayOrder := gateway(req);
    if razorpayOrder.Failure? {
      return Forwarded(razorpayOrder.error), request;
    }
    var dbOrder := OrdersModel.CreateOrder(orders, userId, ebookId, now, failure);
    if dbOrder.Failure? {
      return Forwarded(dbOrder.error), request;
    }
    reply := Ok(Created(razorpayOrder.value, dbOrder.value));
  }

  /** `Affiliates.getAffiliateStats(code)`: the affiliate's stats object, or the error the
      call throws. */
  type StatsLookup = Value -> Result<Value, string>

  /** `affiliateData?.commission_rate || 0.2`: the affiliate's rate unless it is missing or
      falsy (0 included), then 0.2. */
  function CommissionRate(stats: Value): (rate: Value)
    ensures Truthy(Member(stats, "commission_rate")) ==> rate == Member(stats, "commission_rate")
    ensures !Truthy(Member(stats, "commission_rate")) ==> rate == Number(0.2)
    ensures Truthy(rate)
  {
    Or(Member(stats, "commission_rate"), Number(0.2))
  }

  /** The commission on an order of `a` rupees is a fifth of it unless the affiliate has a
      non-zero numeric rate of its own. */
  lemma CommissionAmount(a: real, stats: Value)
    ensures var rate := Member(stats, "commission_rate");
      var commission := Times(Number(a), CommissionRate(stats));
      (rate.Number? && rate.n != 0.0 ==> commission.Some? && commission.value == a * rate.n) &&
      (!Truthy(rate) ==> commission.Some? && commission.value == a * 0.2)
  {
  }

  /** What `Transaction.create` is given for the commission on `order`; a TypeError when the
      stats are null or undefined (`affiliateData.id`), and a cast error when the amount is
      not a number. */
  function CommissionRecord(order: OrderRow, stats: Value, user: Claims, body: Body): (r: Result<TxnInput, string>)
    ensures stats.Null? || stats.Undefined? ==> r.Failure?
    ensures r.Success? <==> !(stats.Null? || stats.Undefined?) && Times(order.amount, CommissionRate(stats)).Some?
    ensures r.Success? ==>
      r.value.amount == Number(Times(order.amount, CommissionRate(stats)).value) &&
      r.value.status == Str("completed") && r.value.affiliateId == Member(stats, "id") &&
      r.value.code == order.affiliateCode && r.value.currency == order.currency &&
      r.value.userName == user.name && r.value.userEmail == user.email &&
      r.value.razorpayOrderId == Field(body, "razorpay_order_id") &&
      r.value.razorpayPaymentId == Field(body, "razorpay_payment_id") &&
      r.value.razorpaySignature == Field(body, "razorpay_signature")
  {
    var commission := Times(order.amount, CommissionRate(stats));
    if stats.Null? || stats.Undefined? then Failure("Cannot read properties of " + ToStr(stats) + " (reading 'id')")
    else if commission.None? then Failure("Cast to Number failed for value \"NaN\" at path \"amount\"")
    else
      Success(TxnInput(Member(stats, "id"), order.affiliateCode, user.name, user.email, Number(commission.value),
                       order.currency, Field(body, "razorpay_order_id"), Field(body, "razorpay_payment_id"),
                       Field(body, "razorpay_signature"), Str("completed")))
  }

  /** Whether the commission step goes through for `order`: it has no truthy affiliate
      code, or the stats lookup, the record and the document all succeed and the write
      (`createFailure` is what `Transaction.create` throws, if anything) does not fail. */
  predicate CommissionSucceeds(order: OrderRow, user: Claims, body: Body, statsOf: StatsLookup, createFailure: Option<string>) {
    !Truthy(order.affiliateCode) ||
    (statsOf(order.affiliateCode).Success? &&
     CommissionRecord(order, statsOf(order.affiliateCode).value, user, body).Success? &&
     Accepted(CommissionRecord(order, statsOf(order.affiliateCode).value, user, body).value) &&
     createFailure.None?)
  }

  /** The commission step of `/verify` for the updated `order`: nothing for an order without
      a truthy affiliate code; otherwise the record is created, or the error one of the
      steps throws is returned and nothing is stored. */
  method RecordCommission(txns: TransactionStore, order: OrderRow, user: Claims, body: Body, statsOf: StatsLookup, now: int,
                          createFailure: Option<string>)
    returns (thrown: Option<string>)
    requires txns.Valid()
    modifies txns
    ensures txns.Valid()
    ensures thrown.None? <==> CommissionSucceeds(order, user, body, statsOf, createFailure)
    ensures thrown.Some? || !Truthy(order.affiliateCode) ==> txns.docs == old(txns.docs)
    ensures thrown.None? && Truthy(order.affiliateCode) ==>
      statsOf(order.affiliateCode).Success? &&
      var record := CommissionRecord(order, statsOf(order.affiliateCode).value, user, body);
      record.Success? && NewTxn(record.value, old(txns.nextId), now).Success? &&
      txns.docs == old(txns.docs) + [NewTxn(record.value, old(txns.nextId), now).value]
  {
    if !Truthy(order.affiliateCode) {
      return None;
    }
    var stats := statsOf(order.affiliateCode);
    if stats.Failure? {
      return Some(stats.error);
    }
    var record := CommissionRecord(order, stats.value, user, body);
    if record.Failure? {
      return Some(record.error);
    }
    var txn := txns.Create(record.value, now, createFailure);
    if txn.Failure? {
      return Some(txn.error);
    }
    thrown := None;
  }

  /** Some row has the id `orderId`. */
  predicate HasRow(rows: seq<OrderRow>, orderId: Value) {
    exists i :: 0 <= i < |rows| && IdIs(rows[i], orderId)
  }

  /** `after` is `before` with the row `orderId` selects marked "completed". */
  predicate CompletedRow(before: seq<OrderRow>, after: seq<OrderRow>, orderId: Value) {
    var k := MatchIndex(before, orderId);
    k < |before| && IdIs(before[k], orderId) && after == before[k := before[k].(status := Str("completed"))]
  }

  /** `POST /verify`. A request that fails validation or whose signature does not match
      changes nothing. Otherwise the row with `orderId` becomes "completed" (the payment
      identifiers passed along are not parameters of `updateOrderStatus`), and a commission
      record is created exactly when that row has a truthy affiliate code. `failure` is what
      the Supabase update throws and `createFailure` what `Transaction.create` throws, if
      anything. Nothing guards against a second call: each one updates the row again and adds
      another record. */
  method Verify(orders: OrderTable, txns: TransactionStore, body: Body, user: Claims, hmac: Signer,
                statsOf: StatsLookup, now: int, failure: Option<string>, createFailure: Option<string>)
    returns (reply: Reply<OrderRow>)
    requires orders.Valid() && txns.Valid()
    modifies orders, txns
    ensures orders.Valid() && txns.Valid()
    ensures Validate(VerifyRules, body) != [] ==>
      reply == Invalid(Validate(VerifyRules, body)) && orders.rows == old(orders.rows) && txns.docs == old(txns.docs)
    ensures Validate(VerifyRules, body) == [] &&
            !SignatureMatches(hmac, Field(body, "razorpay_order_id"), Field(body, "razorpay_payment_id"), Field(body, "razorpay_signature")) ==>
      reply == Status(400, "Payment verification failed") && orders.rows == old(orders.rows) && txns.docs == old(txns.docs)
    ensures reply.Status? || reply.Invalid? ==> orders.rows == old(orders.rows) && txns.docs == old(txns.docs)
    ensures !(reply.Ok? && Truthy(reply.payload.affiliateCode)) ==> txns.docs == old(txns.docs)
    ensures failure.Some? || !HasRow(old(orders.rows), Field(body, "orderId")) ==> orders.rows == old(orders.rows)
    ensures reply.Forwarded? && failure.None? && HasRow(old(orders.rows), Field(body, "orderId")) ==>
      CompletedRow(old(orders.rows), orders.rows, Field(body, "orderId"))
    ensures Validate(VerifyRules, body) == [] && failure.None? &&
            SignatureMatches(hmac, Field(body, "razorpay_order_id"), Field(body, "razorpay_payment_id"), Field(body, "razorpay_signature")) &&
            HasRow(old(orders.rows), Field(body, "orderId")) ==>
      var k := MatchIndex(old(orders.rows), Field(body, "orderId"));
      k < |old(orders.rows)| &&
      (reply.Ok? <==> CommissionSucceeds(old(orders.rows)[k].(status := Str("completed")), user, body, statsOf, createFailure))
    ensures reply.Ok? ==>
      Validate(VerifyRules, body) == [] && failure.None? &&
      SignatureMatches(hmac, Field(body, "razorpay_order_id"), Field(body, "razorpay_payment_id"), Field(body, "razorpay_signature")) &&
      var k := MatchIndex(old(orders.rows), Field(body, "orderId"));
      k < |old(orders.rows)| && IdIs(old(orders.rows)[k], Field(body, "orderId")) &&
      reply.payload == old(orders.rows)[k].(status := Str("completed")) &&
      orders.rows == old(orders.rows)[k := reply.payload]
    ensures reply.Ok? && Truthy(reply.payload.affiliateCode) ==>
      statsOf(reply.payload.affiliateCode).Success? &&
      var record := CommissionRecord(reply.payload, statsOf(reply.payload.affiliateCode).value, user, body);
      record.Success? && NewTxn(record.value, old(txns.nextId), now).Success? &&
      txns.docs == old(txns.docs) + [NewTxn(record.value, old(txns.nextId), now).value]
  {
    var errors := Validate(VerifyRules, body);
    if errors != [] {
      return Invalid(errors);
    }
    var gatewayOrderId, paymentId, signature := Field(body, "razorpay_order_id"), Field(body, "razorpay_payment_id"), Field(body, "razorpay_signature");
    if !SignatureMatches(hmac, gatewayOrderId, paymentId, signature) {
      return Status(400, "Payment verification failed");
    }
    var updated := UpdateOrderStatus(orders, Field(body, "orderId"), Str("completed"), failure);
    if updated.Failure? {
      return Forwarded(updated.error);
    }
    var order := updated.value;
    var thrown := RecordCommission(txns, order, user, body, statsOf, now, createFailure);
    if thrown.Some? {
      return Forwarded(thrown.value);
    }
    reply := Ok(order);
  }

  /** The same verification posted twice: the second call succeeds whenever the first did,
      returns the same row, and for an order with an affiliate code leaves two commission
      records where there were none. */
  method VerifyTwice(orders: OrderTable, txns: TransactionStore, body: Body, user: Claims, hmac: Signer,
                     statsOf: StatsLookup, now1: int, now2: int)
    returns (first: Reply<OrderRow>, second: Reply<OrderRow>)
    requires orders.Valid() && txns.Valid()
    modifies orders, txns
    ensures first.Ok? ==> second.Ok? && second.payload == first.payload
    ensures first.Ok? && Truthy(first.payload.affiliateCode) ==> |txns.docs| == |old(txns.docs)| + 2
  {
    var orderId := Field(body, "orderId");
    ghost var rows0 := orders.rows;
    first := Verify(orders, txns, body, user, hmac, statsOf, now1, None, None);
    if !first.Ok? {
      return first, first;
    }
    ghost var k := MatchIndex(rows0, orderId);
    FirstIndexAfterUpdate(rows0, (row: OrderRow) => IdIs(row, orderId), first.payload);
    assert MatchIndex(orders.rows, orderId) == k;
    assert orders.rows[k] == first.payload;
    IdSelectsOneRow(orders.rows, orders.nextId, orderId);
    assert first.payload.(status := Str("completed")) == first.payload;
    if Truthy(first.payload.affiliateCode) {
      var record := CommissionRecord(first.payload, statsOf(first.payload.affiliateCode).value, user, body);
      assert Accepted(record.value);
    }
    second := Verify(orders, txns, body, user, hmac, statsOf, now2, None, None);
  }
}
