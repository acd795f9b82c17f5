/** The transaction router: `/create` asks the gateway for an order and stores a pending
    transaction, linked to the affiliate its referral lookup finds; `/verify` checks the
    gateway's signature, completes the transaction and mails the linked affiliate; `/all`
    lists every transaction newest first. All three run behind the token gate. */
module TransactionRoute {
  import opened Wrappers
  import opened Text
  import opened JsValue
  import opened Query
  import opened Gateway
  import opened Middleware
  import opened AffiliateModel
  import opened TransactionModel

  const CreateRules: seq<Rule> := [IsFloatMin("amount", 1.0), NotEmpty("userName"), NotEmpty("userEmail")]

  const VerifyRules: seq<Rule> :=
    [NotEmpty("razorpay_order_id"), NotEmpty("razorpay_payment_id"), NotEmpty("razorpay_signature"), NotEmpty("transactionId")]

  /** `/create` turns a request away exactly when the amount is not a number of at least 1
      or the buyer's name or email is missing or empty. */
  lemma CreateValidation(body: Body)
    ensures Validate(CreateRules, body) == [] <==>
      Field(body, "amount").Number? && Field(body, "amount").n >= 1.0 &&
      CheckedText(Field(body, "userName")) != "" && CheckedText(Field(body, "userEmail")) != ""
  {
    var rs := CreateRules;
    ValidateThree(rs[0], rs[1], rs[2], body);
    assert rs == [rs[0], rs[1], rs[2]];
  }

  /** `txn_${Date.now()}`. */
  function Receipt(now: int): string {
    "txn_" + IntToDecimal(now)
  }

  /** The `affiliateId` `/create` stores: null unless a truthy code is given and the lookup
      returns an affiliate, then that affiliate's id. */
  function ReferredAffiliate(affs: seq<Affiliate>, code: Value, strictQuery: bool): (id: Value)
    ensures !Truthy(code) ==> id == Null
    ensures id != Null ==> exists a :: a in affs && id == ObjectId(a)
    ensures Truthy(code) && FindOneByReferralCode(affs, code, strictQuery).Some? ==>
      id == ObjectId(FindOneByReferralCode(affs, code, strictQuery).value)
  {
    if !Truthy(code) then Null
    else
      match FindOneByReferralCode(affs, code, strictQuery)
      case None => Null
      case Some(a) => ObjectId(a)
  }

  /** The transaction `/create` stores for the gateway's order: pending, in INR, for the
      requested amount, linked to the affiliate the code finds, carrying the gateway's order
      id, and with the code itself when it is a non-empty text and null when it is falsy. */
  predicate PendingFor(t: Txn, affs: seq<Affiliate>, strictQuery: bool, body: Body, razorpayOrder: GatewayOrder) {
    var code := Field(body, "affiliateCode");
    && t.status == Pending && t.currency == Str("INR")
    && Field(body, "amount").Number? && t.amount == Field(body, "amount").n
    && t.affiliateId == ReferredAffiliate(affs, code, strictQuery)
    && t.razorpayOrderId == Str(razorpayOrder.id)
    && (!Truthy(code) ==> t.code == Null)
    && (Truthy(code) && code.Str? ==> t.code == code)
  }

  /** What `/create` passes to `Transaction.create` for the gateway's order. */
  function PendingInput(affs: seq<Affiliate>, strictQuery: bool, body: Body, razorpayOrder: GatewayOrder): TxnInput {
    var code := Field(body, "affiliateCode");
    TxnInput(ReferredAffiliate(affs, code, strictQuery), Or(code, Null), Field(body, "userName"), Field(body, "userEmail"),
             Field(body, "amount"), Str("INR"), Str(razorpayOrder.id), Undefined, Undefined, Str("pending"))
  }

  /** For a numeric amount the pending record is refused exactly when the affiliate code,
      the user's name or the user's email is an object, which no string path accepts. */
  lemma PendingAccepted(affs: seq<Affiliate>, strictQuery: bool, body: Body, razorpayOrder: GatewayOrder)
    requires Field(body, "amount").Number?
    ensures Accepted(PendingInput(affs, strictQuery, body, razorpayOrder)) <==>
      !Field(body, "affiliateCode").Obj? && !Field(body, "userName").Obj? && !Field(body, "userEmail").Obj?
  {
    var code := Field(body, "affiliateCode");
    var id := ReferredAffiliate(affs, code, strictQuery);
    assert id.Null? || id.Str?;
    assert ParseStatus(Str("pending")).Some?;
  }

  /** The gateway order `/create` asks for: the body's amount times 100 (paise), in INR,
      under the receipt for this moment. */
  predicate GatewayRequested(request: Option<OrderRequest>, body: Body, now: int) {
    && Field(body, "amount").Number? && request.Some?
    && request.value.amount.Some? && request.value.amount.value == Field(body, "amount").n * 100.0
    && request.value.currency == "INR" && request.value.receipt == Receipt(now)
  }

  /** The errors a handler's two collection calls throw, if any: the affiliate lookup
      (`findOne` in `/create`, `findById` in `/verify`) and the write (`create`,
      `findByIdAndUpdate`). */
  datatype Faults = Faults(lookup: Option<string>, write: Option<string>)

  /** Whether `/create` stores the pending transaction for the gateway's order: the lookup
      a truthy code calls for does not fail, Mongoose accepts the record, and the write does
      not fail. */
  predicate Recorded(affs: seq<Affiliate>, strictQuery: bool, body: Body, razorpayOrder: GatewayOrder, faults: Faults) {
    && !(Truthy(Field(body, "affiliateCode")) && faults.lookup.Some?)
    && Accepted(PendingInput(affs, strictQuery, body, razorpayOrder))
    && faults.write.None?
  }

  /** The reply of `/create`: the gateway's order and the stored transaction. */
  datatype Created = Created(razorpayOrder: GatewayOrder, transaction: Txn)

  /** `POST /create`. The gateway is asked for `amount * 100` paise in INR; then a pending
      transaction is stored with the code (or null), the affiliate found for it, the buyer,
      the amount, INR and the gateway's order id. */
  method Create(txns: TransactionStore, affs: seq<Affiliate>, strictQuery: bool, body: Body, gateway: OrdersApi, now: int,
                faults: Faults)
    returns (reply: Reply<Created>, request: Option<OrderRequest>)
    requires txns.Valid()
    modifies txns
    ensures txns.Valid()
    ensures Validate(CreateRules, body) != [] ==>
      reply == Invalid(Validate(CreateRules, body)) && request == None && txns.docs == old(txns.docs)
    ensures Validate(CreateRules, body) == [] ==> GatewayRequested(request, body, now)
    ensures Validate(CreateRules, body) == [] ==>
      request.Some? &&
      (reply.Ok? <==> gateway(request.value).Success? &&
                      Recorded(affs, strictQuery, body, gateway(request.value).value, faults))
    ensures !reply.Ok? ==> txns.docs == old(txns.docs)
    ensures reply.Ok? ==>
      request.Some? && gateway(request.value).Success? && reply.payload.razorpayOrder == gateway(request.value).value &&
      txns.docs == old(txns.docs) + [reply.payload.transaction] &&
      PendingFor(reply.payload.transaction, affs, strictQuery, body, reply.payload.razorpayOrder)
  {
    var errors := Validate(CreateRules, body);
    CreateValidation(body);
    if errors != [] {
      return Invalid(errors), None;
    }
    reply, request := Checkout(txns, affs, strictQuery, body, gateway, now, faults);
  }

  /** `/create` past validation: the gateway order, then the stored transaction. */
  method Checkout(txns: TransactionStore, affs: seq<Affiliate>, strictQuery: bool, body: Body, gateway: OrdersApi, now: int,
                faults: Faults)
    returns (reply: Reply<Created>, request: Option<OrderRequest>)
    requires txns.Valid()
    requires Field(body, "amount").Number?
    modifies txns
    ensures txns.Valid()
    ensures GatewayRequested(request, body, now)
    ensures request.Some? &&
      (reply.Ok? <==> gateway(request.value).Success? &&
                      Recorded(affs, strictQuery, body, gateway(request.value).value, faults))
    ensures !reply.Ok? ==> txns.docs == old(txns.docs)
    ensures reply.Ok? ==>
      request.Some? && gateway(request.value).Success? && reply.payload.razorpayOrder == gateway(request.value).value &&
      txns.docs == old(txns.docs) + [reply.payload.transaction] &&
      PendingFor(reply.payload.transaction, affs, strictQuery, body, reply.payload.razorpayOrder)
  {
    var amount := Field(body, "amount");
    var req := OrderRequest(Paise(amount), "INR", Receipt(now));
    request := Some(req);
    var razorpayOrder := gateway(req);
    if razorpayOrder.Failure? {
      return Forwarded(razorpayOrder.error), request;
    }
    reply := Record(txns, affs, strictQuery, body, razorpayOrder.value, now, faults);
  }

  /** The second half of `/create`: the affiliate lookup a truthy code calls for, then the
      pending transaction stored for the gateway's order; an error either call throws is
      forwarded. */
  method Record(txns: TransactionStore, affs: seq<Affiliate>, strictQuery: bool, body: Body, razorpayOrder: GatewayOrder,
                now: int, faults: Faults)
    returns (reply: Reply<Created>)
    requires txns.Valid()
    requires Field(body, "amount").Number?
    modifies txns
    ensures txns.Valid()
    ensures reply.Ok? <==> Recorded(affs, strictQuery, body, razorpayOrder, faults)
    ensures Truthy(Field(body, "affiliateCode")) && faults.lookup.Some? ==> reply == Forwarded(faults.lookup.value)
    ensures !reply.Ok? ==> txns.docs == old(txns.docs)
    ensures reply.Ok? ==> reply.payload.razorpayOrder == razorpayOrder && txns.docs == old(txns.docs) + [reply.payload.transaction]
    ensures reply.Ok? ==> PendingFor(reply.payload.transaction, affs, strictQuery, body, razorpayOrder)
  {
    if Truthy(Field(body, "affiliateCode")) && faults.lookup.Some? {
      return Forwarded(faults.lookup.value);
    }
    var input := PendingInput(affs, strictQuery, body, razorpayOrder);
    var txn := txns.Create(input, now, faults.write);
    if txn.Failure? {
      return Forwarded(txn.error);
    }
    reply := Ok(Created(razorpayOrder, txn.value));
  }

  /** What `sendAffiliateEmail` is called with: recipient, affiliate, buyer, amount, time. */
  datatype AffiliateEmail = AffiliateEmail(to: Value, affiliateName: string, buyerName: Value, amount: real, time: int)

  /** `POST /verify`. A request that fails validation or whose signature does not match
      changes nothing and sends nothing. Otherwise the transaction with that id becomes
      "completed" with the payment id and signature recorded as strings (a payment id or
      signature Mongoose cannot cast, an error from the update, or a missing transaction makes
      the handler throw), and its affiliate is mailed when it has one and the affiliate exists.
      `faults.write` is what `findByIdAndUpdate` throws, `faults.lookup` what `findById` throws,
      `sendError` what sending the mail throws, if anything. */
  method Verify(txns: TransactionStore, affs: seq<Affiliate>, body: Body, hmac: Signer, now: int,
                faults: Faults, sendError: Option<string>)
    returns (reply: Reply<Txn>, sent: Option<AffiliateEmail>)
    requires txns.Valid()
    modifies txns
    ensures txns.Valid()
    ensures Validate(VerifyRules, body) != [] ==>
      reply == Invalid(Validate(VerifyRules, body)) && sent == None && txns.docs == old(txns.docs)
    ensures Validate(VerifyRules, body) == [] &&
            !SignatureMatches(hmac, Field(body, "razorpay_order_id"), Field(body, "razorpay_payment_id"), Field(body, "razorpay_signature")) ==>
      reply == Status(400, "Payment verification failed") && sent == None && txns.docs == old(txns.docs)
    ensures Validate(VerifyRules, body) == [] &&
            SignatureMatches(hmac, Field(body, "razorpay_order_id"), Field(body, "razorpay_payment_id"), Field(body, "razorpay_signature")) ==>
      var cast := CastPatch(TxnPatch(Completed, Field(body, "razorpay_payment_id"), Field(body, "razorpay_signature")));
      var k := FirstIndex(old(txns.docs), (t: Txn) => TxnIdIs(t, Field(body, "transactionId")));
      if cast.Failure? then
        reply == Forwarded(cast.error) && sent == None && txns.docs == old(txns.docs)
      else if faults.write.Some? then
        reply == Forwarded(faults.write.value) && sent == None && txns.docs == old(txns.docs)
      else if k == |old(txns.docs)| then
        reply.Forwarded? && sent == None && txns.docs == old(txns.docs)
      else
        var t := Applied(old(txns.docs)[k], cast.value);
        txns.docs == old(txns.docs)[k := t] && t.status == Completed &&
        Notified(t, affs, now, faults.lookup, sendError, reply, sent)
  {
    var errors := Validate(VerifyRules, body);
    if errors != [] {
      return Invalid(errors), None;
    }
    if !SignatureMatches(hmac, Field(body, "razorpay_order_id"), Field(body, "razorpay_payment_id"), Field(body, "razorpay_signature")) {
      return Status(400, "Payment verification failed"), None;
    }
    var patch := TxnPatch(Completed, Field(body, "razorpay_payment_id"), Field(body, "razorpay_signature"));
    var txn := txns.FindByIdAndUpdate(Field(body, "transactionId"), patch, faults.write);
    if txn.Failure? {
      return Forwarded(txn.error), None;
    }
    if txn.value.None? {
      return Forwarded("Cannot read properties of null (reading 'affiliateId')"), None;
    }
    reply, sent := Notify(txn.value.value, affs, now, faults.lookup, sendError);
  }

  /** What `/verify` replies and mails once transaction `t` is completed: the affiliate is
      looked up when `t` names one (`lookup` is what the lookup throws, if anything) and mailed
      when it exists; the reply is `t` unless the lookup or the mail throws. */
  predicate Notified(t: Txn, affs: seq<Affiliate>, now: int, lookup: Option<string>, sendError: Option<string>,
                     reply: Reply<Txn>, sent: Option<AffiliateEmail>)
  {
    && (sent.Some? <==> Truthy(t.affiliateId) && lookup.None? && FindById(affs, t.affiliateId).Some?)
    && (sent.Some? ==> sent.value == AffiliateEmail(FindById(affs, t.affiliateId).value.email,
                                                    FindById(affs, t.affiliateId).value.name, t.userName, t.amount, now))
    && (Truthy(t.affiliateId) && lookup.Some? ==> reply == Forwarded(lookup.value))
    && (sent.Some? && sendError.Some? ==> reply == Forwarded(sendError.value))
    && (reply.Ok? <==> !(Truthy(t.affiliateId) && lookup.Some?) && (sent == None || sendError == None))
    && (reply.Ok? ==> reply.payload == t)
  }

  /** The notification step of `/verify` for the completed transaction `t`. */
  method Notify(t: Txn, affs: seq<Affiliate>, now: int, lookup: Option<string>, sendError: Option<string>)
    returns (reply: Reply<Txn>, sent: Option<AffiliateEmail>)
    ensures Notified(t, affs, now, lookup, sendError, reply, sent)
    ensures !Truthy(t.affiliateId) ==> reply == Ok(t) && sent == None
  {
    sent := None;
    if Truthy(t.affiliateId) {
      if lookup.Some? {
        return Forwarded(lookup.value), None;
      }
      var affiliate := FindById(affs, t.affiliateId);
      if affiliate.Some? {
        sent := Some(AffiliateEmail(affiliate.value.email, affiliate.value.name, t.userName, t.amount, now));
        if sendError.Some? {
          return Forwarded(sendError.value), sent;
        }
      }
    }
    reply := Ok(t);
  }

  /** `GET /all`: every transaction, newest first, and nothing else; an error the query
      throws (`failure`) is forwarded. */
  method All(txns: TransactionStore, failure: Option<string>) returns (reply: Reply<seq<Txn>>)
    ensures failure.Some? ==> reply == Forwarded(failure.value)
    ensures failure.None? ==> reply.Ok?
    ensures reply.Ok? ==> SortedBy(reply.payload, TxnCreatedAt, true) && multiset(reply.payload) == multiset(txns.docs)
  {
    var outcome := if failure.Some? then Failure(failure.value) else Success(Ok(txns.AllNewestFirst()));
    reply := AsyncHandler(outcome);
  }
}
