/** The `Transaction` collection: the record a commission or a pending payment is kept in,
    with Mongoose's casts, defaults and status enum, and the store the routes create, update
    and list documents in. */
module TransactionModel {
  import opened Wrappers
  import opened Text
  import opened JsValue
  import opened Query
  import opened AffiliateModel

  datatype TxnStatus = Pending | Completed | Failed

  datatype Txn = Txn(
    id: nat,
    affiliateId: Value,
    code: Value,
    userName: Value,
    userEmail: Value,
    amount: real,
    currency: Value,
    razorpayOrderId: Value,
    razorpayPaymentId: Value,
    razorpaySignature: Value,
    status: TxnStatus,
    createdAt: int)

  /** What `Transaction.create(...)` is given; a key the caller leaves out is `Undefined`. */
  datatype TxnInput = TxnInput(
    affiliateId: Value,
    code: Value,
    userName: Value,
    userEmail: Value,
    amount: Value,
    currency: Value,
    razorpayOrderId: Value,
    razorpayPaymentId: Value,
    razorpaySignature: Value,
    status: Value)

  /** The `$set` of `findByIdAndUpdate`; an `undefined` value is dropped from it. */
  datatype TxnPatch = TxnPatch(status: TxnStatus, razorpayPaymentId: Value, razorpaySignature: Value)

  /** The status enum: a string naming one of the three states. */
  function ParseStatus(v: Value): Option<TxnStatus> {
    match v
    case Str(s) =>
      if s == "pending" then Some(Pending)
      else if s == "completed" then Some(Completed)
      else if s == "failed" then Some(Failed)
      else None
    case _ => None
  }

  function StatusText(s: TxnStatus): string {
    match s
    case Pending => "pending"
    case Completed => "completed"
    case Failed => "failed"
  }

  /** The enum accepts exactly the three names, and each name reads back as its state. */
  lemma StatusRoundTrip(s: TxnStatus, v: Value)
    ensures ParseStatus(Str(StatusText(s))) == Some(s)
    ensures ParseStatus(v).Some? ==> v == Str(StatusText(ParseStatus(v).value))
  {
  }

  /** A path with a default: `undefined` takes the default, anything else is cast. */
  function WithDefault(v: Value, default: Value): Result<Value, string> {
    if v.Undefined? then Success(default) else CastString(v)
  }

  /** The required `amount`: null and undefined fail `required`; numbers and booleans cast. */
  function CastAmount(v: Value): Result<real, string> {
    match v
    case Undefined => Failure("Path `amount` is required.")
    case Null => Failure("Path `amount` is required.")
    case Number(n) => Success(n)
    case Bool(b) => Success(if b then 1.0 else 0.0)
    case _ => Failure("Cast to Number failed for value at path `amount`")
  }

  /** Whether Mongoose accepts `input`: every path casts and `status`, when given, is a
      name of the enum. */
  predicate Accepted(input: TxnInput) {
    CastAmount(input.amount).Success? &&
    (input.status.Undefined? || ParseStatus(input.status).Some?) &&
    CastString(input.affiliateId).Success? && CastString(input.code).Success? &&
    CastString(input.userName).Success? && CastString(input.userEmail).Success? &&
    CastString(input.currency).Success? && CastString(input.razorpayOrderId).Success? &&
    CastString(input.razorpayPaymentId).Success? && CastString(input.razorpaySignature).Success?
  }

  /** The document `Transaction.create(input)` stores, or the validation error. */
  function NewTxn(input: TxnInput, id: nat, now: int): (r: Result<Txn, string>)
    ensures r.Success? <==> Accepted(input)
    ensures input.amount.Undefined? || input.amount.Null? ==> r.Failure?
    ensures r.Success? ==> r.value.id == id && r.value.createdAt == now
    ensures r.Success? && input.amount.Number? ==> r.value.amount == input.amount.n
    ensures r.Success? ==> r.value.status == if input.status.Undefined? then Pending else ParseStatus(input.status).value
    ensures r.Success? && input.currency.Undefined? ==> r.value.currency == Str("INR")
    ensures r.Success? && (input.code.Undefined? || input.code.Null?) ==> r.value.code == Null
    ensures r.Success? && (input.affiliateId.Undefined? || input.affiliateId.Null?) ==> r.value.affiliateId == Null
  {
    if !Accepted(input) then
      if CastAmount(input.amount).Failure? then Failure(CastAmount(input.amount).error)
      else if !(input.status.Undefined? || ParseStatus(input.status).Some?) then
        Failure("`" + ToStr(input.status) + "` is not a valid enum value for path `status`.")
      else Failure("Cast to string failed")
    else
      Success(Txn(
        id,
        WithDefault(input.affiliateId, Null).value,
        WithDefault(input.code, Null).value,
        CastString(input.userName).value,
        CastString(input.userEmail).value,
        CastAmount(input.amount).value,
        WithDefault(input.currency, Str("INR")).value,
        CastString(input.razorpayOrderId).value,
        CastString(input.razorpayPaymentId).value,
        CastString(input.razorpaySignature).value,
        if input.status.Undefined? then Pending else ParseStatus(input.status).value,
        now))
  }

  function TxnCreatedAt(t: Txn): int { t.createdAt }

  /** `_id` matched against the text of `id`. */
  predicate TxnIdIs(t: Txn, id: Value) {
    NatToDecimal(t.id) == ToStr(id)
  }

  /** A value a String path holds once cast: a text, null, or nothing. */
  predicate StringPath(v: Value) {
    v.Str? || v.Null? || v.Undefined?
  }

  /** The casts Mongoose applies to the `$set` of `findByIdAndUpdate`: the two String paths
      take a number or a boolean as its text and refuse an object. */
  function CastPatch(p: TxnPatch): (r: Result<TxnPatch, string>)
    ensures r.Success? <==> !p.razorpayPaymentId.Obj? && !p.razorpaySignature.Obj?
    ensures r.Success? ==>
      r.value.status == p.status && StringPath(r.value.razorpayPaymentId) && StringPath(r.value.razorpaySignature)
    ensures r.Success? && StringPath(p.razorpayPaymentId) ==> r.value.razorpayPaymentId == p.razorpayPaymentId
    ensures r.Success? && StringPath(p.razorpaySignature) ==> r.value.razorpaySignature == p.razorpaySignature
    ensures r.Success? && p.razorpayPaymentId.Number? ==> r.value.razorpayPaymentId == Str(ToStr(p.razorpayPaymentId))
  {
    var payment, signature := CastString(p.razorpayPaymentId), CastString(p.razorpaySignature);
    if payment.Failure? then Failure(payment.error)
    else if signature.Failure? then Failure(signature.error)
    else Success(TxnPatch(p.status, payment.value, signature.value))
  }

  function Applied(t: Txn, p: TxnPatch): Txn {
    t.(status := p.status,
       razorpayPaymentId := if p.razorpayPaymentId.Undefined? then t.razorpayPaymentId else p.razorpayPaymentId,
       razorpaySignature := if p.razorpaySignature.Undefined? then t.razorpaySignature else p.razorpaySignature)
  }

  /** The `Transaction` collection. */
  class TransactionStore {
    var docs: seq<Txn>
    var nextId: nat

    ghost predicate Valid()
      reads this
    {
      (forall i, j :: 0 <= i < j < |docs| ==> docs[i].id < docs[j].id) &&
      (forall i :: 0 <= i < |docs| ==> docs[i].id < nextId)
    }

    constructor ()
      ensures Valid() && docs == [] && nextId == 1
    {
      docs := [];
      nextId := 1;
    }

    /** `Transaction.create(input)`: the validated document is appended with a fresh id; the
        validation error, or else the datastore's `failure`, is thrown and nothing is
        stored. */
    method Create(input: TxnInput, now: int, failure: Option<string>) returns (r: Result<Txn, string>)
      requires Valid()
      modifies this
      ensures Valid()
      ensures r.Success? <==> Accepted(input) && failure.None?
      ensures r.Success? || !Accepted(input) ==> r == NewTxn(input, old(nextId), now)
      ensures Accepted(input) && failure.Some? ==> r == Failure(failure.value)
      ensures r.Failure? ==> docs == old(docs) && nextId == old(nextId)
      ensures r.Success? ==> docs == old(docs) + [r.value] && nextId == old(nextId) + 1
    {
      r := NewTxn(input, nextId, now);
      if r.Failure? {
        return;
      }
      if failure.Some? {
        return Failure(failure.value);
      }
      docs := docs + [r.value];
      nextId := nextId + 1;
    }

    /** `findByIdAndUpdate(id, patch, { new: true })`: the patch is cast first, and a cast
        error, or else the datastore's `failure`, is thrown with no change. Otherwise the
        first document with that id is patched with the cast values and returned as it is
        after the update; without one, null and no change. */
    method FindByIdAndUpdate(id: Value, p: TxnPatch, failure: Option<string>) returns (r: Result<Option<Txn>, string>)
      requires Valid()
      modifies this
      ensures Valid() && nextId == old(nextId)
      ensures r.Failure? ==> docs == old(docs)
      ensures CastPatch(p).Failure? ==> r == Failure(CastPatch(p).error)
      ensures CastPatch(p).Success? && failure.Some? ==> r == Failure(failure.value)
      ensures CastPatch(p).Success? && failure.None? ==>
        var k := FirstIndex(old(docs), (t: Txn) => TxnIdIs(t, id));
        if k == |old(docs)| then r == Success(None) && docs == old(docs)
        else TxnIdIs(old(docs)[k], id) && r == Success(Some(Applied(old(docs)[k], CastPatch(p).value))) &&
             docs == old(docs)[k := r.value.value]
    {
      var cast := CastPatch(p);
      if cast.Failure? {
        return Failure(cast.error);
      }
      if failure.Some? {
        return Failure(failure.value);
      }
      var k := FirstIndex(docs, (t: Txn) => TxnIdIs(t, id));
      if k == |docs| {
        return Success(None);
      }
      var t := Applied(docs[k], cast.value);
      docs := docs[k := t];
      r := Success(Some(t));
    }

    /** `find().sort({ createdAt: -1 })`: every document, newest first. */
    function AllNewestFirst(): (r: seq<Txn>)
      reads this
      ensures SortedBy(r, TxnCreatedAt, true)
      ensures multiset(r) == multiset(docs)
    {
      SortBy(docs, TxnCreatedAt, true)
    }
  }
}
