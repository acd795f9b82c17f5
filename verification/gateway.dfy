/** The payment gateway as the routes use it: the order they ask it to create, the order it
    answers with, and the check of the signature its checkout hands back. The gateway client
    and HMAC-SHA256 are foreign code and appear only as parameters. */
module Gateway {
  import opened Wrappers
  import opened Text
  import opened JsValue

  /** The options given to `razorpay.orders.create`: the amount in paise (`None` is NaN),
      the currency and the receipt text. */
  datatype OrderRequest = OrderRequest(amount: Option<real>, currency: string, receipt: string)

  /** The gateway's answer: the id it gave the order and the request it was made from. */
  datatype GatewayOrder = GatewayOrder(id: string, request: OrderRequest)

  /** `razorpay.orders.create`; `Failure(message)` when the call throws. */
  type OrdersApi = OrderRequest -> Result<GatewayOrder, string>

  /** HMAC-SHA256 of a text under the server's key secret, hex encoded. */
  type Signer = string -> string

  /** `amount * 100`: the body's amount in rupees, as paise. */
  function Paise(amount: Value): (p: Option<real>)
    ensures amount.Number? ==> p.Some? && p.value == amount.n * 100.0
    ensures amount.Undefined? || amount.Obj? ==> p == None
  {
    Times(amount, Number(100.0))
  }

  /** An amount sent as a numeral is multiplied as the number it denotes (`"299" * 100` is
      29900). */
  lemma PaiseOfNumeral(n: nat)
    ensures Paise(Str(NatToDecimal(n))).Some? && Paise(Str(NatToDecimal(n))).value == n as real * 100.0
  {
    NumeralToNumber(n);
    assert ToNumber(Number(100.0)) == Some(100.0);
  }

  /** `ebook_${ebookId}_${Date.now()}`: the receipt of an ebook purchase. */
  function EbookReceipt(ebookId: Value, now: int): string {
    "ebook_" + ToStr(ebookId) + "_" + IntToDecimal(now)
  }

  /** The text that is signed: `${orderId}|${paymentId}`. */
  function SignedText(orderId: Value, paymentId: Value): string {
    ToStr(orderId) + "|" + ToStr(paymentId)
  }

  /** `digest === signature` for the digest the server recomputes with its own secret: only
      the very same string passes; a signature that is not a string never does. */
  predicate SignatureMatches(hmac: Signer, orderId: Value, paymentId: Value, signature: Value) {
    signature == Str(hmac(SignedText(orderId, paymentId)))
  }

  /** For string identifiers whose order id has no '|', the signed text determines both
      identifiers, so a signature vouches for exactly one (order, payment) pair. */
  lemma {:induction false} SignedTextDeterminesIds(o1: string, p1: string, o2: string, p2: string)
    requires '|' !in o1 && '|' !in o2
    requires SignedText(Str(o1), Str(p1)) == SignedText(Str(o2), Str(p2))
    ensures o1 == o2 && p1 == p2
  {
    var t := SignedText(Str(o1), Str(p1));
    IndexOfAfterPrefix(o1, '|', p1);
    IndexOfAfterPrefix(o2, '|', p2);
    assert o1 == t[..|o1|] && o2 == t[..|o2|];
    assert p1 == t[|o1| + 1..] && p2 == t[|o2| + 1..];
  }

  /** Without that restriction the framing is ambiguous: two different pairs share a text,
      and with it a valid signature. */
  lemma SignedTextAmbiguous()
    ensures SignedText(Str("a|b"), Str("c")) == SignedText(Str("a"), Str("b|c"))
  {
  }
}
