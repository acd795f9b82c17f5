/** The helpers every protected route is built from: the reply shapes, `validate` (the
    express-validator rules a route declares), `authMiddleware` (the Bearer token gate) and
    `asyncHandler` (a rejected handler goes to `next`). */
module Middleware {
  import opened Wrappers
  import opened Text
  import opened JsValue

  /** One entry of `validationResult(req).array()`. */
  datatype FieldError = FieldError(path: string, message: string)

  /** What a route handler sends back. */
  datatype Reply<P> =
    | Ok(payload: P)                      // res.json(...) with status 200
    | Status(code: nat, error: string)    // res.status(code).json({ ..., error })
    | Invalid(errors: seq<FieldError>)    // validate: 400 { success: false, errors }
    | Forwarded(error: string)            // next(err): Express's error handler answers 500

  /** The checks a route declares with `body(field)`. */
  datatype Rule =
    | NotEmpty(field: string)             // body(field).notEmpty()
    | IsFloatMin(field: string, min: real) // body(field).isFloat({ min })
    | Optional(field: string)             // body(field).optional(), with no check after it

  /** The text express-validator checks: `undefined` and `null` read as the empty string. */
  function CheckedText(v: Value): string {
    match v
    case Undefined => ""
    case Null => ""
    case _ => ToStr(v)
  }

  /** The errors one rule reports for `body`. A JSON number is a float; a string is not
      parsed as one. */
  function RuleErrors(rule: Rule, body: Body): seq<FieldError> {
    match rule
    case NotEmpty(f) =>
      if CheckedText(Field(body, f)) == "" then [FieldError(f, "Invalid value")] else []
    case IsFloatMin(f, min) =>
      if Field(body, f).Number? && Field(body, f).n >= min then [] else [FieldError(f, "Invalid value")]
    case Optional(_) => []
  }

  /** `validate(rules)`: every rule runs and all their errors are reported, rule by rule. */
  function Validate(rules: seq<Rule>, body: Body): (errors: seq<FieldError>)
    ensures errors == [] <==> forall i :: 0 <= i < |rules| ==> RuleErrors(rules[i], body) == []
  {
    if rules == [] then []
    else
      var rest := Validate(rules[1..], body);
      assert forall i :: 1 <= i < |rules| ==> rules[i] == rules[1..][i - 1];
      RuleErrors(rules[0], body) + rest
  }

  /** Three rules pass together exactly when each one passes. */
  lemma ValidateThree(a: Rule, b: Rule, c: Rule, body: Body)
    ensures Validate([a, b, c], body) == [] <==>
      RuleErrors(a, body) == [] && RuleErrors(b, body) == [] && RuleErrors(c, body) == []
  {
    var rs := [a, b, c];
    assert rs[0] == a && rs[1] == b && rs[2] == c;
    assert forall i :: 0 <= i < |rs| ==> rs[i] == a || rs[i] == b || rs[i] == c;
  }

  /** Four rules pass together exactly when each one passes. */
  lemma ValidateFour(a: Rule, b: Rule, c: Rule, d: Rule, body: Body)
    ensures Validate([a, b, c, d], body) == [] <==>
      RuleErrors(a, body) == [] && RuleErrors(b, body) == [] && RuleErrors(c, body) == [] && RuleErrors(d, body) == []
  {
    ValidateThree(b, c, d, body);
    var rs := [a, b, c, d];
    assert rs[1..] == [b, c, d];
    assert Validate(rs, body) == RuleErrors(a, body) + Validate([b, c, d], body);
  }

  /** `req.headers.authorization?.split(" ")[1]`; `None` stands for `undefined`. */
  function BearerToken(header: Option<string>): Option<string> {
    match header
    case None => None
    case Some(h) =>
      var parts := Split(h, ' ');
      if |parts| > 1 then Some(parts[1]) else None
  }

  /** The token is the text after the first space, up to the next space or the end; a
      header without a space has none. */
  lemma BearerTokenIsSecondWord(h: string)
    ensures var i := IndexOf(h, ' ');
      BearerToken(Some(h)) == if i == |h| then None else Some(h[i + 1..][..IndexOf(h[i + 1..], ' ')])
  {
    SplitSecond(h, ' ');
  }

  /** What a client sends, `Bearer <token>`, gives back the token when it has no space. */
  lemma {:induction false} BearerTokenRoundTrip(scheme: string, token: string)
    requires ' ' !in scheme && ' ' !in token
    ensures BearerToken(Some(scheme + " " + token)) == Some(token)
  {
    SplitJoin([scheme, token], ' ');
    assert Join([scheme, token], ' ') == scheme + " " + token;
  }

  /** The payload of a verified token, as the routes read it from `req.user`. */
  datatype Claims = Claims(name: Value, email: Value)

  /** `jwt.verify(token, secret)`; `None` when it throws. */
  type TokenVerifier = string -> Option<Claims>

  /** One request and its response, as far as the middleware touches them. */
  class Exchange {
    var authorization: Option<string>   // req.headers.authorization
    var user: Option<Claims>            // req.user
    var sent: Option<(nat, string)>     // status and error of the response sent, if any
    var nextCalls: nat                  // how many times next() has been called

    constructor (authorization: Option<string>)
      ensures this.authorization == authorization
      ensures user == None && sent == None && nextCalls == 0
    {
      this.authorization := authorization;
      user := None;
      sent := None;
      nextCalls := 0;
    }

    /** `authMiddleware`: no token gives 401 "No token provided"; a token the verifier
        rejects gives 401 "Invalid token"; otherwise `req.user` is the payload and `next`
        runs once. The header is never changed. */
    method AuthMiddleware(verify: TokenVerifier)
      modifies this
      ensures authorization == old(authorization)
      ensures var token := BearerToken(old(authorization));
        if token == None || token == Some("") then
          sent == Some((401, "No token provided")) && user == old(user) && nextCalls == old(nextCalls)
        else if verify(token.value).None? then
          sent == Some((401, "Invalid token")) && user == old(user) && nextCalls == old(nextCalls)
        else
          user == verify(token.value) && nextCalls == old(nextCalls) + 1 && sent == old(sent)
    {
      var token := BearerToken(authorization);
      if token == None || token == Some("") {
        sent := Some((401, "No token provided"));
        return;
      }
      var decoded := verify(token.value);
      if decoded.None? {
        sent := Some((401, "Invalid token"));
        return;
      }
      user := decoded;
      nextCalls := nextCalls + 1;
    }
  }

  /** `asyncHandler(fn)`: the reply of a handler that completes is sent as it is (on those
      the wrapper is the identity); an error it throws, or a rejection of its promise, is
      passed to `next`. The route handlers that return `Forwarded` themselves have this
      wrapper folded in. */
  function AsyncHandler<P>(outcome: Result<Reply<P>, string>): (reply: Reply<P>)
    ensures outcome.Failure? ==> reply == Forwarded(outcome.error)
    ensures outcome.Success? ==> reply == outcome.value
    ensures reply.Forwarded? <==> outcome.Failure? || outcome.value.Forwarded?
  {
    match outcome
    case Success(r) => r
    case Failure(e) => Forwarded(e)
  }

  /** Wrapping a handler twice adds nothing: the outer wrapper sees a completed reply. */
  lemma AsyncHandlerIdempotent<P>(outcome: Result<Reply<P>, string>)
    ensures AsyncHandler(Success(AsyncHandler(outcome))) == AsyncHandler(outcome)
  {
  }
}
