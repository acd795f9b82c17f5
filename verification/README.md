# Snowstorm ebook storefront — a verified model

Snowstorm sells ebooks. Its server is an Express application in front of two datastores:
a Supabase table of orders and ebooks, and Mongoose collections of transactions,
affiliates, feedback and users. A Razorpay gateway takes the payments, and affiliates
earn a commission on the sales they refer. Its browser side is a React application: a
referral tracker, a catalogue page with a set of owned books, a carousel, countdown cards
for upcoming books, and a registration form.

This project models the signature-gated payment ledger and the logic around it:

- **Payment routes.** There are four order routers.
  - Three of them (`payments.js`, `transaction.js`, `order.js`) create a pending order or
    transaction and ask the gateway for `amount * 100` paise in INR.
  - Their verify handlers recompute the HMAC of `order_id|payment_id` and compare it with
    the client's signature. A mismatch answers 400 and writes nothing. A match completes
    the row.
  - After a match, `payments.js` records the affiliate's commission and `transaction.js`
    mails the affiliate.
  - `orders.js` does neither. Its `/create` only inserts a pending row, with the client's
    currency or "INR", and calls no gateway.
  - Its `/update-status` writes whatever status the client sends, "paid" included, with no
    signature check. For "paid" it then mails the affiliate. Any caller can mark an order
    paid this way (`OrdersRoute.UpdateStatus`).
- **Models.** The model layer's filter-and-sort queries and schema rules: enums,
  defaults, bounds, required paths, lower-casing, the unique affiliate code and the
  abstracted bcrypt password methods.
- **Middleware.** The bearer-token gate, `validate` and `asyncHandler`.
- **Browser state.**
  - The referral tracker (last non-blank `?aff=` wins, trimmed and stored) and the route
    table.
  - The cyclic carousel index and the countdown decomposition.
  - The registration form's validator and handlers.
  - The catalogue page's owned set and level colours.

The handlers that change a datastore are methods over two classes:
- `OrdersModel.OrderTable`, the Supabase `orders` table;
- `TransactionModel.TransactionStore`, the Mongoose `Transaction` collection.

Browser components with state are classes whose fields are the component's state.

JavaScript values are modelled explicitly (`JsValue`): `undefined`, `null`, booleans,
numbers (as reals), strings and objects, together with truthiness, `||`, `?.` and string
conversion.

Outside collaborators are parameters of the operations that use them:
- the HMAC signer;
- the gateway's `orders.create`;
- JWT verification;
- bcrypt's hash and compare;
- the mail sender;
- `JSON.parse` and `JSON.stringify`;
- datastore failures: every operation that reads or writes Supabase or Mongoose takes the
  error it throws, if any, as a parameter (`failure`; the pair `faults` in the transaction
  routes, one for the affiliate lookup and one for the write), and the handlers forward it;
- the clock (`now`).

Each divergent handler is modelled as it is written. Where handlers disagree with each
other or with the models they call, the model follows the code:

- `backend/routes/payments.js:32` passes four arguments to `createOrder`, which reads two
  (`backend/models/orders.js:5`). The stored order has a null amount and affiliate code,
  as `PaymentsRoute.CreateOrder` states.
- `backend/routes/payments.js:67-71` passes payment identifiers that `updateOrderStatus`
  ignores (`backend/models/orders.js:29`). Only the status changes.
- `backend/routes/transaction.js:30` looks affiliates up by `referral_code`, a path the
  schema does not have (`backend/models/affiliates.js:5`). The lookup never looks at the
  code: `AffiliateModel.ReferralLookupIgnoresCode` and
  `AffiliateModel.ReferralLookupReturnsOtherAffiliate` show it. With Mongoose's
  strict-query filtering the filter is empty and the first affiliate answers. Without it
  the filter matches nothing. A `strictQuery` flag chooses between the two.
- `backend/routes/payments.js:80` reads `affiliateData.id` without the `?.` guard of
  line 76. Null or undefined stats throw a TypeError before anything is stored
  (`PaymentsRoute.CommissionRecord`).
- `Affiliates.getAffiliateStats` (`backend/routes/payments.js:75`) is not defined by the
  affiliate model. It is a parameter `statsOf` whose failure is the error the call throws.
  The rate is read from `commission_rate`, while the schema's path is `commissionRate`.
- `backend/routes/orders.js:5` imports a `sendEmail` that the mail helper does not export,
  so `notifyAffiliate` throws and catches on every call. `OrdersRoute.Sender.Missing`
  models that; a working sender is also modelled.
- In `backend/models/ebooks.js` lines 24-25 follow a `return` and never run.
- `getLevelBadgeColor` (`src/pages/Ebooks.jsx:325-335`) indexes an object literal with
  the level. A level that names a member inherited from `Object.prototype`, such as
  "toString", "constructor" or "__proto__", yields that inherited member (a function or
  an object), not a gradient. `EbooksPage.LevelBadgeColor` models that case.
- Nothing prevents a verification from being replayed. `PaymentsRoute.VerifyTwice` shows
  that a second identical call succeeds again and adds a second commission record.

## Model

| member | source | states |
|---|---|---|
| PaymentsRoute.CreateOrderValidation | backend/routes/payments.js:15-20 | `/create-order` passes validation exactly when userId and ebookId are non-empty and the amount is a number of at least 1 |
| PaymentsRoute.CreateOrder | backend/routes/payments.js:21-40 | invalid bodies get the validator's errors and change nothing; otherwise the gateway is asked for `amount*100` paise in INR with the `ebook_<id>_<now>` receipt, and the reply is Ok exactly when the gateway and the datastore both succeed; a gateway or datastore error is forwarded and stores nothing; success appends exactly one pending row holding only user and ebook (affiliate code and amount null) |
| PaymentsRoute.VerifyValidation | backend/routes/payments.js:47-52 | `/verify` passes validation exactly when the four identifiers are non-empty |
| PaymentsRoute.CommissionRate | backend/routes/payments.js:76 | the rate is the stats' `commission_rate` when truthy, otherwise 0.2 (0 included); either way the rate is truthy |
| PaymentsRoute.CommissionAmount | backend/routes/payments.js:76-77 | the commission is amount × rate for a non-zero numeric rate and amount × 0.2 for a missing or falsy one |
| PaymentsRoute.CommissionRecord | backend/routes/payments.js:79-90 | null/undefined stats fail (unguarded `.id`); otherwise the record has status "completed", the commission amount, the affiliate id, the order's code and currency, the user's name and email and the three gateway identifiers |
| PaymentsRoute.RecordCommission | backend/routes/payments.js:74-91 | no truthy affiliate code: nothing stored; otherwise exactly the commission document is appended, or the error the stats lookup, the cast or `Transaction.create` throws is returned and nothing is stored; success exactly when `CommissionSucceeds` |
| PaymentsRoute.Verify | backend/routes/payments.js:53-94 | invalid input or a signature mismatch (400 "Payment verification failed") changes neither store; on a match the row with orderId, and only it, becomes "completed", and stays so when the commission step then fails and its error is forwarded; a Supabase failure or a missing row leaves the rows as they were; success holds exactly when the commission step, including `Transaction.create`, succeeds; a commission document is appended iff the updated order has a truthy affiliate code |
| PaymentsRoute.VerifyTwice | backend/routes/payments.js:67-90 | a replayed verification succeeds again with the same row, and for an order with an affiliate code two commission records are added |
| Gateway.Paise | backend/routes/payments.js:26 | the gateway amount is the body's amount × 100; NaN for undefined or object amounts |
| Gateway.PaiseOfNumeral | backend/routes/order.js:17 | an amount sent as a decimal numeral is multiplied as the number it denotes (`"299" * 100` is 29900) |
| JsValue.NumeralToNumber | backend/routes/order.js:17 | `Number` of a decimal numeral is its value |
| Gateway.SignedTextDeterminesIds | backend/routes/payments.js:57-60 | for order ids without '\|', the signed text `order\|payment` determines both identifiers |
| Gateway.SignedTextAmbiguous | backend/routes/payments.js:59 | without that restriction two different identifier pairs sign the same text |
| TransactionRoute.CreateValidation | backend/routes/transaction.js:14 | `/create` passes validation exactly when the amount is a number ≥ 1 and userName and userEmail are non-empty |
| TransactionRoute.ReferredAffiliate | backend/routes/transaction.js:28-32 | affiliateId is null for a falsy code or a failed lookup, otherwise the found affiliate's id |
| TransactionRoute.Create | backend/routes/transaction.js:11-48 | invalid bodies get the errors and change nothing; otherwise the gateway is asked for `amount*100` paise in INR under `txn_<now>`, and the reply is Ok exactly when the gateway succeeds, the affiliate lookup (made for a truthy code) does not throw, Mongoose accepts the pending record and the write does not throw; success appends exactly one transaction, pending, INR, for the amount, with the referred affiliate, the code or null and the gateway's order id; a failure stores nothing |
| TransactionRoute.Checkout | backend/routes/transaction.js:19-46 | past validation: the gateway request; Ok exactly when the gateway succeeds and the pending record is stored (`Recorded`); then the pending transaction, as above |
| TransactionRoute.Record | backend/routes/transaction.js:27-46 | Ok exactly when the lookup a truthy code calls for does not throw, Mongoose accepts the record `/create` builds for the gateway's order, and `Transaction.create` does not throw; a lookup error is forwarded; on Ok the record is appended and satisfies the pending-transaction description; otherwise nothing is stored |
| TransactionRoute.PendingAccepted | backend/routes/transaction.js:35-44 | for a numeric amount the record is refused exactly when the affiliate code, userName or userEmail is an object |
| TransactionRoute.Verify | backend/routes/transaction.js:60-98 | invalid input or a signature mismatch (400) changes nothing and mails nobody; on a match a payment id or signature that is an object (cast error), an error from `findByIdAndUpdate`, or a missing transaction is forwarded and changes nothing; otherwise the first transaction with the id becomes "completed" with the payment id and signature cast to strings, and the rest is `Notified` (see Notify) |
| TransactionRoute.Notify | backend/routes/transaction.js:84-97 | the affiliate is looked up only for a truthy affiliateId; a lookup error is forwarded; a mail is composed iff the lookup succeeds and finds an affiliate, addressed to it with the buyer, amount and time; the reply is the transaction unless the lookup or the sending throws |
| TransactionRoute.All | backend/routes/transaction.js:102-110 | a query error is forwarded; otherwise `/all` returns every transaction, newest first, and nothing else |
| OrderRoute.Create | backend/routes/order.js:8-30 | 400 "Missing fields" iff userId, ebookId or amount is falsy (amount 0 included), with no gateway call; otherwise the gateway gets `amount*100` paise in INR, and the reply is Ok exactly when the gateway and the datastore succeed; a gateway or datastore error gives 500 with its message or the fallback and stores nothing; no other status is sent; success appends one pending row with only user and ebook |
| OrderRoute.Verify | backend/routes/order.js:33-52 | a signature mismatch gives 400 and changes nothing; a match completes exactly the row with orderId and replies with it; a missing row or datastore error gives 500 and changes nothing |
| OrdersRoute.Create | backend/routes/orders.js:8-31 | a datastore error gives 500 "Failed to create order" and changes nothing; otherwise one pending row is appended with the body's user, ebook and amount, the currency or "INR" and the affiliate code or null |
| OrdersRoute.StatusPatch | backend/routes/orders.js:40-45 | the patch writes the given status; each payment identifier is a truthy value of paymentData or null, never undefined or empty, and a truthy one is kept |
| OrdersRoute.AffiliateFor | backend/routes/orders.js:68-72 | `.eq("code", …).single()` finds an affiliate iff exactly one row has the code |
| OrdersRoute.BuyerName | backend/routes/orders.js:77-83 | the found buyer's name when it is truthy; "Anonymous" when the buyer is not found or has a falsy name; always truthy |
| OrdersRoute.NotifyAffiliate | backend/routes/orders.js:65-103 | no matching affiliate: no mail; otherwise the mail goes to the affiliate with the buyer's name, amount and time; it is delivered iff the sender exists and succeeds, and nothing it throws escapes |
| OrdersRoute.UpdateStatus | backend/routes/orders.js:34-62 | the reply is the patched row iff there is no datastore error and a row has orderId, else 500 "Failed to update order status" with nothing changed; only that row changes; a mail is attempted only for status exactly "paid" with a truthy affiliate code and never alters the reply |
| OrdersModel.IdSelectsOneRow | backend/models/orders.js:33 | in a table with increasing ids an id selects at most one row, exactly one iff some row has it |
| OrdersModel.IdSelectsPaddedNumeral | backend/models/orders.js:33 | `.eq("id", v)` casts the text of `v` to the bigint column: the row is selected by its numeral with white space (space, tab, line feed, carriage return, vertical tab, form feed) around it, leading zeros or a plus sign |
| OrdersModel.IdSelectsNumber | backend/models/orders.js:33 | the row is selected by its id given as a JSON number |
| OrdersModel.NegativeSelectsNothing | backend/models/orders.js:33 | a negative numeral selects no row |
| OrdersModel.PaddedDigitsValue | backend/models/orders.js:33 | PostgreSQL reads a run of digits, padded with white space and perhaps signed with "+", as its value |
| OrdersModel.OrderTable.constructor | backend/models/orders.js:6-7 | the table starts empty |
| OrdersModel.OrderTable.Insert | backend/models/orders.js:6-13 | `insert([draft]).select().single()` appends one row with a fresh id, or returns the error and changes nothing |
| OrdersModel.OrderTable.Update | backend/models/orders.js:30-38 | `update(patch).eq("id", id).single()` patches the one row with the id, or fails (datastore error, or not exactly one row) and changes nothing |
| OrdersModel.CreateOrder | backend/models/orders.js:5-14 | inserts exactly one row with the given user_id and ebook_id and status "pending", and returns it; an error is thrown, not returned |
| OrdersModel.OrdersByUser | backend/models/orders.js:17-26 | the rows whose user_id matches, each as often as stored, newest first; an error is thrown |
| OrdersModel.OrdersByUserMembers | backend/models/orders.js:17-21 | a row is listed exactly when it is stored and belongs to the user |
| OrdersModel.UpdateOrderStatus | backend/models/orders.js:29-39 | only the status of the row with the id changes; a datastore error or a missing row fails and changes nothing |
| TransactionModel.StatusRoundTrip | backend/models/transaction.js:14 | the status enum accepts exactly "pending", "completed" and "failed", each read back as its state |
| TransactionModel.NewTxn | backend/models/transaction.js:4-16 | a document is made iff every path casts; amount is required; currency defaults to "INR", status to pending, affiliateId and code to null |
| TransactionModel.TransactionStore.constructor | backend/models/transaction.js:18 | the collection starts empty |
| TransactionModel.TransactionStore.Create | backend/models/transaction.js:4-16 | `create` appends exactly the validated document with a fresh id; a validation error, or else the datastore's error, is returned and changes nothing |
| TransactionModel.TransactionStore.FindByIdAndUpdate | backend/routes/transaction.js:73-81 | a payment id or signature that is an object fails the string cast; a number is stored as its text; then a datastore error changes nothing; otherwise the first document with the id gets the cast patch's defined fields and is returned; none found changes nothing |
| TransactionModel.CastPatch | backend/routes/transaction.js:76-79 | the patch casts exactly when neither identifier is an object; the status is kept, strings, null and undefined pass unchanged and numbers become their text |
| TransactionModel.TransactionStore.AllNewestFirst | backend/models/transaction.js:15 | every document, sorted by createdAt descending, as a permutation of the collection |
| AffiliateModel.NewAffiliate | backend/models/affiliates.js:4-15 | code and name are required, the code must not be taken (uniqueness preserved), and every Number path must cast; commissionRate defaults to 0.20 and the counters to 0 when absent; a null or empty rate is stored as null and a numeric one as given |
| AffiliateModel.CastNumber | backend/models/affiliates.js:8-13 | a Number path: undefined takes the default, null and "" store null, numbers are kept, and only objects and strings `Number` cannot read fail; a stored number is the one `Number` reads |
| AffiliateModel.DefaultsAndNullRate | backend/models/affiliates.js:8-13 | an affiliate created with only a code and a name gets rate 0.20 and zero counters; with a null or empty rate, a null rate |
| AffiliateModel.FindOneByReferralCode | backend/models/affiliates.js:5 | the `referral_code` filter is unknown to the schema: strict queries return the first affiliate of a non-empty collection, and none of an empty one; non-strict queries return none |
| AffiliateModel.ReferralLookupIgnoresCode | backend/models/affiliates.js:5 | two different codes always get the same lookup answer |
| AffiliateModel.ReferralLookupReturnsOtherAffiliate | backend/models/affiliates.js:5 | an affiliate with code "B" answers a lookup for code "A" |
| AffiliateModel.FindById | backend/routes/transaction.js:85-86 | `findById` returns the affiliate whose id has the text of the argument, or nothing iff none has |
| EbooksModel.PublishedEbooks | backend/models/ebooks.js:4-13 | exactly the rows with status "published", newest first; an error is thrown |
| EbooksModel.UpcomingEbooks | backend/models/ebooks.js:16-26 | exactly the rows with status "upcoming", earliest release first; an error is thrown |
| EbooksModel.CataloguesDisjoint | backend/models/ebooks.js:8-20 | no row is in both catalogues |
| FeedbackModel.CastRating | backend/models/feedbacks.js:19-24 | a stored rating lies in [1,5]; undefined takes 5 |
| FeedbackModel.CastMessage | backend/models/feedbacks.js:14-18 | the message is stored trimmed and must be non-blank |
| FeedbackModel.NewFeedback | backend/models/feedbacks.js:3-29 | userId is required, ebookId optional, the message trimmed and non-blank, the rating in [1,5] defaulting to 5 |
| FeedbackModel.FeedbackByEbook | backend/models/feedbacks.js:35-37 | a datastore error is returned; otherwise exactly that ebook's feedback, newest first |
| FeedbackModel.FeedbackStore.constructor | backend/models/feedbacks.js:39 | the collection starts empty |
| FeedbackModel.FeedbackStore.AddFeedback | backend/models/feedbacks.js:32-34 | stores userId, ebookId and message only, so the rating is the default 5; a failed validation, or else the datastore's error, is returned and stores nothing |
| UsersModel.NewUser | backend/models/users.js:5-12 | email and passwordHash are required; the email is stored lower-cased and unique; the role is in the enum, defaulting to customer; affiliateId defaults to null |
| UsersModel.StoredEmailIsLower | backend/models/users.js:6 | a stored email is already lower case |
| UsersModel.UserDoc.constructor | backend/models/users.js:7 | a document holds the given hash |
| UsersModel.UserDoc.SetPassword | backend/models/users.js:15-18 | the stored hash becomes the hash of the password under the salt |
| UsersModel.UserDoc.VerifyPassword | backend/models/users.js:20-22 | the answer is bcrypt's comparison of the password with the stored hash |
| UsersModel.SetThenVerify | backend/models/users.js:15-22 | after `setPassword(p)`, `verifyPassword(p)` holds whenever compare accepts what hash produces |
| Middleware.Validate | backend/routes/middleware.js:26-31 | every rule runs; no errors exactly when every rule passes |
| Middleware.ValidateThree | backend/routes/middleware.js:26-29 | three rules pass together exactly when each passes |
| Middleware.ValidateFour | backend/routes/middleware.js:26-29 | four rules pass together exactly when each passes |
| Middleware.BearerTokenIsSecondWord | backend/routes/middleware.js:13 | the token is the text between the first space and the next, or none without a space |
| Middleware.BearerTokenRoundTrip | backend/routes/middleware.js:13 | `Bearer <token>` yields the token back |
| Middleware.Exchange.constructor | backend/routes/middleware.js:12 | a request starts with no user, no response and no call to next |
| Middleware.Exchange.AuthMiddleware | backend/routes/middleware.js:12-23 | no token: 401 "No token provided" and next not called; a token that fails: 401 "Invalid token"; otherwise req.user is the decoded payload and next is called exactly once |
| Middleware.AsyncHandler | backend/routes/middleware.js:7-9 | the reply is forwarded to next exactly when the handler rejects or itself forwards an error; a completed handler's reply is sent as is, so on completed replies the wrapper is the identity; `TransactionRoute.All` replies through it |
| Middleware.AsyncHandlerIdempotent | backend/routes/middleware.js:7-9 | wrapping a handler twice gives the same reply as wrapping it once |
| App.InitialCode | src/App.jsx:24 | the initial code is the stored "aff_code" unless it is missing or empty, then null; a code is never empty |
| App.Referral | src/App.jsx:27-29 | a referral, when present, is non-empty |
| App.ReferralIsTrimmedParam | src/App.jsx:27-31 | a query carries a referral exactly when its `aff` parameter is present and not blank, and the referral is that parameter trimmed |
| App.LastReferral | src/App.jsx:29-31 | the referral is taken from a query that no later query with a referral follows; none iff no query carries one |
| App.LastWins | src/App.jsx:26-33 | after any sequence of visited queries the code is the last referral, or the initial code when none carried one |
| App.AffiliateTracker.constructor | src/App.jsx:24 | mounting keeps storage and starts from the stored code or null |
| App.AffiliateTracker.OnLocationChange | src/App.jsx:26-33 | a referral is stored under "aff_code" and becomes the code; without one both stay as they were; the code in use is always the stored one |
| App.RouteKey | src/App.jsx:107-113 | the compared path has no trailing slash |
| App.Resolve | src/App.jsx:107-113 | every path other than the five named routes redirects to "/" |
| App.RedirectRendersHome | src/App.jsx:108-113 | the redirect target renders the home page |
| Carousel.NextIndex | src/component/Carousel.jsx:14-18 | for an in-range index the next index stays in [0, len) and is `(i+1) mod len` |
| Carousel.PrevIndex | src/component/Carousel.jsx:8-12 | for an in-range index the previous index stays in [0, len) and is `(i-1) mod len` |
| Carousel.NextPrevInverse | src/component/Carousel.jsx:8-18 | prev after next, and next after prev, is the identity |
| Carousel.FullRoundReturns | src/component/Carousel.jsx:14-18 | len presses of next return to the start |
| Carousel.ExactlyOneActive | src/component/Carousel.jsx:31 | an in-range index marks exactly one item active, any other none |
| Carousel.CarouselState.constructor | src/component/Carousel.jsx:6 | the index starts at 0 |
| Carousel.CarouselState.PrevSlide | src/component/Carousel.jsx:8-12 | the index becomes its predecessor and stays in range |
| Carousel.CarouselState.NextSlide | src/component/Carousel.jsx:14-18 | the index becomes its successor and stays in range |
| Carousel.CarouselState.Active | src/component/Carousel.jsx:27-31 | the rendered flags mark exactly one item for an in-range index |
| UpcomingCard.Countdown | src/component/UpcomingCard.jsx:17-26 | "Released!" iff diff ≤ 0; otherwise days, hours, minutes and seconds equal the integer div/mod of diff |
| UpcomingCard.CountdownIsExact | src/component/UpcomingCard.jsx:23-26 | hours < 24, minutes and seconds < 60, and the parts add up to diff short of less than a second |
| UpcomingCard.HoursPart | src/component/UpcomingCard.jsx:24 | `floor((diff/3600000) % 24)` is `(diff div 3600000) mod 24` |
| UpcomingCard.MinutesPart | src/component/UpcomingCard.jsx:25 | `floor((diff/60000) % 60)` is `(diff div 60000) mod 60` |
| UpcomingCard.SecondsPart | src/component/UpcomingCard.jsx:26 | `floor((diff/1000) % 60)` is `(diff div 1000) mod 60` |
| UpcomingCard.DaysPart | src/component/UpcomingCard.jsx:23 | `floor(diff/86400000)` is `diff div 86400000` |
| UpcomingCard.CardState.constructor | src/component/UpcomingCard.jsx:6-8 | empty email, not registered, no text, ticking |
| UpcomingCard.CardState.SetEmail | src/component/UpcomingCard.jsx:62 | only the email changes |
| UpcomingCard.CardState.Tick | src/component/UpcomingCard.jsx:12-29 | the shown text is the countdown's; ticking stops once diff ≤ 0 |
| UpcomingCard.CardState.HandleSubmit | src/component/UpcomingCard.jsx:34-43 | an empty email or one the pattern rejects alerts and changes nothing; otherwise onRegister gets (email, id) once, registered is set and the email cleared |
| Text.Trim | src/App.jsx:29 | `trim()` leaves no white space at either end and is empty iff the text is blank |
| Text.TrimIdempotent | src/pages/Home.jsx:52 | trimming twice is trimming once |
| Text.TrimIsInfix | backend/models/feedbacks.js:17 | trimming removes a blank prefix and suffix and keeps what lies between |
| Text.Split | backend/routes/middleware.js:13 | `split(" ")` gives separator-free parts that join back to the text |
| Text.SplitJoin | backend/routes/middleware.js:13 | splitting undoes joining for separator-free parts |
| Text.Lower | backend/models/users.js:6 | lower-casing maps each character and leaves no ASCII capital |
| Text.LowerIdempotent | backend/models/users.js:6 | lower-casing twice is lower-casing once, and text without an ASCII capital is kept |
| Text.NatToDecimalInjective | backend/routes/transaction.js:73 | different ids have different texts, so an id text names one transaction at most |
| Text.DecimalRoundTrip | backend/routes/order.js:17 | reading the decimal numeral of n gives back n |
| Text.EmailShapedIsRegex | src/pages/Home.jsx:37 | the executable email test decides exactly `\S+@\S+\.\S+` |
| Text.PhoneShapedIsRegex | src/pages/Home.jsx:38 | the executable phone test decides exactly `^\+?[\d\s\-\(\)]+$` |
| UrlQuery.FirstValue | src/App.jsx:27-28 | a value is found iff some non-empty pair has the name |
| UrlQuery.GetParam | src/App.jsx:27-28 | a parameter value never holds '&' |
| UrlQuery.GetParamOfEncode | src/App.jsx:27-28 | reading a parameter back from a query built from pairs finds the first pair with that name |
| Query.Select | backend/models/orders.js:17-22 | filter then order: sorted, and exactly the passing rows with their multiplicities |
| Query.SelectMembers | backend/models/ebooks.js:5-9 | a row is listed iff it is stored and passes the filter |
| Query.Single | backend/models/orders.js:34-35 | `.single()` yields a row iff exactly one passes, and it is a stored passing row |
| Home.ValidateForm | src/pages/Home.jsx:33-40 | "Name is required" iff the name is blank; "Email is required" or "Enter a valid email" iff the email is blank or fails the pattern; "Enter a valid phone number" iff a non-empty phone fails its pattern; no other key |
| Home.AcceptedFormIsWellFormed | src/pages/Home.jsx:33-40 | an accepted form has a name, an email matching the pattern and an empty or matching phone |
| Home.Trimmed | src/pages/Home.jsx:52 | name, email and phone are each the trim of the typed field (so trimming again changes nothing), the password kept |
| Home.AlreadyRegistered | src/pages/Home.jsx:70 | a missing error reads as no; a text error reads as yes exactly when its lower-cased text contains "already registered"; any other error throws a TypeError |
| Home.SignedInAs | src/pages/Home.jsx:80-81 | a reply without a user throws; otherwise the user is an admin iff its role is "admin" |
| Home.HomePage.constructor | src/pages/Home.jsx:11-14 | the initial form, no errors, not registered, not loading |
| Home.HomePage.OnMount | src/pages/Home.jsx:16-31 | the new view is `Mounted` of the old: a stored non-empty token and user text whose parse has a truthy id navigate an admin to /affiliates and mark others registered; a user text that fails to parse removes both keys |
| Home.HomePage.HandleInputChange | src/pages/Home.jsx:42-46 | the field takes the value and only that field's error is cleared |
| Home.HomePage.SignIn | src/pages/Home.jsx:77-87 | the new view is `AfterSignIn` of the old: the token is stored as text and the user as its JSON; an admin navigates to /affiliates, anyone else is registered, a reply without a user shows "Server error. Try again." |
| Home.HomePage.Submit | src/pages/Home.jsx:61-94 | the sent requests are the registration plus the login exactly when registration reports "already registered"; the new view is `AfterReplies` of the old: sign-in on a successful reply, "Server error. Try again." on a failed request, a null reply or a non-text error, else the reply's error or "Registration failed" / "Login failed" |
| Home.HomePage.HandleRegister | src/pages/Home.jsx:48-95 | the trimmed form is validated; any error is shown and nothing is sent or stored; otherwise the messages are cleared and the view and requests are those of the submission; loading ends false |
| Home.RepliesNavigateOnlyToDashboard | src/pages/Home.jsx:61-94 | the submission navigates nowhere but /affiliates |
| Home.OnlySuccessSignsIn | src/pages/Home.jsx:61-94 | the session is stored and the page moves on only after a reply reporting success: the registration's, or the login's after "already registered" |
| Home.RepliesShowOneMessage | src/pages/Home.jsx:61-94 | every outcome keeps the messages or shows exactly one general message |
| Home.SessionSurvivesReload | src/pages/Home.jsx:16-31 | a session stored by a sign-in is restored on a reload: the admin reaches /affiliates and anyone else the thank-you panel, given that parsing returns the user that was stringified |
| EbooksPage.SetAdd | src/pages/Ebooks.jsx:297 | adding keeps the set free of repeats, only grows it and appends a new element last |
| EbooksPage.SetAddIdempotent | src/pages/Ebooks.jsx:297 | adding the same book twice has no further effect |
| EbooksPage.SetFrom | src/pages/Ebooks.jsx:207 | `new Set(items)` holds each element once and exactly the items |
| EbooksPage.SetFromDistinct | src/pages/Ebooks.jsx:207 | a list without repeats becomes a set of exactly it |
| EbooksPage.SetOfParsed | src/pages/Ebooks.jsx:205-210 | a parsed array gives its elements; a parse failure or a non-iterable gives the empty set |
| EbooksPage.Restore | src/pages/Ebooks.jsx:202-211 | the initial owned set is empty when storage is off, or when the key is missing, empty, malformed or holds a value that is not iterable; a stored array gives exactly its elements, once each |
| EbooksPage.RestoreSaved | src/pages/Ebooks.jsx:280-288 | a saved set is restored as itself |
| EbooksPage.LevelBadgeColor | src/pages/Ebooks.jsx:325-335 | a named level gets its own gradient; a name inherited from `Object.prototype` ("toString", "constructor", "__proto__" and the rest) yields that inherited member; any other level gets the default gradient; `LevelColorsDistinct` is its partner |
| EbooksPage.LevelColorsDistinct | src/pages/Ebooks.jsx:325-335 | any two different named levels get different colours, and no named level gets the default |
| EbooksPage.EbooksPageState.constructor | src/pages/Ebooks.jsx:202-219 | the owned set is the restored one and is saved back |
| EbooksPage.EbooksPageState.HandlePurchaseClick | src/pages/Ebooks.jsx:290-294 | a book whose id is owned does nothing; another opens the form for the book |
| EbooksPage.EbooksPageState.HandlePurchaseSuccess | src/pages/Ebooks.jsx:296-304 | the book's id joins the owned set, the form closes, and the saved entry follows |
| EbooksPage.EbooksPageState.SetCustomerEmail | src/pages/Ebooks.jsx:213-217 | only the email changes |
| EbooksPage.EbooksPageState.HandleCustomerSubmit | src/pages/Ebooks.jsx:306-316 | no email: an alert and no change; otherwise the selected book's form gets showCheckout |

## Left out

- Floating point: amounts are reals, so the rounding of `amount * 100` and `amount * rate` is not modelled.
- Numeric strings: a string transaction amount or feedback rating is not parsed by Mongoose's casts or `isFloat`. It fails the cast, or the number check, in the model. The affiliate's Number paths do read strings, through `JsValue.ToNumber` (see that line).
- JsValue.ToNumber: only blank strings and decimal digit runs convert. Signed, fractional, exponent, hexadecimal and "Infinity" strings are NaN in the model, whereas `*` would convert them (`backend/routes/order.js:17`).
- Text.Lower: only the ASCII letters A-Z are lower-cased, whereas `toLowerCase` (`backend/models/users.js:6`) maps every Unicode capital. `UsersModel.NewUser` and `Home.AlreadyRegistered` inherit this.
- UsersModel.NewUser: the email is lower-cased on the ASCII letters only (see `Text.Lower`), so an email with other capitals is stored, and checked for uniqueness, differently. The `affiliateId` ObjectId path is stored as given, not cast. Mongoose would refuse a value that is not a 24-digit hexadecimal id or an ObjectId.
- FeedbackModel.NewFeedback: the `userId` and `ebookId` ObjectId paths are stored as given, not cast. An id that is not a valid ObjectId is accepted by the model.
- TransactionModel.NewTxn: the `affiliateId` ObjectId path is cast like a string. Ids from `AffiliateModel.ObjectId` are decimal numerals, standing in for Mongoose's generated ids.
- Module resolution: the routers `require` paths that do not exist (`../models/Transaction`, `../middleware`, `../utils/razorpay`). The model assumes these modules load.
- The HMAC, the gateway, JWT verification, bcrypt, the mail sender, `JSON.parse`/`JSON.stringify` and the clock are parameters. Their internals are not modelled.
- `populate("affiliateId", …)` in `/all` is not modelled. The listed transactions carry the stored id.
- The route chain (`authMiddleware`, then `validate`, then the handler) is not composed. Each step is modelled on its own, and the handlers take the verified user as a parameter. `asyncHandler` is folded into each handler, which returns `Forwarded` itself; only `TransactionRoute.All` calls `Middleware.AsyncHandler` explicitly.
- `URLSearchParams` is modelled without percent-decoding and without '+' as a space.
- Release dates are integers of milliseconds. A missing or unparsable date (NaN in the browser) is not modelled.
- `setInterval` timing is not modelled: `UpcomingCard.CardState.Tick` is one run of the callback.
- `clearInterval` is modelled as a `ticking` flag.
- Rendering and JSX are not modelled.
- `formatPrice` (`Intl.NumberFormat`) is not modelled.
- The owned set compares JSON values structurally. A JavaScript `Set` compares objects by identity, so owned books that are objects are not modelled faithfully.
- App.Resolve: react-router's matching is modelled as case-insensitive with trailing slashes ignored. Its other rules are not modelled: dynamic segments, and decoding.
- The `setCode` the tracker offers its consumers is not modelled. No core page calls it.
- OrdersModel.IdIs: the cast of the id text follows PostgreSQL's `bigint` input for white space, a sign and decimal digits. The underscores and `0x`/`0o`/`0b` prefixes that PostgreSQL 16 accepts are not modelled, nor is the range of `bigint`. A text PostgreSQL refuses raises an input-syntax error there; in the model it selects no row, so the update fails with the `.single()` error instead. Both are thrown.
- TransactionModel.TxnIdIs: `findByIdAndUpdate` matches the id's text against the document id, a decimal numeral in the model. Mongoose's cast of the id to an ObjectId is not modelled: an id it cannot cast throws a CastError there, and in the model it finds no document, which the handler also turns into a thrown error.
- JsValue: there are no arrays. Request bodies and replies that hold arrays are outside the model, and the list replies (`/all`, the order lists) are modelled as sequences of rows rather than as JSON arrays.
- Datastore errors are parameters; a network failure is one such error. Mongoose's `findOne` and `findById` on affiliates are modelled as pure lookups (`AffiliateModel.FindOneByReferralCode`, `AffiliateModel.FindById`), and the error they may throw is the handler's `faults.lookup`; likewise `TransactionModel.TransactionStore.AllNewestFirst` and the `failure` of `TransactionRoute.All`.
- Concurrency between overlapping requests is not modelled. Each handler runs to completion.
- The Razorpay `/key` route is left out because it only echoes configuration.
- The rest of the browser pages and components are left out, as is the checkout component of the catalogue page: they are network or presentation code.
