/** The `Feedback` collection: a required author, an optional ebook, a trimmed required
    message and a rating between 1 and 5 that defaults to 5; `addFeedback` stores the first
    three and `getFeedbackByEbook` lists one ebook's feedback newest first. */
module FeedbackModel {
  import opened Wrappers
  import opened Text
  import opened JsValue
  import opened Query
  import opened AffiliateModel

  datatype Feedback = Feedback(id: nat, userId: Value, ebookId: Value, message: string, rating: Value, createdAt: int)

  datatype FeedbackInput = FeedbackInput(userId: Value, ebookId: Value, message: Value, rating: Value)

  /** The `rating` path: `undefined` takes the default 5; a number (or a boolean, cast to 1
      or 0) must lie in [1, 5]; null skips the bounds. */
  function CastRating(v: Value): (r: Result<Value, string>)
    ensures r.Success? ==> r.value.Null? || (r.value.Number? && 1.0 <= r.value.n <= 5.0)
    ensures v.Undefined? ==> r == Success(Number(5.0))
  {
    match v
    case Undefined => Success(Number(5.0))
    case Null => Success(Null)
    case Number(n) => if n < 1.0 then Failure("Path `rating` is less than minimum allowed value (1).")
                      else if n > 5.0 then Failure("Path `rating` is more than maximum allowed value (5).")
                      else Success(v)
    case Bool(b) => if b then Success(Number(1.0)) else Failure("Path `rating` is less than minimum allowed value (1).")
    case _ => Failure("Cast to Number failed for value at path `rating`")
  }

  /** The `message` path: cast to a string and trimmed, then required to be non-empty. */
  function CastMessage(v: Value): (r: Result<string, string>)
    ensures v.Str? && IsBlank(v.s) ==> r.Failure?
    ensures r.Success? ==> r.value != [] && !IsSpace(r.value[0]) && !IsSpace(r.value[|r.value| - 1])
    ensures r.Success? && v.Str? ==> r.value == Trim(v.s)
  {
    if v.Undefined? || v.Null? then Failure("Path `message` is required.")
    else if CastString(v).Failure? then Failure(CastString(v).error)
    else if Trim(CastString(v).value.s) == "" then Failure("Path `message` is required.")
    else Success(Trim(CastString(v).value.s))
  }

  /** The document `Feedback.create(input)` stores, or the validation error. */
  function NewFeedback(input: FeedbackInput, id: nat, now: int): (r: Result<Feedback, string>)
    ensures input.userId.Undefined? || input.userId.Null? ==> r.Failure?
    ensures input.message.Str? && IsBlank(input.message.s) ==> r.Failure?
    ensures r.Success? ==> r.value.message != [] && !IsSpace(r.value.message[0]) && !IsSpace(r.value.message[|r.value.message| - 1])
    ensures r.Success? && input.message.Str? ==> r.value.message == Trim(input.message.s)
    ensures r.Success? ==> r.value.rating.Null? || (r.value.rating.Number? && 1.0 <= r.value.rating.n <= 5.0)
    ensures r.Success? && input.rating.Undefined? ==> r.value.rating == Number(5.0)
    ensures r.Success? ==> r.value.userId == input.userId && r.value.ebookId == input.ebookId
    ensures r.Success? ==> r.value.id == id && r.value.createdAt == now
  {
    if input.userId.Undefined? || input.userId.Null? then Failure("Path `userId` is required.")
    else
      var message := CastMessage(input.message);
      var rating := CastRating(input.rating);
      if message.Failure? then Failure(message.error)
      else if rating.Failure? then Failure(rating.error)
      else Success(Feedback(id, input.userId, input.ebookId, message.value, rating.value, now))
  }

  /** `{ ebookId }` as a filter: an absent or null value asks for the feedback not tied to
      an ebook; any other value for the feedback whose ebook has that text. */
  predicate EbookIs(f: Feedback, ebookId: Value) {
    if ebookId.Undefined? || ebookId.Null? then f.ebookId.Undefined? || f.ebookId.Null?
    else Matches(f.ebookId, ebookId)
  }

  function FeedbackCreatedAt(f: Feedback): int { f.createdAt }

  /** `getFeedbackByEbook(ebookId)`: that ebook's feedback, newest first, or the datastore's
      error. */
  function FeedbackByEbook(docs: seq<Feedback>, ebookId: Value, failure: Option<string>): (r: Result<seq<Feedback>, string>)
    ensures failure.Some? ==> r == Failure(failure.value)
    ensures failure.None? ==> r.Success? && SortedBy(r.value, FeedbackCreatedAt, true)
    ensures failure.None? ==>
      forall x :: multiset(r.value)[x] == if EbookIs(x, ebookId) then multiset(docs)[x] else 0
  {
    if failure.Some? then Failure(failure.value)
    else Success(Select(docs, (f: Feedback) => EbookIs(f, ebookId), FeedbackCreatedAt, true))
  }

  /** The `Feedback` collection. */
  class FeedbackStore {
    var docs: seq<Feedback>
    var nextId: nat

    constructor ()
      ensures docs == [] && nextId == 1
    {
      docs := [];
      nextId := 1;
    }

    /** `addFeedback(userId, ebookId, message)`: creates a document from these three values
        only, so its rating is the default 5; a validation error, or else the datastore's
        `failure`, stores nothing. */
    method AddFeedback(userId: Value, ebookId: Value, message: Value, now: int, failure: Option<string>)
      returns (r: Result<Feedback, string>)
      modifies this
      ensures var doc := NewFeedback(FeedbackInput(userId, ebookId, message, Undefined), old(nextId), now);
        (r.Success? <==> doc.Success? && failure.None?) &&
        (r.Success? || doc.Failure? ==> r == doc) &&
        (doc.Success? && failure.Some? ==> r == Failure(failure.value))
      ensures r.Success? ==> r.value.rating == Number(5.0)
      ensures r.Failure? ==> docs == old(docs) && nextId == old(nextId)
      ensures r.Success? ==> docs == old(docs) + [r.value] && nextId == old(nextId) + 1
    {
      r := NewFeedback(FeedbackInput(userId, ebookId, message, Undefined), nextId, now);
      if r.Failure? {
        return;
      }
      if failure.Some? {
        return Failure(failure.value);
      }
      docs := docs + [r.value];
      nextId := nextId + 1;
    }
  }
}
