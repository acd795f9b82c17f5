/** The `Affiliate` collection: its schema (required and unique `code`, required `name`,
    a default commission rate of 0.20 and counters that default to 0) and the two lookups the
    routes make on it, `findOne({ referral_code })` and `findById(id)`. */
module AffiliateModel {
  import opened Wrappers
  import opened Text
  import opened JsValue

  datatype Affiliate = Affiliate(
    id: nat,
    code: string,
    name: string,
    email: Value,
    commissionRate: Option<real>,
    clicks: Option<real>,
    salesCount: Option<real>,
    totalRevenue: Option<real>,
    totalCommission: Option<real>,
    totalPaid: Option<real>,
    createdAt: int)

  /** What `Affiliate.create(...)` is given: a value, `undefined` when absent, for each path. */
  datatype AffiliateInput = AffiliateInput(
    code: Value, name: Value, email: Value, commissionRate: Value,
    clicks: Value, salesCount: Value, totalRevenue: Value, totalCommission: Value, totalPaid: Value)

  /** The affiliate's `_id` as the other collections store and send it. */
  function ObjectId(a: Affiliate): Value {
    Str(NatToDecimal(a.id))
  }

  /** A `String` path as Mongoose casts it: numbers and booleans become their text; an
      object cannot be cast. */
  function CastString(v: Value): Result<Value, string> {
    match v
    case Obj(_) => Failure("Cast to string failed")
    case Number(_) => Success(Str(ToStr(v)))
    case Bool(_) => Success(Str(ToStr(v)))
    case _ => Success(v)
  }

  /** A `required` string path is satisfied only by a non-empty string. */
  predicate PresentText(v: Value) {
    CastString(v).Success? && CastString(v).value.Str? && CastString(v).value.s != ""
  }

  /** A `Number` path with a default, as Mongoose casts it: `undefined` takes the default;
      null and the empty string store null (`None`); numbers, booleans and the strings
      `Number` reads become that number; anything else cannot be cast. */
  function CastNumber(v: Value, default: real): (r: Result<Option<real>, string>)
    ensures v.Undefined? ==> r == Success(Some(default))
    ensures v.Null? || v == Str("") ==> r == Success(None)
    ensures v.Number? ==> r == Success(Some(v.n))
    ensures r.Failure? <==> v.Obj? || (v.Str? && v.s != "" && ToNumber(v).None?)
    ensures r.Success? && r.value.Some? && !v.Undefined? ==> ToNumber(v) == r.value
  {
    match v
    case Undefined => Success(Some(default))
    case Null => Success(None)
    case Str(s) =>
      if s == "" then Success(None)
      else if ToNumber(v).Some? then Success(ToNumber(v))
      else Failure("Cast to Number failed")
    case Obj(_) => Failure("Cast to Number failed")
    case Number(n) => Success(Some(n))
    case Bool(b) => Success(Some(if b then 1.0 else 0.0))
  }

  /** Every `Number` path of `input` casts: the rate with its default 0.20, the counters with
      their default 0. */
  predicate NumbersCast(input: AffiliateInput) {
    && CastNumber(input.commissionRate, 0.20).Success?
    && CastNumber(input.clicks, 0.0).Success?
    && CastNumber(input.salesCount, 0.0).Success?
    && CastNumber(input.totalRevenue, 0.0).Success?
    && CastNumber(input.totalCommission, 0.0).Success?
    && CastNumber(input.totalPaid, 0.0).Success?
  }

  predicate CodesUnique(affs: seq<Affiliate>) {
    forall i, j :: 0 <= i < j < |affs| ==> affs[i].code != affs[j].code
  }

  predicate CodeTaken(affs: seq<Affiliate>, code: string) {
    exists i :: 0 <= i < |affs| && affs[i].code == code
  }

  /** `Affiliate.create(input)` next to the affiliates already stored: the code and the name
      are required, the code must not be taken (the unique index), the rate defaults to 0.20
      and the counters to 0; a null or empty rate or counter is stored as null. */
  function NewAffiliate(input: AffiliateInput, existing: seq<Affiliate>, id: nat, now: int): (r: Result<Affiliate, string>)
    ensures r.Success? <==>
      PresentText(input.code) && PresentText(input.name) && CastString(input.email).Success? &&
      NumbersCast(input) && !CodeTaken(existing, CastString(input.code).value.s)
    ensures r.Success? ==>
      Str(r.value.code) == CastString(input.code).value && Str(r.value.name) == CastString(input.name).value &&
      r.value.id == id && r.value.createdAt == now
    ensures r.Success? && input.commissionRate.Undefined? ==> r.value.commissionRate == Some(0.20)
    ensures r.Success? && (input.commissionRate.Null? || input.commissionRate == Str("")) ==> r.value.commissionRate == None
    ensures r.Success? && input.commissionRate.Number? ==> r.value.commissionRate == Some(input.commissionRate.n)
    ensures r.Success? && input.clicks.Undefined? && input.salesCount.Undefined? && input.totalRevenue.Undefined? &&
            input.totalCommission.Undefined? && input.totalPaid.Undefined? ==>
      r.value.clicks == Some(0.0) && r.value.salesCount == Some(0.0) && r.value.totalRevenue == Some(0.0) &&
      r.value.totalCommission == Some(0.0) && r.value.totalPaid == Some(0.0)
    ensures r.Success? && CodesUnique(existing) ==> CodesUnique(existing + [r.value])
  {
    if !PresentText(input.code) then Failure("Path `code` is required.")
    else if !PresentText(input.name) then Failure("Path `name` is required.")
    else if CastString(input.email).Failure? then Failure(CastString(input.email).error)
    else if !NumbersCast(input) then Failure("Cast to Number failed")
    else
      var code := CastString(input.code).value.s;
      if CodeTaken(existing, code) then Failure("E11000 duplicate key error: code")
      else
        Success(Affiliate(id, code, CastString(input.name).value.s, CastString(input.email).value,
                          CastNumber(input.commissionRate, 0.20).value,
                          CastNumber(input.clicks, 0.0).value, CastNumber(input.salesCount, 0.0).value,
                          CastNumber(input.totalRevenue, 0.0).value, CastNumber(input.totalCommission, 0.0).value,
                          CastNumber(input.totalPaid, 0.0).value, now))
  }

  /** Creating an affiliate with only a code and a name stores the default rate 0.20 and
      zero counters; with a null or empty rate it stores a null rate. */
  lemma DefaultsAndNullRate(code: string, name: string, rate: Value, existing: seq<Affiliate>, id: nat, now: int)
    requires code != "" && name != "" && !CodeTaken(existing, code)
    requires rate.Undefined? || rate.Null? || rate == Str("")
    ensures var r := NewAffiliate(AffiliateInput(Str(code), Str(name), Undefined, rate, Undefined, Undefined,
                                                 Undefined, Undefined, Undefined), existing, id, now);
      r.Success? && r.value.code == code && r.value.name == name &&
      r.value.commissionRate == (if rate.Undefined? then Some(0.20) else None) &&
      r.value.clicks == Some(0.0) && r.value.totalPaid == Some(0.0)
  {
  }

  /** `Affiliate.findOne({ referral_code: code })`. The schema has no `referral_code` path.
      Under Mongoose's `strictQuery` the unknown path is dropped from the filter, which then
      matches every document and yields the first one; without it no document has the path
      and nothing is found. */
  function FindOneByReferralCode(affs: seq<Affiliate>, code: Value, strictQuery: bool): (r: Option<Affiliate>)
    ensures !strictQuery ==> r == None
    ensures strictQuery ==> (r == None <==> affs == [])
    ensures strictQuery && affs != [] ==> r == Some(affs[0])
    ensures r.Some? ==> r.value in affs
  {
    if strictQuery && affs != [] then Some(affs[0]) else None
  }

  /** The lookup never looks at the code: two different codes give the same answer, and an
      affiliate whose code differs from the one asked for can be returned. */
  lemma ReferralLookupIgnoresCode(affs: seq<Affiliate>, c1: Value, c2: Value, strictQuery: bool)
    ensures FindOneByReferralCode(affs, c1, strictQuery) == FindOneByReferralCode(affs, c2, strictQuery)
  {
  }

  /** An affiliate with code "B" answers a lookup for code "A". */
  lemma ReferralLookupReturnsOtherAffiliate()
    ensures var b := Affiliate(1, "B", "Bee", Null, Some(0.20), Some(0.0), Some(0.0), Some(0.0), Some(0.0), Some(0.0), 0);
      FindOneByReferralCode([b], Str("A"), true) == Some(b) && b.code != "A"
  {
  }

  /** `Affiliate.findById(id)`: the document whose `_id` has the text of `id`, or null. */
  function FindById(affs: seq<Affiliate>, id: Value): (r: Option<Affiliate>)
    ensures r.Some? ==> r.value in affs && ObjectId(r.value) == Str(ToStr(id))
    ensures r == None <==> forall a :: a in affs ==> ObjectId(a) != Str(ToStr(id))
  {
    if affs == [] then None
    else if ObjectId(affs[0]) == Str(ToStr(id)) then Some(affs[0])
    else FindById(affs[1..], id)
  }
}
