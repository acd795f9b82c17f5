/** The `orders` table and the three operations of the orders model: `createOrder` inserts a
    pending row, `getOrdersByUser` lists one user's rows newest first, `updateOrderStatus`
    sets the status of the one row with the given id. The table itself is the datastore's;
    a failure it reports is the `failure` parameter, and it is thrown, never returned. */
module OrdersModel {
  import opened Wrappers
  import opened Text
  import opened JsValue
  import opened Query

  /** A stored row. The values are as the client sent them; no column is ever `undefined`. */
  datatype OrderRow = OrderRow(
    id: nat,
    userId: Value,
    ebookId: Value,
    amount: Value,
    currency: Value,
    affiliateCode: Value,
    status: Value,
    razorpayOrderId: Value,
    razorpayPaymentId: Value,
    razorpaySignature: Value,
    createdAt: int)

  /** The columns an insert names. A value that is `undefined` is dropped from the JSON and
      its column takes its default, null. */
  datatype OrderDraft = OrderDraft(
    userId: Value, ebookId: Value, amount: Value, currency: Value, affiliateCode: Value, status: Value)

  /** The columns an update names; an `undefined` value leaves its column as it was. */
  datatype OrderPatch = OrderPatch(
    status: Value, razorpayOrderId: Value, razorpayPaymentId: Value, razorpaySignature: Value)

  /** The error `.single()` reports when the query does not return exactly one row. */
  const SingleRowError := "JSON object requested, multiple (or no) rows returned"

  /** The value an insert stores for `v`. */
  function Column(v: Value): Value {
    if v.Undefined? then Null else v
  }

  /** The value an update leaves in a column that held `current`. */
  function Assign(v: Value, current: Value): Value {
    if v.Undefined? then current else v
  }

  function NewRow(d: OrderDraft, id: nat, now: int): OrderRow {
    OrderRow(id, Column(d.userId), Column(d.ebookId), Column(d.amount), Column(d.currency),
             Column(d.affiliateCode), Column(d.status), Null, Null, Null, now)
  }

  function Patched(row: OrderRow, p: OrderPatch): OrderRow {
    row.(status := Assign(p.status, row.status),
         razorpayOrderId := Assign(p.razorpayOrderId, row.razorpayOrderId),
         razorpayPaymentId := Assign(p.razorpayPaymentId, row.razorpayPaymentId),
         razorpaySignature := Assign(p.razorpaySignature, row.razorpaySignature))
  }

  /** The white space PostgreSQL's integer input skips around a numeral. */
  predicate PgSpace(c: char) {
    c == ' ' || c == '\t' || c == '\n' || c == '\r' || c == '\U{000B}' || c == '\U{000C}'
  }

  function DropLeadingSpace(s: string): (r: string)
    ensures r == [] || !PgSpace(r[0])
  {
    if s != [] && PgSpace(s[0]) then DropLeadingSpace(s[1..]) else s
  }

  function DropTrailingSpace(s: string): (r: string)
    ensures r == [] || !PgSpace(r[|r| - 1])
  {
    if s != [] && PgSpace(s[|s| - 1]) then DropTrailingSpace(s[..|s| - 1]) else s
  }

  /** The `bigint` PostgreSQL reads from `s`: an optional sign and a run of decimal digits,
      white space around them; `None` for a text it refuses. */
  function ParseBigint(s: string): Option<int> {
    ParseSignedDigits(DropTrailingSpace(DropLeadingSpace(s)))
  }

  function ParseSignedDigits(t: string): Option<int> {
    if t != [] && (t[0] == '+' || t[0] == '-') && IsDigits(t[1..]) then
      var n: int := DecimalValue(t[1..]);
      Some(if t[0] == '-' then -n else n)
    else if IsDigits(t) then Some(DecimalValue(t))
    else None
  }

  /** `.eq("id", v)`: the client sends the text of `v`, and PostgreSQL casts it to the
      `bigint` of the id column. */
  predicate IdIs(row: OrderRow, v: Value) {
    ParseBigint(ToStr(v)) == Some(row.id)
  }

  function Zeros(z: nat): (r: string)
    ensures |r| == z && forall i :: 0 <= i < z ==> r[i] == '0'
  {
    seq(z, _ => '0')
  }

  lemma {:induction false} DropLeadingSpaceOf(pre: string, x: string)
    requires forall i :: 0 <= i < |pre| ==> PgSpace(pre[i])
    requires x == [] || !PgSpace(x[0])
    ensures DropLeadingSpace(pre + x) == x
    decreases |pre|
  {
    if pre != [] {
      assert (pre + x)[1..] == pre[1..] + x;
      DropLeadingSpaceOf(pre[1..], x);
    } else {
      assert pre + x == x;
    }
  }

  lemma {:induction false} DropTrailingSpaceOf(x: string, post: string)
    requires forall i :: 0 <= i < |post| ==> PgSpace(post[i])
    requires x == [] || !PgSpace(x[|x| - 1])
    ensures DropTrailingSpace(x + post) == x
    decreases |post|
  {
    if post != [] {
      assert (x + post)[..|x + post| - 1] == x + post[..|post| - 1];
      DropTrailingSpaceOf(x, post[..|post| - 1]);
    } else {
      assert x + post == x;
    }
  }

  /** A leading zero does not change the value of a numeral. */
  lemma {:induction false} LeadingZeroValue(s: string)
    requires forall i :: 0 <= i < |s| ==> '0' <= s[i] <= '9'
    ensures DecimalValue(['0'] + s) == DecimalValue(s)
    decreases |s|
  {
    if s != [] {
      assert (['0'] + s)[..|s|] == ['0'] + s[..|s| - 1];
      LeadingZeroValue(s[..|s| - 1]);
    }
  }

  lemma {:induction false} LeadingZerosValue(z: nat, s: string)
    requires forall i :: 0 <= i < |s| ==> '0' <= s[i] <= '9'
    ensures DecimalValue(Zeros(z) + s) == DecimalValue(s)
    decreases z
  {
    if z > 0 {
      assert Zeros(z) + s == ['0'] + (Zeros(z - 1) + s);
      LeadingZerosValue(z - 1, s);
      LeadingZeroValue(Zeros(z - 1) + s);
    } else {
      assert Zeros(z) + s == s;
    }
  }

  /** White space around a text that neither starts nor ends with white space is skipped. */
  lemma SpaceAroundSkipped(pre: string, t: string, post: string)
    requires forall i :: 0 <= i < |pre| ==> PgSpace(pre[i])
    requires forall i :: 0 <= i < |post| ==> PgSpace(post[i])
    requires t != [] && !PgSpace(t[0]) && !PgSpace(t[|t| - 1])
    ensures ParseBigint(pre + t + post) == ParseSignedDigits(t)
  {
    assert pre + t + post == pre + (t + post);
    assert (t + post)[0] == t[0];
    DropLeadingSpaceOf(pre, t + post);
    DropTrailingSpaceOf(t, post);
  }

  /** A numeral with leading zeros denotes its number. */
  lemma ZeroLedNumeral(n: nat, z: nat)
    ensures IsDigits(Zeros(z) + NatToDecimal(n))
    ensures DecimalValue(Zeros(z) + NatToDecimal(n)) == n
  {
    var d := NatToDecimal(n);
    DecimalRoundTrip(n);
    LeadingZerosValue(z, d);
    forall i | 0 <= i < |Zeros(z) + d|
      ensures '0' <= (Zeros(z) + d)[i] <= '9'
    {
      if i >= z {
        assert (Zeros(z) + d)[i] == d[i - z];
      }
    }
  }

  /** A run of digits, perhaps after a plus sign, is read as its value and has no white
      space at either end. */
  lemma SignedDigitsValue(sign: string, digits: string)
    requires sign == [] || sign == "+"
    requires IsDigits(digits)
    ensures var t := sign + digits;
      t != [] && !PgSpace(t[0]) && !PgSpace(t[|t| - 1]) && ParseSignedDigits(t) == Some(DecimalValue(digits))
  {
    var t := sign + digits;
    assert '0' <= digits[0] <= '9' && '0' <= digits[|digits| - 1] <= '9';
    assert t[|t| - 1] == digits[|digits| - 1];
    if sign == [] {
      assert t == digits;
    } else {
      assert t[0] == '+' && t[1..] == digits;
    }
  }

  /** A run of digits, white space around it and perhaps a plus sign before it, is read as
      its value. */
  lemma PaddedDigitsValue(pre: string, sign: string, digits: string, post: string)
    requires forall i :: 0 <= i < |pre| ==> PgSpace(pre[i])
    requires forall i :: 0 <= i < |post| ==> PgSpace(post[i])
    requires sign == [] || sign == "+"
    requires IsDigits(digits)
    ensures ParseBigint(pre + sign + digits + post) == Some(DecimalValue(digits))
  {
    var t := sign + digits;
    assert pre + sign + digits + post == pre + t + post;
    SignedDigitsValue(sign, digits);
    SpaceAroundSkipped(pre, t, post);
  }

  /** The row is selected by its numeral however the client pads it: with white space
      around it, with leading zeros, or with a plus sign. */
  lemma IdSelectsPaddedNumeral(row: OrderRow, pre: string, sign: string, z: nat, post: string)
    requires forall i :: 0 <= i < |pre| ==> PgSpace(pre[i])
    requires forall i :: 0 <= i < |post| ==> PgSpace(post[i])
    requires sign == [] || sign == "+"
    ensures IdIs(row, Str(pre + sign + Zeros(z) + NatToDecimal(row.id) + post))
  {
    var d := NatToDecimal(row.id);
    var digits := Zeros(z) + d;
    assert pre + sign + Zeros(z) + d == pre + sign + digits;
    ZeroLedNumeral(row.id, z);
    PaddedDigitsValue(pre, sign, digits, post);
  }

  /** The row is selected by its id given as a number. */
  lemma IdSelectsNumber(row: OrderRow)
    ensures IdIs(row, Number(row.id as real))
  {
    var d := NatToDecimal(row.id);
    DecimalRoundTrip(row.id);
    PaddedDigitsValue([], [], d, []);
    assert [] + [] + d + [] == d;
    assert ToStr(Number(row.id as real)) == d;
  }

  /** A negative numeral selects no row, since ids are natural numbers. */
  lemma NegativeSelectsNothing(row: OrderRow, n: nat)
    requires n > 0
    ensures !IdIs(row, Str("-" + NatToDecimal(n)))
  {
    var t := "-" + NatToDecimal(n);
    DecimalRoundTrip(n);
    assert t[1..] == NatToDecimal(n);
    assert t[|t| - 1] == NatToDecimal(n)[|NatToDecimal(n)| - 1];
    SpaceAroundSkipped([], t, []);
    assert [] + t + [] == t;
  }

  function MatchCount(rows: seq<OrderRow>, id: Value): nat {
    Count(rows, (row: OrderRow) => IdIs(row, id))
  }

  function MatchIndex(rows: seq<OrderRow>, id: Value): nat {
    FirstIndex(rows, (row: OrderRow) => IdIs(row, id))
  }

  function CreatedAt(row: OrderRow): int { row.createdAt }

  /** Ids increase along the table and stay below the next one to be handed out. */
  ghost predicate IdsIncreasing(rows: seq<OrderRow>, nextId: nat) {
    (forall i, j :: 0 <= i < j < |rows| ==> rows[i].id < rows[j].id) &&
    (forall i :: 0 <= i < |rows| ==> rows[i].id < nextId)
  }

  /** In a table whose ids are distinct, an id selects at most one row, and exactly one
      when some row carries it: the update's `.single()` fails only for an unknown id. */
  lemma {:induction false} IdSelectsOneRow(rows: seq<OrderRow>, nextId: nat, id: Value)
    requires IdsIncreasing(rows, nextId)
    ensures MatchCount(rows, id) <= 1
    ensures MatchCount(rows, id) == 1 <==> exists i :: 0 <= i < |rows| && IdIs(rows[i], id)
  {
    var keep := (row: OrderRow) => IdIs(row, id);
    assert forall i, j :: 0 <= i < |rows| && 0 <= j < |rows| && keep(rows[i]) && keep(rows[j]) ==> i == j;
    CountAtMostOne(rows, keep);
  }

  /** The `orders` table. */
  class OrderTable {
    var rows: seq<OrderRow>
    var nextId: nat

    ghost predicate Valid()
      reads this
    {
      IdsIncreasing(rows, nextId)
    }

    constructor ()
      ensures Valid() && rows == [] && nextId == 1
    {
      rows := [];
      nextId := 1;
    }

    /** `insert([draft]).select().single()`: one row with a fresh id and the draft's values,
        appended; or the datastore's error and no change. */
    method Insert(d: OrderDraft, now: int, failure: Option<string>) returns (r: Result<OrderRow, string>)
      requires Valid()
      modifies this
      ensures Valid()
      ensures failure.Some? ==> r == Failure(failure.value) && rows == old(rows) && nextId == old(nextId)
      ensures failure.None? ==>
        r == Success(NewRow(d, old(nextId), now)) && rows == old(rows) + [r.value] && nextId == old(nextId) + 1
    {
      if failure.Some? {
        return Failure(failure.value);
      }
      var row := NewRow(d, nextId, now);
      rows := rows + [row];
      nextId := nextId + 1;
      r := Success(row);
    }

    /** `update(patch).eq("id", id).select().single()`: when exactly one row has that id it is
        patched and returned and no other row changes; otherwise the table is unchanged and
        the call fails. */
    method Update(id: Value, p: OrderPatch, failure: Option<string>) returns (r: Result<OrderRow, string>)
      requires Valid()
      modifies this
      ensures Valid() && nextId == old(nextId)
      ensures failure.Some? ==> r == Failure(failure.value) && rows == old(rows)
      ensures failure.None? && MatchCount(old(rows), id) != 1 ==> r == Failure(SingleRowError) && rows == old(rows)
      ensures failure.None? && MatchCount(old(rows), id) == 1 ==>
        var k := MatchIndex(old(rows), id);
        k < |old(rows)| && r == Success(Patched(old(rows)[k], p)) && rows == old(rows)[k := r.value]
    {
      if failure.Some? {
        return Failure(failure.value);
      }
      if MatchCount(rows, id) != 1 {
        return Failure(SingleRowError);
      }
      CountOne(rows, (row: OrderRow) => IdIs(row, id));
      var k := MatchIndex(rows, id);
      var row := Patched(rows[k], p);
      rows := rows[k := row];
      r := Success(row);
    }
  }

  /** `createOrder(userId, ebookId)`: inserts a row with only these two values and status
      "pending"; every other column is null. */
  method CreateOrder(table: OrderTable, userId: Value, ebookId: Value, now: int, failure: Option<string>)
    returns (r: Result<OrderRow, string>)
    requires table.Valid()
    modifies table
    ensures table.Valid()
    ensures failure.Some? ==> r == Failure(failure.value) && table.rows == old(table.rows)
    ensures failure.None? ==> r.Success? && table.rows == old(table.rows) + [r.value]
    ensures r.Success? ==>
      r.value.id == old(table.nextId) && r.value.createdAt == now &&
      r.value.userId == Column(userId) && r.value.ebookId == Column(ebookId) &&
      r.value.status == Str("pending") &&
      r.value.amount == Null && r.value.currency == Null && r.value.affiliateCode == Null &&
      r.value.razorpayOrderId == Null && r.value.razorpayPaymentId == Null && r.value.razorpaySignature == Null
  {
    r := table.Insert(OrderDraft(userId, ebookId, Undefined, Undefined, Undefined, Str("pending")), now, failure);
  }

  /** `getOrdersByUser(userId)`: the rows whose user_id matches, newest first, or the
      datastore's error. */
  function OrdersByUser(rows: seq<OrderRow>, userId: Value, failure: Option<string>): (r: Result<seq<OrderRow>, string>)
    ensures failure.Some? ==> r == Failure(failure.value)
    ensures failure.None? ==> r.Success? && SortedBy(r.value, CreatedAt, true)
    ensures failure.None? ==> forall x :: multiset(r.value)[x] == if Matches(x.userId, userId) then multiset(rows)[x] else 0
  {
    if failure.Some? then Failure(failure.value)
    else Success(Select(rows, (row: OrderRow) => Matches(row.userId, userId), CreatedAt, true))
  }

  /** A row is listed exactly when it is stored and belongs to the user. */
  lemma OrdersByUserMembers(rows: seq<OrderRow>, userId: Value, x: OrderRow)
    ensures var r := OrdersByUser(rows, userId, None);
      r.Success? && (x in r.value <==> x in rows && Matches(x.userId, userId))
  {
    SelectMembers(rows, (row: OrderRow) => Matches(row.userId, userId), CreatedAt, true, x);
  }

  /** `updateOrderStatus(orderId, status)`: only the status of the row with that id changes;
      its payment columns and every other row stay as they were. */
  method UpdateOrderStatus(table: OrderTable, orderId: Value, status: Value, failure: Option<string>)
    returns (r: Result<OrderRow, string>)
    requires table.Valid()
    modifies table
    ensures table.Valid() && table.nextId == old(table.nextId)
    ensures r.Failure? ==> table.rows == old(table.rows)
    ensures r.Failure? <==> failure.Some? || !exists i :: 0 <= i < |old(table.rows)| && IdIs(old(table.rows)[i], orderId)
    ensures r.Success? ==>
      var k := MatchIndex(old(table.rows), orderId);
      k < |old(table.rows)| && IdIs(old(table.rows)[k], orderId) &&
      r.value == old(table.rows)[k].(status := Assign(status, old(table.rows)[k].status)) &&
      table.rows == old(table.rows)[k := r.value]
  {
    IdSelectsOneRow(table.rows, table.nextId, orderId);
    r := table.Update(orderId, OrderPatch(status, Undefined, Undefined, Undefined), failure);
  }
}
