/** The part of the browser's `URLSearchParams` the referral tracker relies on: reading the
    value of one named parameter out of a location's query string. */
module UrlQuery {
  import opened Wrappers
  import opened Text

  /** The query text without its leading '?'. */
  function SearchBody(search: string): string {
    if |search| > 0 && search[0] == '?' then search[1..] else search
  }

  /** The name of a `name=value` pair: everything before the first '='. */
  function PairName(pair: string): string {
    pair[..IndexOf(pair, '=')]
  }

  /** The value of a `name=value` pair: everything after the first '=', or "" without one. */
  function PairValue(pair: string): string {
    var i := IndexOf(pair, '=');
    if i < |pair| then pair[i + 1..] else ""
  }

  /** The value of the first non-empty pair named `name`. */
  function FirstValue(pairs: seq<string>, name: string): (r: Option<string>)
    ensures r.Some? <==> exists k :: 0 <= k < |pairs| && pairs[k] != "" && PairName(pairs[k]) == name
    ensures r.Some? ==>
      exists k :: 0 <= k < |pairs| && pairs[k] != "" && PairName(pairs[k]) == name && r.value == PairValue(pairs[k])
  {
    if pairs == [] then None
    else if pairs[0] != "" && PairName(pairs[0]) == name then Some(PairValue(pairs[0]))
    else
      var r := FirstValue(pairs[1..], name);
      assert forall k :: 1 <= k < |pairs| ==> pairs[k] == pairs[1..][k - 1];
      r
  }

  /** `new URLSearchParams(search).get(name)`: the query split at '&' into pairs, and the
      value of the first pair with that name; `None` is JavaScript's `null`. */
  function GetParam(search: string, name: string): (r: Option<string>)
    ensures r.Some? ==> '&' !in r.value
  {
    var pairs := Split(SearchBody(search), '&');
    var r := FirstValue(pairs, name);
    if r.Some? then
      var k :| 0 <= k < |pairs| && pairs[k] != "" && PairName(pairs[k]) == name && r.value == PairValue(pairs[k]);
      assert '&' !in pairs[k];
      r
    else r
  }

  /** One `name=value` pair of a query a link carries. */
  datatype Param = Param(name: string, value: string)

  function PairText(p: Param): string {
    p.name + "=" + p.value
  }

  /** The query string `?n1=v1&n2=v2...` for a list of pairs. */
  function Encode(params: seq<Param>): string {
    "?" + Join(seq(|params|, k requires 0 <= k < |params| => PairText(params[k])), '&')
  }

  /** The value of the first pair named `name`. */
  function Lookup(params: seq<Param>, name: string): Option<string> {
    if params == [] then None
    else if params[0].name == name then Some(params[0].value)
    else Lookup(params[1..], name)
  }

  /** A pair written out is read back as that name and value. */
  lemma PairRoundTrip(p: Param)
    requires '=' !in p.name
    ensures PairText(p) != "" && PairName(PairText(p)) == p.name && PairValue(PairText(p)) == p.value
  {
    IndexOfAfterPrefix(p.name, '=', p.value);
    assert PairText(p) == p.name + ['='] + p.value;
  }

  lemma {:induction false} FirstValueOfTexts(params: seq<Param>, name: string)
    requires forall k :: 0 <= k < |params| ==> '=' !in params[k].name
    ensures FirstValue(seq(|params|, k requires 0 <= k < |params| => PairText(params[k])), name) == Lookup(params, name)
  {
    var texts := seq(|params|, k requires 0 <= k < |params| => PairText(params[k]));
    if params != [] {
      PairRoundTrip(params[0]);
      assert texts[1..] == seq(|params[1..]|, k requires 0 <= k < |params[1..]| => PairText(params[1..][k]));
      FirstValueOfTexts(params[1..], name);
    }
  }

  /** Reading a parameter back from a query built from pairs finds the first pair with that
      name, provided no name holds '=' and nothing holds '&'. */
  lemma GetParamOfEncode(params: seq<Param>, name: string)
    requires |params| >= 1
    requires forall k :: 0 <= k < |params| ==> '=' !in params[k].name && '&' !in params[k].name && '&' !in params[k].value
    ensures GetParam(Encode(params), name) == Lookup(params, name)
  {
    var texts := seq(|params|, k requires 0 <= k < |params| => PairText(params[k]));
    assert SearchBody(Encode(params)) == Join(texts, '&');
    SplitJoin(texts, '&');
    FirstValueOfTexts(params, name);
  }
}
