/** The application shell: the referral tracker that turns a `?aff=` query parameter into
    the current affiliate code, remembered in browser storage under "aff_code", and the
    route table that sends every unknown path back to the home page. */
module App {
  import opened Wrappers
  import opened Text
  import opened UrlQuery

  // ---- AffiliateTracker ----

  /** `localStorage.getItem("aff_code") || null`: an empty stored code counts as none. */
  function InitialCode(stored: Option<string>): (code: Option<string>)
    ensures code.Some? <==> stored.Some? && stored.value != ""
    ensures code.Some? ==> code == stored
    ensures code.Some? ==> code.value != ""
  {
    if stored.Some? && stored.value != "" then stored else None
  }

  /** The code a query carries: its `aff` parameter trimmed, when that is present and not
      only white space (`aff && aff.trim()`). */
  function Referral(search: string): (r: Option<string>)
    ensures r.Some? ==> r.value != ""
  {
    var aff := GetParam(search, "aff");
    if aff.Some? && Trim(aff.value) != "" then Some(Trim(aff.value)) else None
  }

  /** A query carries a referral exactly when its `aff` parameter is present and not blank,
      and the referral is that parameter with nothing left to trim. */
  lemma ReferralIsTrimmedParam(search: string)
    ensures var aff := GetParam(search, "aff");
      && (Referral(search).Some? <==> aff.Some? && !IsBlank(aff.value))
      && (Referral(search).Some? ==> Referral(search).value == Trim(aff.value))
      && (Referral(search).Some? ==> Trim(Referral(search).value) == Referral(search).value)
  {
    var aff := GetParam(search, "aff");
    if aff.Some? {
      TrimIdempotent(aff.value);
    }
  }

  /** The current code after the tracker sees a query carrying `referral`. */
  function Track(code: Option<string>, referral: Option<string>): Option<string> {
    if referral.Some? then referral else code
  }

  /** The current code after a sequence of visited queries, given the referral each one
      carries, in visiting order. */
  function TrackAll(code: Option<string>, referrals: seq<Option<string>>): Option<string>
    decreases |referrals|
  {
    if referrals == [] then code else TrackAll(Track(code, referrals[0]), referrals[1..])
  }

  /** The last referral of the sequence: the one at a position that no later referral
      follows. */
  function LastReferral(referrals: seq<Option<string>>): (r: Option<string>)
    ensures r.Some? ==> r in referrals
    ensures r.Some? ==> exists k :: 0 <= k < |referrals| && referrals[k] == r &&
                                   forall j :: k < j < |referrals| ==> referrals[j].None?
    ensures r.None? <==> forall k :: 0 <= k < |referrals| ==> referrals[k].None?
  {
    if referrals == [] then None
    else if referrals[|referrals| - 1].Some? then referrals[|referrals| - 1]
    else
      var init := referrals[..|referrals| - 1];
      LastOfInit(referrals, LastReferral(init));
      LastReferral(init)
  }

  /** A referral that no later one follows in all but the final query, which carries
      none, is followed by no later one at all. */
  lemma LastOfInit(referrals: seq<Option<string>>, r: Option<string>)
    requires referrals != [] && referrals[|referrals| - 1].None?
    requires var init := referrals[..|referrals| - 1];
      && (r.Some? ==> exists k :: 0 <= k < |init| && init[k] == r && forall j :: k < j < |init| ==> init[j].None?)
      && (r.None? <==> forall k :: 0 <= k < |init| ==> init[k].None?)
    ensures r.Some? ==> r in referrals
    ensures r.Some? ==> exists k :: 0 <= k < |referrals| && referrals[k] == r &&
                                   forall j :: k < j < |referrals| ==> referrals[j].None?
    ensures r.None? <==> forall k :: 0 <= k < |referrals| ==> referrals[k].None?
  {
    var init := referrals[..|referrals| - 1];
    if r.Some? {
      var k :| 0 <= k < |init| && init[k] == r && forall j :: k < j < |init| ==> init[j].None?;
      assert referrals[k] == init[k];
      forall j | k < j < |referrals|
        ensures referrals[j].None?
      {
        if j < |init| {
          assert referrals[j] == init[j];
        }
      }
    } else {
      forall k | 0 <= k < |referrals|
        ensures referrals[k].None?
      {
        if k < |init| {
          assert referrals[k] == init[k];
        }
      }
    }
    if forall k :: 0 <= k < |referrals| ==> referrals[k].None? {
      forall k | 0 <= k < |init|
        ensures init[k].None?
      {
        assert referrals[k] == init[k];
      }
    }
  }

  /** The tracker keeps the referral of the last query that carried one, whatever came
      before; with none, the code it started with. */
  lemma {:induction false} LastWins(code: Option<string>, referrals: seq<Option<string>>)
    ensures TrackAll(code, referrals) == if LastReferral(referrals).Some? then LastReferral(referrals) else code
    decreases |referrals|
  {
    if referrals != [] {
      var n := |referrals|;
      var init := referrals[..n - 1];
      TrackAllSnoc(code, init, referrals[n - 1]);
      assert init + [referrals[n - 1]] == referrals;
      LastWins(code, init);
    }
  }

  lemma {:induction false} TrackAllSnoc(code: Option<string>, init: seq<Option<string>>, last: Option<string>)
    ensures TrackAll(code, init + [last]) == Track(TrackAll(code, init), last)
    decreases |init|
  {
    if init != [] {
      assert (init + [last])[1..] == init[1..] + [last];
      TrackAllSnoc(Track(code, init[0]), init[1..], last);
    }
  }

  /** The referral tracker: the code the pages read and the "aff_code" storage entry. */
  class AffiliateTracker {
    var stored: Option<string>
    var code: Option<string>

    /** A code in use is the one in storage. */
    predicate Valid()
      reads this
    {
      code.Some? ==> code == stored && code.value != ""
    }

    /** Mounting: the code starts as the stored one, or null. */
    constructor(stored: Option<string>)
      ensures Valid()
      ensures this.stored == stored && code == InitialCode(stored)
    {
      this.stored := stored;
      code := InitialCode(stored);
    }

    /** The effect that runs when `location.search` changes: a non-blank `aff` parameter is
        trimmed, stored and made the code; anything else leaves both as they were. */
    method OnLocationChange(search: string)
      requires Valid()
      modifies this
      ensures Valid()
      ensures Referral(search).Some? ==> stored == code == Referral(search)
      ensures Referral(search).None? ==> stored == old(stored) && code == old(code)
    {
      var referral := Referral(search);
      if referral.Some? {
        stored := referral;
        code := referral;
      }
    }
  }

  // ---- Routes ----

  datatype Page = HomePage | EbooksPage | UpcomingPage | FeedbackPage | AffiliatesPage

  /** What the router shows for a path: a page, or a replacing redirect. */
  datatype Resolution = Render(page: Page) | Redirect(to: string)

  /** The path as the router compares it: trailing slashes ignored, ASCII letters in lower
      case (routes match case-insensitively by default). */
  function RouteKey(path: string): (key: string)
    ensures key == [] || key[|key| - 1] != '/'
    decreases |path|
  {
    if path != [] && path[|path| - 1] == '/' then RouteKey(path[..|path| - 1]) else Lower(path)
  }

  /** The five named routes, and `*` redirecting to "/" for every other path. */
  function Resolve(path: string): (r: Resolution)
    ensures r.Redirect? <==> RouteKey(path) !in {"", "/ebooks", "/upcoming", "/feedback", "/affiliates"}
    ensures r.Redirect? ==> r.to == "/"
  {
    match RouteKey(path)
    case "" => Render(HomePage)
    case "/ebooks" => Render(EbooksPage)
    case "/upcoming" => Render(UpcomingPage)
    case "/feedback" => Render(FeedbackPage)
    case "/affiliates" => Render(AffiliatesPage)
    case _ => Redirect("/")
  }

  /** The redirect target is itself a route: the home page. */
  lemma RedirectRendersHome(path: string)
    ensures Resolve(path).Redirect? ==> Resolve(Resolve(path).to) == Render(HomePage)
  {
    assert RouteKey("/") == RouteKey("") == "";
  }
}
