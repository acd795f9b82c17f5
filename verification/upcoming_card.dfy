/** The card of a book not yet released: a countdown to the release time, refreshed every
    second, and a form that registers an email address for the launch discount. */
module UpcomingCard {
  import opened Wrappers
  import opened Text
  import opened JsValue

  /** `Math.trunc`, the quotient JavaScript's `%` rounds toward zero. */
  function Trunc(y: real): int {
    if y >= 0.0 then y.Floor else -((-y).Floor)
  }

  /** JavaScript's `x % m` on numbers: the remainder of a quotient truncated toward zero. */
  function JsRem(x: real, m: real): real
    requires m != 0.0
  {
    x - m * Trunc(x / m) as real
  }

  /** What the card shows: the release has come, or the time left in whole units. */
  datatype TimeLeft = Released | Remaining(days: int, hours: int, minutes: int, seconds: int)

  lemma FloorShift(x: real, k: int)
    ensures (x - k as real).Floor == x.Floor - k
  {
  }

  lemma DaysPart(diff: int)
    requires diff > 0
    ensures (diff as real / 86400000.0).Floor == diff / 86400000
  {
    var q := diff / 86400000;
    assert q as real <= diff as real / 86400000.0 < q as real + 1.0;
  }

  lemma HourQuotient(diff: int)
    requires diff > 0
    ensures (diff as real / 3600000.0).Floor == diff / 3600000
  {
    var q := diff / 3600000;
    assert q as real <= diff as real / 3600000.0 < q as real + 1.0;
  }

  lemma MinuteQuotient(diff: int)
    requires diff > 0
    ensures (diff as real / 60000.0).Floor == diff / 60000
  {
    var q := diff / 60000;
    assert q as real <= diff as real / 60000.0 < q as real + 1.0;
  }

  lemma SecondQuotient(diff: int)
    requires diff > 0
    ensures (diff as real / 1000.0).Floor == diff / 1000
  {
    var q := diff / 1000;
    assert q as real <= diff as real / 1000.0 < q as real + 1.0;
  }

  lemma HoursPart(diff: int)
    requires diff > 0
    ensures JsRem(diff as real / 3600000.0, 24.0).Floor == (diff / 3600000) % 24
  {
    var x := diff as real / 3600000.0;
    assert x / 24.0 == diff as real / 86400000.0;
    DaysPart(diff);
    HourQuotient(diff);
    FloorShift(x, 24 * (diff / 86400000));
    assert (diff / 3600000) / 24 == diff / 86400000;
  }

  lemma MinutesPart(diff: int)
    requires diff > 0
    ensures JsRem(diff as real / 60000.0, 60.0).Floor == (diff / 60000) % 60
  {
    var x := diff as real / 60000.0;
    assert x / 60.0 == diff as real / 3600000.0;
    HourQuotient(diff);
    MinuteQuotient(diff);
    FloorShift(x, 60 * (diff / 3600000));
    assert (diff / 60000) / 60 == diff / 3600000;
  }

  lemma SecondsPart(diff: int)
    requires diff > 0
    ensures JsRem(diff as real / 1000.0, 60.0).Floor == (diff / 1000) % 60
  {
    var x := diff as real / 1000.0;
    assert x / 60.0 == diff as real / 60000.0;
    MinuteQuotient(diff);
    SecondQuotient(diff);
    FloorShift(x, 60 * (diff / 60000));
    assert (diff / 1000) / 60 == diff / 60000;
  }

  /** The interval callback's arithmetic for `diff` milliseconds to go: nothing left once
      `diff <= 0`; otherwise whole days, and hours, minutes and seconds each taken as the
      floor of a remainder of a quotient, which is integer division and remainder. */
  function Countdown(diff: int): (t: TimeLeft)
    ensures t.Released? <==> diff <= 0
    ensures t.Remaining? ==>
      && t.days == diff / 86400000 && t.hours == (diff / 3600000) % 24
      && t.minutes == (diff / 60000) % 60 && t.seconds == (diff / 1000) % 60
  {
    if diff <= 0 then Released
    else
      DaysPart(diff); HoursPart(diff); MinutesPart(diff); SecondsPart(diff);
      Remaining((diff as real / 86400000.0).Floor,
                JsRem(diff as real / 3600000.0, 24.0).Floor,
                JsRem(diff as real / 60000.0, 60.0).Floor,
                JsRem(diff as real / 1000.0, 60.0).Floor)
  }

  /** The milliseconds the shown parts stand for. */
  function Millis(t: TimeLeft): int
    requires t.Remaining?
  {
    t.days * 86400000 + t.hours * 3600000 + t.minutes * 60000 + t.seconds * 1000
  }

  /** The shown parts are in range and add up to the time left, short of less than a second. */
  lemma CountdownIsExact(diff: int)
    requires diff > 0
    ensures var t := Countdown(diff);
      && t.Remaining? && t.days >= 0
      && 0 <= t.hours < 24 && 0 <= t.minutes < 60 && 0 <= t.seconds < 60
      && Millis(t) <= diff < Millis(t) + 1000
  {
    var t := Countdown(diff);
    var s := diff / 1000;
    assert diff / 60000 == s / 60;
    assert diff / 3600000 == s / 3600;
    assert diff / 86400000 == s / 86400;
    assert s / 3600 == (s / 60) / 60;
    assert s / 86400 == (s / 3600) / 24;
  }

  /** The text the card shows: `${days}d ${hours}h ${minutes}m ${seconds}s`. */
  function Display(t: TimeLeft): string {
    match t
    case Released => "Released!"
    case Remaining(d, h, m, s) =>
      IntToDecimal(d) + "d " + IntToDecimal(h) + "h " + IntToDecimal(m) + "m " + IntToDecimal(s) + "s"
  }

  /** The card's state: the email field, whether this reader has registered, the countdown
      text and whether the interval is still running. */
  class CardState {
    var email: string
    var registered: bool
    var timeLeft: string
    var ticking: bool

    constructor()
      ensures email == "" && !registered && timeLeft == "" && ticking
    {
      email, registered, timeLeft, ticking := "", false, "", true;
    }

    /** The input's `onChange`. */
    method SetEmail(value: string)
      modifies this
      ensures email == value
      ensures registered == old(registered) && timeLeft == old(timeLeft) && ticking == old(ticking)
    {
      email := value;
    }

    /** One run of the interval callback with `diff` milliseconds to the release: the text
        is updated, and at the release the interval is cleared. */
    method Tick(diff: int)
      modifies this
      ensures timeLeft == Display(Countdown(diff))
      ensures ticking == (old(ticking) && diff > 0)
      ensures email == old(email) && registered == old(registered)
    {
      if diff <= 0 {
        timeLeft := "Released!";
        ticking := false;
        return;
      }
      var t := Countdown(diff);
      timeLeft := Display(t);
    }

    /** `handleSubmit`: an empty address, or one the pattern `\S+@\S+\.\S+` finds nothing
        in, raises an alert and registers nothing; otherwise `onRegister(email, ebook.id)`
        is called once, the card shows it is registered and the field is cleared. */
    method HandleSubmit(ebookId: Value) returns (registration: Option<(string, Value)>, alerted: bool)
      modifies this
      ensures alerted <==> old(email) == "" || !EmailShaped(old(email))
      ensures alerted ==> registration == None && email == old(email) && registered == old(registered)
      ensures !alerted ==> registration == Some((old(email), ebookId)) && registered && email == ""
      ensures timeLeft == old(timeLeft) && ticking == old(ticking)
    {
      if email == "" || !EmailShaped(email) {
        return None, true;
      }
      registration, alerted := Some((email, ebookId)), false;
      registered := true;
      email := "";
    }
  }
}
