/** The catalogue page's purchase state: the set of books the reader owns, restored from and
    saved to browser storage as a JSON array, the customer form a purchase opens, and the
    badge colour of a book's level. */
module EbooksPage {
  import opened Wrappers
  import opened Text

  /** A parsed JSON document, as `JSON.parse` returns it and `JSON.stringify` writes it. */
  datatype Json =
    | JNull
    | JBool(b: bool)
    | JNum(n: real)
    | JStr(s: string)
    | JArr(items: seq<Json>)
    | JObj(fields: map<string, Json>)

  /** No element occurs twice: what a JavaScript `Set` holds, in insertion order. */
  predicate NoDup(s: seq<Json>) {
    forall i, j :: 0 <= i < j < |s| ==> s[i] != s[j]
  }

  /** `set.add(x)`: a new element goes last; one already present changes nothing. */
  function SetAdd(s: seq<Json>, x: Json): (r: seq<Json>)
    ensures NoDup(s) ==> NoDup(r)
    ensures x in r && forall y :: y in s ==> y in r
    ensures forall y :: y in r ==> y in s || y == x
    ensures x in s ==> r == s
    ensures x !in s ==> r == s + [x]
  {
    if x in s then s else s + [x]
  }

  /** Adding the same element again has no further effect. */
  lemma SetAddIdempotent(s: seq<Json>, x: Json)
    ensures SetAdd(SetAdd(s, x), x) == SetAdd(s, x)
  {
  }

  /** `new Set(items)`: each element once, in the order of its first occurrence. */
  function SetFrom(items: seq<Json>): (r: seq<Json>)
    ensures NoDup(r)
    ensures forall y :: y in r <==> y in items
  {
    if items == [] then []
    else
      var init := items[..|items| - 1];
      var r := SetAdd(SetFrom(init), items[|items| - 1]);
      assert items == init + [items[|items| - 1]];
      r
  }

  /** A list without repeats becomes a set holding exactly it, in the same order. */
  lemma {:induction false} SetFromDistinct(items: seq<Json>)
    requires NoDup(items)
    ensures SetFrom(items) == items
  {
    if items != [] {
      var n := |items|;
      var init := items[..n - 1];
      assert NoDup(init);
      SetFromDistinct(init);
      assert items[n - 1] !in init by {
        forall i | 0 <= i < n - 1 ensures init[i] != items[n - 1] {
          assert init[i] == items[i];
        }
      }
      assert init + [items[n - 1]] == items;
    }
  }

  /** The characters of a string as iterating it yields them. */
  function Chars(s: string): seq<Json> {
    seq(|s|, i requires 0 <= i < |s| => JStr([s[i]]))
  }

  /** `new Set(JSON.parse(stored))` inside its `try`: an array gives its elements, a string
      its characters, null an empty set; any other value is not iterable, throws, and the
      `catch` gives an empty set too. */
  function SetOfParsed(parsed: Result<Json, string>): (r: seq<Json>)
    ensures NoDup(r)
    ensures parsed.Success? && parsed.value.JArr? ==> forall y :: y in r <==> y in parsed.value.items
    ensures parsed.Failure? || !(parsed.value.JArr? || parsed.value.JStr?) ==> r == []
  {
    if parsed.Failure? then []
    else match parsed.value
      case JArr(items) => SetFrom(items)
      case JStr(s) => SetFrom(Chars(s))
      case _ => []
  }

  /** The initial owned set: empty when storage is switched off, when "purchased_ebooks" is
      missing or empty, or when its text does not parse or is not iterable. */
  function Restore(enabled: bool, stored: Option<string>, parse: string -> Result<Json, string>): (r: seq<Json>)
    ensures NoDup(r)
    ensures !enabled || stored.None? || (stored.Some? && stored.value == "") ==> r == []
    ensures enabled && stored.Some? && stored.value != "" && parse(stored.value).Failure? ==> r == []
    ensures enabled && stored.Some? && stored.value != "" ==>
      var parsed := parse(stored.value);
      && (parsed.Success? && parsed.value.JArr? ==> forall y :: y in r <==> y in parsed.value.items)
      && (parsed.Success? && !(parsed.value.JArr? || parsed.value.JStr?) ==> r == [])
  {
    if !enabled then []
    else if stored.None? || stored.value == "" then []
    else SetOfParsed(parse(stored.value))
  }

  /** What the page saves is what it restores: an owned set written out as an array and
      parsed back is the same set in the same order. */
  lemma RestoreSaved(owned: seq<Json>)
    requires NoDup(owned)
    ensures SetOfParsed(Success(JArr(owned))) == owned
  {
    SetFromDistinct(owned);
  }

  // ---- getLevelBadgeColor ----

  const DefaultGradient := "linear-gradient(45deg, #666, #333)"

  /** The six levels the colour table names. */
  const LevelGradients: map<string, string> := map[
    "MASTERMIND" := "linear-gradient(45deg, #FFD700, #FFA500)",
    "ELITE" := "linear-gradient(45deg, #8A2BE2, #4B0082)",
    "PROFESSIONAL" := "linear-gradient(45deg, #FF4500, #DC143C)",
    "PREMIUM" := "linear-gradient(45deg, #32CD32, #228B22)",
    "TACTICAL" := "linear-gradient(45deg, #1E90FF, #4169E1)",
    "STRATEGIC" := "linear-gradient(45deg, #FF6347, #FF4500)"
  ]

  /** The members every object literal inherits from `Object.prototype`. */
  const InheritedNames: set<string> := {
    "constructor", "hasOwnProperty", "isPrototypeOf", "propertyIsEnumerable", "toLocaleString",
    "toString", "valueOf", "__defineGetter__", "__defineSetter__", "__lookupGetter__",
    "__lookupSetter__", "__proto__"
  }

  /** What `colors[level] || default` yields: a gradient, or, for a level named like an
      inherited member, that member (a function or the prototype, both truthy). */
  datatype Badge = Gradient(css: string) | InheritedMember(name: string)

  /** `getLevelBadgeColor(level)`. */
  function LevelBadgeColor(level: string): (b: Badge)
    ensures level in LevelGradients ==> b == Gradient(LevelGradients[level])
    ensures level !in LevelGradients && level !in InheritedNames ==> b == Gradient(DefaultGradient)
    ensures level in InheritedNames ==> b == InheritedMember(level)
  {
    if level in LevelGradients then Gradient(LevelGradients[level])
    else if level in InheritedNames then InheritedMember(level)
    else Gradient(DefaultGradient)
  }

  /** Each of the six named levels gets a colour of its own, and none of them the default. */
  lemma LevelColorsDistinct(a: string, b: string)
    requires a in LevelGradients && b in LevelGradients && a != b
    ensures LevelBadgeColor(a) != LevelBadgeColor(b)
    ensures LevelBadgeColor(a) != Gradient(DefaultGradient)
  {
  }

  // ---- the page's state ----

  /** `showCustomerForm` when set: the book it was opened for (none when it was spread from
      `null`) and whether checkout is showing. */
  datatype CustomerForm = CustomerForm(book: Option<Json>, showCheckout: bool)

  class EbooksPageState {
    const storageEnabled: bool
    var purchased: seq<Json>
    var saved: Option<Json>
    var customerEmail: string
    var form: Option<CustomerForm>

    /** The owned set has no repeats, and with storage on the saved entry is the owned set. */
    predicate Valid()
      reads this
    {
      NoDup(purchased) && (storageEnabled ==> saved == Some(JArr(purchased)))
    }

    /** Mounting: the owned set is restored, and the save effect writes it back. */
    constructor(enabled: bool, stored: Option<string>, parse: string -> Result<Json, string>)
      ensures Valid()
      ensures storageEnabled == enabled && purchased == Restore(enabled, stored, parse)
      ensures customerEmail == "" && form == None
    {
      storageEnabled := enabled;
      purchased := Restore(enabled, stored, parse);
      saved := if enabled then Some(JArr(Restore(enabled, stored, parse))) else None;
      customerEmail := "";
      form := None;
    }

    /** `handlePurchaseClick`: a book whose id (`id`, that is `book.id`) is owned does
        nothing; another opens the form for the book. */
    method HandlePurchaseClick(id: Json, book: Json)
      requires Valid()
      modifies this
      ensures Valid()
      ensures id in old(purchased) ==> form == old(form)
      ensures id !in old(purchased) ==> form == Some(CustomerForm(Some(book), false))
      ensures purchased == old(purchased) && saved == old(saved) && customerEmail == old(customerEmail)
    {
      if id in purchased {
        return;
      }
      form := Some(CustomerForm(Some(book), false));
    }

    /** `handlePurchaseSuccess`: the book's id (`id`, that is `book.id`) joins the owned
        set, the form closes, and the save effect writes the set. */
    method HandlePurchaseSuccess(id: Json)
      requires Valid()
      modifies this
      ensures Valid()
      ensures purchased == SetAdd(old(purchased), id)
      ensures form == None && customerEmail == old(customerEmail)
    {
      purchased := SetAdd(purchased, id);
      form := None;
      if storageEnabled {
        saved := Some(JArr(purchased));
      }
    }

    /** The email input's `onChange`. */
    method SetCustomerEmail(value: string)
      modifies this
      ensures customerEmail == value
      ensures purchased == old(purchased) && saved == old(saved) && form == old(form)
    {
      customerEmail := value;
    }

    /** `handleCustomerSubmit`: without an email it alerts and changes nothing; with one the
        form switches to checkout for the same book. */
    method HandleCustomerSubmit() returns (alerted: bool)
      modifies this
      ensures alerted <==> old(customerEmail) == ""
      ensures alerted ==> form == old(form)
      ensures !alerted ==> form == Some(CustomerForm(if old(form).Some? then old(form).value.book else None, true))
      ensures purchased == old(purchased) && saved == old(saved) && customerEmail == old(customerEmail)
    {
      if customerEmail == "" {
        return true;
      }
      alerted := false;
      form := Some(CustomerForm(if form.Some? then form.value.book else None, true));
    }
  }
}
