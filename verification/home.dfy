/** The home page's registration form: field validation, error clearing while typing, and
    the register-or-log-in submission that ends on the affiliates dashboard for an admin and
    on the thank-you panel for everyone else. Server replies arrive as parsed JSON. */
module Home {
  import opened Wrappers
  import opened Text
  import opened JsValue

  datatype FormData = FormData(name: string, email: string, phone: string, password: string)

  /** `useState({ name: "", email: "", phone: "", password: "default123" })`. */
  const InitialForm := FormData("", "", "", "default123")

  /** The inputs `handleInputChange` serves, by their `name` attribute. */
  datatype Input = NameInput | EmailInput | PhoneInput

  function Key(input: Input): string {
    match input
    case NameInput => "name"
    case EmailInput => "email"
    case PhoneInput => "phone"
  }

  /** `{ ...prev, [name]: value }`. */
  function WithInput(data: FormData, input: Input, value: string): FormData {
    match input
    case NameInput => data.(name := value)
    case EmailInput => data.(email := value)
    case PhoneInput => data.(phone := value)
  }

  /** `validateForm`: one message per failing field. The name must not be blank; the email
      must not be blank and must contain a match of `\S+@\S+\.\S+`; a phone, when given,
      must match `^\+?[\d\s\-\(\)]+$`. */
  function ValidateForm(data: FormData): (errors: map<string, Value>)
    ensures errors.Keys <= {"name", "email", "phone"}
    ensures "name" in errors <==> IsBlank(data.name)
    ensures "name" in errors ==> errors["name"] == Str("Name is required")
    ensures "email" in errors <==> IsBlank(data.email) || !EmailShaped(data.email)
    ensures "email" in errors ==>
      errors["email"] == Str(if IsBlank(data.email) then "Email is required" else "Enter a valid email")
    ensures "phone" in errors <==> data.phone != "" && !PhoneShaped(data.phone)
    ensures "phone" in errors ==> errors["phone"] == Str("Enter a valid phone number")
  {
    var e1: map<string, Value> := if Trim(data.name) == "" then map["name" := Str("Name is required")] else map[];
    var e2 := if Trim(data.email) == "" then e1["email" := Str("Email is required")]
              else if !EmailShaped(data.email) then e1["email" := Str("Enter a valid email")]
              else e1;
    if data.phone != "" && !PhoneShaped(data.phone) then e2["phone" := Str("Enter a valid phone number")] else e2
  }

  /** A form with no errors has a name, an email the pattern matches and an acceptable phone. */
  lemma AcceptedFormIsWellFormed(data: FormData)
    requires ValidateForm(data) == map[]
    ensures !IsBlank(data.name) && MatchesEmailRegex(data.email)
    ensures data.phone == "" || MatchesPhoneRegex(data.phone)
  {
    assert "email" !in ValidateForm(data);
    EmailShapedIsRegex(data.email);
    PhoneShapedIsRegex(data.phone);
  }

  /** The data `handleRegister` validates and sends: name, email and phone trimmed. */
  function Trimmed(data: FormData): (t: FormData)
    ensures t.password == data.password
    ensures t.name == Trim(data.name) && t.email == Trim(data.email) && t.phone == Trim(data.phone)
    ensures Trim(t.name) == t.name && Trim(t.email) == t.email && Trim(t.phone) == t.phone
  {
    TrimIdempotent(data.name); TrimIdempotent(data.email); TrimIdempotent(data.phone);
    data.(name := Trim(data.name), email := Trim(data.email), phone := Trim(data.phone))
  }

  /** The requests the page sends. */
  datatype Request = RegisterRequest(data: FormData) | LoginRequest(email: string, password: string)

  /** `result.error?.toLowerCase().includes("already registered")`: no error reads as no;
      an error that is not text has no `toLowerCase` and throws. */
  function AlreadyRegistered(error: Value): (r: Result<bool, string>)
    ensures r.Failure? <==> !(error.Undefined? || error.Null? || error.Str?)
    ensures r.Success? && r.value ==> error.Str?
    ensures error.Str? ==> r == Success(Contains(Lower(error.s), "already registered"))
  {
    match error
    case Undefined => Success(false)
    case Null => Success(false)
    case Str(s) => Success(Contains(Lower(s), "already registered"))
    case _ => Failure("TypeError: toLowerCase is not a function")
  }

  /** What a successful reply leads to: the reply's user read for its role. A user that is
      null or missing cannot be read and throws. */
  function SignedInAs(reply: Value): (r: Result<bool, string>)
    ensures r.Failure? <==> Member(reply, "user").Undefined? || Member(reply, "user").Null?
    ensures r.Success? ==> (r.value <==> Member(Member(reply, "user"), "role") == Str("admin"))
  {
    var user := Member(reply, "user");
    if user.Undefined? || user.Null? then Failure("TypeError: cannot read role")
    else Success(Member(user, "role") == Str("admin"))
  }

  const ServerError := Str("Server error. Try again.")

  /** `JSON.stringify`, and `JSON.parse` with the error it throws. */
  type Stringify = Value -> string
  type Parse = string -> Result<Value, string>

  /** What the page shows and keeps: its error messages, the `localStorage` entries it
      reads and writes (text, as `localStorage` holds it), the last path it navigated to,
      and whether the thank-you panel is up. */
  datatype View = View(errors: map<string, Value>, storage: map<string, string>, navigatedTo: Option<string>, registered: bool)

  /** `localStorage.setItem(key, JSON.stringify(v))`: `undefined` stringifies to `undefined`,
      which is stored as the text "undefined". */
  function StoredJson(v: Value, stringify: Stringify): string {
    if v.Undefined? then "undefined" else stringify(v)
  }

  /** `localStorage.getItem(key)` read for truthiness: a stored text that is not empty. */
  function Item(storage: map<string, string>, key: string): Option<string> {
    if key in storage && storage[key] != "" then Some(storage[key]) else None
  }

  /** The mount effect: a stored token and user that parses to a value with a truthy id
      send an admin to the dashboard and mark anyone else registered; a user that does not
      parse is removed together with the token. */
  function Mounted(v: View, parse: Parse): View {
    var token, userText := Item(v.storage, "token"), Item(v.storage, "user");
    if token.None? || userText.None? then v
    else
      match parse(userText.value)
      case Failure(_) => v.(storage := v.storage - {"token", "user"})
      case Success(user) =>
        if !Truthy(Member(user, "id")) then v
        else if Member(user, "role") == Str("admin") then v.(navigatedTo := Some("/affiliates"))
        else v.(registered := true)
  }

  /** A successful reply: its token and its user are stored, then the user's role decides
      between the dashboard and the thank-you panel; a reply without a user throws after
      the two writes, and the handler shows the server error. */
  function AfterSignIn(v: View, reply: Value, stringify: Stringify): View {
    var stored := v.storage["token" := ToStr(Member(reply, "token"))]["user" := StoredJson(Member(reply, "user"), stringify)];
    match SignedInAs(reply)
    case Failure(_) => v.(storage := stored, errors := map["general" := ServerError])
    case Success(admin) =>
      if admin then v.(storage := stored, navigatedTo := Some("/affiliates"))
      else v.(storage := stored, registered := true)
  }

  /** A reply that cannot be read with `.`: the request failed, or `res.json()` gave null. */
  predicate Unreadable(reply: Result<Value, string>) {
    reply.Failure? || reply.value.Null? || reply.value.Undefined?
  }

  /** The register reply is not a success and its error says "already registered", so the
      page logs in instead. */
  predicate Retries(register: Result<Value, string>) {
    && !Unreadable(register)
    && !Truthy(Member(register.value, "success"))
    && AlreadyRegistered(Member(register.value, "error")) == Success(true)
  }

  /** The requests the submission sends: the registration, then the login when it retries. */
  function Requests(data: FormData, register: Result<Value, string>): seq<Request> {
    [RegisterRequest(data)] + (if Retries(register) then [LoginRequest(data.email, data.password)] else [])
  }

  /** The view after the submission's replies: a thrown error shows the server error; an
      "already registered" reply is followed by the login; a successful reply signs in;
      any other reply shows its error, or "Registration failed" / "Login failed". */
  function AfterReplies(v: View, register: Result<Value, string>, login: Result<Value, string>, stringify: Stringify): View {
    if Unreadable(register) then v.(errors := map["general" := ServerError])
    else
      var result := register.value;
      var success := Truthy(Member(result, "success"));
      var known := if success then Success(false) else AlreadyRegistered(Member(result, "error"));
      if known.Failure? then v.(errors := map["general" := ServerError])
      else if known.value then
        if Unreadable(login) then v.(errors := map["general" := ServerError])
        else if Truthy(Member(login.value, "success")) then AfterSignIn(v, login.value, stringify)
        else v.(errors := map["general" := Or(Member(login.value, "error"), Str("Login failed"))])
      else if success then AfterSignIn(v, result, stringify)
      else v.(errors := map["general" := Or(Member(result, "error"), Str("Registration failed"))])
  }

  /** The page navigates nowhere but the affiliates dashboard. */
  lemma RepliesNavigateOnlyToDashboard(v: View, register: Result<Value, string>, login: Result<Value, string>, stringify: Stringify)
    ensures var r := AfterReplies(v, register, login, stringify);
      r.navigatedTo == v.navigatedTo || r.navigatedTo == Some("/affiliates")
  {
  }

  /** The session is stored, and the page moves on, only after a reply that reports success:
      the registration's, or the login's when the registration said "already registered". */
  lemma OnlySuccessSignsIn(v: View, register: Result<Value, string>, login: Result<Value, string>, stringify: Stringify)
    ensures var r := AfterReplies(v, register, login, stringify);
      r.storage != v.storage || r.registered != v.registered || r.navigatedTo != v.navigatedTo ==>
        (!Unreadable(register) && Truthy(Member(register.value, "success"))) ||
        (Retries(register) && !Unreadable(login) && Truthy(Member(login.value, "success")))
  {
  }

  /** Every outcome either keeps the messages as they were or shows exactly one general
      message. */
  lemma RepliesShowOneMessage(v: View, register: Result<Value, string>, login: Result<Value, string>, stringify: Stringify)
    ensures var r := AfterReplies(v, register, login, stringify);
      r.errors == v.errors || r.errors.Keys == {"general"}
  {
    var general := map["general" := ServerError];
    assert general.Keys == {"general"};
    var r := AfterReplies(v, register, login, stringify);
    if !Unreadable(register) {
      var result := register.value;
      if Truthy(Member(result, "success")) {
        assert r == AfterSignIn(v, result, stringify);
      } else if AlreadyRegistered(Member(result, "error")) == Success(true) && !Unreadable(login) && Truthy(Member(login.value, "success")) {
        assert r == AfterSignIn(v, login.value, stringify);
      }
    }
  }

  /** A session stored by a sign-in survives a reload: a fresh page that mounts on that
      storage (`page` with that storage) reaches the dashboard for an admin and the thank-you panel for anyone else,
      given that parsing gives back the user that was stringified. */
  lemma {:induction false} SessionSurvivesReload(v: View, reply: Value, stringify: Stringify, parse: Parse, page: View)
    requires SignedInAs(reply).Success? && Truthy(Member(Member(reply, "user"), "id"))
    requires parse(stringify(Member(reply, "user"))) == Success(Member(reply, "user"))
    requires ToStr(Member(reply, "token")) != "" && stringify(Member(reply, "user")) != ""
    ensures var m := Mounted(page.(storage := AfterSignIn(v, reply, stringify).storage), parse);
      (SignedInAs(reply).value ==> m.navigatedTo == Some("/affiliates")) &&
      (!SignedInAs(reply).value ==> m.registered)
  {
    var user := Member(reply, "user");
    var stored := AfterSignIn(v, reply, stringify).storage;
    assert stored == v.storage["token" := ToStr(Member(reply, "token"))]["user" := StoredJson(user, stringify)];
    assert StoredJson(user, stringify) == stringify(user);
    assert Item(stored, "token") == Some(ToStr(Member(reply, "token")));
    assert Item(stored, "user") == Some(stringify(user));
  }

  /** The page's state; `storage` is the part of `localStorage` it uses, `navigatedTo` the
      last path it navigated to, `sent` every request it made. */
  class HomePage {
    var formData: FormData
    var errors: map<string, Value>
    var registered: bool
    var loading: bool
    var storage: map<string, string>
    var navigatedTo: Option<string>
    var sent: seq<Request>

    function Shown(): View
      reads this
    {
      View(errors, storage, navigatedTo, registered)
    }

    constructor(storage: map<string, string>)
      ensures formData == InitialForm && errors == map[] && !registered && !loading
      ensures this.storage == storage && navigatedTo == None && sent == []
    {
      formData, errors, registered, loading := InitialForm, map[], false, false;
      this.storage, navigatedTo, sent := storage, None, [];
    }

    /** The effect run on mount (`Mounted`). */
    method OnMount(parse: Parse)
      modifies this
      ensures Shown() == Mounted(old(Shown()), parse)
      ensures formData == old(formData) && loading == old(loading) && sent == old(sent)
    {
      var token, userText := Item(storage, "token"), Item(storage, "user");
      if token.Some? && userText.Some? {
        var parsed := parse(userText.value);
        if parsed.Failure? {
          storage := storage - {"token", "user"};
          return;
        }
        var user := parsed.value;
        if Truthy(Member(user, "id")) {
          if Member(user, "role") == Str("admin") {
            navigatedTo := Some("/affiliates");
          } else {
            registered := true;
          }
        }
      }
    }

    /** `handleInputChange`: the field takes the typed value, and its error, if one is
        shown, is blanked; every other error stays. */
    method HandleInputChange(input: Input, value: string)
      modifies this
      ensures formData == WithInput(old(formData), input, value)
      ensures errors == if Key(input) in old(errors) && Truthy(old(errors)[Key(input)])
                        then old(errors)[Key(input) := Str("")] else old(errors)
      ensures Key(input) in errors ==> !Truthy(errors[Key(input)])
      ensures forall k :: k in old(errors) && k != Key(input) ==> k in errors && errors[k] == old(errors)[k]
      ensures registered == old(registered) && loading == old(loading) && storage == old(storage)
      ensures navigatedTo == old(navigatedTo) && sent == old(sent)
    {
      formData := WithInput(formData, input, value);
      if Key(input) in errors && Truthy(errors[Key(input)]) {
        errors := errors[Key(input) := Str("")];
      }
    }

    /** Stores the session of a successful reply and moves on by the user's role
        (`AfterSignIn`). */
    method SignIn(reply: Value, stringify: Stringify)
      modifies this
      ensures Shown() == AfterSignIn(old(Shown()), reply, stringify)
      ensures formData == old(formData) && loading == old(loading) && sent == old(sent)
    {
      storage := storage["token" := ToStr(Member(reply, "token"))];
      storage := storage["user" := StoredJson(Member(reply, "user"), stringify)];
      var admin := SignedInAs(reply);
      if admin.Failure? {
        errors := map["general" := ServerError];
      } else if admin.value {
        navigatedTo := Some("/affiliates");
      } else {
        registered := true;
      }
    }

    /** The part of `handleRegister` after validation: the register request, the login
        request when the registration says "already registered" (in any case), and the
        view the replies lead to (`AfterReplies`). A failed request, a reply of null and a
        non-text error throw, and the handler catches them. */
    method Submit(data: FormData, register: Result<Value, string>, login: Result<Value, string>, stringify: Stringify)
      modifies this
      ensures Shown() == AfterReplies(old(Shown()), register, login, stringify)
      ensures sent == old(sent) + Requests(data, register)
      ensures formData == old(formData) && loading == old(loading)
    {
      sent := sent + [RegisterRequest(data)];
      if Unreadable(register) {
        errors := map["general" := ServerError];
        return;
      }
      var result := register.value;
      var success := Truthy(Member(result, "success"));
      var known := if success then Success(false) else AlreadyRegistered(Member(result, "error"));
      if known.Failure? {
        errors := map["general" := ServerError];
      } else if known.value {
        sent := sent + [LoginRequest(data.email, data.password)];
        if Unreadable(login) {
          errors := map["general" := ServerError];
        } else if Truthy(Member(login.value, "success")) {
          SignIn(login.value, stringify);
        } else {
          errors := map["general" := Or(Member(login.value, "error"), Str("Login failed"))];
        }
      } else if success {
        SignIn(result, stringify);
      } else {
        errors := map["general" := Or(Member(result, "error"), Str("Registration failed"))];
      }
    }

    /** `handleRegister`: the trimmed form is validated first, and any error is shown and
        stops it before a request is sent; otherwise the messages are cleared and the
        submission runs. */
    method HandleRegister(register: Result<Value, string>, login: Result<Value, string>, stringify: Stringify)
      modifies this
      ensures !loading && formData == old(formData)
      ensures var data := Trimmed(old(formData));
        ValidateForm(data) != map[] ==>
          errors == ValidateForm(data) && sent == old(sent) && storage == old(storage)
          && navigatedTo == old(navigatedTo) && registered == old(registered)
      ensures var data := Trimmed(old(formData));
        ValidateForm(data) == map[] ==>
          Shown() == AfterReplies(old(Shown()).(errors := map[]), register, login, stringify) &&
          sent == old(sent) + Requests(data, register)
    {
      loading := true;
      errors := map[];
      var data := Trimmed(formData);
      var validationErrors := ValidateForm(data);
      if validationErrors != map[] {
        errors := validationErrors;
        loading := false;
        return;
      }
      Submit(data, register, login, stringify);
      loading := false;
    }
  }
}
