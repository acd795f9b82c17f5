/** The `User` collection: a required, unique email stored in lower case, a required
    password hash, a role from a fixed set defaulting to "customer" and an affiliate link
    defaulting to null; and a user document's `setPassword` and `verifyPassword`, with bcrypt
    given as two functions. */
module UsersModel {
  import opened Wrappers
  import opened Text
  import opened JsValue
  import opened AffiliateModel

  datatype Role = Admin | AffiliateRole | Customer

  datatype User = User(id: nat, email: string, passwordHash: string, name: Value, role: Role, affiliateId: Value, createdAt: int)

  datatype UserInput = UserInput(email: Value, passwordHash: Value, name: Value, role: Value, affiliateId: Value)

  /** The role enum, with "customer" for a role left out. */
  function CastRole(v: Value): Result<Role, string> {
    match v
    case Undefined => Success(Customer)
    case Str(s) =>
      if s == "admin" then Success(Admin)
      else if s == "affiliate" then Success(AffiliateRole)
      else if s == "customer" then Success(Customer)
      else Failure("`" + s + "` is not a valid enum value for path `role`.")
    case _ => Failure("`" + ToStr(v) + "` is not a valid enum value for path `role`.")
  }

  predicate EmailTaken(users: seq<User>, email: string) {
    exists i :: 0 <= i < |users| && users[i].email == email
  }

  predicate EmailsUnique(users: seq<User>) {
    forall i, j :: 0 <= i < j < |users| ==> users[i].email != users[j].email
  }

  /** The text of a required string path, if it has one. */
  function RequiredText(v: Value): Option<string> {
    if PresentText(v) then Some(CastString(v).value.s) else None
  }

  /** `User.create(input)` next to the users already stored. */
  function NewUser(input: UserInput, existing: seq<User>, id: nat, now: int): (r: Result<User, string>)
    ensures RequiredText(input.email) == None || RequiredText(input.passwordHash) == None ==> r.Failure?
    ensures r.Success? ==> r.value.email == Lower(RequiredText(input.email).value)
    ensures r.Success? ==> r.value.passwordHash == RequiredText(input.passwordHash).value
    ensures r.Success? ==> CastRole(input.role).Success? && r.value.role == CastRole(input.role).value
    ensures r.Success? && input.role.Undefined? ==> r.value.role == Customer
    ensures r.Success? && input.affiliateId.Undefined? ==> r.value.affiliateId == Null
    ensures r.Success? ==> !EmailTaken(existing, r.value.email)
    ensures r.Success? && EmailsUnique(existing) ==> EmailsUnique(existing + [r.value])
  {
    if RequiredText(input.email) == None then Failure("Path `email` is required.")
    else if RequiredText(input.passwordHash) == None then Failure("Path `passwordHash` is required.")
    else if CastString(input.name).Failure? then Failure(CastString(input.name).error)
    else if CastRole(input.role).Failure? then Failure(CastRole(input.role).error)
    else
      var email := Lower(RequiredText(input.email).value);
      if EmailTaken(existing, email) then Failure("E11000 duplicate key error: email")
      else
        Success(User(id, email, RequiredText(input.passwordHash).value, CastString(input.name).value,
                     CastRole(input.role).value, if input.affiliateId.Undefined? then Null else input.affiliateId, now))
  }

  /** A stored email is already in lower case: lowering it again changes nothing, so two
      spellings of one address that differ only in ASCII case are the same user. */
  lemma {:induction false} StoredEmailIsLower(input: UserInput, existing: seq<User>, id: nat, now: int)
    requires NewUser(input, existing, id, now).Success?
    ensures var e := NewUser(input, existing, id, now).value.email; Lower(e) == e
  {
    var e := NewUser(input, existing, id, now).value.email;
    assert forall i :: 0 <= i < |e| ==> LowerChar(e[i]) == e[i];
  }

  /** `bcrypt.hash(plain, salt)` and `bcrypt.compare(plain, hash)`. */
  type Hasher = (string, string) -> string
  type Comparer = (string, string) -> bool

  /** What bcrypt promises: a password matches every hash made from it. */
  ghost predicate BcryptLaw(hash: Hasher, compare: Comparer) {
    forall plain, salt :: compare(plain, hash(plain, salt))
  }

  /** A user document, as far as its password methods touch it. */
  class UserDoc {
    var passwordHash: string

    constructor (passwordHash: string)
      ensures this.passwordHash == passwordHash
    {
      this.passwordHash := passwordHash;
    }

    /** `setPassword(plain)`: the hash of the password with a fresh salt replaces the stored
        one. */
    method SetPassword(plain: string, salt: string, hash: Hasher)
      modifies this
      ensures passwordHash == hash(plain, salt)
    {
      passwordHash := hash(plain, salt);
    }

    /** `verifyPassword(plain)`: whether the password matches the stored hash. */
    method VerifyPassword(plain: string, compare: Comparer) returns (ok: bool)
      ensures ok == compare(plain, passwordHash)
    {
      ok := compare(plain, passwordHash);
    }
  }

  /** After `setPassword(p)`, `verifyPassword(p)` holds. */
  method SetThenVerify(user: UserDoc, plain: string, salt: string, hash: Hasher, compare: Comparer) returns (ok: bool)
    requires BcryptLaw(hash, compare)
    modifies user
    ensures ok
  {
    user.SetPassword(plain, salt, hash);
    ok := user.VerifyPassword(plain, compare);
  }
}
