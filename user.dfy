/**
 * The user rules of Models/user.js: the address validator, the role and
 * preference enums with their defaults, registration, login and the edit
 * operation, each answering with a `{ code, result, token }` triple and
 * never handing back the password.
 */
module Users {
  import opened Wrappers
  import opened Ids

  datatype Role = Seller | Buyer
  datatype Preference = Veg | NonVeg | Both

  function RoleName(r: Role): string {
    match r
    case Seller => "seller"
    case Buyer => "buyer"
  }

  function PreferenceName(p: Preference): string {
    match p
    case Veg => "veg"
    case NonVeg => "nonveg"
    case Both => "both"
  }

  /**
   * Casting a `role` value: an absent value takes the default buyer, a value
   * outside the enum fails validation (None).
   */
  function RoleOf(field: Option<string>): (r: Option<Role>)
    ensures field.None? ==> r == Some(Buyer)
    ensures field.Some? ==> (r.Some? <==> field.value in {"seller", "buyer"})
    ensures field.Some? && r.Some? ==> RoleName(r.value) == field.value
  {
    match field
    case None => Some(Buyer)
    case Some(s) =>
      if s == "seller" then Some(Seller)
      else if s == "buyer" then Some(Buyer)
      else None
  }

  /**
   * Casting a `preference` value: an absent value takes the default both, a
   * value outside the enum fails validation (None).
   */
  function PreferenceOf(field: Option<string>): (p: Option<Preference>)
    ensures field.None? ==> p == Some(Both)
    ensures field.Some? ==> (p.Some? <==> field.value in {"veg", "nonveg", "both"})
    ensures field.Some? && p.Some? ==> PreferenceName(p.value) == field.value
  {
    match field
    case None => Some(Both)
    case Some(s) =>
      if s == "veg" then Some(Veg)
      else if s == "nonveg" then Some(NonVeg)
      else if s == "both" then Some(Both)
      else None
  }

  lemma EnumNamesRoundTrip(r: Role, p: Preference)
    ensures RoleOf(Some(RoleName(r))) == Some(r)
    ensures PreferenceOf(Some(PreferenceName(p))) == Some(p)
  {
  }

  // ---------------------------------------------------------------------------
  // Addresses
  // ---------------------------------------------------------------------------

  /** An address as it arrives: each field may be missing, and "" counts as missing. */
  datatype Address = Address(street: Option<string>, city: Option<string>, state: Option<string>, zip: Option<string>)

  /** JavaScript truthiness of a string field: present and not "". */
  predicate Truthy(f: Option<string>) {
    f.Some? && f.value != ""
  }

  /** `!street && !city && !state && !zip` */
  predicate NoneGiven(a: Address) {
    !Truthy(a.street) && !Truthy(a.city) && !Truthy(a.state) && !Truthy(a.zip)
  }

  /** `street && city && state && zip` */
  predicate AllGiven(a: Address) {
    Truthy(a.street) && Truthy(a.city) && Truthy(a.state) && Truthy(a.zip)
  }

  /** How many of the four address fields are given. */
  function GivenCount(a: Address): nat {
    (if Truthy(a.street) then 1 else 0) + (if Truthy(a.city) then 1 else 0)
    + (if Truthy(a.state) then 1 else 0) + (if Truthy(a.zip) then 1 else 0)
  }

  /** isCompleteAddress: no address at all, or none of its four fields, or all four. */
  function IsCompleteAddress(val: Option<Address>): (ok: bool)
    ensures ok <==> val.None? || GivenCount(val.value) == 0 || GivenCount(val.value) == 4
    ensures !ok <==> val.Some? && 0 < GivenCount(val.value) < 4
  {
    if val.None? then true
    else NoneGiven(val.value) || AllGiven(val.value)
  }

  /** The first of street, city, state, zip that is not truthy: the value `street && city && state && zip` yields when it is falsy. */
  function FirstNotGiven(a: Address): (f: Option<string>)
    requires !AllGiven(a)
    ensures !Truthy(f)
  {
    if !Truthy(a.street) then a.street
    else if !Truthy(a.city) then a.city
    else if !Truthy(a.state) then a.state
    else a.zip
  }

  /**
   * Whether the schema accepts an address as the validator is written. For a
   * partial address `isCompleteAddress` returns the first field that is not
   * truthy, and Mongoose's validator runner counts a result of `undefined`
   * as a pass: a partial address fails only when that field is present and
   * empty.
   */
  function AddressValidatorPasses(val: Option<Address>): (ok: bool)
    ensures IsCompleteAddress(val) ==> ok
    ensures !ok <==> val.Some? && 0 < GivenCount(val.value) < 4 && FirstNotGiven(val.value) == Some("")
  {
    IsCompleteAddress(val) || FirstNotGiven(val.value).None?
  }

  /** A street alone, with the other three fields missing, passes the validator as written. */
  lemma PartialAddressPassesAsWritten()
    ensures var a := Address(Some("1 Main"), None, None, None);
      GivenCount(a) == 1 && !IsCompleteAddress(Some(a)) && AddressValidatorPasses(Some(a))
      && AddressDecision(a) == RejectAddress
  {
    var a := Address(Some("1 Main"), None, None, None);
    assert FirstNotGiven(a) == None;
  }

  /** What an edit does with an address in the body. */
  datatype AddressAction = SetAddress(address: Address) | ClearAddress | RejectAddress

  /** The edit's address rule: an empty address clears, a complete one replaces, a partial one is refused. */
  function AddressDecision(a: Address): (act: AddressAction)
    ensures act == ClearAddress <==> GivenCount(a) == 0
    ensures act == SetAddress(a) <==> GivenCount(a) == 4
    ensures act == RejectAddress <==> 0 < GivenCount(a) < 4
    ensures act.SetAddress? ==> act.address == a
  {
    if NoneGiven(a) || AllGiven(a) then
      (if NoneGiven(a) then ClearAddress else SetAddress(a))
    else RejectAddress
  }

  /**
   * The edit accepts exactly the addresses on which `isCompleteAddress` returns a truthy
   * value. Registration reads that result as Mongoose does (`AddressValidatorPasses`), so it
   * stores some partial addresses the edit refuses (`PartialAddressPassesAsWritten`).
   */
  lemma DecisionAgreesWithValidator(a: Address)
    ensures AddressDecision(a) != RejectAddress <==> IsCompleteAddress(Some(a))
  {
  }

  // ---------------------------------------------------------------------------
  // Documents, replies and the outside primitives
  // ---------------------------------------------------------------------------

  /** A stored user document; `password` holds the bcrypt hash. */
  datatype User = User(
    id: ObjectId, name: Option<string>, email: string, phone: Option<string>,
    password: string, role: Role, preference: Preference, address: Option<Address>)

  /** `toObject()` with `password` deleted: the only user shape ever handed back. */
  datatype UserObject = UserObject(
    id: ObjectId, name: Option<string>, email: string, phone: Option<string>,
    role: Role, preference: Preference, address: Option<Address>)

  function Strip(u: User): UserObject {
    UserObject(u.id, u.name, u.email, u.phone, u.role, u.preference, u.address)
  }

  /** The returned object carries nothing of the password, and everything else. */
  lemma StripForgetsOnlyPassword(u: User, v: User)
    ensures Strip(u) == Strip(v) <==> u == v.(password := u.password)
  {
  }

  /** A signed token; only the user id it embeds is modelled. */
  datatype Token = Token(subject: ObjectId)

  /**
   * The libraries the rules call out to: bcrypt's salted hash and compare,
   * and validator's isEmail and isMobilePhone (for "en-IN").
   */
  datatype Primitives = Primitives(
    hash: string -> string,
    compare: (string, string) -> bool,
    isEmail: string -> bool,
    isMobilePhone: string -> bool)

  /** Why a save failed: hashing an absent password, schema validators, or a unique index. */
  datatype Failure = HashFailed | ValidationFailed(paths: set<string>) | DuplicateKey

  datatype Payload = Message(text: string) | Error(failure: Failure) | Account(user: UserObject)

  /** The `{ code, result, token }` triple; the token is absent on every failure. */
  datatype Reply = Reply(code: int, result: Payload, token: Option<Token>)

  const InvalidCredential := Reply(400, Message("Invalid Credential"), None)
  const UserNotFound := "User not found"
  const AddressIncomplete := "Please provide all address fields: street, city, state, and zip."

  /** The schema paths whose validators fail for a candidate document. */
  function InvalidPaths(prims: Primitives, email: Option<string>, phone: Option<string>,
                        role: Option<string>, preference: Option<string>,
                        address: Option<Address>, password: string): set<string>
  {
    (if Truthy(email) && prims.isEmail(email.value) then {} else {"email"})
    + (if Truthy(phone) && !prims.isMobilePhone(phone.value) then {"phone"} else {})
    + (if password == "" then {"password"} else {})
    + (if RoleOf(role).None? then {"role"} else {})
    + (if PreferenceOf(preference).None? then {"preference"} else {})
    + (if AddressValidatorPasses(address) then {} else {"address"})
  }

  /** A stored document satisfies every validator of the schema. */
  ghost predicate Stored(prims: Primitives, u: User) {
    && Truthy(Some(u.email)) && prims.isEmail(u.email)
    && (Truthy(u.phone) ==> prims.isMobilePhone(u.phone.value))
    && u.password != ""
    && AddressValidatorPasses(u.address)
  }

  /** The validators pass on a document exactly when it is fit to be stored. */
  lemma StoredIffNoInvalidPaths(prims: Primitives, u: User)
    ensures InvalidPaths(prims, Some(u.email), u.phone, Some(RoleName(u.role)),
                         Some(PreferenceName(u.preference)), u.address, u.password) == {}
            <==> Stored(prims, u)
  {
    EnumNamesRoundTrip(u.role, u.preference);
    var paths := InvalidPaths(prims, Some(u.email), u.phone, Some(RoleName(u.role)),
                              Some(PreferenceName(u.preference)), u.address, u.password);
    if !Stored(prims, u) {
      assert "email" in paths || "phone" in paths || "password" in paths || "address" in paths;
    }
  }

  /** A query filter: `findById(id)` or `findOne({ email })`. */
  datatype Filter = ById(id: ObjectId) | ByEmail(email: string)

  predicate Matches(u: User, f: Filter) {
    match f
    case ById(id) => u.id == id
    case ByEmail(e) => u.email == e
  }

  /** The index of the first document, in natural order, that matches `f`; -1 when none does. */
  function FindOne(users: seq<User>, f: Filter): (k: int)
    ensures -1 <= k < |users|
    ensures k == -1 <==> forall i :: 0 <= i < |users| ==> !Matches(users[i], f)
    ensures k >= 0 ==> Matches(users[k], f) && forall i :: 0 <= i < k ==> !Matches(users[i], f)
  {
    if |users| == 0 then -1
    else if Matches(users[0], f) then 0
    else
      var k := FindOne(users[1..], f);
      assert k >= 0 ==> users[1..][k] == users[k + 1];
      assert k == -1 ==> forall i :: 1 <= i < |users| ==> users[1..][i - 1] == users[i];
      if k == -1 then -1 else k + 1
  }

  predicate EmailTaken(users: seq<User>, email: string) {
    exists i :: 0 <= i < |users| && users[i].email == email
  }

  /** Another document than the one at `except` already holds this phone (a sparse unique index). */
  predicate PhoneTaken(users: seq<User>, phone: Option<string>, except: int) {
    phone.Some? && exists i :: 0 <= i < |users| && i != except && users[i].phone == phone
  }

  // ---------------------------------------------------------------------------
  // Registration
  // ---------------------------------------------------------------------------

  /** A registration body; every field may be missing. */
  datatype Registration = Registration(
    name: Option<string>, email: Option<string>, phone: Option<string>, password: Option<string>,
    role: Option<string>, preference: Option<string>, address: Option<Address>)

  function RegistrationErrors(prims: Primitives, body: Registration, hashed: string): set<string> {
    InvalidPaths(prims, body.email, body.phone, body.role, body.preference, body.address, hashed)
  }

  /** The document `new User(body)` builds once the password is hashed, with the enum defaults applied. */
  function Document(prims: Primitives, body: Registration, id: ObjectId, hashed: string): (u: User)
    requires RegistrationErrors(prims, body, hashed) == {}
    ensures Stored(prims, u)
    ensures u.id == id && u.password == hashed && Some(u.email) == body.email
    ensures u.name == body.name && u.phone == body.phone && u.address == body.address
    ensures body.role.None? ==> u.role == Buyer
    ensures body.role.Some? ==> RoleName(u.role) == body.role.value
    ensures body.preference.None? ==> u.preference == Both
    ensures body.preference.Some? ==> PreferenceName(u.preference) == body.preference.value
  {
    assert "email" !in RegistrationErrors(prims, body, hashed);
    User(id, body.name, body.email.value, body.phone, hashed,
         RoleOf(body.role).value, PreferenceOf(body.preference).value, body.address)
  }

  // ---------------------------------------------------------------------------
  // Editing
  // ---------------------------------------------------------------------------

  /** An edit body; every field may be missing. Only the presence of `_id`, `email` and `password` matters. */
  datatype EditBody = EditBody(
    id: Option<string>, email: Option<string>, password: Option<string>,
    name: Option<string>, phone: Option<string>, preference: Option<string>, address: Option<Address>)

  /** `key in body` */
  predicate HasKey(body: EditBody, key: string) {
    if key == "_id" then body.id.Some?
    else if key == "email" then body.email.Some?
    else if key == "password" then body.password.Some?
    else if key == "name" then body.name.Some?
    else if key == "phone" then body.phone.Some?
    else if key == "preference" then body.preference.Some?
    else if key == "address" then body.address.Some?
    else false
  }

  /**
   * `now` is `was` after a successful edit with `body`, stated field by field
   * against the body rather than as `Edited`'s record update: id, email,
   * password and role kept; name, phone and preference overwritten exactly
   * when the body gives them (a preference only when it names a value); the
   * address kept, cleared or replaced. `Edited`'s ensures proves the two
   * agree, and the store's proofs work with this form.
   */
  ghost predicate EditedFrom(was: User, body: EditBody, now: User) {
    && now.id == was.id && now.email == was.email && now.password == was.password
    && now.role == was.role
    && now.name == (if body.name.Some? then body.name else was.name)
    && now.phone == (if body.phone.Some? then body.phone else was.phone)
    && now.preference == (match PreferenceOf(body.preference)
                          case Some(p) => if body.preference.Some? then p else was.preference
                          case None => was.preference)
    && now.address == (match body.address
                       case None => was.address
                       case Some(a) => if GivenCount(a) == 0 then None else Some(a))
  }

  /** The body holds an address with one to three of its four fields given. */
  predicate PartialAddress(body: EditBody) {
    body.address.Some? && 0 < GivenCount(body.address.value) < 4
  }

  /** The document the in-memory edit of `was` with `body` produces, when the address is not refused. */
  function Edited(was: User, body: EditBody): (now: User)
    requires !PartialAddress(body)
    ensures EditedFrom(was, body, now)
  {
    var preference := PreferenceOf(body.preference);
    was.(name := if body.name.Some? then body.name else was.name,
         phone := if body.phone.Some? then body.phone else was.phone,
         preference := if body.preference.Some? && preference.Some? then preference.value else was.preference,
         address := match body.address
                    case None => was.address
                    case Some(a) => if AddressDecision(a) == ClearAddress then None else Some(a))
  }

  /**
   * The validator paths that fail when an edited document is saved. The
   * preference is checked as the body gave it, since the model keeps only
   * enum values in a document.
   */
  function EditInvalidPaths(prims: Primitives, u: User, body: EditBody): set<string> {
    InvalidPaths(prims, Some(u.email), u.phone, Some(RoleName(u.role)),
                 if body.preference.Some? then body.preference else Some(PreferenceName(u.preference)),
                 u.address, u.password)
  }

  /** The fields an edit may never touch, in the order they are checked. */
  const DisallowedFields: seq<string> := ["_id", "email", "password"]

  /** The first of `keys` that the body holds, if any. */
  function FirstPresent(body: EditBody, keys: seq<string>): (key: Option<string>)
    ensures key.None? <==> forall i :: 0 <= i < |keys| ==> !HasKey(body, keys[i])
    ensures key.Some? ==>
      exists i :: 0 <= i < |keys| && keys[i] == key.value && HasKey(body, keys[i])
        && forall j :: 0 <= j < i ==> !HasKey(body, keys[j])
  {
    if |keys| == 0 then None
    else if HasKey(body, keys[0]) then Some(keys[0])
    else
      var key := FirstPresent(body, keys[1..]);
      assert forall i :: 1 <= i < |keys| ==> keys[1..][i - 1] == keys[i];
      key
  }

  /** The loop over the disallowed fields, returning the first one the body holds. */
  method FirstDisallowed(body: EditBody) returns (found: Option<string>)
    ensures found == FirstPresent(body, DisallowedFields)
  {
    for i := 0 to |DisallowedFields|
      invariant FirstPresent(body, DisallowedFields[i..]) == FirstPresent(body, DisallowedFields)
    {
      if HasKey(body, DisallowedFields[i]) {
        return Some(DisallowedFields[i]);
      }
      assert DisallowedFields[i..][1..] == DisallowedFields[i + 1..];
    }
    return None;
  }

  /** With no `_id`, `email` or `password` in the body the disallowed check passes, whatever else it holds. */
  lemma OnlyCredentialKeysBlock(body: EditBody)
    ensures FirstPresent(body, DisallowedFields).None?
            <==> body.id.None? && body.email.None? && body.password.None?
    ensures body.id.Some? ==> FirstPresent(body, DisallowedFields) == Some("_id")
    ensures body.id.None? && body.email.Some? ==> FirstPresent(body, DisallowedFields) == Some("email")
  {
    assert DisallowedFields[0] == "_id" && DisallowedFields[1] == "email" && DisallowedFields[2] == "password";
  }

  /**
   * An edit whose body holds only a complete or an all-empty address passes
   * every validator and the phone index, so it succeeds: the address is
   * replaced, or removed.
   */
  lemma AddressOnlyEditSucceeds(prims: Primitives, users: seq<User>, nextId: nat, k: nat, body: EditBody)
    requires ValidUsers(prims, users, nextId) && k < |users|
    requires body == EditBody(None, None, None, None, None, None, body.address)
    requires body.address.Some? && !PartialAddress(body)
    ensures var u := Edited(users[k], body);
      && EditInvalidPaths(prims, u, body) == {}
      && !PhoneTaken(users, u.phone, k)
      && u.address == (if GivenCount(body.address.value) == 0 then None else body.address)
  {
    var u := Edited(users[k], body);
    assert u.phone == users[k].phone;
    StoredIffNoInvalidPaths(prims, u);
    forall i | 0 <= i < |users| && i != k
      ensures users[i].phone != u.phone || u.phone.None?
    {
      if i < k { assert !(users[i].phone.Some? && users[i].phone == users[k].phone); }
      else { assert !(users[k].phone.Some? && users[k].phone == users[i].phone); }
    }
  }

  /**
   * The in-memory part of editUser: name, phone and preference are assigned
   * when the body defines them, then the address is set, cleared or refused.
   * A preference outside the enum is left for the save to reject.
   */
  method ApplyEdit(was: User, body: EditBody) returns (user: User, refused: bool)
    ensures refused <==> PartialAddress(body)
    ensures !refused ==> user == Edited(was, body) && EditedFrom(was, body, user)
  {
    user := was;
    if body.name.Some? {
      user := user.(name := body.name);
    }
    if body.phone.Some? {
      user := user.(phone := body.phone);
    }
    if body.preference.Some? && PreferenceOf(body.preference).Some? {
      user := user.(preference := PreferenceOf(body.preference).value);
    }
    refused := false;
    if body.address.Some? {
      match AddressDecision(body.address.value)
      case SetAddress(a) =>
        user := user.(address := Some(a));
      case ClearAddress =>
        user := user.(address := None);
      case RejectAddress =>
        refused := true;
    }
  }

  // ---------------------------------------------------------------------------
  // The users collection
  // ---------------------------------------------------------------------------

  /** Ids and emails are unique, phones are unique where present, every document passes its validators. */
  ghost predicate ValidUsers(prims: Primitives, users: seq<User>, nextId: nat) {
    && (forall i :: 0 <= i < |users| ==>
          users[i].id.minted == UserDocs && users[i].id.serial < nextId && Stored(prims, users[i]))
    && (forall i, j :: 0 <= i < j < |users| ==>
          users[i].id != users[j].id && users[i].email != users[j].email
          && !(users[i].phone.Some? && users[i].phone == users[j].phone))
  }

  /** Saving an edited document that keeps its id and email, passes its validators and holds no taken phone. */
  lemma SaveEditValid(prims: Primitives, users: seq<User>, nextId: nat, k: nat, user: User)
    requires ValidUsers(prims, users, nextId) && k < |users|
    requires user.id == users[k].id && user.email == users[k].email
    requires Stored(prims, user) && !PhoneTaken(users, user.phone, k)
    ensures ValidUsers(prims, users[k := user], nextId)
  {
  }

  /** Inserting a fresh document whose email and phone are not taken. */
  lemma InsertValid(prims: Primitives, users: seq<User>, nextId: nat, user: User)
    requires ValidUsers(prims, users, nextId) && user.id == ObjectId(UserDocs, nextId)
    requires Stored(prims, user) && !EmailTaken(users, user.email) && !PhoneTaken(users, user.phone, -1)
    ensures ValidUsers(prims, users + [user], nextId + 1)
  {
  }

  /** The users collection in natural order, with the primitives its rules call. */
  class UserStore {
    const prims: Primitives
    var users: seq<User>
    /** The serial of the `_id` the database mints for the next new document. */
    var nextId: nat

    ghost predicate Valid()
      reads this
    {
      ValidUsers(prims, users, nextId)
    }

    constructor (prims: Primitives)
      ensures Valid() && this.prims == prims && users == []
    {
      this.prims := prims;
      users := [];
      nextId := 0;
    }

    /**
     * createUser: hash the password, validate, insert, and answer with the
     * stripped document and a token for it; any failure answers 400 and
     * stores nothing.
     */
    method Create(body: Registration) returns (reply: Reply)
      requires Valid()
      modifies this
      ensures Valid()
      ensures nextId == if reply.code == 200 then old(nextId) + 1 else old(nextId)
      ensures body.password.None? ==> reply == Reply(400, Error(HashFailed), None) && users == old(users)
      ensures body.password.Some? ==>
        var hashed := prims.hash(body.password.value);
        if RegistrationErrors(prims, body, hashed) != {} then
          && reply == Reply(400, Error(ValidationFailed(RegistrationErrors(prims, body, hashed))), None)
          && users == old(users)
        else if EmailTaken(old(users), body.email.value) || PhoneTaken(old(users), body.phone, -1) then
          reply == Reply(400, Error(DuplicateKey), None) && users == old(users)
        else
          var u := Document(prims, body, ObjectId(UserDocs, old(nextId)), hashed);
          && users == old(users) + [u]
          && reply == Reply(200, Account(Strip(u)), Some(Token(u.id)))
    {
      if body.password.None? {
        return Reply(400, Error(HashFailed), None);
      }
      var hashed := prims.hash(body.password.value);
      var paths := RegistrationErrors(prims, body, hashed);
      if paths != {} {
        return Reply(400, Error(ValidationFailed(paths)), None);
      }
      var email := body.email.value;
      if EmailTaken(users, email) || PhoneTaken(users, body.phone, -1) {
        return Reply(400, Error(DuplicateKey), None);
      }
      var user := Document(prims, body, ObjectId(UserDocs, nextId), hashed);
      InsertValid(prims, users, nextId, user);
      users := users + [user];
      nextId := nextId + 1;
      reply := Reply(200, Account(Strip(user)), Some(Token(user.id)));
    }

    /**
     * loginUser: an unknown email and a wrong password give the very same
     * answer; a match answers with the stripped document and its token.
     */
    method Login(email: string, password: string) returns (reply: Reply)
      ensures FindOne(users, ByEmail(email)) == -1 ==> reply == InvalidCredential
      ensures FindOne(users, ByEmail(email)) >= 0 ==>
        var u := users[FindOne(users, ByEmail(email))];
        reply == if prims.compare(password, u.password)
                 then Reply(200, Account(Strip(u)), Some(Token(u.id)))
                 else InvalidCredential
      ensures reply.code == 200 <==>
        exists i :: 0 <= i < |users| && users[i].email == email && prims.compare(password, users[i].password)
          && forall j :: 0 <= j < i ==> users[j].email != email
    {
      var k := FindOne(users, ByEmail(email));
      if k < 0 {
        return InvalidCredential;
      }
      var user := users[k];
      if !prims.compare(password, user.password) {
        return InvalidCredential;
      }
      reply := Reply(200, Account(Strip(user)), Some(Token(user.id)));
    }

    /**
     * editUser: refuse `_id`, `email` and `password` before looking the user
     * up; then overwrite name, phone and preference where the body gives
     * them, set, clear or refuse the address, and save. Every refusal saves
     * nothing.
     */
    method Edit(id: ObjectId, body: EditBody) returns (reply: Reply)
      requires Valid()
      modifies this
      ensures Valid() && nextId == old(nextId)
      ensures reply.code != 200 ==> users == old(users)
      ensures FirstPresent(body, DisallowedFields).Some? ==>
        reply == Reply(400, Message("Cannot update field: " + FirstPresent(body, DisallowedFields).value), None)
      ensures FirstPresent(body, DisallowedFields).None? && FindOne(old(users), ById(id)) == -1 ==>
        reply == Reply(404, Message(UserNotFound), None)
      ensures FirstPresent(body, DisallowedFields).None? && FindOne(old(users), ById(id)) >= 0
              && PartialAddress(body) ==>
        reply == Reply(400, Message(AddressIncomplete), None)
      ensures FirstPresent(body, DisallowedFields).None? && FindOne(old(users), ById(id)) >= 0
              && !PartialAddress(body) ==>
        var k := FindOne(old(users), ById(id));
        var u := Edited(old(users)[k], body);
        if EditInvalidPaths(prims, u, body) != {} then
          reply == Reply(400, Error(ValidationFailed(EditInvalidPaths(prims, u, body))), None)
        else if PhoneTaken(old(users), u.phone, k) then
          reply == Reply(400, Error(DuplicateKey), None)
        else
          && users == old(users)[k := u]
          && u.id == id
          && (body.preference.Some? ==> PreferenceName(u.preference) == body.preference.value)
          && reply == Reply(200, Account(Strip(u)), Some(Token(id)))
    {
      var blocked := FirstDisallowed(body);
      if blocked.Some? {
        return Reply(400, Message("Cannot update field: " + blocked.value), None);
      }
      var k := FindOne(users, ById(id));
      if k < 0 {
        return Reply(404, Message(UserNotFound), None);
      }
      var user, refused := ApplyEdit(users[k], body);
      if refused {
        return Reply(400, Message(AddressIncomplete), None);
      }
      var paths := EditInvalidPaths(prims, user, body);
      if paths != {} {
        return Reply(400, Error(ValidationFailed(paths)), None);
      }
      if PhoneTaken(users, user.phone, k) {
        return Reply(400, Error(DuplicateKey), None);
      }
      StoredIffNoInvalidPaths(prims, user);
      SaveEditValid(prims, users, nextId, k, user);
      users := users[k := user];
      reply := Reply(200, Account(Strip(user)), Some(Token(user.id)));
    }
  }
}
