/**
 * `POST /api/auth/onboard`: registers an owner or an admin and creates the
 * user's default store. A guard chain rejects the body with the first
 * failing check; then the user is built and saved, the store is built from
 * the default store data and saved, and a token is signed. The lookup of an
 * existing user with the same username or phone number, the password hash,
 * the new documents' ids, the clock, the host's text for a number and the
 * token signer are parameters.
 */
module OnboardRoute {
  import opened Wrappers
  import opened JsText
  import opened LocalCalendar
  import opened JsonBody
  import opened UserSchema

  const RequiredMessage: string := "Username, phone number, and password are required"
  const TypeMessage: string := "Invalid user type. Must be either \"owner\" or \"admin\""
  const PasswordMessage: string := "Password must be at least 6 characters long"
  const PhoneMessage: string := "Invalid phone number format"
  /** The message of a mongoose ValidationError, whose per-path messages are not modelled. */
  const ValidationMessage: string := "Validation error"

  /** The destructuring default of `type`: applied only when the field is absent. */
  function TypeWithDefault(v: Json): (r: Json)
    ensures v == Undefined ==> r == Str("owner")
    ensures v != Undefined ==> r == v
  {
    if v == Undefined then Str("owner") else v
  }

  /**
   * `password.length < 6`: a string by its length, an array by its element
   * count; a value with no numeric `length` compares as false.
   */
  predicate TooShort(v: Json) {
    match v
    case Str(s) => |s| < 6
    case Composite(_, length) => length.Some? && length.value < 6
    case _ => false
  }

  predicate IsDigit(c: char) {
    '0' <= c <= '9'
  }

  /** `[1-9][\d]{0,15}` over the whole string: a non-zero digit, then at most 15 digits. */
  predicate PhoneDigits(t: string) {
    1 <= |t| <= 16 && '1' <= t[0] <= '9' && forall i :: 1 <= i < |t| ==> IsDigit(t[i])
  }

  /** `/^[\+]?[1-9][\d]{0,15}$/`. A leading `+` must be the optional sign, since `[1-9]` cannot match it. */
  predicate PhonePattern(s: string) {
    if |s| > 0 && s[0] == '+' then PhoneDigits(s[1..]) else PhoneDigits(s)
  }

  /** `existingUser.username === username`: strict equality, so only a string equal to the stored username names the username. */
  function DuplicateField(existing: User, username: Json): (field: string)
    ensures field == "Username" <==> username == Str(existing.username)
  {
    if username == Str(existing.username) then "Username" else "Phone number"
  }

  datatype BusinessHour = BusinessHour(day: string, isOpen: bool)

  const DefaultBusinessHours: seq<BusinessHour> := [
    BusinessHour("Monday", true), BusinessHour("Tuesday", true), BusinessHour("Wednesday", true),
    BusinessHour("Thursday", true), BusinessHour("Friday", true), BusinessHour("Saturday", true),
    BusinessHour("Sunday", false)]

  const DefaultDescription: string := "Premium quality products with exceptional customer service"
  const DefaultLogo: string := "https://i.imghippo.com/files/RXA1166Gck.jpg"

  /** The saved store: the default store data plus the id and creation time the database gives it. */
  datatype Store = Store(
    id: string,
    displayName: string,
    ownerId: string,
    description: string,
    email: string,
    logo: string,
    businessHours: seq<BusinessHour>,
    createdAt: Time)

  /** `getDefaultStoreData(userId, userEmail, displayName)`, saved as `storeId` at `now`. */
  function DefaultStore(storeId: string, userId: string, email: string, displayName: string, now: Time): Store {
    Store(storeId, displayName, userId, DefaultDescription, email, DefaultLogo, DefaultBusinessHours, now)
  }

  /**
   * The store's e-mail: the supplied one if truthy, else one made from the
   * username. `None` when the supplied value cannot be cast to a string.
   */
  function StoreEmail(email: Json, username: string, numberText: real -> string): (r: Option<string>)
    ensures !Truthy(email) ==> r == Some(username + "@yourstore.com")
    ensures email.Str? && email.s != "" ==> r == Some(email.s)
  {
    if Truthy(email) then StringCast(email, numberText) else Some(username + "@yourstore.com")
  }

  /** The unique indexes of the users collection (`username`, `phoneNumber`). */
  datatype UserKey = UsernameKey | PhoneNumberKey

  /** The unique indexes of the stores collection (`displayName`, `email`). */
  datatype StoreKey = DisplayNameKey | EmailKey

  function UserKeyName(k: UserKey): string {
    match k
    case UsernameKey => "username"
    case PhoneNumberKey => "phoneNumber"
  }

  function StoreKeyName(k: StoreKey): string {
    match k
    case DisplayNameKey => "displayName"
    case EmailKey => "email"
  }

  /**
   * What the unique indexes make of a document about to be inserted: the
   * first index on which a stored document already holds the same value
   * (the key of the duplicate-key error's `keyPattern`), or `None`.
   */
  datatype UniqueIndexes = UniqueIndexes(user: User -> Option<UserKey>, store: Store -> Option<StoreKey>)

  datatype OnboardOutcome =
    | Registered(user: User, store: Store, token: string)
    | Rejected(failure: Failure)
    /** The 500 "Internal server error" of the `catch`. */
    | InternalError

  /** The destructured body: `{ username, phoneNumber, password, type = "owner", email }`. */
  datatype Request = Request(username: Json, phoneNumber: Json, password: Json, userType: Json, email: Json)

  function Destructure(body: Body): (r: Request)
    ensures r.username == Field(body, "username") && r.phoneNumber == Field(body, "phoneNumber")
    ensures r.password == Field(body, "password") && r.email == Field(body, "email")
    ensures r.userType == TypeWithDefault(Field(body, "type"))
  {
    Request(Field(body, "username"), Field(body, "phoneNumber"), Field(body, "password"), TypeWithDefault(Field(body, "type")), Field(body, "email"))
  }

  /** The guards, in order: the first failure, or `None` when the request may be saved. */
  function Guard(r: Request, existing: Option<User>, numberText: real -> string): (g: Option<Failure>)
    ensures g.Some? ==> g.value.status == 400 || (g.value.status == 409 && existing.Some?)
    ensures g.None? ==> existing.None? && Truthy(r.password) && PhonePattern(ToText(r.phoneNumber, numberText))
  {
    if !Truthy(r.username) || !Truthy(r.phoneNumber) || !Truthy(r.password) then Some(Failure(400, RequiredMessage))
    else if Truthy(r.userType) && !OneOf(r.userType, ["owner", "admin"]) then Some(Failure(400, TypeMessage))
    else if TooShort(r.password) then Some(Failure(400, PasswordMessage))
    else if !PhonePattern(ToText(r.phoneNumber, numberText)) then Some(Failure(400, PhoneMessage))
    else if existing.Some? then Some(Failure(409, DuplicateField(existing.value, r.username) + " already exists"))
    else None
  }

  /**
   * After the guards: hash the password, build and save the user, build and
   * save the default store, sign the token. A ValidationError of either
   * save is a 400, a duplicate key (error 11000) a 409 named after the key,
   * and any other throw a 500.
   */
  function Persist(
    r: Request, hash: Json -> Option<string>,
    userId: string, storeId: string, now: Time, numberText: real -> string, sign: TokenClaims -> string,
    indexes: UniqueIndexes): (o: OnboardOutcome)
    ensures o.Registered? ==> && ValidUser(o.user) && o.user.id == userId && o.user.status == Active
                              && o.store.id == storeId && o.store.ownerId == userId
                              && indexes.user(o.user).None? && indexes.store(o.store).None?
    ensures o.Rejected? ==> o.failure.status == 400 || o.failure.status == 409
  {
    if hash(r.password).None? then InternalError
    // `trim` is a string method: any other username or phone number throws
    else if !r.username.Str? || !r.phoneNumber.Str? then InternalError
    else match TypeOf(r.userType)
      case None => Rejected(Failure(400, ValidationMessage))
      case Some(t) =>
        match NewUser(userId, Trim(r.username.s), Trim(r.phoneNumber.s), hash(r.password).value, t, now)
        case None => Rejected(Failure(400, ValidationMessage))
        case Some(u) =>
          match indexes.user(u)
          case Some(k) => Rejected(Failure(409, UserKeyName(k) + " already exists"))
          case None =>
            match StoreEmail(r.email, r.username.s, numberText)
            case None => Rejected(Failure(400, ValidationMessage))
            case Some(storeEmail) =>
              var s := DefaultStore(storeId, u.id, storeEmail, r.username.s + "'s Store", now);
              match indexes.store(s)
              case Some(k) => Rejected(Failure(409, StoreKeyName(k) + " already exists"))
              case None => Registered(u, s, sign(Claims(u, Some(storeId))))
  }

  function Register(
    r: Request, existing: Option<User>, hash: Json -> Option<string>,
    userId: string, storeId: string, now: Time, numberText: real -> string, sign: TokenClaims -> string,
    indexes: UniqueIndexes): OnboardOutcome
  {
    match Guard(r, existing, numberText)
    case Some(f) => Rejected(f)
    case None => Persist(r, hash, userId, storeId, now, numberText, sign, indexes)
  }

  /**
   * The handler. `body` is `None` when the request is not JSON; `existing`
   * is the user `findOne` finds by the trimmed username or phone number; `hash`
   * is `None` where hashing throws; `indexes` tells which inserts collide.
   */
  function Onboard(
    body: Option<Body>, existing: Option<User>, hash: Json -> Option<string>,
    userId: string, storeId: string, now: Time, numberText: real -> string, sign: TokenClaims -> string,
    indexes: UniqueIndexes): (o: OnboardOutcome)
    ensures o.Registered? ==> && body.Some? && existing.None? && ValidUser(o.user)
                              && o.user.id == userId && o.store.id == storeId && o.store.ownerId == userId
    ensures o.Rejected? ==> o.failure.status == 400 || o.failure.status == 409
  {
    if body.None? then InternalError
    else Register(Destructure(body.value), existing, hash, userId, storeId, now, numberText, sign, indexes)
  }

  /** What the store part of the response shows. */
  datatype StoreView = StoreView(id: string, displayName: string, description: string, email: string, logo: string, createdAt: Time)

  /** The 201 response's data: the user without its password, the store, and the token. */
  datatype Reply = Reply(user: UserView, store: StoreView, token: string)

  function RegisteredReply(u: User, s: Store, token: string): (r: Reply)
    ensures r.user == PublicView(u) && r.token == token
    ensures r.store.displayName == s.displayName && r.store.email == s.email && r.store.id == s.id
  {
    Reply(PublicView(u), StoreView(s.id, s.displayName, s.description, s.email, s.logo, s.createdAt), token)
  }

  // ----- properties -----

  /** The pattern in the regular expression's own terms: an optional `+`, then 1 to 16 digits, the first not zero. */
  lemma PhonePatternIff(s: string)
    ensures PhonePattern(s) <==> PhoneDigits(s) || (|s| > 0 && s[0] == '+' && PhoneDigits(s[1..]))
    ensures PhonePattern(s) ==> 1 <= |s| <= 17
  {
  }

  /** A phone number that matches the pattern has no white space, so trimming it changes nothing. */
  lemma PhoneIsTrimmed(s: string)
    requires PhonePattern(s)
    ensures Trim(s) == s
  {
    assert NoSpace(s) by {
      forall i | 0 <= i < |s|
        ensures !IsSpace(s[i])
      {
        if i > 0 || s[0] != '+' {
          assert IsDigit(s[i]);
        }
      }
    }
    TrimNoSpace(s);
  }

  /** What passing the guards tells of a request. */
  lemma GuardPassed(r: Request, existing: Option<User>, numberText: real -> string)
    requires Guard(r, existing, numberText).None?
    ensures Truthy(r.username) && Truthy(r.phoneNumber) && Truthy(r.password)
    ensures !Truthy(r.userType) || OneOf(r.userType, ["owner", "admin"])
    ensures !TooShort(r.password) && PhonePattern(ToText(r.phoneNumber, numberText))
    ensures existing.None?
  {
  }

  /** The required check runs first: a falsy username, phone number or password is reported whatever else the body holds. */
  lemma RequiredCheckedFirst(
    body: Body, existing: Option<User>, hash: Json -> Option<string>,
    userId: string, storeId: string, now: Time, numberText: real -> string, sign: TokenClaims -> string,
    indexes: UniqueIndexes)
    requires !Truthy(Field(body, "username")) || !Truthy(Field(body, "phoneNumber")) || !Truthy(Field(body, "password"))
    ensures Onboard(Some(body), existing, hash, userId, storeId, now, numberText, sign, indexes) == Rejected(Failure(400, RequiredMessage))
  {
  }

  /** What a successful save gives: the user, the default store and the token, from the request alone. */
  lemma PersistFacts(
    r: Request, hash: Json -> Option<string>,
    userId: string, storeId: string, now: Time, numberText: real -> string, sign: TokenClaims -> string,
    indexes: UniqueIndexes)
    requires Persist(r, hash, userId, storeId, now, numberText, sign, indexes).Registered?
    ensures var o := Persist(r, hash, userId, storeId, now, numberText, sign, indexes);
            && r.username.Str? && r.phoneNumber.Str? && hash(r.password).Some?
            && TypeOf(r.userType) == Some(o.user.userType)
            && NewUser(userId, Trim(r.username.s), Trim(r.phoneNumber.s), hash(r.password).value, o.user.userType, now) == Some(o.user)
            && StoreEmail(r.email, r.username.s, numberText) == Some(o.store.email)
            && o.store == DefaultStore(storeId, userId, o.store.email, r.username.s + "'s Store", now)
            && o.token == sign(Claims(o.user, Some(storeId)))
            && indexes.user(o.user).None? && indexes.store(o.store).None?
  {
  }

  /** The default business hours: every day of the week, open except on Sunday. */
  lemma OpenExceptSunday()
    ensures |DefaultBusinessHours| == 7
    ensures forall i :: 0 <= i < 7 ==> (DefaultBusinessHours[i].isOpen <==> DefaultBusinessHours[i].day != "Sunday")
  {
    var sunday := "Sunday";
    assert sunday[0] == 'S' && sunday[1] == 'u';
    forall i | 0 <= i < 6
      ensures DefaultBusinessHours[i].day != sunday
    {
      var d := DefaultBusinessHours[i].day;
      assert d[0] != 'S' || d[1] != 'u';
    }
  }

  /**
   * A registered user satisfies the schema. Its username is the trimmed
   * input, its phone number is the input exactly (the pattern admits no
   * white space), its password is the hash of the input, its status is
   * active, and its type is the one requested ("owner" when the field is
   * absent, as `Destructure` states).
   */
  lemma RegisteredUserIsValid(
    r: Request, hash: Json -> Option<string>,
    userId: string, storeId: string, now: Time, numberText: real -> string, sign: TokenClaims -> string,
    indexes: UniqueIndexes)
    requires Register(r, None, hash, userId, storeId, now, numberText, sign, indexes).Registered?
    ensures var u := Register(r, None, hash, userId, storeId, now, numberText, sign, indexes).user;
            && ValidUser(u)
            && u.id == userId && u.status == Active
            && r.username.Str? && u.username == Trim(r.username.s)
            && r.phoneNumber == Str(u.phoneNumber)
            && hash(r.password) == Some(u.password)
            && r.userType == Str(TypeText(u.userType))
  {
    assert Guard(r, None, numberText).None?;
    assert Register(r, None, hash, userId, storeId, now, numberText, sign, indexes) == Persist(r, hash, userId, storeId, now, numberText, sign, indexes);
    GuardPassed(r, None, numberText);
    PersistFacts(r, hash, userId, storeId, now, numberText, sign, indexes);
    var u := Persist(r, hash, userId, storeId, now, numberText, sign, indexes).user;
    assert r.phoneNumber.s == ToText(r.phoneNumber, numberText);
    UserOfPattern(userId, r.username.s, r.phoneNumber.s, hash(r.password).value, u.userType, now, u);
  }

  /** The user saved from a phone number that matches the pattern keeps it exactly. */
  lemma UserOfPattern(id: string, username: string, phone: string, password: string, userType: UserType, now: Time, u: User)
    requires PhonePattern(phone)
    requires NewUser(id, Trim(username), Trim(phone), password, userType, now) == Some(u)
    ensures ValidUser(u) && u.id == id && u.status == Active && u.userType == userType
    ensures u.username == Trim(username) && u.phoneNumber == phone && u.password == password
  {
    PhoneIsTrimmed(phone);
    TrimIdempotent(username);
    assert u.phoneNumber == Trim(Trim(phone));
  }

  /**
   * The default store: named after the raw username, owned by the new user,
   * with the supplied e-mail or one made from the username, open Monday to
   * Saturday and closed on Sunday; the token's claims carry the store id.
   */
  lemma RegisteredStore(
    r: Request, hash: Json -> Option<string>,
    userId: string, storeId: string, now: Time, numberText: real -> string, sign: TokenClaims -> string,
    indexes: UniqueIndexes)
    requires Register(r, None, hash, userId, storeId, now, numberText, sign, indexes).Registered?
    ensures var o := Register(r, None, hash, userId, storeId, now, numberText, sign, indexes);
            && r.username.Str?
            && o.store.displayName == r.username.s + "'s Store"
            && o.store.ownerId == userId && o.store.id == storeId
            && (!Truthy(r.email) ==> o.store.email == r.username.s + "@yourstore.com")
            && (r.email.Str? && r.email.s != "" ==> o.store.email == r.email.s)
            && |o.store.businessHours| == 7
            && (forall i :: 0 <= i < 7 ==> (o.store.businessHours[i].isOpen <==> o.store.businessHours[i].day != "Sunday"))
            && o.token == sign(TokenClaims(userId, o.user.username, TypeText(o.user.userType), Some(storeId)))
  {
    assert Guard(r, None, numberText).None?;
    PersistFacts(r, hash, userId, storeId, now, numberText, sign, indexes);
    OpenExceptSunday();
  }

  /**
   * An explicit `null` type is not defaulted: it skips the type check, as a
   * falsy value, and then fails the schema's required validator, where an
   * absent type would have registered an owner.
   */
  lemma NullTypeFailsValidation(
    r: Request, hash: Json -> Option<string>,
    userId: string, storeId: string, now: Time, numberText: real -> string, sign: TokenClaims -> string,
    indexes: UniqueIndexes)
    requires Register(r, None, hash, userId, storeId, now, numberText, sign, indexes).Registered?
    ensures Register(r.(userType := Null), None, hash, userId, storeId, now, numberText, sign, indexes) == Rejected(Failure(400, ValidationMessage))
  {
    GuardPassed(r, None, numberText);
    assert Guard(r.(userType := Null), None, numberText).None?;
  }

  /**
   * Once the fields pass, an existing user is a conflict named after the
   * username when it equals the requested one, and after the phone number
   * otherwise.
   */
  lemma ExistingUserConflict(r: Request, existing: User, numberText: real -> string)
    requires Guard(r, None, numberText).None?
    ensures var g := Guard(r, Some(existing), numberText);
            && g.Some? && g.value.status == 409
            && (r.username == Str(existing.username) ==> g.value.message == "Username already exists")
            && (r.username != Str(existing.username) ==> g.value.message == "Phone number already exists")
  {
    GuardPassed(r, None, numberText);
  }

  /**
   * The unique indexes decide what the guard's lookup cannot see: a request
   * that registers against one set of stored documents conflicts against
   * another exactly when the new user or its default store collides there,
   * the user's indexes checked first, with a 409 named after the colliding
   * key; otherwise it registers the same user and store.
   */
  lemma UniqueKeyConflict(
    r: Request, hash: Json -> Option<string>,
    userId: string, storeId: string, now: Time, numberText: real -> string, sign: TokenClaims -> string,
    indexes: UniqueIndexes, other: UniqueIndexes)
    requires Persist(r, hash, userId, storeId, now, numberText, sign, indexes).Registered?
    ensures var o := Persist(r, hash, userId, storeId, now, numberText, sign, indexes);
            var p := Persist(r, hash, userId, storeId, now, numberText, sign, other);
            && (other.user(o.user).Some? ==> p == Rejected(Failure(409, UserKeyName(other.user(o.user).value) + " already exists")))
            && (other.user(o.user).None? && other.store(o.store).Some? ==>
                  p == Rejected(Failure(409, StoreKeyName(other.store(o.store).value) + " already exists")))
            && (other.user(o.user).None? && other.store(o.store).None? ==> p == o)
  {
    PersistFacts(r, hash, userId, storeId, now, numberText, sign, indexes);
  }

  /** A body with no `type` field that registers registers an owner. */
  lemma AbsentTypeRegistersOwner(
    body: Body, hash: Json -> Option<string>,
    userId: string, storeId: string, now: Time, numberText: real -> string, sign: TokenClaims -> string,
    indexes: UniqueIndexes)
    requires Field(body, "type") == Undefined
    requires Onboard(Some(body), None, hash, userId, storeId, now, numberText, sign, indexes).Registered?
    ensures Onboard(Some(body), None, hash, userId, storeId, now, numberText, sign, indexes).user.userType == Owner
  {
    RegisteredUserIsValid(Destructure(body), hash, userId, storeId, now, numberText, sign, indexes);
  }

  /**
   * The lookup trims its filter, so a username padded in front with white
   * space finds the stored user; the strict comparison with the padded text
   * fails, and the conflict is named after the phone number. Any non-empty
   * prefix gives the same answer.
   */
  lemma PaddedUsernameNamesPhone(r: Request, existing: User, pad: string, numberText: real -> string)
    requires Guard(r, None, numberText).None?
    requires |pad| > 0 && r.username == Str(pad + existing.username)
    ensures Guard(r, Some(existing), numberText) == Some(Failure(409, "Phone number already exists"))
  {
    assert |pad + existing.username| > |existing.username|;
    ExistingUserConflict(r, existing, numberText);
  }

  /** The reply reveals nothing of the password: users that differ only in it give the same reply. */
  lemma ReplyHidesPassword(u: User, s: Store, token: string, other: string)
    ensures RegisteredReply(u.(password := other), s, token) == RegisteredReply(u, s, token)
  {
    PasswordNotExposed(u, other, None);
  }
}
