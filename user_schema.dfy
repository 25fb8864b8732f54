/**
 * The user document: a username and a phone number, both required, unique
 * and trimmed by the schema, a required (hashed) password, a status that
 * defaults to "active" and a type, "owner" or "admin", that defaults to
 * "owner", with the creation and update timestamps the schema adds. The
 * schema has no path for an e-mail address, so one given to the model is
 * dropped. Also the claims a signed token carries about a user, and the
 * password-free view of a user that the authentication routes return.
 */
module UserSchema {
  import opened Wrappers
  import opened JsText
  import opened LocalCalendar
  import opened JsonBody

  datatype UserType = Owner | Admin

  datatype UserStatus = Active | Inactive

  function TypeText(t: UserType): string {
    match t
    case Owner => "owner"
    case Admin => "admin"
  }

  function UserStatusText(s: UserStatus): string {
    match s
    case Active => "active"
    case Inactive => "inactive"
  }

  /**
   * The type a value gives the `type` path: only the two strings the enum
   * allows. Any other value, including the falsy ones, fails the required
   * or the enum validator.
   */
  function TypeOf(v: Json): (r: Option<UserType>)
    ensures r.Some? <==> OneOf(v, ["owner", "admin"])
    ensures r.Some? ==> v == Str(TypeText(r.value))
  {
    if v == Str("owner") then Some(Owner)
    else if v == Str("admin") then Some(Admin)
    else None
  }

  datatype User = User(
    id: string,
    username: string,
    phoneNumber: string,
    password: string,
    status: UserStatus,
    userType: UserType,
    createdAt: Time,
    updatedAt: Time)

  /** What the schema's trim setters and required validators guarantee of a stored user. */
  predicate ValidUser(u: User) {
    && u.username != "" && Trimmed(u.username)
    && u.phoneNumber != "" && Trimmed(u.phoneNumber)
    && u.password != ""
    && u.createdAt <= u.updatedAt
  }

  /**
   * `new UserModel({ username, phoneNumber, password, type })` saved at
   * `now`: username and phone trimmed, status defaulted, both timestamps
   * `now`. `None` is the ValidationError of a required validator.
   */
  function NewUser(id: string, username: string, phoneNumber: string, password: string, userType: UserType, now: Time): (r: Option<User>)
    ensures r.None? <==> Trim(username) == "" || Trim(phoneNumber) == "" || password == ""
    ensures r.Some? ==> ValidUser(r.value)
    ensures r.Some? ==> r.value == User(id, Trim(username), Trim(phoneNumber), password, Active, userType, now, now)
  {
    TrimmedIff(username);
    TrimmedIff(phoneNumber);
    if Trim(username) == "" || Trim(phoneNumber) == "" || password == "" then None
    else Some(User(id, Trim(username), Trim(phoneNumber), password, Active, userType, now, now))
  }

  /** The payload `generateToken` signs: id, username, type and the store id, if any. */
  datatype TokenClaims = TokenClaims(userId: string, username: string, userType: string, storeId: Option<string>)

  function Claims(u: User, storeId: Option<string>): (c: TokenClaims)
    ensures c.userId == u.id && c.username == u.username && c.storeId == storeId
    ensures TypeOf(Str(c.userType)) == Some(u.userType)
  {
    TokenClaims(u.id, u.username, TypeText(u.userType), storeId)
  }

  /** The user object the authentication routes return. */
  datatype UserView = UserView(id: string, username: string, phoneNumber: string, userType: string, createdAt: Time, updatedAt: Time)

  function PublicView(u: User): UserView {
    UserView(u.id, u.username, u.phoneNumber, TypeText(u.userType), u.createdAt, u.updatedAt)
  }

  /** Neither the returned view nor the signed claims depend on the password. */
  lemma PasswordNotExposed(u: User, other: string, storeId: Option<string>)
    ensures PublicView(u.(password := other)) == PublicView(u)
    ensures Claims(u.(password := other), storeId) == Claims(u, storeId)
    ensures PublicView(u).username == u.username && PublicView(u).phoneNumber == u.phoneNumber
    ensures TypeOf(Str(PublicView(u).userType)) == Some(u.userType)
  {
  }

  /** A user built from names that are already trimmed keeps them exactly. */
  lemma NewUserKeepsTrimmed(id: string, username: string, phoneNumber: string, password: string, userType: UserType, now: Time)
    requires username != "" && Trim(username) == username
    requires phoneNumber != "" && Trim(phoneNumber) == phoneNumber
    requires password != ""
    ensures NewUser(id, username, phoneNumber, password, userType, now) == Some(User(id, username, phoneNumber, password, Active, userType, now, now))
  {
  }
}
