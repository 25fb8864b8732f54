/**
 * `POST /api/auth/signin`: a username or a phone number and a password in,
 * the user's public view and a signed token out. The stored users are a
 * sequence in the order the database returns them; the password comparison
 * and the token signer are parameters.
 */
module SigninRoute {
  import opened Wrappers
  import opened JsText
  import opened JsonBody
  import opened UserSchema

  const RequiredMessage: string := "Username/phone and password are required"
  const CredentialsMessage: string := "Invalid credentials"
  const JsonMessage: string := "Invalid JSON format"

  /** The lookup condition: the identifier is the username or the phone number. */
  predicate Identifies(u: User, identifier: string) {
    u.username == identifier || u.phoneNumber == identifier
  }

  /** `findOne({ $or: [{ username }, { phoneNumber }] })`: the position of the first user the identifier names. */
  function FirstMatch(users: seq<User>, identifier: string): (r: Option<nat>)
    ensures r.Some? ==> r.value < |users| && Identifies(users[r.value], identifier)
    ensures r.Some? ==> forall j :: 0 <= j < r.value ==> !Identifies(users[j], identifier)
    ensures r.None? <==> forall j :: 0 <= j < |users| ==> !Identifies(users[j], identifier)
  {
    if users == [] then None
    else if Identifies(users[0], identifier) then Some(0)
    else
      match FirstMatch(users[1..], identifier)
      case None => None
      case Some(k) => Some(k + 1)
  }

  datatype SigninOutcome =
    | SignedIn(user: UserView, token: string)
    | Rejected(failure: Failure)
    /** The 500 "Internal server error" of the `catch`. */
    | InternalError

  /** The lookup of the trimmed identifier and the password comparison. */
  function Lookup(identifier: string, password: Json, users: seq<User>, matches: (Json, string) -> Option<bool>, sign: TokenClaims -> string): SigninOutcome {
    match FirstMatch(users, identifier)
    case None => Rejected(Failure(401, CredentialsMessage))
    case Some(k) =>
      match matches(password, users[k].password)
      case None => InternalError
      case Some(false) => Rejected(Failure(401, CredentialsMessage))
      case Some(true) => SignedIn(PublicView(users[k]), sign(Claims(users[k], None)))
  }

  /** The handler once the body is parsed: the `username` and `password` fields. */
  function Authenticate(username: Json, password: Json, users: seq<User>, matches: (Json, string) -> Option<bool>, sign: TokenClaims -> string): SigninOutcome {
    if !Truthy(username) || !Truthy(password) then Rejected(Failure(400, RequiredMessage))
    // `trim` is a string method: any other identifier throws
    else if !username.Str? then InternalError
    else Lookup(Trim(username.s), password, users, matches, sign)
  }

  /**
   * The handler. `body` is `None` when the request is not JSON, which the
   * `catch` reports as a 400. `matches(password, hash)` is the password
   * comparison, `None` where it throws.
   */
  function Signin(body: Option<Body>, users: seq<User>, matches: (Json, string) -> Option<bool>, sign: TokenClaims -> string): (r: SigninOutcome)
    ensures r.SignedIn? ==>
              && body.Some? && Field(body.value, "username").Str?
              && var k := FirstMatch(users, Trim(Field(body.value, "username").s));
              && k.Some? && matches(Field(body.value, "password"), users[k.value].password) == Some(true)
              && r.user == PublicView(users[k.value]) && r.token == sign(Claims(users[k.value], None))
    ensures r.Rejected? ==> r.failure.status == 400 || r.failure.status == 401
  {
    if body.None? then Rejected(Failure(400, JsonMessage))
    else Authenticate(Field(body.value, "username"), Field(body.value, "password"), users, matches, sign)
  }

  // ----- properties -----

  /** A missing identifier or password is reported before any lookup, whatever the stored users. */
  lemma RequiredCheckedFirst(body: Body, users: seq<User>, matches: (Json, string) -> Option<bool>, sign: TokenClaims -> string)
    requires !Truthy(Field(body, "username")) || !Truthy(Field(body, "password"))
    ensures Signin(Some(body), users, matches, sign) == Rejected(Failure(400, RequiredMessage))
    ensures Signin(Some(body), users, matches, sign) == Signin(Some(body), [], matches, sign)
  {
  }

  /**
   * An unknown identifier and a wrong password fail alike: for a string
   * identifier and a truthy password, the answer is the one 401 exactly
   * when no user is named or the first user named has another password.
   */
  lemma UniformCredentialFailure(identifier: string, password: Json, users: seq<User>, matches: (Json, string) -> Option<bool>, sign: TokenClaims -> string)
    requires identifier != "" && Truthy(password)
    ensures var m := FirstMatch(users, Trim(identifier));
            Authenticate(Str(identifier), password, users, matches, sign) == Rejected(Failure(401, CredentialsMessage))
            <==> m.None? || matches(password, users[m.value].password) == Some(false)
  {
    StringLookup(identifier, password, users, matches, sign);
  }

  /**
   * A successful sign-in is for the first user the trimmed identifier names,
   * by username or phone number, whose password matches; the reply is that
   * user's public view and a token signed for it without a store id.
   */
  lemma SignedInIsFirstMatch(username: Json, password: Json, users: seq<User>, matches: (Json, string) -> Option<bool>, sign: TokenClaims -> string)
    requires Authenticate(username, password, users, matches, sign).SignedIn?
    ensures username.Str? && FirstMatch(users, Trim(username.s)).Some?
    ensures var o := Authenticate(username, password, users, matches, sign);
            var id := Trim(username.s);
            var k := FirstMatch(users, id).value;
            && k < |users| && Identifies(users[k], id)
            && (forall j :: 0 <= j < k ==> !Identifies(users[j], id))
            && matches(password, users[k].password) == Some(true)
            && o.user == PublicView(users[k])
            && o.token == sign(TokenClaims(users[k].id, users[k].username, TypeText(users[k].userType), None))
  {
    assert Truthy(username) && Truthy(password) && username.Str?;
    StringLookup(username.s, password, users, matches, sign);
    LookupSignedIn(Trim(username.s), password, users, matches, sign);
  }

  /** `SignedInIsFirstMatch` for the lookup. */
  lemma LookupSignedIn(id: string, password: Json, users: seq<User>, matches: (Json, string) -> Option<bool>, sign: TokenClaims -> string)
    requires Lookup(id, password, users, matches, sign).SignedIn?
    ensures FirstMatch(users, id).Some?
    ensures var k := FirstMatch(users, id).value;
            && matches(password, users[k].password) == Some(true)
            && Lookup(id, password, users, matches, sign) == SignedIn(PublicView(users[k]), sign(Claims(users[k], None)))
  {
  }

  /** The reply depends on a stored password only through the comparison. */
  lemma ReplyHidesStoredPassword(username: Json, password: Json, users: seq<User>, k: nat, other: string, matches: (Json, string) -> Option<bool>, sign: TokenClaims -> string)
    requires k < |users|
    requires matches(password, other) == matches(password, users[k].password)
    ensures Authenticate(username, password, users[k := users[k].(password := other)], matches, sign) == Authenticate(username, password, users, matches, sign)
  {
    var users' := users[k := users[k].(password := other)];
    if Truthy(username) && Truthy(password) && username.Str? {
      StringLookup(username.s, password, users, matches, sign);
      StringLookup(username.s, password, users', matches, sign);
      LookupHidesPassword(Trim(username.s), password, users, k, other, matches, sign);
    }
  }

  /** `ReplyHidesStoredPassword` for the lookup. */
  lemma LookupHidesPassword(id: string, password: Json, users: seq<User>, k: nat, other: string, matches: (Json, string) -> Option<bool>, sign: TokenClaims -> string)
    requires k < |users|
    requires matches(password, other) == matches(password, users[k].password)
    ensures Lookup(id, password, users[k := users[k].(password := other)], matches, sign) == Lookup(id, password, users, matches, sign)
  {
    var users' := users[k := users[k].(password := other)];
    forall j | 0 <= j < |users|
      ensures Identifies(users'[j], id) == Identifies(users[j], id)
    {
    }
    FirstMatchSameIdentities(users, users', id);
    var m := FirstMatch(users, id);
    if m.Some? {
      if m.value == k {
        PasswordNotExposed(users[k], other, None);
      } else {
        assert users'[m.value] == users[m.value];
      }
    }
  }

  /** The lookup sees users only through `Identifies`. */
  lemma {:induction false} FirstMatchSameIdentities(users: seq<User>, users': seq<User>, id: string)
    requires |users'| == |users|
    requires forall j :: 0 <= j < |users| ==> Identifies(users'[j], id) == Identifies(users[j], id)
    ensures FirstMatch(users', id) == FirstMatch(users, id)
    decreases |users|
  {
    if users != [] {
      assert Identifies(users'[0], id) == Identifies(users[0], id);
      FirstMatchSameIdentities(users[1..], users'[1..], id);
    }
  }

  /** Only the trimmed identifier matters: surrounding white space never changes the answer. */
  lemma IdentifierTrimmed(s: string, password: Json, users: seq<User>, matches: (Json, string) -> Option<bool>, sign: TokenClaims -> string)
    requires Trim(s) != ""
    ensures Authenticate(Str(s), password, users, matches, sign) == Authenticate(Str(Trim(s)), password, users, matches, sign)
  {
    var t := Trim(s);
    TrimIdempotent(s);
    assert |t| <= |s| by {
      TrimStartShape(s);
      TrimEndShape(TrimStart(s));
    }
    StringLookup(s, password, users, matches, sign);
    StringLookup(t, password, users, matches, sign);
  }

  /** A non-empty string identifier goes to the lookup, trimmed. */
  lemma StringLookup(s: string, password: Json, users: seq<User>, matches: (Json, string) -> Option<bool>, sign: TokenClaims -> string)
    requires s != ""
    ensures Authenticate(Str(s), password, users, matches, sign) == if Truthy(password) then Lookup(Trim(s), password, users, matches, sign) else Rejected(Failure(400, RequiredMessage))
  {
  }
}
