/**
 * `NaverAuthService.handle_callback` (src/service/auth/naver_auth_service.py,
 * lines 51-111): the OAuth callback that checks `state`, exchanges the code
 * for a token, reads the profile, and logs the user in or signs them up.
 *
 * The two HTTP exchanges with Naver are inputs: their replies are given,
 * already decoded, and the requests sent are returned so that their order
 * can be stated. `secrets.token_urlsafe` and `gensalt` are the inputs
 * `randomPassword` and `salt`; the formatted traceback is the input
 * `traceback`; `now` is the clock.
 */
module NaverAuth {
  import opened Wrappers
  import opened PyStr
  import opened Errors
  import opened Orm
  import opened UserRepo
  import opened UserSvc
  import opened SocialState
  import opened NaverBirth

  const Platform: string := "naver"

  /** Where a successful callback sends the browser, followed by the token. */
  const SuccessPrefix: string := "http://프론트엔드서버/auth/success?token="

  function SuccessUrl(token: string): string {
    SuccessPrefix + token
  }

  /** The profile fields the callback reads; `None` is an absent or null field, and a reply without `response` has every field `None`. */
  datatype NaverProfile = NaverProfile(
    id: Option<string>, name: Option<string>, gender: Option<string>,
    birthyear: Option<string>, birthday: Option<string>)

  /** Python truthiness of a string field: present and non-empty. */
  predicate Present(f: Option<string>) {
    f.Some? && f.value != []
  }

  /** The requests the callback sends: the token exchange and the profile request with the access token it got (`None` when the reply had none). */
  datatype NaverCall = TokenRequest(code: string, state: string) | ProfileRequest(accessToken: Option<string>)

  /** The token endpoint's reply: a network failure or a status and the `access_token` of the decoded body. */
  datatype TokenReply = TokenNetworkError(message: string) | TokenAnswer(status: int, accessToken: Option<string>)

  /** The profile endpoint's reply: a network failure or a status and the decoded profile. */
  datatype ProfileReply = ProfileNetworkError(message: string) | ProfileAnswer(status: int, profile: NaverProfile)

  /** An `httpx` transport error, which `handle_callback` does not catch. */
  function NetworkFailure(message: string): Exc {
    Builtin("httpx.RequestError", message)
  }

  /** `get_token` then `get_user_info` (lines 30-49, 54-55): the profile, or the exception, and the requests sent. */
  function Exchange(code: string, state: string, token: TokenReply, info: ProfileReply): (r: (Result<NaverProfile, Exc>, seq<NaverCall>))
    ensures |r.1| >= 1 && r.1[0] == TokenRequest(code, state)
    ensures token.TokenAnswer? && token.status != 200 ==> r == (Err(External(SocialToken, None)), [TokenRequest(code, state)])
    ensures token.TokenAnswer? && token.status == 200 ==>
      r.1 == [TokenRequest(code, state), ProfileRequest(token.accessToken)]
    ensures token.TokenAnswer? && token.status == 200 && info.ProfileAnswer? && info.status != 200 ==>
      r.0 == Err(External(SocialUserInfo, None))
    ensures r.0.Ok? <==> token.TokenAnswer? && token.status == 200 && info.ProfileAnswer? && info.status == 200
    ensures r.0.Ok? ==> r.0.value == info.profile
    ensures token.TokenNetworkError? ==> r == (Err(NetworkFailure(token.message)), [TokenRequest(code, state)])
    ensures token.TokenAnswer? && token.status == 200 && info.ProfileNetworkError? ==> r.0 == Err(NetworkFailure(info.message))
  {
    var first := TokenRequest(code, state);
    match token
    case TokenNetworkError(m) => (Err(NetworkFailure(m)), [first])
    case TokenAnswer(status, accessToken) =>
      if status != 200 then (Err(External(SocialToken, None)), [first])
      else
        var sent := [first, ProfileRequest(accessToken)];
        match info
        case ProfileNetworkError(m) => (Err(NetworkFailure(m)), sent)
        case ProfileAnswer(st, profile) =>
          if st != 200 then (Err(External(SocialUserInfo, None)), sent) else (Ok(profile), sent)
  }

  /** Lines 65-67: the upper-cased Naver gender mapped onto the `users.gender` values, with "Female" for anything else. */
  function NaverGender(g: Option<string>): (r: string)
    ensures r in {"male", "female", "Female"}
    ensures r == "male" <==> g.Some? && Upper(g.value) == "M"
    ensures r == "female" <==> g.Some? && Upper(g.value) == "F"
  {
    var raw := if g.Some? then Upper(g.value) else "";
    if raw == "M" then "male" else if raw == "F" then "female" else "Female"
  }

  /** Only "M", "m", "F" and "f" give a gender the `users` table accepts. */
  lemma {:induction false} GenderInEnum(g: Option<string>)
    ensures NaverGender(g) in Genders <==> g.Some? && g.value in {"M", "m", "F", "f"}
  {
    if g.Some? && |g.value| == 1 {
      assert Upper(g.value) == [UpperChar(g.value[0])];
      if g.value[0] == 'M' { assert g.value == "M"; }
      else if g.value[0] == 'm' { assert g.value == "m"; }
      else if g.value[0] == 'F' { assert g.value == "F"; }
      else if g.value[0] == 'f' { assert g.value == "f"; }
    }
  }

  /** The account a profile describes: the Naver id serves as the email. */
  datatype Account = Account(email: string, nickname: string, name: string, gender: string, birth: Date)

  /** Lines 57-80: the profile normalised, or `SocialUserInfoException`. */
  function Normalise(p: NaverProfile): (r: Result<Account, Exc>)
    ensures r.Ok? <==> Present(p.id) && BirthDate(p.birthyear, p.birthday).Ok?
    ensures !Present(p.id) ==> r == Err(External(SocialUserInfo, None))
    ensures Present(p.id) && BirthDate(p.birthyear, p.birthday).Err? ==>
      r == Err(External(SocialUserInfo, Some("생년월일 처리 실패: " + Message(BirthDate(p.birthyear, p.birthday).error))))
    ensures r.Ok? ==>
      && r.value.email == p.id.value
      && r.value.nickname == "n_" + p.id.value
      && r.value.name == (if Present(p.name) then p.name.value else "n_" + p.id.value)
      && r.value.gender == NaverGender(p.gender)
      && r.value.birth == BirthDate(p.birthyear, p.birthday).value
      && ValidDate(r.value.birth)
  {
    if !Present(p.id) then Err(External(SocialUserInfo, None))
    else
      var id := p.id.value;
      var nickname := "n_" + id;
      match BirthDate(p.birthyear, p.birthday)
      case Err(e) => Err(External(SocialUserInfo, Some("생년월일 처리 실패: " + Message(e))))
      case Ok(birth) =>
        Ok(Account(id, nickname, if Present(p.name) then p.name.value else nickname, NaverGender(p.gender), birth))
  }

  /** Lines 94-103: the row asked for; the phone number is null and the account is marked as a Naver one. */
  function NaverDraft(a: Account, hashed: string): (d: UserDraft)
    ensures d.password == hashed && d.phoneNum.None? && d.socialAuth == Some("naver") && d.status.None?
    ensures d.email == a.email && d.name == a.name && d.nickname == a.nickname && d.birth == a.birth && d.gender == a.gender
  {
    UserDraft(a.email, hashed, a.name, a.nickname, a.birth, a.gender, None, Some(Platform), None)
  }

  /** What `self.user_service.<name>(plain)` does for a hashing call: `UserService` defines `hash_value` only. */
  function CallHasher(c: Crypto, name: string, plain: string, salt: string): (r: Result<string, Exc>)
    ensures r.Ok? <==> name == "hash_value"
    ensures r.Ok? ==> r.value == HashValue(c, plain, salt)
    ensures r.Err? ==> r.error == MissingAttribute("UserService", name)
  {
    if name == "hash_value" then Ok(HashValue(c, plain, salt))
    else Err(MissingAttribute("UserService", name))
  }

  /** Lines 109-111: any exception of the sign-up step, reported with its text and the traceback. */
  function SocialSignupError(e: Exc, traceback: string): (r: Exc)
    ensures r.External? && r.ext == SocialSignup && r.detail.Some?
    ensures var prefix := "네이버 회원가입 오류: ";
      |prefix| <= |r.detail.value| && r.detail.value[..|prefix|] == prefix
  {
    External(SocialSignup, Some("네이버 회원가입 오류: " + Str(e) + "\n" + traceback))
  }

  /** Lines 90-111 on the table: the result, the rows and the next key after the sign-up step, given what the hashing call gave. */
  function SignUpOutcome(rows: seq<User>, nextId: int, a: Account, hashed: Result<string, Exc>, j: Jwt, traceback: string, now: int)
    : (o: (Result<string, Exc>, seq<User>, int))
    ensures o.0.Err? ==> o.0.error.External? && o.0.error.ext == SocialSignup && o.1 == rows && o.2 == nextId
    ensures o.0.Ok? <==> hashed.Ok? && Admissible(rows, Materialise(NaverDraft(a, hashed.value), nextId, now))
    ensures o.0.Ok? ==>
      var u := Materialise(NaverDraft(a, hashed.value), nextId, now);
      o == (Ok(SuccessUrl(CreateJwt(j, SubNumber(nextId), now))), rows + [u], nextId + 1)
  {
    if hashed.Err? then (Err(SocialSignupError(hashed.error, traceback)), rows, nextId)
    else
      var u := Materialise(NaverDraft(a, hashed.value), nextId, now);
      if Admissible(rows, u) then (Ok(SuccessUrl(CreateJwt(j, SubNumber(u.id), now))), rows + [u], nextId + 1)
      else (Err(SocialSignupError(CommitFailedError, traceback)), rows, nextId)
  }

  /** Lines 82-111 on the table: log in the account whose email is the Naver id, or sign it up; the result,
      the rows and the next key. */
  function LogInOrSignUp(rows: seq<User>, nextId: int, c: Crypto, j: Jwt, a: Account, fault: DbFault,
                         randomPassword: string, salt: string, traceback: string, now: int)
    : (o: (Result<string, Exc>, seq<User>, int))
    ensures o.1 == rows || (|o.1| == |rows| + 1 && o.1[..|rows|] == rows)
    ensures GetUserByField(rows, Email, a.email, fault).Err? ==>
      o == (Err(GetUserByField(rows, Email, a.email, fault).error), rows, nextId)
    ensures GetUserByField(rows, Email, a.email, fault).Ok? && GetUserByField(rows, Email, a.email, fault).value.Some? ==>
      o == (Ok(SuccessUrl(CreateJwt(j, SubText(a.email), now))), rows, nextId)
  {
    match GetUserByField(rows, Email, a.email, fault)
    case Err(e) => (Err(e), rows, nextId)
    case Ok(Some(u)) => (Ok(SuccessUrl(CreateJwt(j, SubText(u.email), now))), rows, nextId)
    case Ok(None) =>
      var signed := SignUpOutcome(rows, nextId, a, CallHasher(c, "hash_value", randomPassword, salt), j, traceback, now);
      assert signed.1[..|rows|] == rows;
      signed
  }

  /** Everything a callback changes or produces. */
  datatype Outcome = Outcome(result: Result<string, Exc>, entries: Entries, rows: seq<User>, nextId: int, sent: seq<NaverCall>)

  /** `handle_callback` on the state store and the users table, with the sign-up step hashing through `hash_value`. */
  function Callback(entries: Entries, rows: seq<User>, nextId: int, c: Crypto, j: Jwt,
                    code: string, state: string, token: TokenReply, info: ProfileReply, fault: DbFault,
                    randomPassword: string, salt: string, traceback: string, now: int): (o: Outcome)
    ensures o.entries == Validated(entries, Platform, state, now).1
    ensures o.result.Ok? ==> token.TokenAnswer? && o.sent == [TokenRequest(code, state), ProfileRequest(token.accessToken)]
    ensures o.rows == rows || (|o.rows| == |rows| + 1 && o.rows[..|rows|] == rows)
  {
    var checked := Validated(entries, Platform, state, now);
    if checked.0.Err? then Outcome(Err(checked.0.error), checked.1, rows, nextId, [])
    else
      var exchanged := Exchange(code, state, token, info);
      var sent := exchanged.1;
      if exchanged.0.Err? then Outcome(Err(exchanged.0.error), checked.1, rows, nextId, sent)
      else
        match Normalise(exchanged.0.value)
        case Err(e) => Outcome(Err(e), checked.1, rows, nextId, sent)
        case Ok(a) =>
          var done := LogInOrSignUp(rows, nextId, c, j, a, fault, randomPassword, salt, traceback, now);
          Outcome(done.0, checked.1, done.1, done.2, sent)
  }

  /** `NaverAuthService`: the shared `state` logic for platform "naver", the users table and the user service's primitives. */
  class NaverAuthService {
    const auth: SocialAuthService
    const users: UserRepository
    const crypto: Crypto
    const jwt: Jwt

    constructor(store: KeyValueStore, users: UserRepository, crypto: Crypto, jwt: Jwt)
      ensures auth.platform == Platform && auth.store == store
      ensures this.users == users && this.crypto == crypto && this.jwt == jwt
    {
      auth := new SocialAuthService(Platform, store);
      this.users := users;
      this.crypto := crypto;
      this.jwt := jwt;
    }

    /** `handle_callback`, returning the redirect URL or the exception, and the requests sent to Naver. */
    method HandleCallback(code: string, state: string, token: TokenReply, info: ProfileReply, fault: DbFault,
                          randomPassword: string, salt: string, traceback: string, now: int)
      returns (r: Result<string, Exc>, sent: seq<NaverCall>)
      requires auth.platform == Platform && users.Valid()
      modifies auth.store, users
      ensures users.Valid()
      ensures var o := Callback(old(auth.store.entries), old(users.rows), old(users.nextId), crypto, jwt,
                                code, state, token, info, fault, randomPassword, salt, traceback, now);
        r == o.result && sent == o.sent
        && auth.store.entries == o.entries && users.rows == o.rows && users.nextId == o.nextId
    {
      var checked := auth.ValidateState(state, now);
      if checked.Err? {
        return Err(checked.error), [];
      }
      var exchanged := Exchange(code, state, token, info);
      sent := exchanged.1;
      if exchanged.0.Err? {
        return Err(exchanged.0.error), sent;
      }
      var account := Normalise(exchanged.0.value);
      if account.Err? {
        return Err(account.error), sent;
      }
      r := LogInOrSignUpOnTable(account.value, fault, randomPassword, salt, traceback, now);
    }

    /** Lines 82-111 on the users table. */
    method LogInOrSignUpOnTable(a: Account, fault: DbFault, randomPassword: string, salt: string, traceback: string, now: int)
      returns (r: Result<string, Exc>)
      requires users.Valid()
      modifies users
      ensures users.Valid()
      ensures (r, users.rows, users.nextId)
        == LogInOrSignUp(old(users.rows), old(users.nextId), crypto, jwt, a, fault, randomPassword, salt, traceback, now)
    {
      var found := users.GetUserByEmail(a.email, fault);
      if found.Err? {
        return Err(found.error);
      }
      if found.value.Some? {
        return Ok(SuccessUrl(CreateJwt(jwt, SubText(found.value.value.email), now)));
      }
      var hashed := CallHasher(crypto, "hash_value", randomPassword, salt);
      var saved := users.SaveUser(NaverDraft(a, hashed.value), now);
      if saved.Err? {
        return Err(SocialSignupError(saved.error, traceback));
      }
      r := Ok(SuccessUrl(CreateJwt(jwt, SubNumber(saved.value.id), now)));
    }
  }

  /** Line 52: a state that does not validate ends the callback before any request to Naver and before the table is read. */
  lemma StateCheckedFirst(entries: Entries, rows: seq<User>, nextId: int, c: Crypto, j: Jwt,
                          code: string, state: string, token: TokenReply, info: ProfileReply, fault: DbFault,
                          pw: string, salt: string, tb: string, now: int)
    requires Lookup(entries, StateKey(Platform, state), now).None?
    ensures Callback(entries, rows, nextId, c, j, code, state, token, info, fault, pw, salt, tb, now)
      == Outcome(Err(External(InvalidState, None)), entries, rows, nextId, [])
  {
  }

  /** A profile without an id ends the callback with `SocialUserInfoException` and writes nothing. */
  lemma MissingIdFails(entries: Entries, rows: seq<User>, nextId: int, c: Crypto, j: Jwt,
                       code: string, state: string, accessToken: Option<string>, p: NaverProfile, fault: DbFault,
                       pw: string, salt: string, tb: string, now: int)
    requires Validated(entries, Platform, state, now).0.Ok?
    requires !Present(p.id)
    ensures var o := Callback(entries, rows, nextId, c, j, code, state, TokenAnswer(200, accessToken), ProfileAnswer(200, p),
                              fault, pw, salt, tb, now);
      o.result == Err(External(SocialUserInfo, None)) && o.rows == rows
  {
  }

  /** Lines 82-87: a profile whose id is already an account's email logs that account in. */
  lemma ExistingUserLogsIn(entries: Entries, rows: seq<User>, nextId: int, c: Crypto, j: Jwt,
                           code: string, state: string, accessToken: Option<string>, p: NaverProfile,
                           pw: string, salt: string, tb: string, now: int, u: User)
    requires TableValid(rows)
    requires Validated(entries, Platform, state, now).0.Ok?
    requires Normalise(p).Ok? && u in rows && u.email == p.id.value
    ensures var o := Callback(entries, rows, nextId, c, j, code, state, TokenAnswer(200, accessToken), ProfileAnswer(200, p),
                              NoFault, pw, salt, tb, now);
      o.result == Ok(SuccessUrl(CreateJwt(j, SubText(p.id.value), now))) && o.rows == rows && o.nextId == nextId
  {
    var found := GetUserByField(rows, Email, p.id.value, NoFault);
    OneRowPerEmail(rows, u, found.value.value);
  }

  /**
   * Lines 89-107: an unknown id whose row the table accepts is signed up as a
   * Naver account, with the nickname "n_" + id, no phone number and a hashed
   * random password, and its token carries the new row's key.
   */
  lemma NewUserSignedUp(entries: Entries, rows: seq<User>, nextId: int, c: Crypto, j: Jwt,
                        code: string, state: string, accessToken: Option<string>, p: NaverProfile,
                        pw: string, salt: string, tb: string, now: int)
    requires TableValid(rows)
    requires Validated(entries, Platform, state, now).0.Ok?
    requires Normalise(p).Ok? && forall v :: v in rows ==> v.email != p.id.value
    requires Admissible(rows, Materialise(NaverDraft(Normalise(p).value, HashValue(c, pw, salt)), nextId, now))
    ensures var o := Callback(entries, rows, nextId, c, j, code, state, TokenAnswer(200, accessToken), ProfileAnswer(200, p),
                              NoFault, pw, salt, tb, now);
      && o.result == Ok(SuccessUrl(CreateJwt(j, SubNumber(nextId), now)))
      && |o.rows| == |rows| + 1 && o.rows[..|rows|] == rows
      && var u := o.rows[|rows|];
         u.email == p.id.value && u.nickname == "n_" + p.id.value && u.socialAuth == "naver"
         && u.phoneNum == None && u.password == HashValue(c, pw, salt) && u.id == nextId && u.status == "active"
  {
    var o := Callback(entries, rows, nextId, c, j, code, state, TokenAnswer(200, accessToken), ProfileAnswer(200, p),
                      NoFault, pw, salt, tb, now);
    assert o.rows[..|rows|] == rows;
  }

  /** A new user whose gender is neither "M" nor "F" gets "Female", which the table refuses: the sign-up fails and nothing is written. */
  lemma UnknownGenderCannotSignUp(entries: Entries, rows: seq<User>, nextId: int, c: Crypto, j: Jwt,
                                  code: string, state: string, accessToken: Option<string>, p: NaverProfile,
                                  pw: string, salt: string, tb: string, now: int)
    requires TableValid(rows)
    requires Validated(entries, Platform, state, now).0.Ok?
    requires Normalise(p).Ok? && forall v :: v in rows ==> v.email != p.id.value
    requires !(p.gender.Some? && p.gender.value in {"M", "m", "F", "f"})
    ensures var o := Callback(entries, rows, nextId, c, j, code, state, TokenAnswer(200, accessToken), ProfileAnswer(200, p),
                              NoFault, pw, salt, tb, now);
      o.result == Err(SocialSignupError(CommitFailedError, tb)) && o.rows == rows && o.nextId == nextId
  {
    GenderInEnum(p.gender);
  }

  /** A signed-up user's token carries an integer `sub`, so `decode_jwt` never accepts it. */
  lemma NewUserTokenRejected(entries: Entries, rows: seq<User>, nextId: int, c: Crypto, j: Jwt,
                             code: string, state: string, token: TokenReply, info: ProfileReply,
                             pw: string, salt: string, tb: string, now: int, later: int)
    requires JwtAxioms(j)
    requires var o := Callback(entries, rows, nextId, c, j, code, state, token, info, NoFault, pw, salt, tb, now);
      |o.rows| > |rows|
    ensures var o := Callback(entries, rows, nextId, c, j, code, state, token, info, NoFault, pw, salt, tb, now);
      o.result == Ok(SuccessUrl(CreateJwt(j, SubNumber(nextId), now)))
      && DecodeJwt(j, CreateJwt(j, SubNumber(nextId), now), later) == Err(TokenExpiredError)
  {
    NumericSubNeverDecodes(j, nextId, now, later);
  }

  /**
   * Line 92 as written calls `self.user_service.hash_password`, which
   * `UserService` does not define: the sign-up step of every new Naver user
   * ends in `SocialSignupException` and writes nothing.
   */
  lemma NaverSignUpAsWritten(rows: seq<User>, nextId: int, a: Account, c: Crypto, j: Jwt, pw: string, salt: string, tb: string, now: int)
    ensures SignUpOutcome(rows, nextId, a, CallHasher(c, "hash_password", pw, salt), j, tb, now)
      == (Err(SocialSignupError(MissingAttribute("UserService", "hash_password"), tb)), rows, nextId)
  {
  }
}
