/**
 * src/service/user_service.py: password hashing and JWT handling as
 * function values constrained by axioms, the sign-up sequence over the user
 * repository, and log-in.
 *
 * bcrypt is the pair `hashpw`/`checkpw` (the salt is an input, since
 * `gensalt` is random); python-jose is the pair `sign`/`verify` with the
 * key fixed inside them. The clock is the parameter `now`, in seconds.
 */
module UserSvc {
  import opened Wrappers
  import opened Errors
  import opened Orm
  import opened UserRepo
  import Requests

  /** bcrypt's two entry points. */
  datatype Crypto = Crypto(hashpw: (string, string) -> string, checkpw: (string, string) -> bool)

  /** What bcrypt guarantees: a hash is 60 characters long and a value checks against its own hash. */
  ghost predicate BcryptAxioms(c: Crypto) {
    forall plain, salt :: |c.hashpw(plain, salt)| == 60 && c.checkpw(plain, c.hashpw(plain, salt))
  }

  /** `hash_value` (lines 25-30). */
  function HashValue(c: Crypto, plain: string, salt: string): (r: string)
    ensures BcryptAxioms(c) ==> |r| == 60 && c.checkpw(plain, r)
  {
    c.hashpw(plain, salt)
  }

  /** `verify_value` (lines 32-36). */
  function VerifyValue(c: Crypto, plain: string, hashed: string): (r: bool)
    ensures BcryptAxioms(c) && (exists salt :: hashed == c.hashpw(plain, salt)) ==> r
  {
    c.checkpw(plain, hashed)
  }

  /** A value always verifies against its own hash, and a hash never equals a plaintext of at most 20 characters. */
  lemma HashThenVerify(c: Crypto, plain: string, salt: string)
    requires BcryptAxioms(c)
    ensures VerifyValue(c, plain, HashValue(c, plain, salt))
    ensures |plain| <= 20 ==> HashValue(c, plain, salt) != plain
  {
  }

  /** The `sub` claim: a string, or (as the social sign-up passes a row key) an integer. */
  datatype Sub = SubText(text: string) | SubNumber(n: int)

  /** The claims of a token: `sub` (absent when `None`) and `exp` in seconds. */
  datatype Claims = Claims(sub: Option<Sub>, exp: int)

  /** python-jose with the secret key and HS256 fixed: `sign` encodes, `verify` checks signature and expiry and gives the claims back. */
  datatype Jwt = Jwt(sign: Claims -> string, verify: (string, int) -> Option<Claims>)

  /** A signed token verifies, with its own claims, up to and including its `exp` second (python-jose rejects it once `exp` is in the past), and not after. */
  ghost predicate JwtAxioms(j: Jwt) {
    forall c: Claims, now: int :: j.verify(j.sign(c), now) == if now <= c.exp then Some(c) else None
  }

  const TokenLifetime: int := 86400

  /** `create_jwt` (lines 38-46): `sub` and an `exp` one day from now. */
  function CreateJwt(j: Jwt, sub: Sub, now: int): (r: string)
    ensures JwtAxioms(j) ==> j.verify(r, now + TokenLifetime) == Some(Claims(Some(sub), now + TokenLifetime))
    ensures JwtAxioms(j) ==> j.verify(r, now + TokenLifetime + 1).None?
  {
    j.sign(Claims(Some(sub), now + TokenLifetime))
  }

  /** `jwt.decode`: besides signature and expiry, a present `sub` that is not a string is a `JWTClaimsError`. */
  function JoseDecode(j: Jwt, token: string, now: int): (r: Option<Claims>)
    ensures r.Some? ==> j.verify(token, now) == r && !(r.value.sub.Some? && r.value.sub.value.SubNumber?)
  {
    match j.verify(token, now)
    case None => None
    case Some(c) => if c.sub.Some? && c.sub.value.SubNumber? then None else Some(c)
  }

  const TokenExpiredError: Exc := RaiseUser(TokenExpired)

  /** `decode_jwt` (lines 48-61): the `sub` of a valid token; a missing `sub` or any `JWTError` is `TokenExpiredException`. */
  function DecodeJwt(j: Jwt, token: string, now: int): (r: Result<string, Exc>)
    ensures r.Err? ==> r.error == TokenExpiredError
    ensures r.Ok? ==> j.verify(token, now).Some? && j.verify(token, now).value.sub == Some(SubText(r.value))
    ensures j.verify(token, now).Some? && j.verify(token, now).value.sub.Some? && j.verify(token, now).value.sub.value.SubText? ==>
      r == Ok(j.verify(token, now).value.sub.value.text)
  {
    match JoseDecode(j, token, now)
    case None => Err(TokenExpiredError)
    case Some(c) =>
      match c.sub
      case None => Err(TokenExpiredError)
      case Some(s) => Ok(s.text)
  }

  /** A token made for an email decodes to that email for one day, and to `TokenExpiredException` from then on. */
  lemma JwtRoundTrip(j: Jwt, email: string, issued: int, now: int)
    requires JwtAxioms(j)
    ensures now <= issued + TokenLifetime ==> DecodeJwt(j, CreateJwt(j, SubText(email), issued), now) == Ok(email)
    ensures now > issued + TokenLifetime ==> DecodeJwt(j, CreateJwt(j, SubText(email), issued), now) == Err(TokenExpiredError)
  {
    var c := Claims(Some(SubText(email)), issued + TokenLifetime);
    assert j.verify(j.sign(c), now) == if now <= c.exp then Some(c) else None;
  }

  /** A token whose `sub` is an integer never decodes. */
  lemma NumericSubNeverDecodes(j: Jwt, n: int, issued: int, now: int)
    requires JwtAxioms(j)
    ensures DecodeJwt(j, CreateJwt(j, SubNumber(n), issued), now) == Err(TokenExpiredError)
  {
    var c := Claims(Some(SubNumber(n)), issued + TokenLifetime);
    assert j.verify(j.sign(c), now) == if now <= c.exp then Some(c) else None;
  }

  /** The exception classes `sign_up` re-raises unchanged (line 92). */
  predicate ReRaisedBySignUp(e: Exc) {
    e.Custom? && e.cls in {UserClass(DuplicateEmail), UserClass(DuplicateNickname), UserClass(InvalidCheckedPassword)}
  }

  /** Lines 92-96: what leaves `sign_up` when `e` is raised inside it. */
  function SignUpRaise(e: Exc): (r: Exc)
    ensures ReRaisedBySignUp(e) ==> r == e
    ensures !ReRaisedBySignUp(e) ==> r.Custom? && r.err.status == 500 && r.err.code == "UNEXPECTED_ERROR"
  {
    if ReRaisedBySignUp(e) then e else RaiseUnexpected("회원가입 중 예기치 못한 오류 발생: " + Str(e))
  }

  /** Lines 67-74: the checks before anything is written, in their order. */
  function SignUpChecks(rows: seq<User>, req: Requests.SignUpRequest, emailFault: DbFault, nicknameFault: DbFault): (r: Result<(), Exc>)
    ensures emailFault.NoFault? && TableValid(rows) && (exists u :: u in rows && u.email == req.email) ==>
      r == Err(RaiseUser(DuplicateEmail))
    ensures r.Ok? ==> forall u :: u in rows ==> u.email != req.email && u.nickname != req.nickname
    ensures r.Ok? ==> req.password == req.checkedPassword
  {
    match GetUserByField(rows, Email, req.email, emailFault)
    case Err(e) => Err(SignUpRaise(e))
    case Ok(Some(_)) => Err(RaiseUser(DuplicateEmail))
    case Ok(None) =>
      match GetUserByField(rows, Nickname, req.nickname, nicknameFault)
      case Err(e) => Err(SignUpRaise(e))
      case Ok(Some(_)) => Err(RaiseUser(DuplicateNickname))
      case Ok(None) =>
        if req.password != req.checkedPassword then Err(RaiseUser(InvalidCheckedPassword))
        else Ok(())
  }

  /** The order of the checks: a taken email is reported first, then a taken nickname, then the confirmation mismatch. */
  lemma SignUpCheckOrder(rows: seq<User>, req: Requests.SignUpRequest)
    requires TableValid(rows)
    ensures var r := SignUpChecks(rows, req, NoFault, NoFault);
      && ((exists u :: u in rows && u.email == req.email) ==> r == Err(RaiseUser(DuplicateEmail)))
      && ((forall u :: u in rows ==> u.email != req.email) && (exists u :: u in rows && u.nickname == req.nickname) ==>
            r == Err(RaiseUser(DuplicateNickname)))
      && ((forall u :: u in rows ==> u.email != req.email && u.nickname != req.nickname) && req.password != req.checkedPassword ==>
            r == Err(RaiseUser(InvalidCheckedPassword)))
      && ((forall u :: u in rows ==> u.email != req.email && u.nickname != req.nickname) && req.password == req.checkedPassword ==>
            r == Ok(()))
  {
  }

  /** The row `sign_up` asks to store: hashed password and hashed phone number, the other fields as given. */
  function SignUpDraft(c: Crypto, req: Requests.SignUpRequest, passwordSalt: string, phoneSalt: string): UserDraft {
    UserDraft(req.email, HashValue(c, req.password, passwordSalt), req.name, req.nickname, req.birth, req.gender,
              Some(HashValue(c, req.phoneNum, phoneSalt)), None, None)
  }

  /** Whether an exception is `InvalidCredentialsException`. */
  predicate IsInvalidCredentials(e: Exc) {
    e.Custom? && e.cls == UserClass(InvalidCredentials)
  }

  /** `UserService` with its repository and its cryptographic primitives. */
  class UserService {
    const repo: UserRepository
    const crypto: Crypto
    const jwt: Jwt

    constructor(repo: UserRepository, crypto: Crypto, jwt: Jwt)
      ensures this.repo == repo && this.crypto == crypto && this.jwt == jwt
    {
      this.repo := repo;
      this.crypto := crypto;
      this.jwt := jwt;
    }

    /** `sign_up` (lines 64-96). The salts stand for `gensalt()`; `now` is the row's creation time. */
    method SignUp(req: Requests.SignUpRequest, emailFault: DbFault, nicknameFault: DbFault,
                  passwordSalt: string, phoneSalt: string, now: int) returns (r: Result<User, Exc>)
      requires repo.Valid()
      modifies repo
      ensures repo.Valid()
      ensures var checks := SignUpChecks(old(repo.rows), req, emailFault, nicknameFault);
        checks.Err? ==> r == Err(checks.error) && repo.rows == old(repo.rows)
      ensures r.Ok? ==>
        && SignUpChecks(old(repo.rows), req, emailFault, nicknameFault).Ok?
        && r.value == Materialise(SignUpDraft(crypto, req, passwordSalt, phoneSalt), old(repo.nextId), now)
        && repo.rows == old(repo.rows) + [r.value]
      ensures r.Ok? ==>
        && r.value.password == crypto.hashpw(req.password, passwordSalt)
        && r.value.phoneNum == Some(crypto.hashpw(req.phoneNum, phoneSalt))
        && r.value.email == req.email && r.value.name == req.name && r.value.nickname == req.nickname
      ensures r.Err? && SignUpChecks(old(repo.rows), req, emailFault, nicknameFault).Ok? ==>
        r == Err(RaiseUnexpected("회원가입 중 예기치 못한 오류 발생: ")) && repo.rows == old(repo.rows)
      ensures SignUpChecks(old(repo.rows), req, emailFault, nicknameFault).Ok? ==>
        (r.Ok? <==> Admissible(old(repo.rows), Materialise(SignUpDraft(crypto, req, passwordSalt, phoneSalt), old(repo.nextId), now)))
    {
      var checks := SignUpChecks(repo.rows, req, emailFault, nicknameFault);
      if checks.Err? {
        return Err(checks.error);
      }
      var draft := SignUpDraft(crypto, req, passwordSalt, phoneSalt);
      var saved := repo.SaveUser(draft, now);
      if saved.Err? {
        assert saved.error == CommitFailedError && Str(saved.error) == "";
        assert !ReRaisedBySignUp(saved.error);
        assert "회원가입 중 예기치 못한 오류 발생: " + Str(saved.error) == "회원가입 중 예기치 못한 오류 발생: ";
        return Err(SignUpRaise(saved.error));
      }
      r := Ok(saved.value);
    }

    /** `log_in` as written (lines 98-113): every exception but `InvalidCheckedPasswordException` becomes an `UnexpectedException`, including the `InvalidCredentialsException` raised at line 102. */
    function LogIn(email: string, password: string, fault: DbFault, now: int): (r: Result<string, Exc>)
      reads repo
      ensures r.Ok? ==> exists u :: u in repo.rows && u.email == email && VerifyValue(crypto, password, u.password)
                          && r.value == CreateJwt(jwt, SubText(u.email), now)
      ensures fault.NoFault? && TableValid(repo.rows) ==>
        (r.Ok? <==> exists u :: u in repo.rows && u.email == email && VerifyValue(crypto, password, u.password))
      ensures r.Err? ==> r.error.Custom? && r.error.cls == UnexpectedClass
    {
      match Authenticate(repo.rows, crypto, email, password, fault)
      case Err(e) => Err(LogInRaise(e))
      case Ok(None) => Err(LogInRaise(RaiseUser(InvalidCredentials)))
      case Ok(Some(u)) => Ok(CreateJwt(jwt, SubText(u.email), now))
    }

    /** `log_in` as its callers expect it: bad credentials answer 401 with `InvalidCredentialsException`. */
    function LogInIntended(email: string, password: string, fault: DbFault, now: int): (r: Result<string, Exc>)
      reads repo
      ensures r.Ok? ==> exists u :: u in repo.rows && u.email == email && VerifyValue(crypto, password, u.password)
                          && r.value == CreateJwt(jwt, SubText(u.email), now)
      ensures fault.NoFault? && TableValid(repo.rows) ==>
        (r.Ok? <==> exists u :: u in repo.rows && u.email == email && VerifyValue(crypto, password, u.password))
      ensures fault.NoFault? && TableValid(repo.rows) && r.Err? ==> r.error == RaiseUser(InvalidCredentials)
    {
      match Authenticate(repo.rows, crypto, email, password, fault)
      case Err(e) => Err(LogInRaise(e))
      case Ok(None) => Err(RaiseUser(InvalidCredentials))
      case Ok(Some(u)) => Ok(CreateJwt(jwt, SubText(u.email), now))
    }
  }

  /** Lines 100-102: the user with that email whose stored hash the password verifies against; `None` for an unknown email or a wrong password. */
  function Authenticate(rows: seq<User>, c: Crypto, email: string, password: string, fault: DbFault): (r: Result<Option<User>, Exc>)
    ensures r.Ok? ==> fault.NoFault?
    ensures r.Ok? && r.value.Some? ==> r.value.value in rows && r.value.value.email == email && VerifyValue(c, password, r.value.value.password)
    ensures fault.NoFault? && TableValid(rows) ==>
      r.Ok? && (r.value.Some? <==> exists u :: u in rows && u.email == email && VerifyValue(c, password, u.password))
  {
    match GetUserByField(rows, Email, email, fault)
    case Err(e) => Err(e)
    case Ok(None) => Ok(None)
    case Ok(Some(v)) =>
      if VerifyValue(c, password, v.password) then Ok(Some(v))
      else
        assert TableValid(rows) ==> forall u :: u in rows && u.email == email ==> u == v by {
          if TableValid(rows) {
            forall u | u in rows && u.email == email ensures u == v {
              OneRowPerEmail(rows, u, v);
            }
          }
        }
        Ok(None)
  }

  /** Lines 109-113: only `InvalidCheckedPasswordException` leaves `log_in` unchanged. */
  function LogInRaise(e: Exc): (r: Exc)
    ensures e.Custom? && e.cls == UserClass(InvalidCheckedPassword) ==> r == e
    ensures !(e.Custom? && e.cls == UserClass(InvalidCheckedPassword)) ==> r == RaiseUnexpected("로그인 중 예기치 못한 오류 발생: " + Str(e))
  {
    if e.Custom? && e.cls == UserClass(InvalidCheckedPassword) then e
    else RaiseUnexpected("로그인 중 예기치 못한 오류 발생: " + Str(e))
  }

  /** An unknown email or a wrong password answers 500 as written, where the intended behaviour answers 401. */
  lemma BadCredentialsAnswer500(svc: UserService, email: string, password: string, now: int)
    requires TableValid(svc.repo.rows)
    requires forall u :: u in svc.repo.rows && u.email == email ==> !VerifyValue(svc.crypto, password, u.password)
    ensures Respond(svc.LogIn(email, password, NoFault, now).error)
      == Some(Response(500, CodeAndDetail("UNEXPECTED_ERROR", Text("로그인 중 예기치 못한 오류 발생: "))))
    ensures Respond(svc.LogInIntended(email, password, NoFault, now).error)
      == Some(Response(401, CodeAndDetail("INVALID_CREDENTIALS", Text(UserTable(InvalidCredentials).1))))
  {
    BadCredentialsRaise(svc, email, password, now);
    UnexpectedIs500("로그인 중 예기치 못한 오류 발생: ");
    UserErrorResponse(InvalidCredentials);
  }

  /** The exceptions behind those answers: `UnexpectedException` as written, `InvalidCredentialsException` as intended. */
  lemma BadCredentialsRaise(svc: UserService, email: string, password: string, now: int)
    requires TableValid(svc.repo.rows)
    requires forall u :: u in svc.repo.rows && u.email == email ==> !VerifyValue(svc.crypto, password, u.password)
    ensures svc.LogIn(email, password, NoFault, now) == Err(RaiseUnexpected("로그인 중 예기치 못한 오류 발생: "))
    ensures svc.LogInIntended(email, password, NoFault, now) == Err(RaiseUser(InvalidCredentials))
  {
    var e := RaiseUser(InvalidCredentials);
    assert Authenticate(svc.repo.rows, svc.crypto, email, password, NoFault) == Ok(None);
    assert "로그인 중 예기치 못한 오류 발생: " + Str(e) == "로그인 중 예기치 못한 오류 발생: ";
  }

  /** With the right password, log-in gives a token that decodes to the stored email for one day. */
  lemma LogInTokenDecodes(svc: UserService, email: string, password: string, now: int, later: int)
    requires JwtAxioms(svc.jwt)
    requires svc.LogIn(email, password, NoFault, now).Ok?
    requires now <= later <= now + TokenLifetime
    ensures DecodeJwt(svc.jwt, svc.LogIn(email, password, NoFault, now).value, later) == Ok(email)
  {
    var found := GetUserByField(svc.repo.rows, Email, email, NoFault);
    JwtRoundTrip(svc.jwt, found.value.value.email, now, later);
  }
}
