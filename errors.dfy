/**
 * The exception values of the backend and the handlers that turn them into
 * HTTP responses: `CustomException` and `UnexpectedException`
 * (src/util/base_exception.py), the user exceptions
 * (src/exception/user_exception.py) and the four handlers of
 * src/util/exception_handler.py.
 */
module Errors {
  import opened Wrappers
  import PyStr

  /** The three attributes every `CustomException` stores. */
  datatype CustomError = CustomError(status: int, detail: string, code: string)

  const DefaultStatus: int := 400
  const DefaultDetail: string := "에러 발생"
  const DefaultCode: string := "ERROR"

  /** `CustomException(status_code, detail, code)`; an omitted argument takes its default. */
  function NewCustom(status: Option<int>, detail: Option<string>, code: Option<string>): (r: CustomError)
    ensures status.Some? ==> r.status == status.value
    ensures detail.Some? ==> r.detail == detail.value
    ensures code.Some? ==> r.code == code.value
    ensures status.None? ==> r.status == 400
    ensures code.None? ==> r.code == "ERROR"
  {
    CustomError(status.GetOr(DefaultStatus), detail.GetOr(DefaultDetail), code.GetOr(DefaultCode))
  }

  /** With every argument omitted the exception is a 400 with code "ERROR"; given arguments are stored unchanged. */
  lemma CustomDefaults(status: int, detail: string, code: string)
    ensures NewCustom(None, None, None) == CustomError(400, "에러 발생", "ERROR")
    ensures NewCustom(Some(status), Some(detail), Some(code)) == CustomError(status, detail, code)
  {
  }

  const UnexpectedDefaultDetail: string := "예기치 못한 오류"

  /** `UnexpectedException(detail)`: always status 500 and code "UNEXPECTED_ERROR". */
  function NewUnexpected(detail: Option<string>): (e: CustomError)
    ensures e.status == 500 && e.code == "UNEXPECTED_ERROR"
    ensures e.detail == if detail.Some? then detail.value else "예기치 못한 오류"
  {
    NewCustom(Some(500), Some(detail.GetOr(UnexpectedDefaultDetail)), Some("UNEXPECTED_ERROR"))
  }

  /** The exception classes of src/exception/user_exception.py. */
  datatype UserExc =
    | DuplicateEmail | DuplicateNickname | DuplicatePhoneNum | InvalidCheckedPassword
    | Unauthorized | UserNotFound | TokenExpired | InvalidCredentials | IncorrectPassword
    | PasswordUnchanged | PasswordMismatch | PasswordLength
  {
    /** The last three constructors take no `detail` argument. */
    predicate TakesDetail() {
      !(PasswordUnchanged? || PasswordMismatch? || PasswordLength?)
    }
  }

  /** The status, default detail and code each user exception passes to `CustomException`; `None` for a code means the base default. */
  function UserTable(k: UserExc): (r: (int, string, Option<string>))
    ensures 400 <= r.0 < 500 && r.1 != []
    ensures r.0 == 409 <==> k in {DuplicateEmail, DuplicateNickname, DuplicatePhoneNum}
    ensures r.2.None? <==> !k.TakesDetail()
  {
    match k
    case DuplicateEmail => (409, "이미 사용 중인 이메일입니다", Some("EMAIL_CONFLICT"))
    case DuplicateNickname => (409, "이미 사용 중인 닉네임입니다", Some("NICKNAME_CONFLICT"))
    case DuplicatePhoneNum => (409, "이미 사용 중인 전화번호입니다", Some("PHONE_NUM_CONFLICT"))
    case InvalidCheckedPassword => (400, "비밀번호와 비밀번호 확인이 일치하지 않습니다", Some("PASSWORD_MISMATCH"))
    case Unauthorized => (401, "로그인이 필요합니다", Some("UNAUTHORIZED"))
    case UserNotFound => (404, "해당 유저를 찾을 수 없습니다", Some("USER_NOT_FOUND"))
    case TokenExpired => (401, "토큰이 유효하지 않거나 만료되었습니다", Some("TOKEN_EXPIRED"))
    case InvalidCredentials => (401, "이메일 또는 비밀번호가 잘못되었습니다", Some("INVALID_CREDENTIALS"))
    case IncorrectPassword => (401, "현재 비밀번호가 잘못되었습니다", Some("INCORRECT_PASSWORD"))
    case PasswordUnchanged => (400, "현재 비밀번호와 새 비밀번호가 같습니다.", None)
    case PasswordMismatch => (400, "변경할 비밀번호와 확인 비밀번호가 일치하지 않습니다.", None)
    case PasswordLength => (400, "비밀번호는 최소 8자에서 20자 사이여야 합니다.", None)
  }

  /** Constructing user exception `k`, with an explicit detail where its constructor accepts one. */
  function NewUserError(k: UserExc, detail: Option<string>): CustomError
    requires detail.Some? ==> k.TakesDetail()
  {
    var (status, defaultDetail, code) := UserTable(k);
    NewCustom(Some(status), Some(detail.GetOr(defaultDetail)), code)
  }

  /** The conflict exceptions are 409s with their own codes; the confirmation mismatch is a 400. */
  lemma ConflictAndMismatchCodes()
    ensures NewUserError(DuplicateEmail, None).status == 409 && NewUserError(DuplicateEmail, None).code == "EMAIL_CONFLICT"
    ensures NewUserError(DuplicateNickname, None).status == 409 && NewUserError(DuplicateNickname, None).code == "NICKNAME_CONFLICT"
    ensures NewUserError(DuplicatePhoneNum, None).status == 409 && NewUserError(DuplicatePhoneNum, None).code == "PHONE_NUM_CONFLICT"
    ensures NewUserError(InvalidCheckedPassword, None).status == 400 && NewUserError(InvalidCheckedPassword, None).code == "PASSWORD_MISMATCH"
    ensures NewUserError(UserNotFound, None).status == 404 && NewUserError(UserNotFound, None).code == "USER_NOT_FOUND"
  {
  }

  /** The four authentication failures are all 401, and no two of them share a code. */
  lemma AuthFailuresDistinct(a: UserExc, b: UserExc, da: Option<string>, db: Option<string>)
    requires a in {Unauthorized, TokenExpired, InvalidCredentials, IncorrectPassword}
    requires b in {Unauthorized, TokenExpired, InvalidCredentials, IncorrectPassword}
    requires da.Some? ==> a.TakesDetail()
    requires db.Some? ==> b.TakesDetail()
    ensures NewUserError(a, da).status == 401
    ensures a != b ==> NewUserError(a, da).code != NewUserError(b, db).code
  {
  }

  /** The password-change exceptions are 400s with their fixed detail and the base default code. */
  lemma PasswordRuleErrors(k: UserExc)
    requires !k.TakesDetail()
    ensures NewUserError(k, None).status == 400 && NewUserError(k, None).code == DefaultCode
    ensures NewUserError(k, None).detail == UserTable(k).1
  {
  }

  /** Which `CustomException` subclass an exception value was raised as. */
  datatype CustomClass = BaseClass | UnexpectedClass | UserClass(k: UserExc)

  /** Exception classes defined in files that are not part of this model; only their identity and detail are kept. */
  datatype ExternalClass =
    | AIService | AINullResponse | AIJsonDecode | InvalidAIRequest
    | SocialToken | SocialUserInfo | SocialSignup | InvalidState
    | IngredientNotFound | Database | CommitFailed

  /** The outcome of resolving the access token to a user (`get_user_by_token`, `get_user_by_access_token`),
      which is not part of this model: the exception it raised, or the user or `None` it returned. */
  datatype UserLookup<U> = Raised(e: Exc) | Returned(user: Option<U>)

  /** A raised Python exception. */
  datatype Exc =
    | Custom(cls: CustomClass, err: CustomError)
    | External(ext: ExternalClass, detail: Option<string>)
    | Http(status: int, message: string)
    | Builtin(name: string, message: string)

  /** The `AttributeError` Python raises when `owner` has no attribute `name`. */
  function MissingAttribute(owner: string, name: string): (e: Exc)
    ensures e.Builtin? && e.name == "AttributeError"
  {
    Builtin("AttributeError", "'" + owner + "' object has no attribute '" + name + "'")
  }

  /** `raise k()` for a user exception with its default detail. */
  function RaiseUser(k: UserExc): Exc {
    Custom(UserClass(k), NewUserError(k, None))
  }

  /** `raise UnexpectedException(detail=d)`. */
  function RaiseUnexpected(d: string): Exc {
    Custom(UnexpectedClass, NewUnexpected(Some(d)))
  }

  /** `str(e)`. The custom exceptions are built with keyword arguments only, so their `args` is empty and
      `str` gives ""; the external classes are taken to be built the same way. A Starlette
      `HTTPException` renders as "status: detail". */
  function Str(e: Exc): (r: string)
    ensures e.Custom? || e.External? ==> r == ""
    ensures e.Builtin? ==> r == e.message
    ensures e.Http? ==> |PyStr.IntToDecimal(e.status)| <= |r| && r[..|PyStr.IntToDecimal(e.status)|] == PyStr.IntToDecimal(e.status)
  {
    match e
    case Custom(_, _) => ""
    case External(_, _) => ""
    case Http(status, message) => PyStr.IntToDecimal(status) + ": " + message
    case Builtin(_, message) => message
  }

  /** The `detail` of a JSON error body. */
  datatype Detail = Text(text: string) | Pair(first: string, second: string) | ErrorList(errors: seq<string>)

  /** A JSON error body: `{"code", "detail"}` or `{"detail"}` alone. */
  datatype Body = CodeAndDetail(code: string, detail: Detail) | DetailOnly(detail: Detail)

  datatype Response = Response(status: int, body: Body)

  /** `custom_exception_handler`. */
  function CustomHandler(e: CustomError): (r: Response)
    ensures r.status == e.status
    ensures r.body.CodeAndDetail? && r.body.code == e.code && r.body.detail == Text(e.detail)
  {
    Response(e.status, CodeAndDetail(e.code, Text(e.detail)))
  }

  /** `http_exception_handler`. */
  function HttpHandler(status: int, message: string): (r: Response)
    ensures r.status == status && r.body == DetailOnly(Text(message))
  {
    Response(status, DetailOnly(Text(message)))
  }

  /** `validation_exception_handler`. */
  function ValidationHandler(errors: seq<string>): (r: Response)
    ensures r.status == 422 && r.body == DetailOnly(ErrorList(errors))
  {
    Response(422, DetailOnly(ErrorList(errors)))
  }

  /** What reaches `global_exception_handler`: a `GlobalException` (a class that is not part of this model, carrying the three custom fields) or anything else. */
  datatype Thrown = GlobalExc(g: CustomError) | OtherExc(e: Exc)

  const UnhandledDetail: string := "예기치 못한 오류가 발생"

  /** `global_exception_handler`. */
  function GlobalHandler(t: Thrown): (r: Response)
    ensures t.GlobalExc? ==> r == Response(t.g.status, CodeAndDetail(t.g.code, Text(t.g.detail)))
    ensures t.OtherExc? ==> r.status == 500 && r.body == CodeAndDetail("UNHANDLED_ERROR", Pair(UnhandledDetail, Str(t.e)))
  {
    match t
    case GlobalExc(g) => Response(g.status, CodeAndDetail(g.code, Text(g.detail)))
    case OtherExc(e) => Response(500, CodeAndDetail("UNHANDLED_ERROR", Pair(UnhandledDetail, Str(e))))
  }

  /** The response for a raised exception when each handler is registered for its class
      (`CustomException`, `HTTPException`, and `Exception` for the rest). The response to an
      exception of a class this model does not see depends on that class, so it is `None`. */
  function Respond(e: Exc): (r: Option<Response>)
    ensures r.Some? <==> !e.External?
    ensures e.Custom? ==> r == Some(CustomHandler(e.err))
    ensures e.Builtin? ==> r == Some(GlobalHandler(OtherExc(e)))
  {
    match e
    case Custom(_, err) => Some(CustomHandler(err))
    case Http(status, message) => Some(HttpHandler(status, message))
    case External(_, _) => None
    case Builtin(_, _) => Some(GlobalHandler(OtherExc(e)))
  }

  /** A custom or HTTP exception keeps its own status; anything else becomes a 500 whose detail is a pair, never plain text. */
  lemma RespondStatus(e: Exc)
    ensures e.Custom? ==> Respond(e).Some? && Respond(e).value.status == e.err.status && Respond(e).value.body.detail.Text?
    ensures e.Http? ==> Respond(e).Some? && Respond(e).value.status == e.status && Respond(e).value.body.DetailOnly?
    ensures e.Builtin? ==> Respond(e).Some? && Respond(e).value.status == 500 && Respond(e).value.body.detail.Pair?
  {
  }

  /** A user exception raised without a detail answers with the status, code and message of its row in the table. */
  lemma UserErrorResponse(k: UserExc)
    ensures Respond(RaiseUser(k)) == Some(Response(UserTable(k).0, CodeAndDetail(UserTable(k).2.GetOr(DefaultCode), Text(UserTable(k).1))))
  {
  }

  /** An `UnexpectedException` always answers 500 with code "UNEXPECTED_ERROR", whatever its detail. */
  lemma UnexpectedIs500(d: string)
    ensures Respond(RaiseUnexpected(d)) == Some(Response(500, CodeAndDetail("UNEXPECTED_ERROR", Text(d))))
  {
  }
}
