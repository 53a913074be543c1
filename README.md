# KNUBOW backend: a Dafny model of its services

This project models the service layer of the KNUBOW backend, a FastAPI
application with the following parts:

- **Users.** Users sign up with e-mail and password, log in for a JWT, or
  arrive through Naver OAuth.
- **Recipes.** A user asks an AI model for recipes: a local Ollama server,
  falling back to the OpenAI API. Recipes can be saved and soft-deleted.
- **Ingredients.** A user keeps a list of ingredients.
- **Boards.** A user writes board posts whose images live in an S3 bucket.

## What the model contains

- **Storage.** Each database table is a sequence of rows inside a class
  that stands for its repository (`UserRepository`, `BoardRepository`,
  `IngredientRepository`, `RecipeRepository`). The repository methods update
  those rows in place. The Redis store of OAuth `state` values
  (`KeyValueStore`) and the S3 bucket (`ObjectStore`) are classes too.
- **Raised exceptions are values.** Every Python exception the services raise
  is a value of `Errors.Exc`. The four exception handlers turn these values
  into responses with a status and a JSON body.
- **I/O is an input.** Network replies, database faults, random values
  (`uuid4`, `token_urlsafe`, `gensalt`) and the clock `now` are parameters.
  A reply comes back as a datatype. Calls that send requests also return the
  requests they sent, so that the order of requests and the fallback rules
  can be stated.
- **Cryptography is a function value.** bcrypt and python-jose are function
  values, each constrained by an axiom predicate. `BcryptAxioms` says a value
  verifies against its own 60-character hash. `JwtAxioms` says a signed
  token verifies up to its `exp` second.
- **Python built-ins are written out.** The model writes out the
  string methods the services rely on (`strip`, `rstrip`, `split`, `zfill`,
  `upper`), the regular expression that finds a fenced JSON block in an AI
  reply, and `datetime.strptime` for `"%Y-%m-%d"`.

The model is as written in the repository, with two exceptions, both places
where the code calls something that does not exist. The Naver sign-up calls
`hash_password`, which `UserService` does not define. The ingredient service
reads `ingredient_name`, `category_id` and `purchase_date`, which
`IngredientRequest` does not declare. For each, the model keeps the
as-written behaviour as a separate member and proves its consequence, and
the rest of the model uses the evidently intended behaviour (see
"## Findings").

Three as-written behaviours stay in the main model:

- **Naver gender fallback.** A Naver profile whose gender is neither "M" nor
  "F" is given the gender "Female". The `users.gender` enum does not accept
  that value, so signing up such a user fails
  (`NaverAuth.UnknownGenderCannotSignUp`).
- **Numeric `sub` claim.** A Naver sign-up issues its token with the row's
  integer key as `sub`, and `decode_jwt` never accepts such a token
  (`NaverAuth.NewUserTokenRejected`).
- **Default ingredient list.** `get_food_recipe` takes a missing
  `use_ingredients` as `[]`, while its test expects such a request to be
  refused. `RecipeService.GetFoodRecipe` keeps the code's behaviour, and
  `RecipeService.GetFoodRecipeIntended` is the check the test describes.

| file | module | source |
|---|---|---|
| wrappers.dfy | Wrappers | `Option`, `Result` |
| text.dfy | PyStr | Python `str` methods used by the services |
| json.dfy | PyJson | decoded JSON values, truthiness, `dict.get`, `[0]` |
| errors.dfy | Errors | src/util/base_exception.py, src/exception/user_exception.py, src/util/exception_handler.py |
| requests.dfy | Requests | src/schema/request.py |
| orm.dfy | Orm | src/database/orm.py |
| user_repository.dfy | UserRepo | src/database/repository/user_repository.py |
| user_service.dfy | UserSvc | src/service/user_service.py |
| social_state.dfy | SocialState | src/service/auth/base_social_auth_service.py |
| birth_date.dfy | NaverBirth | src/service/auth/naver_auth_service.py (birth date) |
| naver_auth.dfy | NaverAuth | src/service/auth/naver_auth_service.py |
| recipe_service.dfy | RecipeService | src/service/recipe_service.py |
| recipe_repository.dfy | RecipeRepo | src/database/repository/recipe_repository.py |
| ingredient_repository.dfy | IngredientRepo | src/database/repository/ingredient_repository.py |
| ingredient_service.dfy | IngredientSvc | src/service/ingredient_service.py |
| board_repository.dfy | BoardRepo | src/database/repository/board_repository.py |
| board_service.dfy | BoardSvc | src/service/board_service.py |

## Model

| member | source | states |
|---|---|---|
| PyStr.LStrip | src/service/recipe_service.py:81 | the left strip is a suffix of the text, no longer than it |
| PyStr.LStripDropsSpace | src/service/recipe_service.py:81 | everything the left strip removes is whitespace |
| PyStr.LStripHead | src/service/recipe_service.py:81 | a non-empty left strip starts with a non-space |
| PyStr.RStrip | src/service/recipe_service.py:81 | the right strip is a prefix of the text, no longer than it |
| PyStr.RStripDropsSpace | src/service/recipe_service.py:81 | everything the right strip removes is whitespace |
| PyStr.RStripLast | src/service/recipe_service.py:81 | a non-empty right strip ends in a non-space, and a text starting with a non-space never strips to empty |
| PyStr.StripShape | src/service/recipe_service.py:81 | `strip()` is empty exactly for all-space text; otherwise it is a slice that starts and ends with a non-space and has only whitespace around it |
| PyStr.StripSlice | src/service/recipe_service.py:81 | `strip()` is the slice between a whitespace prefix and a whitespace suffix |
| PyStr.StripEmpty | src/service/recipe_service.py:81 | an empty strip means the left strip already removed everything |
| PyStr.StripEnds | src/service/recipe_service.py:81 | a non-empty strip starts and ends with a non-space |
| PyStr.RStripChar | src/service/recipe_service.py:46 | `rstrip('/')` removes only trailing '/' characters and leaves no '/' at the end |
| PyStr.FindFrom | src/service/board_service.py:81 | `find` gives the leftmost occurrence at or after the start, and `None` only when there is none |
| PyStr.LastPiece | src/service/board_service.py:81 | `split(sep)[-1]` is a suffix of the text that does not contain the separator |
| PyStr.LastPieceNoSeparator | src/service/board_service.py:81 | a text without the separator is its own last piece |
| PyStr.IndexOf | src/service/auth/naver_auth_service.py:73 | the first occurrence of a character, with none before it |
| PyStr.Split | src/service/auth/naver_auth_service.py:73 | `split('-')` gives at least one piece, none containing '-', and exactly one when the text has no '-' |
| PyStr.SplitJoin | src/service/auth/naver_auth_service.py:73 | joining the pieces of `split(c)` with `c` gives the text back |
| PyStr.AroundIndex | src/service/auth/naver_auth_service.py:73 | a text splits into the part before an index, the character there and the rest |
| PyStr.Repeat | src/service/auth/naver_auth_service.py:73 | `n` copies of one character |
| PyStr.ZFill | src/service/auth/naver_auth_service.py:73 | `zfill(w)` leaves a text of width at least `w` alone and otherwise pads it to exactly `w` |
| PyStr.ZFillDigits | src/service/auth/naver_auth_service.py:73 | zero-padding a digit string keeps its value and gives it the padded width |
| PyStr.LeadingZeros | src/service/auth/naver_auth_service.py:73 | leading zeros do not change the value of a digit string |
| PyStr.ZerosValue | src/service/auth/naver_auth_service.py:73 | a run of zeros is worth 0 |
| PyStr.DigitChar | src/service/recipe_service.py:72-73 | the character of one decimal digit |
| PyStr.NatToDecimal | src/service/recipe_service.py:72-73 | `str(n)` is a non-empty digit string that reads back as `n` |
| PyStr.UpperChar | src/service/auth/naver_auth_service.py:65 | lower-case ASCII letters map to their upper case and every other character stays |
| PyStr.Upper | src/service/auth/naver_auth_service.py:65 | `upper()` maps every character by `UpperChar` and keeps the length |
| PyJson.Get | src/service/recipe_service.py:80-89 | `x.get(k, d)` succeeds exactly on a dict: the value under `k`, else the default; on anything else it is the `AttributeError` naming the value's type and `get` |
| PyJson.TypeName | src/service/recipe_service.py:80-89 | the Python type name: "dict", "list", "str" and "NoneType" name exactly the objects, arrays, strings and nulls |
| PyJson.First | src/service/recipe_service.py:143-148 | `x[0]` succeeds exactly on a non-empty list and gives its head; an empty list is "list index out of range", a dict the `KeyError` 0, and `None`, a bool or a number "not subscriptable" |
| Errors.NewCustom | src/util/base_exception.py:1-6 | a given status, detail or code is stored unchanged; an omitted status is 400 and an omitted code "ERROR" |
| Errors.CustomDefaults | src/util/base_exception.py:1-6 | omitted arguments give status 400, detail "에러 발생" and code "ERROR"; given arguments are stored unchanged |
| Errors.UserTable | src/exception/user_exception.py:3-48 | every user exception is a 4xx with a non-empty default detail; 409 exactly for the three duplicates; the base code exactly for the three password-rule exceptions that take no detail |
| Errors.NewUnexpected | src/util/base_exception.py:8-11 | `UnexpectedException` is always 500 with code "UNEXPECTED_ERROR" and the default detail when none is given |
| Errors.ConflictAndMismatchCodes | src/exception/user_exception.py:3-25 | duplicate e-mail, nickname and phone are 409s with their own codes; a confirmation mismatch is 400 and an unknown user 404 |
| Errors.AuthFailuresDistinct | src/exception/user_exception.py:19-37 | the four authentication failures are all 401 and no two share a code |
| Errors.PasswordRuleErrors | src/exception/user_exception.py:39-49 | the password-change exceptions are 400s with their fixed detail and the base code |
| Errors.MissingAttribute | src/service/ingredient_service.py:20-31 | a missing attribute raises `AttributeError` |
| Errors.CustomHandler | src/util/exception_handler.py:8-15 | a custom exception answers with its own status, and a body holding its code and detail |
| Errors.HttpHandler | src/util/exception_handler.py:17-21 | an HTTP exception answers with its status and a body holding only its detail |
| Errors.ValidationHandler | src/util/exception_handler.py:23-27 | a validation failure answers 422 with the list of errors |
| Errors.Str | src/util/exception_handler.py:37 | `str(exc)`: "" for the custom and external exceptions, which are built from keywords only; a built-in exception's message; an HTTP exception's text starts with its status |
| Errors.GlobalHandler | src/util/exception_handler.py:29-42 | a `GlobalException` keeps its fields; anything else answers 500 "UNHANDLED_ERROR" with the pair (fixed text, `str(exc)`) as detail |
| Errors.RespondStatus | src/util/exception_handler.py:8-42 | custom and HTTP exceptions keep their status; any other exception becomes a 500 whose detail is a pair |
| Errors.Respond | src/util/exception_handler.py:8-42 | a response exists exactly for the classes the handlers see; a custom exception goes to the custom handler and a built-in one to the global handler |
| Errors.UserErrorResponse | src/exception/user_exception.py:3-49 | each user exception raised without a detail answers with its status, code and message |
| Errors.UnexpectedIs500 | src/util/base_exception.py:8-11 | an `UnexpectedException` answers 500 "UNEXPECTED_ERROR" with its detail, whatever that is |
| Requests.SignUpErrors | src/schema/request.py:5-13 | the failing fields of a sign-up body: none exactly when every constraint holds |
| Requests.LogInErrors | src/schema/request.py:15-17 | a log-in body passes exactly when the e-mail is valid and the password has 8 to 20 characters |
| Requests.PassWordChangeErrors | src/schema/request.py:19-22 | a password change passes exactly when all three passwords have 8 to 20 characters |
| Requests.FindIdErrors | src/schema/request.py:24-27 | a find-id body passes exactly when the name, date and phone number meet their constraints |
| Requests.IngredientErrors | src/schema/request.py:29-30 | an ingredient body passes exactly when its name has 1 to 40 characters |
| Requests.Admit | src/util/exception_handler.py:23-27 | a body is admitted exactly when it has no errors; otherwise the answer is 422 listing them |
| Requests.SignUpFitsUserColumns | src/schema/request.py:5-13 | a valid sign-up body fits the name, nickname and gender columns of `users` |
| Requests.SignUpEmailUnbounded | src/schema/request.py:6 | a syntactically valid e-mail longer than 128 characters passes validation though the column holds 128 |
| Orm.RowValid | src/database/orm.py:10-18 | a valid row has its gender, social-auth and status in their enums and a calendar birth date |
| Orm.TableValid | src/database/orm.py:10-18 | in a valid table no two rows share a key, an e-mail or a nickname |
| Orm.Admissible | src/database/orm.py:10-18 | an admissible row is valid and shares no key, e-mail or nickname with a row of the table |
| Orm.InsertKeepsTableValid | src/database/orm.py:6-18 | appending a row keeps the table valid (column limits, enums, unique key, e-mail, nickname and phone) exactly when the row is admissible |
| Orm.Materialise | src/database/orm.py:17-18 | a new row takes the given fields, with `social_auth` defaulting to "none" and `status` to "active" |
| Orm.DefaultsInEnums | src/database/orm.py:17-18 | the column defaults are allowed enum values |
| UserRepo.Matching | src/database/repository/user_repository.py:19-28 | the rows selected by `WHERE field = value` are exactly the rows with that value |
| UserRepo.UniqueMatch | src/database/repository/user_repository.py:19-28 | in a valid table an e-mail or nickname lookup matches at most one row |
| UserRepo.NoMatchAfterFirst | src/database/repository/user_repository.py:19-28 | in a valid table, once the first row matches, no later row does |
| UserRepo.OneRowPerEmail | src/database/repository/user_repository.py:30-31 | in a valid table the e-mail identifies the row |
| UserRepo.ScalarOneOrNone | src/database/repository/user_repository.py:24 | no match gives `None`, one match gives that row, more than one is an error |
| UserRepo.GetUserByField | src/database/repository/user_repository.py:19-28 | a database error becomes `DatabaseException` and any other error `UnexpectedException`; on a valid table the lookup succeeds and gives a row with that value, or `None` only when no row has it |
| UserRepo.UserRepository.constructor | src/database/repository/user_repository.py:16-17 | an empty, valid table |
| UserRepo.UserRepository.SaveUser | src/database/repository/user_repository.py:36-40 | the row gets the next key and is appended when the constraints accept it; otherwise the commit fails and the table is unchanged |
| UserRepo.UserRepository.UpdatePassword | src/database/repository/user_repository.py:42-45 | only the password of the row with that key changes; a hash too long for the column is refused and nothing changes |
| UserSvc.HashValue | src/service/user_service.py:25-30 | under the bcrypt axioms the hash has 60 characters and the value verifies against it |
| UserSvc.VerifyValue | src/service/user_service.py:32-36 | under the bcrypt axioms a value verifies against any hash made from it |
| UserSvc.CreateJwt | src/service/user_service.py:38-46 | the token carries `sub` and verifies up to one day after issue and not a second later |
| UserSvc.HashThenVerify | src/service/user_service.py:25-36 | a value verifies against its own hash, and a hash never equals a plaintext of at most 20 characters |
| UserSvc.JoseDecode | src/service/user_service.py:48-61 | `jwt.decode` gives claims only for a verified token whose `sub` is not an integer |
| UserSvc.DecodeJwt | src/service/user_service.py:48-61 | a verified token whose `sub` is a string decodes to that string, and only such a token decodes; every failure is `TokenExpiredException` |
| UserSvc.JwtRoundTrip | src/service/user_service.py:38-61 | a token created for an e-mail decodes to it for 86400 seconds and is rejected after that |
| UserSvc.NumericSubNeverDecodes | src/service/user_service.py:48-61 | a token whose `sub` is an integer never decodes |
| UserSvc.SignUpRaise | src/service/user_service.py:92-96 | duplicate and mismatch exceptions leave `sign_up` unchanged; anything else becomes a 500 `UnexpectedException` |
| UserSvc.SignUpChecks | src/service/user_service.py:67-74 | the checks pass only for a free e-mail, a free nickname and a matching confirmation, and a taken e-mail is always reported |
| UserSvc.SignUpCheckOrder | src/service/user_service.py:67-74 | a taken e-mail is reported before a taken nickname, which is reported before a confirmation mismatch |
| UserSvc.UserService.constructor | src/service/user_service.py:22-23 | the service holds its repository and primitives |
| UserSvc.UserService.SignUp | src/service/user_service.py:64-96 | after the checks, stores a row with the hashed password and phone number and returns it; once the checks pass it succeeds exactly when the new row is admissible to the table; a failed check or commit leaves the table unchanged, and the exception is re-raised or wrapped as `sign_up` does |
| UserSvc.UserService.LogIn | src/service/user_service.py:98-113 | as written: a token only for a stored e-mail whose hash the password verifies against; every failure becomes `UnexpectedException` |
| UserSvc.UserService.LogInIntended | src/service/user_service.py:98-113 | a token exactly when the e-mail and password match a row, and `InvalidCredentialsException` otherwise |
| UserSvc.Authenticate | src/service/user_service.py:100-103 | the user found is the one with that e-mail whose hash the password verifies; `None` exactly for an unknown e-mail or a wrong password |
| UserSvc.LogInRaise | src/service/user_service.py:109-113 | only `InvalidCheckedPasswordException` leaves `log_in` unchanged; anything else is wrapped as `UnexpectedException` |
| UserSvc.BadCredentialsAnswer500 | src/service/user_service.py:102-113 | bad credentials answer 500 as written and 401 as intended |
| UserSvc.BadCredentialsRaise | src/service/user_service.py:102-113 | bad credentials raise `UnexpectedException` as written and `InvalidCredentialsException` as intended |
| UserSvc.LogInTokenDecodes | src/service/user_service.py:98-105 | the token of a successful log-in decodes to the e-mail for one day |
| SocialState.Lookup | src/service/auth/base_social_auth_service.py:17 | a Redis `GET` finds a value only while its entry has not expired |
| SocialState.KeyValueStore.constructor | src/service/auth/base_social_auth_service.py:6-10 | an empty store |
| SocialState.KeyValueStore.SetEx | src/service/auth/base_social_auth_service.py:14 | `SETEX` replaces one key's entry with the value and its expiry time |
| SocialState.KeyValueStore.Delete | src/service/auth/base_social_auth_service.py:21 | `DEL` removes exactly that key |
| SocialState.Saved | src/service/auth/base_social_auth_service.py:12-14 | `save_state` adds the namespaced key, which then finds "valid", and leaves every other key alone |
| SocialState.Validated | src/service/auth/base_social_auth_service.py:16-21 | a live state validates and is deleted; a missing or expired one raises `InvalidStateException` and nothing changes |
| SocialState.SaveThenValidate | src/service/auth/base_social_auth_service.py:12-21 | a state checked within 300 seconds of being saved validates |
| SocialState.ExpiredStateFails | src/service/auth/base_social_auth_service.py:14 | 300 seconds after being saved, a state no longer validates |
| SocialState.ValidateTwiceFails | src/service/auth/base_social_auth_service.py:21 | a state is single-use: a second validation fails |
| SocialState.StateKeyInjective | src/service/auth/base_social_auth_service.py:14 | for underscore-free platform names the key determines platform and state |
| SocialState.UnderscoreAfterPlatform | src/service/auth/base_social_auth_service.py:14 | the key holds '_' right after the platform name |
| SocialState.SaveIsNamespaced | src/service/auth/base_social_auth_service.py:12-14 | saving a state changes nothing another platform or another state can look up |
| SocialState.CrossPlatformFails | src/service/auth/base_social_auth_service.py:16-21 | a state saved for one platform does not validate for another |
| SocialState.SocialAuthService.constructor | src/service/auth/base_social_auth_service.py:7-10 | the service holds its platform and store |
| SocialState.SocialAuthService.SaveState | src/service/auth/base_social_auth_service.py:12-14 | the store becomes `Saved` of its old entries |
| SocialState.SocialAuthService.ValidateState | src/service/auth/base_social_auth_service.py:16-21 | result and store are those of `Validated` on the old entries |
| NaverBirth.MonthWide | src/service/auth/naver_auth_service.py:74 | the two-character `%m` alternatives give a month 1 to 12 |
| NaverBirth.MonthNarrow | src/service/auth/naver_auth_service.py:74 | the one-character `%m` alternative gives a month 1 to 9 |
| NaverBirth.DayAt | src/service/auth/naver_auth_service.py:74 | `%d` gives a day 1 to 31 of one or two characters |
| NaverBirth.AfterMonth | src/service/auth/naver_auth_service.py:74 | after the month group, a '-' and a day complete the match with that year and month |
| NaverBirth.MatchYmd | src/service/auth/naver_auth_service.py:74 | a match reads a four-digit year, a month 1 to 12 and a day 1 to 31 from the start of the text |
| NaverBirth.Strptime | src/service/auth/naver_auth_service.py:74 | `strptime` gives a valid date only when the match takes the whole text; no match is a `ValueError` |
| NaverBirth.FourDigitsBound | src/service/auth/naver_auth_service.py:74 | a four-digit year is at most 9999 |
| NaverBirth.BirthDate | src/service/auth/naver_auth_service.py:69-78 | any date returned is valid; 2000-01-01 when either field is missing or empty; a birthday without '-' or with more than one '-' is the unpacking `ValueError` (the parse of well-formed fields is `NaverBirth.WellFormedBirth`) |
| NaverBirth.SplitPair | src/service/auth/naver_auth_service.py:73 | "MM-DD" splits into its two pieces |
| NaverBirth.TwoDigits | src/service/auth/naver_auth_service.py:73 | the value of a two-digit string |
| NaverBirth.WellFormedBirth | src/service/auth/naver_auth_service.py:72-78 | a four-digit year and a one- or two-digit month and day give the date they spell when it exists, and an error when it does not |
| NaverBirth.YmdTextMatch | src/service/auth/naver_auth_service.py:73-74 | the padded text is "YYYY-MM-DD", and a match of all of it reads back its year, month and day |
| NaverBirth.WholeMatchReadsBack | src/service/auth/naver_auth_service.py:74 | a ten-character match uses two digits for the month and two for the day |
| NaverBirth.ValidMonthMatches | src/service/auth/naver_auth_service.py:74 | an existing date in two-digit form matches the whole text |
| NaverBirth.FullMatch | src/service/auth/naver_auth_service.py:74 | ten characters "YYYY-MM-DD" with month 1 to 12 and day 1 to 31 match in full |
| NaverBirth.BirthdayWithoutDash | src/service/auth/naver_auth_service.py:73 | a birthday without '-' raises "not enough values to unpack" |
| NaverBirth.February30 | src/service/auth/naver_auth_service.py:72-78 | February 30 matches the pattern and is refused by `date` |
| NaverBirth.February30Parse | src/service/auth/naver_auth_service.py:74 | parsing "1990-02-30" with "%Y-%m-%d" gives the day-out-of-range `ValueError`. |
| NaverBirth.Day32 | src/service/auth/naver_auth_service.py:72-78 | day 32 leaves its last digit unconverted |
| NaverBirth.Day32Parse | src/service/auth/naver_auth_service.py:74 | `strptime("1990-01-32")` reports "2" unconverted |
| NaverBirth.OneDigitDay | src/service/auth/naver_auth_service.py:74 | a day field "3x" with x above 1 matches as the one-digit day 3 |
| NaverAuth.Exchange | src/service/auth/naver_auth_service.py:30-49 | the token request goes first; a non-200 status raises the token or profile exception; an `httpx` transport error on either request propagates as that error; the profile comes back only when both replies are 200 |
| NaverAuth.NaverGender | src/service/auth/naver_auth_service.py:65-67 | "male" exactly for "M", "female" exactly for "F" after upper-casing, "Female" otherwise |
| NaverAuth.GenderInEnum | src/service/auth/naver_auth_service.py:65-67 | only "M", "m", "F" and "f" give a gender the `users` table accepts |
| NaverAuth.Normalise | src/service/auth/naver_auth_service.py:57-80 | an account exactly when the id is present and the birth date parses; the id becomes the e-mail and the nickname "n_" + id |
| NaverAuth.CallHasher | src/service/auth/naver_auth_service.py:92 | a hashing call succeeds exactly for the method `UserService` defines, `hash_value` |
| NaverAuth.NaverDraft | src/service/auth/naver_auth_service.py:94-103 | the row asked for has the hashed password, no phone number, social auth "naver", the default status and the profile's other fields |
| NaverAuth.SocialSignupError | src/service/auth/naver_auth_service.py:109-111 | any sign-up failure becomes `SocialSignupException` whose detail starts with "네이버 회원가입 오류: " |
| NaverAuth.SignUpOutcome | src/service/auth/naver_auth_service.py:89-111 | a sign-up succeeds exactly when hashing works and the table accepts the row; any failure is `SocialSignupException` and writes nothing |
| NaverAuth.LogInOrSignUp | src/service/auth/naver_auth_service.py:82-111 | an existing e-mail logs in with the table unchanged; otherwise at most one row is appended |
| NaverAuth.Callback | src/service/auth/naver_auth_service.py:51-111 | the state is consumed as `validate_state` does; a success sent the token request and then the profile request; the table only grows |
| NaverAuth.NaverAuthService.constructor | src/service/auth/naver_auth_service.py:12-13 | the service's state logic is bound to platform "naver" |
| NaverAuth.NaverAuthService.HandleCallback | src/service/auth/naver_auth_service.py:51-111 | store, table and result are those of `Callback` |
| NaverAuth.NaverAuthService.LogInOrSignUpOnTable | src/service/auth/naver_auth_service.py:82-111 | table and result are those of `LogInOrSignUp` |
| NaverAuth.StateCheckedFirst | src/service/auth/naver_auth_service.py:52 | an invalid state ends the callback before any request to Naver and before the table is read |
| NaverAuth.MissingIdFails | src/service/auth/naver_auth_service.py:57-60 | a profile without an id raises `SocialUserInfoException` and writes nothing |
| NaverAuth.ExistingUserLogsIn | src/service/auth/naver_auth_service.py:82-87 | a known id logs that account in, redirecting with its token |
| NaverAuth.NewUserSignedUp | src/service/auth/naver_auth_service.py:89-107 | an unknown id whose row the table accepts is appended as a Naver account with the nickname "n_" + id, no phone and a hashed random password, and its token carries the new key |
| NaverAuth.UnknownGenderCannotSignUp | src/service/auth/naver_auth_service.py:65-67 | a new user whose gender is neither M nor F cannot sign up, and nothing is written |
| NaverAuth.NewUserTokenRejected | src/service/auth/naver_auth_service.py:106 | the token of a Naver sign-up never decodes |
| NaverAuth.NaverSignUpAsWritten | src/service/auth/naver_auth_service.py:92 | as written, every new Naver user's sign-up ends in `SocialSignupException` and writes nothing |
| RecipeService.WsEnd | src/service/recipe_service.py:95 | the end of the whitespace run that starts at a position |
| RecipeService.FirstClose | src/service/recipe_service.py:95 | the lazy group ends at the first position where whitespace and a closing fence follow |
| RecipeService.GroupFrom | src/service/recipe_service.py:95 | backtracking the leading `\s*` gives the shortest group ending at a closing fence |
| RecipeService.MatchAt | src/service/recipe_service.py:95 | the pattern matches at an opener exactly when a group can close there |
| RecipeService.Search | src/service/recipe_service.py:95 | `re.search` finds a match at the first position where one exists, and none when there is none |
| RecipeService.JsonPayload | src/service/recipe_service.py:94-97 | the text parsed is the stripped group of a match, or the whole text when there is no match |
| RecipeService.NoFenceMeansWholeText | src/service/recipe_service.py:94-97 | text without "```json" is parsed whole |
| RecipeService.NoCloseInside | src/service/recipe_service.py:95 | no group closes inside a backquote-free run that ends in a non-space |
| RecipeService.SearchCaptures | src/service/recipe_service.py:95 | a text opening with "```json" captures the body up to the first closing fence |
| RecipeService.OneBlockSearch | src/service/recipe_service.py:94-97 | in a one-block reply `re.search` captures the body and the payload is that capture stripped |
| RecipeService.SliceUnstripped | src/service/recipe_service.py:97 | a slice with non-space ends is its own strip |
| RecipeService.FencedBlockPayload | src/service/recipe_service.py:94-97 | a one-block reply yields exactly its body, whatever follows the block |
| RecipeService.PayloadOfSearch | src/service/recipe_service.py:94-97 | the payload is the stripped capture of `re.search` |
| RecipeService.WsEndAcross | src/service/recipe_service.py:95 | a whitespace run followed by a non-space ends there |
| RecipeService.FirstCloseIsLeast | src/service/recipe_service.py:95 | the first closing position is the least one |
| RecipeService.StripUnchanged | src/service/recipe_service.py:97 | a text with non-space ends is unchanged by `strip()` |
| RecipeService.Tag | src/service/recipe_service.py:104-108 | the result always carries "_ai_provider"; an existing value is kept and a non-dict is wrapped |
| RecipeService.TagIdempotent | src/service/recipe_service.py:104-108 | tagging twice changes nothing the second time |
| RecipeService.StripField | src/service/recipe_service.py:81 | a string field gives its strip; any other value has no `strip` |
| RecipeService.ChoicesText | src/service/recipe_service.py:143-148 | the text of `choices[0].message.content`, "" without `choices`, and an error when a step is not a dict or list |
| RecipeService.ChoiceText | src/service/recipe_service.py:85-88 | one choice gives its stripped content, or an `AttributeError`; a choice that is not a dict fails on `get` with its type named |
| RecipeService.Crash | src/service/recipe_service.py:80-89 | a runtime error while reading the reply is the built-in exception of that class with the text Python's `str` gives it |
| RecipeService.NonDictReplyCrashes | src/util/exception_handler.py:29-42 | a reply that is not a dict fails on its first `get`, and the global handler answers 500 with "'<type>' object has no attribute 'get'" |
| RecipeService.EmptyChoicesOutOfRange | src/service/recipe_service.py:143-148 | an empty `choices` list fails with the `IndexError` "list index out of range" |
| RecipeService.ChoiceContent | src/service/recipe_service.py:85-88 | a content exists only for a dict choice; a choice without `message` has content ""; a content found under `message` is that string |
| RecipeService.MessageContent | src/service/recipe_service.py:80-81 | without `message` the content is ""; a non-empty content is the string under `message.content` |
| RecipeService.OllamaText | src/service/recipe_service.py:80-89 | the stripped `message.content`, or the choices text when that is empty |
| RecipeService.CallOpenAI | src/service/recipe_service.py:110-131 | without a key nothing is sent and the call fails with `AIServiceException`; otherwise exactly one request with the prompt, whose reply decides the result as `OpenAIReply` says; a failure is one of the AI exceptions or a Python error |
| RecipeService.OpenAIReply | src/service/recipe_service.py:132-166 | a network error or non-200 status is `AIServiceException` with its detail; the call succeeds exactly when the status is 200, the body parses, the choices text is non-empty and its payload parses, and the result is then that payload tagged "openai"; every failure is an AI exception or a Python error |
| RecipeService.CallOllama | src/service/recipe_service.py:41-70 | any success is a dict carrying "_ai_provider"; any failure is one of the AI exceptions or a Python error, never `InvalidAIRequestException` |
| RecipeService.OllamaReply | src/service/recipe_service.py:72-108 | a non-200 status is `AIServiceException` naming the status and text; the call succeeds exactly when the status is 200, the body parses, the reply text is non-empty and its payload parses, and the result is then that payload tagged "ollama"; every failure is an AI exception or a Python error |
| RecipeService.UnconfiguredOllamaUsesOpenAI | src/service/recipe_service.py:42-43 | without a local endpoint or model the cloud is called with the same prompt and the local model never |
| RecipeService.RequestErrorFallsBack | src/service/recipe_service.py:48-70 | a request error on the probe or the chat request gives the cloud call's result; with a key, the last request is the cloud chat with the same prompt and its reply decides the result |
| RecipeService.LocalReplyDecides | src/service/recipe_service.py:56-72 | once the probe and the chat request get replies, the result is `OllamaReply` of the chat reply and only the local model is contacted |
| RecipeService.Non200DoesNotFallBack | src/service/recipe_service.py:72-73 | a local non-200 reply raises and the cloud is not tried |
| RecipeService.EmptyTextIsNullResponse | src/service/recipe_service.py:91-92 | an empty reply text raises `AINullResponseException` |
| RecipeService.UnparsableTextIsDecodeError | src/service/recipe_service.py:99-102 | an unparsable payload raises `AIJsonDecodeException` with the reply text |
| RecipeService.OpenAIStatusInDetail | src/service/recipe_service.py:135-136 | a failing cloud status appears in decimal in the error detail |
| RecipeService.GetCurrentUser | src/service/recipe_service.py:28-39 | the user exactly when the lookup returns one; `None` is `UserNotFoundException`; a raised `TokenExpiredException` passes through unchanged; any other exception becomes `TokenExpiredException` whose detail is "토큰 처리 중 오류: " and its `str` |
| RecipeService.GetFoodRecipe | src/service/recipe_service.py:175-183 | the request is refused with `InvalidAIRequestException` exactly when `food` is missing or falsy, or `use_ingredients` is present and not a list; a refused request makes no call; otherwise the result is that of the AI chain on the built prompt |
| RecipeService.MissingUsesDefaultsToEmpty | src/service/recipe_service.py:177 | a truthy food without `use_ingredients` goes to the AI chain with an empty ingredient list and is not refused |
| RecipeService.FoodOnlyRequestAccepted | src/service/recipe_service.py:175-183 | as written, `{"food": "김치찌개"}` is never refused as invalid, whatever the providers answer |
| RecipeService.GetFoodRecipeIntended | src/service/recipe_service.py:175-183 | `use_ingredients` is required: refused exactly when `food` is missing or falsy or `use_ingredients` is missing or not a list; otherwise as `get_food_recipe` |
| RecipeService.IntendedRefusesFoodOnly | src/service/recipe_service.py:175-183 | the corrected check refuses `{"food": "김치찌개"}` without contacting a provider |
| RecipeRepo.Clean | src/database/repository/recipe_repository.py:16 | the recipe without "_ai_provider", every other key kept with its value |
| RecipeRepo.CleanIdempotent | src/database/repository/recipe_repository.py:16 | cleaning twice is cleaning once, and a recipe without the tag is kept as it is |
| RecipeRepo.Active | src/database/repository/recipe_repository.py:37-43 | the rows of that user whose status is still true |
| RecipeRepo.InsertByAge | src/database/repository/recipe_repository.py:42 | insertion into a newest-first list is a permutation with one more row |
| RecipeRepo.SortNewest | src/database/repository/recipe_repository.py:42 | the sort is a permutation of the rows |
| RecipeRepo.InsertByAgeBound | src/database/repository/recipe_repository.py:42 | insertion keeps an upper bound on the timestamps |
| RecipeRepo.NewestFirstTail | src/database/repository/recipe_repository.py:42 | a newest-first list stays sorted without its head, which is the newest |
| RecipeRepo.ConsNewestFirst | src/database/repository/recipe_repository.py:42 | a row at least as new as the rest can go in front |
| RecipeRepo.InsertByAgeSorted | src/database/repository/recipe_repository.py:42 | insertion keeps a list newest first |
| RecipeRepo.SortNewestSorted | src/database/repository/recipe_repository.py:42 | `ORDER BY created_at DESC` yields a newest-first list |
| RecipeRepo.View | src/database/repository/recipe_repository.py:47-51 | a view keeps the row's id and recipe |
| RecipeRepo.Views | src/database/repository/recipe_repository.py:47-53 | one `{id, recipe}` view per row, in order |
| RecipeRepo.SoftDeleted | src/database/repository/recipe_repository.py:56-62 | exactly the matching live row of that user gets status false; the rest is unchanged |
| RecipeRepo.SoftDeleteTwice | src/database/repository/recipe_repository.py:55-67 | after a soft delete nothing matches, so deleting again reports false |
| RecipeRepo.SoftDeletedHidden | src/database/repository/recipe_repository.py:36-67 | a soft-deleted recipe drops out of the user's list and every other live recipe stays |
| RecipeRepo.SoftDeleteLeavesOthers | src/database/repository/recipe_repository.py:56-62 | rows of other users or other recipes are untouched |
| RecipeRepo.RecipeRepository.constructor | src/database/repository/recipe_repository.py:12-13 | an empty, valid table |
| RecipeRepo.RecipeRepository.SaveRecipeData | src/database/repository/recipe_repository.py:15-34 | appends a live row holding the cleaned recipe with a fresh key and returns that row's view |
| RecipeRepo.RecipeRepository.GetRecipesByUser | src/database/repository/recipe_repository.py:36-53 | exactly the user's live recipes, newest first, one view each |
| RecipeRepo.RecipeRepository.SoftDeleteRecipe | src/database/repository/recipe_repository.py:55-67 | the table becomes `SoftDeleted`, and the result says whether a live matching row existed |
| IngredientRepo.OwnedBy | src/database/repository/ingredient_repository.py:19-22 | exactly the rows with that owner |
| IngredientRepo.Without | src/database/repository/ingredient_repository.py:34-37 | the table without the matching rows, shorter exactly when one matched |
| IngredientRepo.DeleteKeepsOthers | src/database/repository/ingredient_repository.py:34-40 | a delete leaves every other user's list as it was, in order |
| IngredientRepo.DeleteFromOwner | src/database/repository/ingredient_repository.py:34-40 | the owner's list loses exactly the deleted ingredient |
| IngredientRepo.DeleteTwice | src/database/repository/ingredient_repository.py:34-40 | deleting the same ingredient twice is deleting it once |
| IngredientRepo.WithoutNothing | src/database/repository/ingredient_repository.py:34-40 | deleting what is not there leaves the table unchanged |
| IngredientRepo.FirstMatch | src/database/repository/ingredient_repository.py:27-32 | the user's row with that id, or `None` only when there is none |
| IngredientRepo.OwnedByAppend | src/database/repository/ingredient_repository.py:13-22 | a new row comes last in its owner's list |
| IngredientRepo.IngredientRepository.constructor | src/database/repository/ingredient_repository.py:10-11 | an empty, valid table |
| IngredientRepo.IngredientRepository.CreateIngredient | src/database/repository/ingredient_repository.py:13-17 | the row gets a fresh key, is appended and comes last in its owner's list |
| IngredientRepo.IngredientRepository.GetIngredients | src/database/repository/ingredient_repository.py:19-22 | exactly the user's rows |
| IngredientRepo.IngredientRepository.GetIngredientsByUser | src/database/repository/ingredient_repository.py:24-25 | exactly the rows of the user object's id |
| IngredientRepo.SameIdSameRow | src/database/repository/ingredient_repository.py:27-32 | under the primary key two rows with the same id are the same row |
| IngredientRepo.WithoutKeepsDistinct | src/database/repository/ingredient_repository.py:34-40 | a delete keeps the ids distinct |
| IngredientRepo.OnlyMatch | src/database/repository/ingredient_repository.py:27-32 | under the primary key the row found is the only match, so `scalar_one_or_none` never finds two |
| IngredientRepo.IngredientRepository.GetIngredientById | src/database/repository/ingredient_repository.py:27-32 | the user's row with that id, or `None` only when there is none |
| IngredientRepo.IngredientRepository.DeleteIngredient | src/database/repository/ingredient_repository.py:34-40 | removes the matching rows, reports whether there was one, and afterwards the ingredient is not found |
| IngredientSvc.CurrentUserId | src/service/ingredient_service.py:17-18 | the current user's id, the lookup's own exception, or `AttributeError` for no user |
| IngredientSvc.CreateAsWritten | src/service/ingredient_service.py:20-31 | as written, creation always fails: with the lookup's exception, or with `AttributeError` for `ingredient_name` |
| IngredientSvc.IngredientService.constructor | src/service/ingredient_service.py:10-15 | the service holds its repository |
| IngredientSvc.IngredientService.CreateIngredient | src/service/ingredient_service.py:20-31 | with the fields it reads, a row owned by the user is appended and comes last in their list; a failed lookup changes nothing |
| IngredientSvc.IngredientService.GetDetailIngredients | src/service/ingredient_service.py:33-37 | exactly the current user's ingredients |
| IngredientSvc.IngredientService.GetIngredients | src/service/ingredient_service.py:39-45 | the names of those ingredients, one per row, in the same order |
| IngredientSvc.IngredientService.DeleteIngredient | src/service/ingredient_service.py:47-52 | removes the user's ingredient, or raises `IngredientNotFoundException` exactly when they have none with that id |
| BoardRepo.FindBoard | src/database/repository/board_repository.py:23-25 | the position of the board with that id, or `None` only when there is none |
| BoardRepo.ImagesOf | src/database/repository/board_repository.py:33-37 | exactly the URLs stored for that board |
| BoardRepo.ImageRows | src/database/repository/board_repository.py:18-19 | one image row per URL, in order |
| BoardRepo.ImagesOfAppend | src/database/repository/board_repository.py:33-37 | the images of appended tables are appended |
| BoardRepo.ImagesOfRows | src/database/repository/board_repository.py:18-37 | the rows added for a board read back as its URLs, and as nothing for another board |
| BoardRepo.ImagesAfterAdd | src/database/repository/board_repository.py:18-37 | after adding, a board's images are the old ones followed by the new ones; other boards see no change |
| BoardRepo.RemoveRow | src/database/repository/board_repository.py:51-55 | removing a row keeps the ids increasing and loses exactly that id |
| BoardRepo.Edited | src/database/repository/board_repository.py:43-46 | only the given fields are replaced; id and owner stay |
| BoardRepo.EditedLaws | src/database/repository/board_repository.py:43-46 | an edit with no fields is the identity, and two edits keep the later values |
| BoardRepo.BoardRepository.constructor | src/database/repository/board_repository.py:8-9 | empty, valid tables |
| BoardRepo.BoardRepository.CreateBoard | src/database/repository/board_repository.py:11-16 | appends a board owned by the user with a fresh id |
| BoardRepo.BoardRepository.AddBoardImages | src/database/repository/board_repository.py:18-21 | appends one image row per URL; the board's images gain exactly those URLs |
| BoardRepo.BoardRepository.GetBoard | src/database/repository/board_repository.py:23-25 | the board with that id, or `None` only when there is none |
| BoardRepo.BoardRepository.GetAllBoards | src/database/repository/board_repository.py:27-31 | at most `limit` consecutive rows starting after the first `skip` |
| BoardRepo.BoardRepository.GetBoardImages | src/database/repository/board_repository.py:33-37 | exactly the URLs stored for that board |
| BoardRepo.BoardRepository.UpdateBoard | src/database/repository/board_repository.py:39-49 | `None` exactly for a missing board; otherwise that board alone is edited in place |
| BoardRepo.BoardRepository.DeleteBoard | src/database/repository/board_repository.py:51-57 | removes the board, reports whether it existed, and keeps its image rows |
| BoardSvc.ObjectStore.constructor | src/service/board_service.py:18-23 | an empty bucket |
| BoardSvc.ObjectKey | src/service/board_service.py:27 | the key is "board/" + uuid + "_" + file name, ending in the file name |
| BoardSvc.ObjectUrl | src/service/board_service.py:33 | the URL starts with "https://" and the bucket's host |
| BoardSvc.KeyOf | src/service/board_service.py:81 | the key taken from a URL is a suffix of it without the bucket's host marker |
| BoardSvc.MarkerFirstAtHost | src/service/board_service.py:33 | the marker never starts inside the "https://" prefix |
| BoardSvc.KeyRoundTrip | src/service/board_service.py:27-81 | a key comes back out of its URL exactly when it does not contain "<bucket>.s3.amazonaws.com/" |
| BoardSvc.UploadResult | src/service/board_service.py:25-35 | the object URL exactly when boto3 stored the file; a boto error is a 500 naming it, and any other exception passes through |
| BoardSvc.FirstFailure | src/service/board_service.py:42-44 | the first upload that raises, with every earlier one stored |
| BoardSvc.Urls | src/service/board_service.py:42-44 | one object URL per upload, in order |
| BoardSvc.FirstFailureAt | src/service/board_service.py:42-44 | the first upload that raises is the one after a run of stored uploads |
| BoardSvc.ExtendRun | src/service/board_service.py:42-44 | one more stored upload adds its key and its URL |
| BoardSvc.Authorise | src/service/board_service.py:62-65 | passes exactly for the board's owner; a missing board is 403, a missing user an `AttributeError`, and someone else's board 403 |
| BoardSvc.RemovedKeys | src/service/board_service.py:79-84 | the deleted keys are exactly the keys of the URLs whose delete does not raise |
| BoardSvc.RemovedKeysStep | src/service/board_service.py:79-84 | one more URL removes its key unless its delete raises |
| BoardSvc.DeleteRemovesUploads | src/service/board_service.py:27-84 | deleting the images of uploads whose keys lack the marker removes exactly the uploaded objects |
| BoardSvc.BoardService.constructor | src/service/board_service.py:12-23 | the service holds its repository and bucket |
| BoardSvc.BoardService.UploadToS3 | src/service/board_service.py:25-35 | returns `UploadResult` and stores the key exactly when the upload succeeds |
| BoardSvc.BoardService.UploadAll | src/service/board_service.py:42-44 | all URLs and all keys stored when no upload raises; otherwise the first exception, with the keys of the earlier uploads stored |
| BoardSvc.BoardService.CreateBoard | src/service/board_service.py:37-50 | the board row is written first; image rows are added only when every upload succeeds, and a failed upload leaves the earlier objects in the bucket |
| BoardSvc.BoardService.GetBoard | src/service/board_service.py:52-56 | the board, or 404 exactly when there is none |
| BoardSvc.BoardService.GetAllBoards | src/service/board_service.py:58-59 | at most `limit` boards of the table |
| BoardSvc.BoardService.UpdateBoard | src/service/board_service.py:61-70 | succeeds exactly when `Authorise` does; then the table has the same length and key counter, the board with that id is replaced by its edit, every other row and the images are unchanged; a refusal changes nothing |
| BoardSvc.BoardService.DeleteObjects | src/service/board_service.py:79-84 | the bucket loses the key of every URL whose delete does not raise |
| BoardSvc.BoardService.DeleteBoard | src/service/board_service.py:72-90 | only the owner deletes: the image objects are removed, the board row goes and the image rows stay |

## Left out

- The api layer (src/api/) and the routing of requests to the services are not part of this model. `Errors.Respond` assumes two things the repository does not do. First, src/main.py registers no exception handler at all. Second, the exception modules (src/exception/user_exception.py:1 and the others) derive from `exception.base_exception.CustomException`, while src/util/exception_handler.py:5 handles `util.base_exception.CustomException`, a different class. The model takes every handler to be registered and a user exception to be a `CustomException` of the handler file. `Errors.UserErrorResponse`, `Errors.CustomHandler` and `UserSvc.BadCredentialsAnswer500` depend on both assumptions.
- The repository's own JSON output is not modelled, apart from the JSON error bodies the handlers build. This covers the response schemas and `model_validate`.
- `get_user_by_token` and `get_user_by_access_token` are not defined in the `UserService` shown. The current-user lookup is therefore an input (`Errors.UserLookup`): it either raises or returns a user or `None`.
- `PromptBuilder` is not part of this model. `get_suggest_recipes`, `get_quick_recipe` and `get_search_recipe` only build a prompt and pass it to `_call_ollama`, which is modelled (`RecipeService.CallOllama`). `get_food_recipe` takes the prompt builder as a parameter.
- `get_auth_url` of the Naver service is not modelled: it URL-encodes a random state. The Google and Kakao services are not part of this model.
- HTTP (httpx), S3 (boto3) and Redis are not called: their replies are inputs, or the classes `ObjectStore` and `KeyValueStore`.
- bcrypt and python-jose are function values. Only the axioms `BcryptAxioms` and `JwtAxioms` are assumed of them, as requires of the lemmas that need them.
- `json.loads` is the parameter `parse`. `json.dumps` followed by `json.loads` is taken as the identity on the stored recipe.
- JSON numbers are integers; floating point is not modelled.
- `\d` and `%Y` digits are taken to be ASCII digits.
- PyStr.Upper: upper-cases ASCII letters only. This is because only the Naver gender letters pass through it; Unicode case mapping is not modelled.
- The clock is the parameter `now`, in whole seconds. Timezones are not modelled.
- `commit_with_error_handling` is not part of this model. A refused commit raises an exception of its own class (`CommitFailed`).
- The mapped classes `Board`, `BoardImage`, `Ingredient` and `LikeRecipe` are imported from src/database/orm.py but not defined there. Their columns are the ones the repositories read and write.
- Sign-up treats `User.create(...)` (src/service/user_service.py:79) as building the row from its keyword arguments. The `User` class shown defines no such method. The same file also lacks the four classes above, so it is read as incomplete rather than the call as wrong.
- `GlobalException` is imported by the handler file but not defined in the files shown. It is modelled as carrying the three custom fields.
- Logging and `print` are not modelled.
- The `str()` of an exception raised by boto3 or httpx is an input string.
- BoardSvc.BoardService.GetAllBoards: states only that a page comes from the table. `get_all_boards` has no `ORDER BY`, so the database may return any order. The repository's `GetAllBoards` is stated in table order.
- BoardSvc.BoardService.UpdateBoard: the 404 after a successful ownership check (lines 68-69) cannot happen here, because the board was just found. The same holds for the 500 after a delete in `DeleteBoard` (lines 87-88).
- Deleting a board does not remove its image rows; foreign-key cascades are not modelled.
- SocialState.SocialAuthService.ValidateState: single use (`SocialState.ValidateTwiceFails`) holds only for validations made one after the other. `validate_state` reads the key (src/service/auth/base_social_auth_service.py:18) and deletes it in a separate command (line 21), so two concurrent callbacks with the same state can both pass; concurrency is not modelled.
- BoardSvc.Authorise: takes the current user as the lookup's outcome. src/service/board_service.py:38, 62 and 73 call `get_user_by_access_token` without `await`, which as written yields a coroutine, always truthy, whose `.id` raises `AttributeError`. Since that method is not defined in the files shown, the model assumes it returns the user.
- IngredientRepo.IngredientRepository.CreateIngredient: "comes last in its owner's list" is stated in table order. The `SELECT` of `get_ingredients` (src/database/repository/ingredient_repository.py:19-22) has no `ORDER BY`, so the database may return the rows in any order.
- The `sub` claim of a Naver sign-up token is the row key, an integer (line 106). It is kept as written; see `NaverAuth.NewUserTokenRejected`.

## Findings

| source | as written | input that shows it | evidently intended | confidence | as-written member | corrected member |
|---|---|---|---|---|---|---|
| src/service/user_service.py:102-113 | `InvalidCredentialsException` raised at line 103 is caught by the `except Exception` of line 112 and re-raised as `UnexpectedException` | a log-in with an unknown e-mail, or with a wrong password | a 401 `InvalidCredentialsException` for bad credentials | not executed | UserSvc.BadCredentialsRaise | UserSvc.UserService.LogInIntended |
| src/service/ingredient_service.py:20-31 | `create_ingredient` reads `request.ingredient_name`, `category_id` and `purchase_date`, but `IngredientRequest` (src/schema/request.py:29-30) declares only `name` | any valid body `{"name": "양파"}` from a known user | a request carrying the three fields the service stores | not executed | IngredientSvc.CreateAsWritten | IngredientSvc.IngredientService.CreateIngredient |
| src/service/recipe_service.py:177 | `get_food_recipe` defaults a missing `use_ingredients` to `[]`, but tests/test_recipe.py:281-285 expects `{"food": "김치찌개"}` to raise `InvalidAIRequestException`; the code and its test disagree | the request `{"food": "김치찌개"}` | `use_ingredients` required, as the test expects | not executed; the test states the intent, the default states the opposite | RecipeService.FoodOnlyRequestAccepted | RecipeService.GetFoodRecipeIntended |
| src/service/auth/naver_auth_service.py:92 | the sign-up calls `self.user_service.hash_password`, which `UserService` does not define (it has `hash_value`) | a callback with a valid state and a 200 profile whose id is not yet an e-mail in `users` | the random password hashed with `hash_value` and the user signed up | not executed | NaverAuth.NaverSignUpAsWritten | NaverAuth.NewUserSignedUp |
