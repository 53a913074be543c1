/**
 * The request bodies of src/schema/request.py and their field constraints.
 * A body that breaks a constraint is rejected before any service code runs,
 * with a 422 response listing the failing fields.
 */
module Requests {
  import opened Wrappers
  import opened Orm
  import Errors

  /** `constr(min_length=lo, max_length=hi)`. */
  predicate LenIn(s: string, lo: nat, hi: nat) {
    lo <= |s| <= hi
  }

  /** The password constraint shared by every request that carries one. */
  predicate PasswordOk(s: string) {
    LenIn(s, 8, 20)
  }

  predicate PhoneOk(s: string) {
    LenIn(s, 10, 11)
  }

  /** `SignUpRequest` (lines 5-13). The `EmailStr` syntax check is the parameter `isEmail`. */
  datatype SignUpRequest = SignUpRequest(
    email: string, password: string, checkedPassword: string, name: string,
    nickname: string, birth: Date, gender: string, phoneNum: string)

  datatype LogInRequest = LogInRequest(email: string, password: string)

  datatype PassWordChangeRequest = PassWordChangeRequest(currentPassword: string, newPassword: string, confirmPassword: string)

  datatype FindIdRequest = FindIdRequest(name: string, birth: Date, phoneNum: string)

  /** `IngredientRequest` declares a single field. */
  datatype IngredientRequest = IngredientRequest(name: string)

  /** Every constraint of `SignUpRequest` holds. */
  predicate SignUpValid(r: SignUpRequest, isEmail: string -> bool) {
    && isEmail(r.email)
    && PasswordOk(r.password) && PasswordOk(r.checkedPassword)
    && LenIn(r.name, 2, 20) && LenIn(r.nickname, 2, 20)
    && ValidDate(r.birth)
    && r.gender in Genders
    && PhoneOk(r.phoneNum)
  }

  /** The fields of a sign-up body that fail their constraint, in declaration order: none exactly when the body is valid. */
  function SignUpErrors(r: SignUpRequest, isEmail: string -> bool): (errs: seq<string>)
    ensures errs == [] <==> SignUpValid(r, isEmail)
    ensures |errs| <= 8
  {
    (if isEmail(r.email) then [] else ["email"])
    + (if PasswordOk(r.password) then [] else ["password"])
    + (if PasswordOk(r.checkedPassword) then [] else ["checked_password"])
    + (if LenIn(r.name, 2, 20) then [] else ["name"])
    + (if LenIn(r.nickname, 2, 20) then [] else ["nickname"])
    + (if ValidDate(r.birth) then [] else ["birth"])
    + (if r.gender in Genders then [] else ["gender"])
    + (if PhoneOk(r.phoneNum) then [] else ["phone_num"])
  }

  function LogInErrors(r: LogInRequest, isEmail: string -> bool): (errs: seq<string>)
    ensures errs == [] <==> isEmail(r.email) && PasswordOk(r.password)
    ensures "password" in errs <==> !PasswordOk(r.password)
  {
    (if isEmail(r.email) then [] else ["email"]) + (if PasswordOk(r.password) then [] else ["password"])
  }

  function PassWordChangeErrors(r: PassWordChangeRequest): (errs: seq<string>)
    ensures errs == [] <==> PasswordOk(r.currentPassword) && PasswordOk(r.newPassword) && PasswordOk(r.confirmPassword)
  {
    (if PasswordOk(r.currentPassword) then [] else ["current_password"])
    + (if PasswordOk(r.newPassword) then [] else ["new_password"])
    + (if PasswordOk(r.confirmPassword) then [] else ["confirm_password"])
  }

  function FindIdErrors(r: FindIdRequest): (errs: seq<string>)
    ensures errs == [] <==> LenIn(r.name, 2, 20) && ValidDate(r.birth) && PhoneOk(r.phoneNum)
  {
    (if LenIn(r.name, 2, 20) then [] else ["name"])
    + (if ValidDate(r.birth) then [] else ["birth"])
    + (if PhoneOk(r.phoneNum) then [] else ["phone_num"])
  }

  function IngredientErrors(r: IngredientRequest): (errs: seq<string>)
    ensures errs == [] <==> LenIn(r.name, 1, 40)
  {
    if LenIn(r.name, 1, 40) then [] else ["name"]
  }

  /** A body that fails validation is answered 422 before the handler body runs; one that passes reaches it. */
  function Admit(errs: seq<string>): (r: Result<(), Errors.Response>)
    ensures r.Ok? <==> errs == []
    ensures r.Err? ==> r.error.status == 422 && r.error.body == Errors.DetailOnly(Errors.ErrorList(errs))
  {
    if errs == [] then Ok(()) else Err(Errors.ValidationHandler(errs))
  }

  /** A valid sign-up body fits the `users` columns it is stored in: the name, nickname and gender columns accept it. */
  lemma SignUpFitsUserColumns(r: SignUpRequest, isEmail: string -> bool)
    requires SignUpErrors(r, isEmail) == []
    ensures |r.name| <= 20 && |r.nickname| <= 50 && r.gender in Genders && ValidDate(r.birth)
  {
  }

  /** An address longer than 128 characters that passes the email check passes validation, yet does not fit the `email` column. */
  lemma SignUpEmailUnbounded(isEmail: string -> bool, e: string)
    requires isEmail(e) && |e| > 128
    ensures var r := SignUpRequest(e, "password1", "password1", "kim", "kim", Date(2000, 1, 1), "male", "01012345678");
      SignUpErrors(r, isEmail) == [] && |r.email| > 128
  {
  }
}
