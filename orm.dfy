/**
 * The `users` table of src/database/orm.py: the row record, the column
 * constraints as a row invariant, the uniqueness constraints as a table
 * invariant, and the column defaults a new row receives.
 */
module Orm {
  import opened Wrappers

  /** A calendar date, as Python's `datetime.date`. */
  datatype Date = Date(year: int, month: int, day: int)

  predicate IsLeap(y: int) {
    y % 4 == 0 && (y % 100 != 0 || y % 400 == 0)
  }

  function DaysIn(y: int, m: int): int
    requires 1 <= m <= 12
  {
    if m == 2 then (if IsLeap(y) then 29 else 28)
    else if m in {4, 6, 9, 11} then 30
    else 31
  }

  /** The dates `datetime.date` accepts: years 1 to 9999 of the proleptic Gregorian calendar. */
  predicate ValidDate(d: Date) {
    1 <= d.year <= 9999 && 1 <= d.month <= 12 && 1 <= d.day <= DaysIn(d.year, d.month)
  }

  /** One row of `users`. `createdAt` is the server timestamp, kept abstract. */
  datatype User = User(
    id: int,
    email: string,
    password: string,
    name: string,
    nickname: string,
    birth: Date,
    gender: string,
    phoneNum: Option<string>,
    socialAuth: string,
    status: string,
    createdAt: int)

  const Genders: set<string> := {"male", "female"}
  const SocialAuths: set<string> := {"google", "naver", "none"}
  const Statuses: set<string> := {"active", "inactive"}

  /** The per-column constraints (lines 10-18): lengths of the `String(n)` columns and membership of the enum columns. */
  predicate RowValid(u: User)
    ensures RowValid(u) ==> u.gender in Genders && u.socialAuth in SocialAuths && u.status in Statuses && ValidDate(u.birth)
  {
    && |u.email| <= 128
    && |u.password| <= 128
    && |u.name| <= 20
    && |u.nickname| <= 50
    && ValidDate(u.birth)
    && u.gender in Genders
    && (u.phoneNum.Some? ==> |u.phoneNum.value| <= 128)
    && u.socialAuth in SocialAuths
    && u.status in Statuses
  }

  /** Two rows clash on a unique column: the key, the email, the nickname, or a phone number both have. */
  predicate Clash(a: User, b: User) {
    || a.id == b.id
    || a.email == b.email
    || a.nickname == b.nickname
    || (a.phoneNum.Some? && a.phoneNum == b.phoneNum)
  }

  /** Every row meets the column constraints and no two rows clash; a null phone number clashes with nothing. */
  predicate TableValid(rows: seq<User>)
    ensures TableValid(rows) ==> forall i, j :: 0 <= i < j < |rows| ==>
      rows[i].id != rows[j].id && rows[i].email != rows[j].email && rows[i].nickname != rows[j].nickname
  {
    && (forall i :: 0 <= i < |rows| ==> RowValid(rows[i]))
    && (forall i, j :: 0 <= i < j < |rows| ==> !Clash(rows[i], rows[j]))
  }

  /** A row the database accepts next to `rows`. */
  predicate Admissible(rows: seq<User>, u: User)
    ensures Admissible(rows, u) ==> RowValid(u) && forall x :: x in rows ==> x.id != u.id && x.email != u.email && x.nickname != u.nickname
  {
    RowValid(u) && forall i :: 0 <= i < |rows| ==> !Clash(rows[i], u)
  }

  /** Appending a row keeps the table valid exactly when the row is admissible. */
  lemma {:induction false} InsertKeepsTableValid(rows: seq<User>, u: User)
    requires TableValid(rows)
    ensures TableValid(rows + [u]) <==> Admissible(rows, u)
  {
    var t := rows + [u];
    assert t[|rows|] == u;
    if Admissible(rows, u) {
      forall i, j | 0 <= i < j < |t| ensures !Clash(t[i], t[j]) {
        if j < |rows| {
          assert t[i] == rows[i] && t[j] == rows[j];
        } else {
          assert t[i] == rows[i];
        }
      }
      forall i | 0 <= i < |t| ensures RowValid(t[i]) {
        if i < |rows| { assert t[i] == rows[i]; }
      }
    }
    if TableValid(t) {
      forall i | 0 <= i < |rows| ensures !Clash(rows[i], u) {
        assert t[i] == rows[i];
      }
    }
  }

  /** The keyword arguments given to `User(...)`; an omitted enum column is `None`. */
  datatype UserDraft = UserDraft(
    email: string,
    password: string,
    name: string,
    nickname: string,
    birth: Date,
    gender: string,
    phoneNum: Option<string>,
    socialAuth: Option<string>,
    status: Option<string>)

  /** The row written for a draft: `social_auth` defaults to "none" and `status` to "active" (lines 17-18). */
  function Materialise(d: UserDraft, id: int, now: int): (u: User)
    ensures u.id == id && u.createdAt == now
    ensures u.email == d.email && u.password == d.password && u.name == d.name && u.nickname == d.nickname
    ensures u.birth == d.birth && u.gender == d.gender && u.phoneNum == d.phoneNum
    ensures u.socialAuth == (if d.socialAuth.Some? then d.socialAuth.value else "none")
    ensures u.status == (if d.status.Some? then d.status.value else "active")
  {
    User(id, d.email, d.password, d.name, d.nickname, d.birth, d.gender, d.phoneNum,
         d.socialAuth.GetOr("none"), d.status.GetOr("active"), now)
  }

  /** The defaults are themselves allowed enum values. */
  lemma DefaultsInEnums()
    ensures "none" in SocialAuths && "active" in Statuses
  {
  }
}
