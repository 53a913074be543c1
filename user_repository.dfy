/**
 * src/database/repository/user_repository.py over an in-memory `users`
 * table. The database session is the sequence `rows`; a lookup may be
 * told that the database failed (`DbFault`), and a commit that breaks a
 * column or uniqueness constraint is refused and leaves the table as it was.
 * `commit_with_error_handling` is not part of this model: a refused commit
 * is taken to raise an exception of its own class (`CommitFailed`).
 */
module UserRepo {
  import opened Wrappers
  import opened Errors
  import opened Orm

  /** The columns the repository looks users up by. */
  datatype Field = Email | Nickname

  function FieldOf(u: User, f: Field): string {
    match f
    case Email => u.email
    case Nickname => u.nickname
  }

  /** How the query went at the database: normally, with an `SQLAlchemyError`, or with any other error. */
  datatype DbFault = NoFault | SqlError(message: string) | OtherError(message: string)

  /** The rows whose field `f` equals `value`, in table order. */
  function Matching(rows: seq<User>, f: Field, value: string): (r: seq<User>)
    ensures |r| <= |rows|
    ensures forall u :: u in r <==> u in rows && FieldOf(u, f) == value
    ensures (forall u :: u in rows ==> FieldOf(u, f) != value) ==> r == []
  {
    if rows == [] then []
    else (if FieldOf(rows[0], f) == value then [rows[0]] else []) + Matching(rows[1..], f, value)
  }

  /** In a valid table no two rows share an email or a nickname, so a lookup matches at most one row. */
  lemma {:induction false} UniqueMatch(rows: seq<User>, f: Field, value: string)
    requires TableValid(rows)
    ensures |Matching(rows, f, value)| <= 1
  {
    if rows != [] {
      var tail := rows[1..];
      assert TableValid(tail) by {
        forall i, j | 0 <= i < j < |tail| ensures !Clash(tail[i], tail[j]) {
          assert tail[i] == rows[i + 1] && tail[j] == rows[j + 1];
        }
      }
      UniqueMatch(tail, f, value);
      if FieldOf(rows[0], f) == value {
        NoMatchAfterFirst(rows, f, value);
      }
    }
  }

  /** When the first row matches, no later row of a valid table does. */
  lemma NoMatchAfterFirst(rows: seq<User>, f: Field, value: string)
    requires TableValid(rows) && rows != [] && FieldOf(rows[0], f) == value
    ensures Matching(rows[1..], f, value) == []
  {
    forall x | x in rows[1..] ensures FieldOf(x, f) != value {
      var k :| 0 <= k < |rows[1..]| && rows[1..][k] == x;
      assert rows[k + 1] == x;
    }
  }

  /** In a valid table the email identifies the row. */
  lemma OneRowPerEmail(rows: seq<User>, u: User, v: User)
    requires TableValid(rows) && u in rows && v in rows && u.email == v.email
    ensures u == v
  {
    var i :| 0 <= i < |rows| && rows[i] == u;
    var j :| 0 <= j < |rows| && rows[j] == v;
    if i < j {
      assert Clash(rows[i], rows[j]);
    } else if j < i {
      assert Clash(rows[j], rows[i]);
    }
  }

  /** `scalar_one_or_none` over the matching rows: more than one match is an `SQLAlchemyError`. */
  function ScalarOneOrNone(matches: seq<User>): (r: Result<Option<User>, string>)
    ensures |matches| == 0 ==> r == Ok(None)
    ensures |matches| == 1 ==> r == Ok(Some(matches[0]))
    ensures |matches| > 1 <==> r.Err?
  {
    if |matches| == 0 then Ok(None)
    else if |matches| == 1 then Ok(Some(matches[0]))
    else Err("Multiple rows were found when one or none was required")
  }

  /** `_get_user_by_field` (lines 19-28) on a given table. */
  function GetUserByField(rows: seq<User>, f: Field, value: string, fault: DbFault): (r: Result<Option<User>, Exc>)
    ensures fault.SqlError? ==> r == Err(External(Database, Some("DB 조회 오류: " + fault.message)))
    ensures fault.OtherError? ==> r == Err(RaiseUnexpected("예기치 못한 에러: " + fault.message))
    ensures fault.NoFault? && TableValid(rows) ==> r.Ok?
    ensures r.Ok? && r.value.Some? ==> r.value.value in rows && FieldOf(r.value.value, f) == value
    ensures r.Ok? && r.value.None? ==> forall u :: u in rows ==> FieldOf(u, f) != value
  {
    match fault
    case SqlError(m) => Err(External(Database, Some("DB 조회 오류: " + m)))
    case OtherError(m) => Err(RaiseUnexpected("예기치 못한 에러: " + m))
    case NoFault =>
      assert TableValid(rows) ==> |Matching(rows, f, value)| <= 1 by {
        if TableValid(rows) { UniqueMatch(rows, f, value); }
      }
      var matches := Matching(rows, f, value);
      match ScalarOneOrNone(matches)
      case Err(m) => Err(External(Database, Some("DB 조회 오류: " + m)))
      case Ok(found) =>
        assert found.Some? ==> found.value in matches;
        Ok(found)
  }

  const CommitFailedError: Exc := External(CommitFailed, None)

  /** `UserRepository` with its table. `nextId` is the value the key sequence hands out next. */
  class UserRepository {
    var rows: seq<User>
    var nextId: int

    ghost predicate Valid()
      reads this
    {
      TableValid(rows) && forall i :: 0 <= i < |rows| ==> rows[i].id < nextId
    }

    constructor()
      ensures Valid() && rows == [] && nextId == 1
    {
      rows := [];
      nextId := 1;
    }

    function GetUserByEmail(email: string, fault: DbFault): Result<Option<User>, Exc>
      reads this
    {
      GetUserByField(rows, Email, email, fault)
    }

    function GetUserByNickname(nickname: string, fault: DbFault): Result<Option<User>, Exc>
      reads this
    {
      GetUserByField(rows, Nickname, nickname, fault)
    }

    /** `save_user` (lines 36-40): the row gets the next key and the server timestamp; a row the constraints refuse is not stored. */
    method SaveUser(d: UserDraft, now: int) returns (r: Result<User, Exc>)
      requires Valid()
      modifies this
      ensures Valid()
      ensures var u := Materialise(d, old(nextId), now);
        if Admissible(old(rows), u) then r == Ok(u) && rows == old(rows) + [u] && nextId == old(nextId) + 1
        else r == Err(CommitFailedError) && rows == old(rows) && nextId == old(nextId)
    {
      var u := Materialise(d, nextId, now);
      InsertKeepsTableValid(rows, u);
      if !Admissible(rows, u) {
        return Err(CommitFailedError);
      }
      rows := rows + [u];
      nextId := nextId + 1;
      r := Ok(u);
    }

    /** `update_password` (lines 42-45): only the password of the row with that key changes. */
    method UpdatePassword(id: int, hashed: string) returns (r: Result<(), Exc>)
      requires Valid()
      modifies this
      ensures Valid() && nextId == old(nextId) && |rows| == |old(rows)|
      ensures r.Ok? <==> |hashed| <= 128
      ensures r.Ok? ==> forall i :: 0 <= i < |rows| ==>
        rows[i] == if old(rows)[i].id == id then old(rows)[i].(password := hashed) else old(rows)[i]
      ensures r.Err? ==> rows == old(rows)
    {
      if |hashed| > 128 {
        return Err(CommitFailedError);
      }
      var updated := seq(|rows|, k requires 0 <= k < |rows| reads this =>
        if rows[k].id == id then rows[k].(password := hashed) else rows[k]);
      assert TableValid(updated) by {
        forall a, b | 0 <= a < b < |updated| ensures !Clash(updated[a], updated[b]) {
          assert !Clash(rows[a], rows[b]);
        }
      }
      rows := updated;
      r := Ok(());
    }
  }
}
