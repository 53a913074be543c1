/**
 * src/database/repository/ingredient_repository.py over an in-memory
 * `ingredient` table. The mapped class `Ingredient` is not defined in
 * src/database/orm.py; its columns are the ones the service fills in.
 */
module IngredientRepo {
  import opened Wrappers
  import opened Orm

  /** One row of `ingredient`. */
  datatype Ingredient = Ingredient(id: int, userId: int, ingredientName: string, categoryId: int, purchaseDate: Date)

  /** An `Ingredient` object before the insert gives it its id. */
  datatype IngredientDraft = IngredientDraft(userId: int, ingredientName: string, categoryId: int, purchaseDate: Date)

  /** `WHERE user_id = userId`, in table order. */
  function OwnedBy(rows: seq<Ingredient>, userId: int): (r: seq<Ingredient>)
    ensures |r| <= |rows|
    ensures forall x :: x in r <==> x in rows && x.userId == userId
  {
    if rows == [] then []
    else (if rows[0].userId == userId then [rows[0]] else []) + OwnedBy(rows[1..], userId)
  }

  /** The rows `delete_ingredient` and `get_ingredient_by_id` select: that id, that owner. */
  predicate Matches(x: Ingredient, userId: int, ingredientId: int) {
    x.userId == userId && x.id == ingredientId
  }

  /** The table after `DELETE ... WHERE user_id = userId AND id = ingredientId`. */
  function Without(rows: seq<Ingredient>, userId: int, ingredientId: int): (r: seq<Ingredient>)
    ensures |r| <= |rows|
    ensures forall x :: x in r <==> x in rows && !Matches(x, userId, ingredientId)
    ensures |r| == |rows| <==> forall x :: x in rows ==> !Matches(x, userId, ingredientId)
  {
    if rows == [] then []
    else
      var rest := Without(rows[1..], userId, ingredientId);
      assert forall x :: x in rows <==> x == rows[0] || x in rows[1..];
      if Matches(rows[0], userId, ingredientId) then rest else [rows[0]] + rest
  }

  /** The primary key: no two rows share an id. */
  predicate DistinctIds(rows: seq<Ingredient>) {
    forall i, j :: 0 <= i < j < |rows| ==> rows[i].id != rows[j].id
  }

  /** Under the primary key, two rows with the same id are the same row. */
  lemma SameIdSameRow(rows: seq<Ingredient>, x: Ingredient, y: Ingredient)
    requires DistinctIds(rows) && x in rows && y in rows && x.id == y.id
    ensures x == y
  {
    var i :| 0 <= i < |rows| && rows[i] == x;
    var j :| 0 <= j < |rows| && rows[j] == y;
    assert !(i < j) && !(j < i);
  }

  /** A delete keeps the primary key. */
  lemma {:induction false} WithoutKeepsDistinct(rows: seq<Ingredient>, userId: int, ingredientId: int)
    requires DistinctIds(rows)
    ensures DistinctIds(Without(rows, userId, ingredientId))
  {
    if rows != [] {
      var rest := Without(rows[1..], userId, ingredientId);
      assert DistinctIds(rows[1..]) by {
        forall i, j | 0 <= i < j < |rows[1..]| ensures rows[1..][i].id != rows[1..][j].id {
          assert rows[1..][i] == rows[i + 1] && rows[1..][j] == rows[j + 1];
        }
      }
      WithoutKeepsDistinct(rows[1..], userId, ingredientId);
      if !Matches(rows[0], userId, ingredientId) {
        forall j | 0 <= j < |rest| ensures rows[0].id != rest[j].id {
          assert rest[j] in rest;
          var k :| 0 <= k < |rows[1..]| && rows[1..][k] == rest[j];
          assert rows[k + 1] == rest[j];
        }
        var r := [rows[0]] + rest;
        forall i, j | 0 <= i < j < |r| ensures r[i].id != r[j].id {
          if i == 0 {
            assert r[j] == rest[j - 1];
          } else {
            assert r[i] == rest[i - 1] && r[j] == rest[j - 1];
          }
        }
      }
    }
  }

  /** A delete touches no other user's list: each keeps its rows in their order. */
  lemma {:induction false} DeleteKeepsOthers(rows: seq<Ingredient>, userId: int, ingredientId: int, other: int)
    requires other != userId
    ensures OwnedBy(Without(rows, userId, ingredientId), other) == OwnedBy(rows, other)
  {
    if rows != [] {
      DeleteKeepsOthers(rows[1..], userId, ingredientId, other);
    }
  }

  /** The owner's list loses exactly the deleted ingredient. */
  lemma DeleteFromOwner(rows: seq<Ingredient>, userId: int, ingredientId: int)
    ensures forall x :: x in OwnedBy(Without(rows, userId, ingredientId), userId) <==>
      x in OwnedBy(rows, userId) && x.id != ingredientId
  {
  }

  /** Once deleted, the ingredient is gone: a second delete finds nothing. */
  lemma DeleteTwice(rows: seq<Ingredient>, userId: int, ingredientId: int)
    ensures Without(Without(rows, userId, ingredientId), userId, ingredientId) == Without(rows, userId, ingredientId)
  {
    var once := Without(rows, userId, ingredientId);
    WithoutNothing(once, userId, ingredientId);
  }

  /** Deleting what is not there leaves the table as it is. */
  lemma {:induction false} WithoutNothing(rows: seq<Ingredient>, userId: int, ingredientId: int)
    requires forall x :: x in rows ==> !Matches(x, userId, ingredientId)
    ensures Without(rows, userId, ingredientId) == rows
  {
    if rows != [] {
      WithoutNothing(rows[1..], userId, ingredientId);
      assert rows == [rows[0]] + rows[1..];
    }
  }

  /** `IngredientRepository` with its table; `nextId` is the key the sequence hands out next. */
  class IngredientRepository {
    var rows: seq<Ingredient>
    var nextId: int

    ghost predicate Valid()
      reads this
    {
      (forall x :: x in rows ==> x.id < nextId) && DistinctIds(rows)
    }

    constructor()
      ensures Valid() && rows == [] && nextId == 1
    {
      rows := [];
      nextId := 1;
    }

    /** `create_ingredient` (lines 13-17): the row with a fresh id, which is also what is returned. */
    method CreateIngredient(d: IngredientDraft) returns (r: Ingredient)
      requires Valid()
      modifies this
      ensures Valid()
      ensures r == Ingredient(old(nextId), d.userId, d.ingredientName, d.categoryId, d.purchaseDate)
      ensures rows == old(rows) + [r] && nextId == old(nextId) + 1
      ensures GetIngredients(d.userId) == old(GetIngredients(d.userId)) + [r]
    {
      r := Ingredient(nextId, d.userId, d.ingredientName, d.categoryId, d.purchaseDate);
      OwnedByAppend(rows, r);
      assert forall i :: 0 <= i < |rows| ==> rows[i] in rows;
      rows := rows + [r];
      nextId := nextId + 1;
    }

    /** `get_ingredients` (lines 19-22): the user's rows. */
    function GetIngredients(userId: int): (r: seq<Ingredient>)
      reads this
      ensures forall x :: x in r <==> x in rows && x.userId == userId
    {
      OwnedBy(rows, userId)
    }

    /** `get_ingredients_by_user` (lines 24-25): the same rows, chosen by the user object's id. */
    function GetIngredientsByUser(user: User): (r: seq<Ingredient>)
      reads this
      ensures forall x :: x in r <==> x in rows && x.userId == user.id
    {
      GetIngredients(user.id)
    }

    /** `get_ingredient_by_id` (lines 27-32): the user's row with that id, or `None`. */
    function GetIngredientById(userId: int, ingredientId: int): (r: Option<Ingredient>)
      reads this
      ensures r.Some? ==> r.value in rows && Matches(r.value, userId, ingredientId)
      ensures r.None? <==> forall x :: x in rows ==> !Matches(x, userId, ingredientId)
    {
      FirstMatch(rows, userId, ingredientId)
    }

    /** `delete_ingredient` (lines 34-40): removes the user's row with that id; `rowcount > 0` says whether
        there was one. */
    method DeleteIngredient(userId: int, ingredientId: int) returns (deleted: bool)
      requires Valid()
      modifies this
      ensures Valid() && nextId == old(nextId)
      ensures rows == Without(old(rows), userId, ingredientId)
      ensures deleted <==> exists x :: x in old(rows) && Matches(x, userId, ingredientId)
      ensures GetIngredientById(userId, ingredientId).None?
    {
      var after := Without(rows, userId, ingredientId);
      WithoutKeepsDistinct(rows, userId, ingredientId);
      deleted := |after| < |rows|;
      rows := after;
    }
  }

  function FirstMatch(rows: seq<Ingredient>, userId: int, ingredientId: int): (r: Option<Ingredient>)
    ensures r.Some? ==> r.value in rows && Matches(r.value, userId, ingredientId)
    ensures r.None? <==> forall x :: x in rows ==> !Matches(x, userId, ingredientId)
  {
    if rows == [] then None
    else if Matches(rows[0], userId, ingredientId) then Some(rows[0])
    else FirstMatch(rows[1..], userId, ingredientId)
  }

  /** Under the primary key the row `get_ingredient_by_id` finds is the only one that matches, as
      `scalar_one_or_none` requires. */
  lemma OnlyMatch(rows: seq<Ingredient>, userId: int, ingredientId: int)
    requires DistinctIds(rows)
    ensures var r := FirstMatch(rows, userId, ingredientId);
      r.Some? ==> forall x :: x in rows && Matches(x, userId, ingredientId) ==> x == r.value
  {
    var r := FirstMatch(rows, userId, ingredientId);
    if r.Some? {
      forall x | x in rows && Matches(x, userId, ingredientId) ensures x == r.value {
        SameIdSameRow(rows, x, r.value);
      }
    }
  }

  lemma {:induction false} OwnedByAppend(rows: seq<Ingredient>, x: Ingredient)
    ensures OwnedBy(rows + [x], x.userId) == OwnedBy(rows, x.userId) + [x]
  {
    if rows == [] {
      assert rows + [x] == [x];
    } else {
      assert (rows + [x])[1..] == rows[1..] + [x];
      OwnedByAppend(rows[1..], x);
    }
  }
}
