/**
 * src/database/repository/recipe_repository.py over an in-memory
 * `like_recipe` table: saved recipes are rows with an owner, the recipe
 * itself and a `status` flag that a soft delete clears.
 *
 * The recipe column holds `json.dumps` of a dict, read back with
 * `json.loads`; for the decoded values handled here the two are inverse, so
 * the column is kept as the dict itself. `created_at` is the server time of
 * the insert, given as `now`.
 */
module RecipeRepo {
  import opened PyJson
  import RecipeService

  /** One row of `like_recipe`. */
  datatype LikeRecipe = LikeRecipe(id: int, userId: int, recipe: map<string, Json>, status: bool, createdAt: int)

  /** What `save_recipe_data` returns. */
  datatype SavedRecipe = SavedRecipe(id: int, recipe: map<string, Json>, status: bool)

  /** One element of what `get_recipes_by_user` returns. */
  datatype RecipeView = RecipeView(id: int, recipe: map<string, Json>)

  /** Line 16: the recipe without the provider tag the AI service added. */
  function Clean(data: map<string, Json>): (r: map<string, Json>)
    ensures RecipeService.ProviderKey !in r
    ensures forall k :: k in r <==> k in data && k != RecipeService.ProviderKey
    ensures forall k :: k in r ==> r[k] == data[k]
  {
    map k | k in data && k != RecipeService.ProviderKey :: data[k]
  }

  /** Cleaning is idempotent, and a recipe without the tag is stored as it is. */
  lemma CleanIdempotent(data: map<string, Json>)
    ensures Clean(Clean(data)) == Clean(data)
    ensures RecipeService.ProviderKey !in data ==> Clean(data) == data
  {
  }

  /** A row the user still keeps. */
  predicate IsLive(x: LikeRecipe, userId: int) {
    x.userId == userId && x.status
  }

  /** The user's live rows, in table order. */
  function Active(rows: seq<LikeRecipe>, userId: int): (r: seq<LikeRecipe>)
    ensures |r| <= |rows|
    ensures forall x :: x in r <==> x in rows && IsLive(x, userId)
  {
    if rows == [] then []
    else (if IsLive(rows[0], userId) then [rows[0]] else []) + Active(rows[1..], userId)
  }

  /** Newest first by `created_at`. */
  predicate NewestFirst(xs: seq<LikeRecipe>) {
    forall i, j :: 0 <= i < j < |xs| ==> xs[i].createdAt >= xs[j].createdAt
  }

  /** `x` placed into a newest-first list after every row at least as new. */
  function InsertByAge(x: LikeRecipe, xs: seq<LikeRecipe>): (r: seq<LikeRecipe>)
    ensures |r| == |xs| + 1 && multiset(r) == multiset(xs) + multiset{x}
  {
    if xs == [] || xs[0].createdAt < x.createdAt then [x] + xs
    else
      var rest := InsertByAge(x, xs[1..]);
      assert xs == [xs[0]] + xs[1..];
      [xs[0]] + rest
  }

  /** `ORDER BY created_at DESC`; rows with equal timestamps keep their table order. */
  function SortNewest(xs: seq<LikeRecipe>): (r: seq<LikeRecipe>)
    ensures |r| == |xs| && multiset(r) == multiset(xs)
  {
    if xs == [] then []
    else
      assert xs == [xs[0]] + xs[1..];
      InsertByAge(xs[0], SortNewest(xs[1..]))
  }

  /** Inserting a row no newer than `t` into rows no newer than `t` keeps them all no newer than `t`. */
  lemma {:induction false} InsertByAgeBound(x: LikeRecipe, xs: seq<LikeRecipe>, t: int)
    requires x.createdAt <= t && forall y :: y in xs ==> y.createdAt <= t
    ensures forall y :: y in InsertByAge(x, xs) ==> y.createdAt <= t
  {
    if xs != [] && xs[0].createdAt >= x.createdAt {
      InsertByAgeBound(x, xs[1..], t);
    }
  }

  /** A newest-first list stays newest first without its head. */
  lemma NewestFirstTail(xs: seq<LikeRecipe>)
    requires xs != [] && NewestFirst(xs)
    ensures NewestFirst(xs[1..])
    ensures forall y :: y in xs[1..] ==> y.createdAt <= xs[0].createdAt
  {
    var tail := xs[1..];
    forall i, j | 0 <= i < j < |tail| ensures tail[i].createdAt >= tail[j].createdAt {
      assert tail[i] == xs[i + 1] && tail[j] == xs[j + 1];
    }
    forall y | y in tail ensures y.createdAt <= xs[0].createdAt {
      var k :| 0 <= k < |tail| && tail[k] == y;
      assert xs[k + 1] == y;
    }
  }

  /** A row at least as new as every row of a newest-first list can go in front of it. */
  lemma ConsNewestFirst(h: LikeRecipe, rest: seq<LikeRecipe>)
    requires NewestFirst(rest) && forall y :: y in rest ==> y.createdAt <= h.createdAt
    ensures NewestFirst([h] + rest)
  {
    var r := [h] + rest;
    forall i, j | 0 <= i < j < |r| ensures r[i].createdAt >= r[j].createdAt {
      assert r[j] == rest[j - 1] && rest[j - 1] in rest;
      if i > 0 {
        assert r[i] == rest[i - 1];
      }
    }
  }

  lemma {:induction false} InsertByAgeSorted(x: LikeRecipe, xs: seq<LikeRecipe>)
    requires NewestFirst(xs)
    ensures NewestFirst(InsertByAge(x, xs))
  {
    if xs == [] {
    } else if xs[0].createdAt < x.createdAt {
      forall y | y in xs ensures y.createdAt <= x.createdAt {
        var k :| 0 <= k < |xs| && xs[k] == y;
        assert xs[0].createdAt >= xs[k].createdAt;
      }
      ConsNewestFirst(x, xs);
    } else {
      NewestFirstTail(xs);
      InsertByAgeSorted(x, xs[1..]);
      InsertByAgeBound(x, xs[1..], xs[0].createdAt);
      ConsNewestFirst(xs[0], InsertByAge(x, xs[1..]));
    }
  }

  /** The order `get_recipes_by_user` gives is newest first. */
  lemma {:induction false} SortNewestSorted(xs: seq<LikeRecipe>)
    ensures NewestFirst(SortNewest(xs))
  {
    if xs != [] {
      SortNewestSorted(xs[1..]);
      InsertByAgeSorted(xs[0], SortNewest(xs[1..]));
    }
  }

  function View(x: LikeRecipe): (v: RecipeView)
    ensures v.id == x.id && v.recipe == x.recipe
  {
    RecipeView(x.id, x.recipe)
  }

  function Views(xs: seq<LikeRecipe>): (r: seq<RecipeView>)
    ensures |r| == |xs| && forall i :: 0 <= i < |xs| ==> r[i] == View(xs[i])
  {
    if xs == [] then [] else [View(xs[0])] + Views(xs[1..])
  }

  /** The rows `soft_delete_recipe` clears: that id, that owner, still live. */
  predicate Matches(x: LikeRecipe, userId: int, recipeId: int) {
    x.id == recipeId && IsLive(x, userId)
  }

  /** The table after the `UPDATE ... SET status = false` of lines 56-62. */
  function SoftDeleted(rows: seq<LikeRecipe>, userId: int, recipeId: int): (r: seq<LikeRecipe>)
    ensures |r| == |rows|
    ensures forall i :: 0 <= i < |rows| ==> r[i] == if Matches(rows[i], userId, recipeId) then rows[i].(status := false) else rows[i]
  {
    seq(|rows|, i requires 0 <= i < |rows| => if Matches(rows[i], userId, recipeId) then rows[i].(status := false) else rows[i])
  }

  /** After a soft delete nothing matches any more: deleting the same recipe again reports false. */
  lemma SoftDeleteTwice(rows: seq<LikeRecipe>, userId: int, recipeId: int)
    ensures forall x :: x in SoftDeleted(rows, userId, recipeId) ==> !Matches(x, userId, recipeId)
  {
  }

  /** A soft-deleted recipe no longer appears among the user's recipes, and every other live recipe still does. */
  lemma {:induction false} SoftDeletedHidden(rows: seq<LikeRecipe>, userId: int, recipeId: int)
    ensures forall x :: x in Active(SoftDeleted(rows, userId, recipeId), userId) <==>
      x in Active(rows, userId) && x.id != recipeId
  {
    var after := SoftDeleted(rows, userId, recipeId);
    forall x ensures x in after && IsLive(x, userId) <==> x in rows && IsLive(x, userId) && x.id != recipeId {
      if x in after && IsLive(x, userId) {
        var i :| 0 <= i < |after| && after[i] == x;
        assert !Matches(rows[i], userId, recipeId);
      }
      if x in rows && IsLive(x, userId) && x.id != recipeId {
        var i :| 0 <= i < |rows| && rows[i] == x;
        assert after[i] == x;
      }
    }
  }

  /** Rows of other users, and other recipes, are untouched by a soft delete. */
  lemma SoftDeleteLeavesOthers(rows: seq<LikeRecipe>, userId: int, recipeId: int, i: int)
    requires 0 <= i < |rows| && (rows[i].userId != userId || rows[i].id != recipeId)
    ensures SoftDeleted(rows, userId, recipeId)[i] == rows[i]
  {
  }

  /** `RecipeRepository` with its table; `nextId` is the key the sequence hands out next. */
  class RecipeRepository {
    var rows: seq<LikeRecipe>
    var nextId: int

    ghost predicate Valid()
      reads this
    {
      forall i :: 0 <= i < |rows| ==> rows[i].id < nextId
    }

    constructor()
      ensures Valid() && rows == [] && nextId == 1
    {
      rows := [];
      nextId := 1;
    }

    /** `save_recipe_data` (lines 15-34): a live row holding the cleaned recipe, which is also what is returned. */
    method SaveRecipeData(userId: int, data: map<string, Json>, now: int) returns (r: SavedRecipe)
      requires Valid()
      modifies this
      ensures Valid()
      ensures r == SavedRecipe(old(nextId), Clean(data), true)
      ensures rows == old(rows) + [LikeRecipe(old(nextId), userId, Clean(data), true, now)]
      ensures nextId == old(nextId) + 1
    {
      var row := LikeRecipe(nextId, userId, Clean(data), true, now);
      rows := rows + [row];
      nextId := nextId + 1;
      r := SavedRecipe(row.id, row.recipe, row.status);
    }

    /** `get_recipes_by_user` (lines 36-53): the user's live recipes, newest first. */
    function GetRecipesByUser(userId: int): (r: seq<RecipeView>)
      reads this
      ensures |r| == |Active(rows, userId)|
      ensures forall v :: v in r <==> exists x :: x in rows && IsLive(x, userId) && v == View(x)
      ensures exists s :: NewestFirst(s) && multiset(s) == multiset(Active(rows, userId)) && r == Views(s)
    {
      var s := SortNewest(Active(rows, userId));
      SortNewestSorted(Active(rows, userId));
      assert forall x :: x in s <==> x in Active(rows, userId) by {
        forall x ensures x in s <==> x in Active(rows, userId) {
          assert x in s <==> x in multiset(s);
        }
      }
      assert forall v :: v in Views(s) <==> exists x :: x in s && v == View(x) by {
        forall v | v in Views(s) ensures exists x :: x in s && v == View(x) {
          var i :| 0 <= i < |Views(s)| && Views(s)[i] == v;
          assert s[i] in s;
        }
      }
      Views(s)
    }

    /** `soft_delete_recipe` (lines 55-67): clears `status` on the matching row and reports whether there was one. */
    method SoftDeleteRecipe(userId: int, recipeId: int) returns (deleted: bool)
      requires Valid()
      modifies this
      ensures Valid() && nextId == old(nextId)
      ensures rows == SoftDeleted(old(rows), userId, recipeId)
      ensures deleted <==> exists x :: x in old(rows) && Matches(x, userId, recipeId)
    {
      deleted := exists x :: x in rows && Matches(x, userId, recipeId);
      rows := SoftDeleted(rows, userId, recipeId);
    }
  }
}
