/**
 * src/service/ingredient_service.py: a user's ingredients.
 *
 * The user behind the access token (`get_user_by_token`) is an
 * `Errors.UserLookup`. `get_current_user` neither wraps its exception nor
 * checks for `None`, so every operation reads `.id` of whatever it returned.
 */
module IngredientSvc {
  import opened Wrappers
  import opened Errors
  import opened Orm
  import opened Requests
  import opened IngredientRepo

  /** `get_current_user` (lines 17-18) followed by `.id`. */
  function CurrentUserId(lookup: UserLookup<User>): (r: Result<int, Exc>)
    ensures r.Ok? <==> lookup.Returned? && lookup.user.Some?
    ensures r.Ok? ==> r.value == lookup.user.value.id
    ensures lookup.Raised? ==> r == Err(lookup.e)
    ensures lookup == Returned(None) ==> r == Err(MissingAttribute("NoneType", "id"))
  {
    match lookup
    case Raised(e) => Err(e)
    case Returned(None) => Err(MissingAttribute("NoneType", "id"))
    case Returned(Some(u)) => Ok(u.id)
  }

  /**
   * `create_ingredient` (lines 20-31) as written: it reads
   * `request.ingredient_name`, `category_id` and `purchase_date`, but
   * `IngredientRequest` declares only `name`, so once the user is known the
   * call raises `AttributeError` before anything is stored.
   */
  function CreateAsWritten(lookup: UserLookup<User>, request: IngredientRequest): (r: Result<Ingredient, Exc>)
    ensures r.Err?
    ensures CurrentUserId(lookup).Err? ==> r.error == CurrentUserId(lookup).error
    ensures CurrentUserId(lookup).Ok? ==> r.error == MissingAttribute("IngredientRequest", "ingredient_name")
  {
    match CurrentUserId(lookup)
    case Err(e) => Err(e)
    case Ok(_) => Err(MissingAttribute("IngredientRequest", "ingredient_name"))
  }

  /** The request `create_ingredient` evidently expects: the three fields it reads. */
  datatype IngredientInput = IngredientInput(ingredientName: string, categoryId: int, purchaseDate: Date)

  /** `IngredientService` with its repository. */
  class IngredientService {
    const repo: IngredientRepository

    constructor(repo: IngredientRepository)
      ensures this.repo == repo
    {
      this.repo := repo;
    }

    /** `create_ingredient` (lines 20-31) on a request that has the fields it reads: the new row is the
        user's, and it comes last in the user's list. */
    method CreateIngredient(lookup: UserLookup<User>, request: IngredientInput) returns (r: Result<Ingredient, Exc>)
      requires repo.Valid()
      modifies repo
      ensures repo.Valid()
      ensures r.Ok? <==> CurrentUserId(lookup).Ok?
      ensures r.Err? ==> r.error == CurrentUserId(lookup).error && unchanged(repo)
      ensures r.Ok? ==> r.value == Ingredient(old(repo.nextId), CurrentUserId(lookup).value,
                                              request.ingredientName, request.categoryId, request.purchaseDate)
      ensures r.Ok? ==> repo.rows == old(repo.rows) + [r.value]
      ensures r.Ok? ==> repo.GetIngredients(r.value.userId) == old(repo.GetIngredients(r.value.userId)) + [r.value]
    {
      var user := CurrentUserId(lookup);
      if user.Err? {
        r := Err(user.error);
        return;
      }
      var row := repo.CreateIngredient(IngredientDraft(user.value, request.ingredientName, request.categoryId, request.purchaseDate));
      r := Ok(row);
    }

    /** `get_detail_ingredients` (lines 33-37): the user's ingredients. */
    function GetDetailIngredients(lookup: UserLookup<User>): (r: Result<seq<Ingredient>, Exc>)
      reads this, repo
      ensures r.Ok? <==> CurrentUserId(lookup).Ok?
      ensures r.Err? ==> r.error == CurrentUserId(lookup).error
      ensures r.Ok? ==> forall x :: x in r.value <==> x in repo.rows && x.userId == CurrentUserId(lookup).value
    {
      match CurrentUserId(lookup)
      case Err(e) => Err(e)
      case Ok(id) => Ok(repo.GetIngredients(id))
    }

    /** `get_ingredients` (lines 39-45): the names of the same ingredients, one per row, in the same order. */
    function GetIngredients(lookup: UserLookup<User>): (r: Result<seq<string>, Exc>)
      reads this, repo
      ensures r.Ok? <==> GetDetailIngredients(lookup).Ok?
      ensures r.Err? ==> r.error == CurrentUserId(lookup).error
      ensures r.Ok? ==> |r.value| == |GetDetailIngredients(lookup).value|
      ensures r.Ok? ==> forall i :: 0 <= i < |r.value| ==> r.value[i] == GetDetailIngredients(lookup).value[i].ingredientName
    {
      match GetDetailIngredients(lookup)
      case Err(e) => Err(e)
      case Ok(rows) => Ok(seq(|rows|, i requires 0 <= i < |rows| => rows[i].ingredientName))
    }

    /** `delete_ingredient` (lines 47-52): removes the user's ingredient, or raises
        `IngredientNotFoundException` when the user has none with that id. */
    method DeleteIngredient(lookup: UserLookup<User>, ingredientId: int) returns (r: Result<(), Exc>)
      requires repo.Valid()
      modifies repo
      ensures repo.Valid()
      ensures CurrentUserId(lookup).Err? ==> r == Err(CurrentUserId(lookup).error) && unchanged(repo)
      ensures CurrentUserId(lookup).Ok? ==>
        repo.rows == Without(old(repo.rows), CurrentUserId(lookup).value, ingredientId)
      ensures CurrentUserId(lookup).Ok? ==>
        (r.Ok? <==> exists x :: x in old(repo.rows) && Matches(x, CurrentUserId(lookup).value, ingredientId))
      ensures CurrentUserId(lookup).Ok? && r.Err? ==> r.error == External(IngredientNotFound, None)
    {
      var user := CurrentUserId(lookup);
      if user.Err? {
        r := Err(user.error);
        return;
      }
      var success := repo.DeleteIngredient(user.value, ingredientId);
      if !success {
        r := Err(External(IngredientNotFound, None));
        return;
      }
      r := Ok(());
    }
  }
}
