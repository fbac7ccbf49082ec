/** The recipe manager screen: its `deleteRecipe` and `viewRecipe` handlers as pure
    transitions, over an in-memory list and the persisted collection. */
module RecipeManager {
  import opened Wrappers
  import opened NutritionTypes
  import opened Aggregator
  import RecipeBuilder

  /** The screen's state: the displayed list, the expanded recipe (if any) and the
      persisted collection. */
  datatype ManagerState = ManagerState(
    recipes: seq<Recipe>,
    selectedRecipe: Option<Recipe>,
    stored: seq<Recipe>)

  /** The in-memory list mirrors the persisted collection. */
  predicate InSync(s: ManagerState)
  {
    s.recipes == s.stored
  }

  /** The mount effect: read the persisted collection into the list, nothing selected. */
  function Load(stored: seq<Recipe>): (r: ManagerState)
    ensures InSync(r) && r.selectedRecipe == None && r.stored == stored
  {
    ManagerState(stored, None, stored)
  }

  /** True when some recipe of `xs` has identifier `id`. */
  predicate HasId(xs: seq<Recipe>, id: string)
  {
    exists k :: 0 <= k < |xs| && xs[k].id == id
  }

  /** The recipes of `xs` whose identifier is not `id`, in their original order. */
  function WithoutId(xs: seq<Recipe>, id: string): (r: seq<Recipe>)
    ensures forall k :: 0 <= k < |r| ==> r[k].id != id
    ensures forall x :: x in r <==> x in xs && x.id != id
    ensures |r| <= |xs|
  {
    if |xs| == 0 then []
    else if xs[0].id == id then WithoutId(xs[1..], id)
    else [xs[0]] + WithoutId(xs[1..], id)
  }

  /** `deleteRecipe(id)`: drop every recipe with that identifier, persist the result and
      close the expanded recipe if it is the deleted one. */
  function DeleteRecipe(s: ManagerState, id: string): (r: ManagerState)
    ensures InSync(r)
    ensures r.recipes == WithoutId(s.recipes, id)
    ensures !HasId(r.recipes, id)
    ensures forall x :: x in r.recipes <==> x in s.recipes && x.id != id
    ensures s.selectedRecipe.Some? && s.selectedRecipe.value.id == id ==> r.selectedRecipe == None
    ensures !(s.selectedRecipe.Some? && s.selectedRecipe.value.id == id) ==>
      r.selectedRecipe == s.selectedRecipe
  {
    var updated := WithoutId(s.recipes, id);
    var selected := if s.selectedRecipe.Some? && s.selectedRecipe.value.id == id then None
                    else s.selectedRecipe;
    ManagerState(updated, selected, updated)
  }

  /** `viewRecipe(recipe)`: close it when a recipe with its identifier is expanded,
      otherwise expand it. */
  function ViewRecipe(s: ManagerState, recipe: Recipe): (r: ManagerState)
    ensures r.recipes == s.recipes && r.stored == s.stored
    ensures r.selectedRecipe.None? <==> s.selectedRecipe.Some? && s.selectedRecipe.value.id == recipe.id
    ensures r.selectedRecipe.Some? ==> r.selectedRecipe.value == recipe
  {
    s.(selectedRecipe := if s.selectedRecipe.Some? && s.selectedRecipe.value.id == recipe.id
                         then None else Some(recipe))
  }

  /** Filtering distributes over concatenation, so survivors keep their relative order. */
  lemma {:induction false} WithoutIdAppend(xs: seq<Recipe>, ys: seq<Recipe>, id: string)
    ensures WithoutId(xs + ys, id) == WithoutId(xs, id) + WithoutId(ys, id)
    decreases |xs|
  {
    if |xs| == 0 {
      assert xs + ys == ys;
    } else {
      assert (xs + ys)[1..] == xs[1..] + ys;
      WithoutIdAppend(xs[1..], ys, id);
    }
  }

  /** A list without `id` has neither a head nor a tail with `id`. */
  lemma NoIdInTail(xs: seq<Recipe>, id: string)
    requires |xs| > 0 && !HasId(xs, id)
    ensures xs[0].id != id && !HasId(xs[1..], id)
  {
    var tail := xs[1..];
    forall i | 0 <= i < |tail| ensures tail[i].id != id {
      assert tail[i] == xs[i + 1];
    }
  }

  /** Deleting an identifier no recipe has leaves the list unchanged. */
  lemma {:induction false} WithoutAbsentId(xs: seq<Recipe>, id: string)
    requires !HasId(xs, id)
    ensures WithoutId(xs, id) == xs
    decreases |xs|
  {
    if |xs| > 0 {
      NoIdInTail(xs, id);
      WithoutAbsentId(xs[1..], id);
      assert xs == [xs[0]] + xs[1..];
    }
  }

  /** Identifiers of `xs` are pairwise distinct. */
  predicate DistinctIds(xs: seq<Recipe>)
  {
    forall i, j :: 0 <= i < j < |xs| ==> xs[i].id != xs[j].id
  }

  /** With distinct identifiers, deleting the identifier of `xs[k]` removes exactly that
      one recipe and keeps all others, in order. */
  lemma {:induction false} DeleteUnique(xs: seq<Recipe>, k: nat)
    requires DistinctIds(xs) && k < |xs|
    ensures WithoutId(xs, xs[k].id) == xs[..k] + xs[k + 1..]
  {
    OthersLackId(xs, k);
    DeleteOnlyMatch(xs, k);
  }

  /** Deleting the identifier of `xs[k]` when no other recipe carries it removes just
      `xs[k]`. */
  lemma {:induction false} DeleteOnlyMatch(xs: seq<Recipe>, k: nat)
    requires k < |xs| && !HasId(xs[..k], xs[k].id) && !HasId(xs[k + 1..], xs[k].id)
    ensures WithoutId(xs, xs[k].id) == xs[..k] + xs[k + 1..]
  {
    SplitAt(xs, k);
    DeleteBetween(xs[..k], xs[k], xs[k + 1..]);
  }

  /** A list is its prefix, its k-th element and its suffix. */
  lemma SplitAt(xs: seq<Recipe>, k: nat)
    requires k < |xs|
    ensures xs == xs[..k] + ([xs[k]] + xs[k + 1..])
  {
  }

  /** Deleting the identifier of `x` from `before + [x] + after`, when neither side
      carries it, leaves `before + after`. */
  lemma DeleteBetween(before: seq<Recipe>, x: Recipe, after: seq<Recipe>)
    requires !HasId(before, x.id) && !HasId(after, x.id)
    ensures WithoutId(before + ([x] + after), x.id) == before + after
  {
    WithoutAbsentId(before, x.id);
    WithoutAbsentId(after, x.id);
    assert ([x] + after)[1..] == after;
    WithoutIdAppend(before, [x] + after, x.id);
  }

  /** With distinct identifiers, no recipe other than `xs[k]` carries its identifier. */
  lemma OthersLackId(xs: seq<Recipe>, k: nat)
    requires DistinctIds(xs) && k < |xs|
    ensures !HasId(xs[..k], xs[k].id) && !HasId(xs[k + 1..], xs[k].id)
  {
    var id, before, after := xs[k].id, xs[..k], xs[k + 1..];
    forall i | 0 <= i < |before| ensures before[i].id != id {
      assert before[i] == xs[i];
    }
    forall i | 0 <= i < |after| ensures after[i].id != id {
      assert after[i] == xs[k + 1 + i];
    }
  }

  /** The expanded recipe, if any, is one of the listed recipes. */
  predicate SelectionListed(s: ManagerState)
  {
    s.selectedRecipe.Some? ==> s.selectedRecipe.value in s.recipes
  }

  /** Deleting an identifier no recipe has leaves the list and the persisted collection
      as they were; when the expanded recipe is one of the listed, nothing changes at all. */
  lemma DeleteAbsent(s: ManagerState, id: string)
    requires InSync(s) && !HasId(s.recipes, id)
    ensures DeleteRecipe(s, id).recipes == s.recipes && DeleteRecipe(s, id).stored == s.stored
    ensures SelectionListed(s) ==> DeleteRecipe(s, id) == s
  {
    WithoutAbsentId(s.recipes, id);
  }

  /** Viewing the same recipe twice from a state with nothing expanded closes it again. */
  lemma ViewTwice(s: ManagerState, recipe: Recipe)
    requires s.selectedRecipe == None
    ensures ViewRecipe(s, recipe).selectedRecipe == Some(recipe)
    ensures ViewRecipe(ViewRecipe(s, recipe), recipe) == s
  {
  }

  /** Deleting, and viewing a listed recipe, keep the expanded recipe among the listed. */
  lemma HandlersKeepSelectionListed(s: ManagerState, id: string, recipe: Recipe)
    requires SelectionListed(s)
    ensures SelectionListed(DeleteRecipe(s, id))
    ensures recipe in s.recipes ==> SelectionListed(ViewRecipe(s, recipe))
  {
  }

  /** A recipe saved by the builder shows up, as saved, when the manager loads the
      collection: same identifier, name, ingredients and total. */
  lemma SaveThenLoad(b: RecipeBuilder.BuilderState, id: string, now: int)
    requires RecipeBuilder.SaveAccepted(b)
    ensures var loaded := Load(RecipeBuilder.SaveRecipe(b, id, now).savedRecipes);
      exists k :: 0 <= k < |loaded.recipes|
        && loaded.recipes[k].id == id && loaded.recipes[k].name == b.recipeName
        && loaded.recipes[k].ingredients == b.ingredients
        && loaded.recipes[k].totalNutrition == TotalNutrition(b.ingredients)
  {
    var saved := RecipeBuilder.SaveRecipe(b, id, now).savedRecipes;
    var n := |b.savedRecipes|;
    assert Load(saved).recipes == saved;
    TotalIsFieldwiseSum(b.ingredients);
    assert saved[n].id == id && saved[n].name == b.recipeName && saved[n].ingredients == b.ingredients;
    assert saved[n].totalNutrition == TotalNutrition(b.ingredients);
  }

  /** Saving a recipe under a fresh identifier and then deleting that identifier from
      the loaded collection restores the collection as it was before the save. */
  lemma SaveThenDelete(b: RecipeBuilder.BuilderState, id: string, now: int)
    requires RecipeBuilder.SaveAccepted(b) && !HasId(b.savedRecipes, id)
    ensures DeleteRecipe(Load(RecipeBuilder.SaveRecipe(b, id, now).savedRecipes), id).stored
      == b.savedRecipes
  {
    var saved := RecipeBuilder.SaveRecipe(b, id, now).savedRecipes;
    var n := |b.savedRecipes|;
    assert saved == b.savedRecipes + [saved[n]];
    WithoutIdAppend(b.savedRecipes, [saved[n]], id);
    WithoutAbsentId(b.savedRecipes, id);
    assert WithoutId([saved[n]], id) == [];
  }
}
