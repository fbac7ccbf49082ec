/** The recipe builder of the nutrition calculator screen: its `addIngredient`,
    `removeIngredient` and `saveRecipe` handlers as pure transitions on the screen's state. */
module RecipeBuilder {
  import opened Wrappers
  import opened NutritionTypes
  import opened Aggregator

  /** The screen's state. `quantity` is the quantity field (None when it is empty) and
      `savedRecipes` is the persisted recipe collection. */
  datatype BuilderState = BuilderState(
    ingredients: seq<Ingredient>,
    recipeName: string,
    selectedIngredient: string,
    quantity: Option<real>,
    savedRecipes: seq<Recipe>)

  /** True when some catalog entry carries `name`. */
  predicate Listed(catalog: seq<Ingredient>, name: string)
  {
    exists k :: 0 <= k < |catalog| && catalog[k].name == name
  }

  /** Position of the first catalog entry named `name`, like `Array.find`. */
  function FindByName(catalog: seq<Ingredient>, name: string): (r: Option<nat>)
    ensures r.None? <==> !Listed(catalog, name)
    ensures r.Some? ==> r.value < |catalog| && catalog[r.value].name == name
    ensures r.Some? ==> forall j :: 0 <= j < r.value ==> catalog[j].name != name
  {
    if |catalog| == 0 then None
    else if catalog[0].name == name then Some(0)
    else
      match FindByName(catalog[1..], name)
      case None =>
        assert forall k :: 1 <= k < |catalog| ==> catalog[k] == catalog[1..][k - 1];
        None
      case Some(k) => Some(k + 1)
  }

  /** A catalog entry (amounts per 100 g) scaled to `grams`: calories, protein, carbs and
      fat scale linearly; name, fiber and sugar are copied as they are. */
  function Scale(base: Ingredient, grams: real): (r: Ingredient)
    ensures r.name == base.name && r.quantity == grams
    ensures r.fiber == base.fiber && r.sugar == base.sugar
    ensures r.calories * 100.0 == base.calories * grams
    ensures r.protein * 100.0 == base.protein * grams
    ensures r.carbs * 100.0 == base.carbs * grams
    ensures r.fat * 100.0 == base.fat * grams
  {
    base.(
      quantity := grams,
      calories := (base.calories * grams) / 100.0,
      protein := (base.protein * grams) / 100.0,
      carbs := (base.carbs * grams) / 100.0,
      fat := (base.fat * grams) / 100.0)
  }

  /** An add succeeds when an ingredient is selected, a quantity entered and the
      selected name is in the catalog. */
  predicate AddAccepted(s: BuilderState, catalog: seq<Ingredient>)
  {
    s.selectedIngredient != "" && s.quantity.Some? && Listed(catalog, s.selectedIngredient)
  }

  /** `addIngredient`: validate, look the name up, append the scaled entry and clear the
      selection and the quantity field. */
  function AddIngredient(s: BuilderState, catalog: seq<Ingredient>): (r: BuilderState)
    ensures !AddAccepted(s, catalog) ==> r == s
    ensures AddAccepted(s, catalog) ==>
      && |r.ingredients| == |s.ingredients| + 1
      && r.ingredients[..|s.ingredients|] == s.ingredients
      && r.selectedIngredient == "" && r.quantity == None
      && r.recipeName == s.recipeName && r.savedRecipes == s.savedRecipes
    ensures AddAccepted(s, catalog) ==>
      var added := r.ingredients[|s.ingredients|];
      exists k :: 0 <= k < |catalog| && catalog[k].name == s.selectedIngredient
        && (forall j :: 0 <= j < k ==> catalog[j].name != s.selectedIngredient)
        && added == Scale(catalog[k], s.quantity.value)
  {
    if s.selectedIngredient == "" || s.quantity.None? then s
    else
      match FindByName(catalog, s.selectedIngredient)
      case None => s
      case Some(k) =>
        var added := Scale(catalog[k], s.quantity.value);
        s.(ingredients := s.ingredients + [added], selectedIngredient := "", quantity := None)
  }

  /** The elements of `xs` whose position, counted from `offset`, differs from `index`:
      the `filter((_, i) => i !== index)` of the handler. */
  function DropPosition<T>(xs: seq<T>, index: int, offset: int): (r: seq<T>)
    ensures offset <= index < offset + |xs| ==> r == xs[..index - offset] + xs[index - offset + 1..]
    ensures !(offset <= index < offset + |xs|) ==> r == xs
    decreases |xs|
  {
    if |xs| == 0 then []
    else
      var rest := DropPosition(xs[1..], index, offset + 1);
      assert offset < index < offset + |xs| ==>
        [xs[0]] + xs[1..][..index - offset - 1] == xs[..index - offset];
      assert offset < index < offset + |xs| ==>
        xs[1..][index - offset..] == xs[index - offset + 1..];
      assert !(offset <= index < offset + |xs|) ==> [xs[0]] + xs[1..] == xs;
      (if offset == index then [] else [xs[0]]) + rest
  }

  /** `removeIngredient(index)`: drop the entry at `index`; nothing else changes. */
  function RemoveIngredient(s: BuilderState, index: int): (r: BuilderState)
    ensures r.recipeName == s.recipeName && r.selectedIngredient == s.selectedIngredient
    ensures r.quantity == s.quantity && r.savedRecipes == s.savedRecipes
    ensures 0 <= index < |s.ingredients| ==>
      r.ingredients == s.ingredients[..index] + s.ingredients[index + 1..]
    ensures !(0 <= index < |s.ingredients|) ==> r.ingredients == s.ingredients
  {
    s.(ingredients := DropPosition(s.ingredients, index, 0))
  }

  /** A save succeeds when the recipe has a name and at least one ingredient. */
  predicate SaveAccepted(s: BuilderState)
  {
    s.recipeName != "" && |s.ingredients| > 0
  }

  /** `saveRecipe(id, now)`: package the name, the ingredients and a snapshot of their
      total into a recipe, append it to the persisted collection and reset the form. */
  function SaveRecipe(s: BuilderState, id: string, now: int): (r: BuilderState)
    ensures !SaveAccepted(s) ==> r == s
    ensures SaveAccepted(s) ==>
      && |r.savedRecipes| == |s.savedRecipes| + 1
      && r.savedRecipes[..|s.savedRecipes|] == s.savedRecipes
      && r.recipeName == "" && r.ingredients == []
      && r.selectedIngredient == s.selectedIngredient && r.quantity == s.quantity
    ensures SaveAccepted(s) ==>
      var saved := r.savedRecipes[|s.savedRecipes|];
      && saved.id == id && saved.name == s.recipeName && saved.createdAt == now
      && saved.ingredients == s.ingredients && saved.servings == None
      && saved.totalNutrition == FieldwiseSum(s.ingredients)
  {
    if s.recipeName == "" || |s.ingredients| == 0 then s
    else
      var recipe := Recipe(id, s.recipeName, s.ingredients, TotalNutrition(s.ingredients), now, None);
      TotalIsFieldwiseSum(s.ingredients);
      s.(savedRecipes := s.savedRecipes + [recipe], recipeName := "", ingredients := [])
  }

  /** Removing the entry a successful add appended undoes the add, apart from the
      cleared selection and quantity field. */
  lemma AddThenRemoveLast(s: BuilderState, catalog: seq<Ingredient>)
    requires AddAccepted(s, catalog)
    ensures RemoveIngredient(AddIngredient(s, catalog), |s.ingredients|)
      == s.(selectedIngredient := "", quantity := None)
  {
    var added := AddIngredient(s, catalog);
    assert added.ingredients[..|s.ingredients|] == s.ingredients;
  }

  /** After a successful add, the running total grows by exactly the added entry's
      amounts, absent fiber or sugar counted as 0. */
  lemma AddIncreasesTotal(s: BuilderState, catalog: seq<Ingredient>)
    requires AddAccepted(s, catalog)
    ensures var r := AddIngredient(s, catalog);
      var added := r.ingredients[|s.ingredients|];
      forall n :: SummaryAmount(TotalNutrition(r.ingredients), n)
        == SummaryAmount(TotalNutrition(s.ingredients), n) + IngredientAmount(added, n)
  {
    var r := AddIngredient(s, catalog);
    var added := r.ingredients[|s.ingredients|];
    assert r.ingredients == s.ingredients + [added];
    TotalAppend(s.ingredients, [added]);
    TotalSingleton(added);
  }

  /** 100 g of a catalog entry has the entry's own amounts. */
  lemma ScaleHundred(base: Ingredient)
    ensures Scale(base, 100.0) == base.(quantity := 100.0)
  {
  }

  /** Scaling is linear in the quantity for calories, protein, carbs and fat. */
  lemma ScaleAdditive(base: Ingredient, a: real, b: real)
    ensures var x, y, z := Scale(base, a), Scale(base, b), Scale(base, a + b);
      && z.calories == x.calories + y.calories && z.protein == x.protein + y.protein
      && z.carbs == x.carbs + y.carbs && z.fat == x.fat + y.fat
  {
    var x, y, z := Scale(base, a), Scale(base, b), Scale(base, a + b);
    assert z.calories * 100.0 == x.calories * 100.0 + y.calories * 100.0;
    assert z.protein * 100.0 == x.protein * 100.0 + y.protein * 100.0;
    assert z.carbs * 100.0 == x.carbs * 100.0 + y.carbs * 100.0;
    assert z.fat * 100.0 == x.fat * 100.0 + y.fat * 100.0;
  }

  /** Scaling keeps calories in step with the 4/4/9 macronutrient energy. */
  lemma ScaleKeepsEnergyConsistent(base: Ingredient, grams: real)
    requires EnergyConsistent(base)
    ensures EnergyConsistent(Scale(base, grams))
  {
    var r := Scale(base, grams);
    assert r.calories * 100.0 == (ProteinKcalPerGram * r.protein + CarbsKcalPerGram * r.carbs
      + FatKcalPerGram * r.fat) * 100.0;
  }

  /** Every entry of the working list is some catalog entry scaled to its own quantity. */
  predicate FromCatalog(ingredients: seq<Ingredient>, catalog: seq<Ingredient>)
  {
    forall i :: 0 <= i < |ingredients| ==>
      exists k :: 0 <= k < |catalog| && ingredients[i] == Scale(catalog[k], ingredients[i].quantity)
  }

  /** An add keeps the working list drawn from the catalog. */
  lemma AddKeepsFromCatalog(s: BuilderState, catalog: seq<Ingredient>)
    requires FromCatalog(s.ingredients, catalog)
    ensures FromCatalog(AddIngredient(s, catalog).ingredients, catalog)
  {
    var added := AddIngredient(s, catalog).ingredients;
    if AddAccepted(s, catalog) {
      forall i | 0 <= i < |added|
        ensures exists k :: 0 <= k < |catalog| && added[i] == Scale(catalog[k], added[i].quantity)
      {
        if i < |s.ingredients| {
          assert added[i] == added[..|s.ingredients|][i] == s.ingredients[i];
        }
      }
    }
  }

  /** A removal keeps the working list drawn from the catalog. */
  lemma RemoveKeepsFromCatalog(s: BuilderState, catalog: seq<Ingredient>, index: int)
    requires FromCatalog(s.ingredients, catalog)
    ensures FromCatalog(RemoveIngredient(s, index).ingredients, catalog)
  {
    var removed := RemoveIngredient(s, index).ingredients;
    if 0 <= index < |s.ingredients| {
      forall i | 0 <= i < |removed|
        ensures exists k :: 0 <= k < |catalog| && removed[i] == Scale(catalog[k], removed[i].quantity)
      {
        if i < index {
          assert removed[i] == s.ingredients[i];
        } else {
          assert removed[i] == s.ingredients[i + 1];
        }
      }
    }
  }

  /** The three handlers keep the working list drawn from the catalog. */
  lemma HandlersKeepFromCatalog(s: BuilderState, catalog: seq<Ingredient>, index: int, id: string, now: int)
    requires FromCatalog(s.ingredients, catalog)
    ensures FromCatalog(AddIngredient(s, catalog).ingredients, catalog)
    ensures FromCatalog(RemoveIngredient(s, index).ingredients, catalog)
    ensures FromCatalog(SaveRecipe(s, id, now).ingredients, catalog)
  {
    AddKeepsFromCatalog(s, catalog);
    RemoveKeepsFromCatalog(s, catalog, index);
  }

  /** Every saved recipe's total is the total of its own ingredients. */
  predicate SnapshotsHold(saved: seq<Recipe>)
  {
    forall k :: 0 <= k < |saved| ==> saved[k].totalNutrition == TotalNutrition(saved[k].ingredients)
  }

  /** Saving keeps every stored total equal to the total of the stored ingredients. */
  lemma SaveKeepsSnapshots(s: BuilderState, id: string, now: int)
    requires SnapshotsHold(s.savedRecipes)
    ensures SnapshotsHold(SaveRecipe(s, id, now).savedRecipes)
  {
    var r := SaveRecipe(s, id, now);
    if SaveAccepted(s) {
      TotalIsFieldwiseSum(s.ingredients);
      forall k | 0 <= k < |r.savedRecipes|
        ensures r.savedRecipes[k].totalNutrition == TotalNutrition(r.savedRecipes[k].ingredients)
      {
        if k < |s.savedRecipes| {
          assert r.savedRecipes[k] == r.savedRecipes[..|s.savedRecipes|][k];
        }
      }
    }
  }
}
