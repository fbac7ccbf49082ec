/** The records of the nutrition feature: ingredients, nutrition summaries and saved recipes. */
module NutritionTypes {
  import opened Wrappers

  /** An ingredient of a recipe: `quantity` grams of a catalog entry, with the nutrient
      amounts of that quantity. Catalog entries have the same shape, with amounts per 100 g. */
  datatype Ingredient = Ingredient(
    name: string,
    quantity: real,
    calories: real,
    protein: real,
    carbs: real,
    fat: real,
    fiber: Option<real>,
    sugar: Option<real>)

  /** Aggregate nutrient amounts; fiber and sugar are optional as on an ingredient. */
  datatype NutritionSummary = NutritionSummary(
    calories: real,
    protein: real,
    carbs: real,
    fat: real,
    fiber: Option<real>,
    sugar: Option<real>)

  /** A saved recipe. `totalNutrition` is a snapshot taken when the recipe was saved;
      `createdAt` is a timestamp in milliseconds. */
  datatype Recipe = Recipe(
    id: string,
    name: string,
    ingredients: seq<Ingredient>,
    totalNutrition: NutritionSummary,
    createdAt: int,
    servings: Option<real>)

  /** Selects one of the six nutrient fields shared by ingredients and summaries. */
  datatype Nutrient = Calories | Protein | Carbs | Fat | Fiber | Sugar

  /** The value of `x || 0` for an optional number: an absent amount reads as 0. */
  function OrZero(x: Option<real>): (r: real)
    ensures x.None? ==> r == 0.0
    ensures x.Some? ==> r == x.value
  {
    x.GetOr(0.0)
  }

  /** The amount of nutrient `n` in an ingredient, absent fiber or sugar read as 0. */
  function IngredientAmount(i: Ingredient, n: Nutrient): real
  {
    match n
    case Calories => i.calories
    case Protein => i.protein
    case Carbs => i.carbs
    case Fat => i.fat
    case Fiber => OrZero(i.fiber)
    case Sugar => OrZero(i.sugar)
  }

  /** The amount of nutrient `n` in a summary, absent fiber or sugar read as 0. */
  function SummaryAmount(s: NutritionSummary, n: Nutrient): real
  {
    match n
    case Calories => s.calories
    case Protein => s.protein
    case Carbs => s.carbs
    case Fat => s.fat
    case Fiber => OrZero(s.fiber)
    case Sugar => OrZero(s.sugar)
  }

  /** A summary in which fiber and sugar are present. */
  predicate Complete(s: NutritionSummary)
  {
    s.fiber.Some? && s.sugar.Some?
  }
}
