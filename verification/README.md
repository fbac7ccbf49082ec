# Nutrition calculator and recipe collection, modelled in Dafny

This project models the nutrition feature of a recipe-building web app. The model covers:

- the **nutrition aggregator** (`utils/nutritionCalculator.ts`). It totals an ingredient list, divides a total into servings, and splits calories across protein, carbohydrate and fat with the 4/4/9 kcal-per-gram rule.
- the **recipe builder** handlers of the calculator screen (`components/NutritionCalculator.tsx`). `addIngredient` looks up a catalog entry, scales it to a quantity and appends it. `removeIngredient` drops one entry by position. `saveRecipe` snapshots the totals into a recipe and appends it to the stored collection.
- the **recipe manager** handlers (`components/RecipeManager.tsx`). `deleteRecipe` filters by id, writes the result back to the store and closes the expanded recipe if it was deleted. `viewRecipe` toggles the expanded recipe.

Numbers are Dafny `real`s, so arithmetic is exact. The optional `fiber` and `sugar` fields are `Option<real>`. React state becomes an immutable state record, and each handler becomes a pure function from state to state.

Modules:

- `Wrappers` (`wrappers.dfy`): `Option`.
- `NutritionTypes` (`nutrition_types.dfy`): the `Ingredient`, `NutritionSummary` and `Recipe` records of `types/nutrition.ts`. A `Nutrient` selector names one of the six amounts. `OrZero` is the source's `x || 0`.
- `Aggregator` (`aggregator.dfy`): `TotalNutrition`, `PerServing`, `CalorieDistributionOf` and their laws.
- `RecipeBuilder` (`recipe_builder.dfy`): `AddIngredient`, `RemoveIngredient`, `SaveRecipe` over a `BuilderState`.
- `RecipeManager` (`recipe_manager.dfy`): `Load`, `DeleteRecipe`, `ViewRecipe` over a `ManagerState`, and lemmas linking a save in the builder to the manager's view of the store.

Three facts about the code shape the model:

- `deleteRecipe` removes every recipe that carries the id (`RecipeManager.tsx:21`). `DeleteRecipe` models that filter. `DeleteUnique` shows that with distinct ids exactly one recipe is removed.
- The object spread in `addIngredient` (`NutritionCalculator.tsx:35`) copies fiber and sugar from the catalog entry, unscaled. `Scale` does the same.
- The calorie distribution divides by the summary's own `calories` field (`nutritionCalculator.ts:36`). `CalorieDistributionOf` does the same.

## Model

| member | source | states |
|---|---|---|
| `NutritionTypes.OrZero` | src/features/nutrition/utils/nutritionCalculator.ts:11-12 | `x \|\| 0` on an optional amount: 0 when absent, the amount when present |
| `Aggregator.TotalNutrition` | src/features/nutrition/utils/nutritionCalculator.ts:4-16 | the total always has fiber and sugar present; the total of an empty list is 0 in every field |
| `Aggregator.TotalIsFieldwiseSum` | src/features/nutrition/utils/nutritionCalculator.ts:5-15 | the left fold equals, field by field, the head-first sum of each nutrient over the list, with absent fiber or sugar counted as 0 |
| `Aggregator.TotalAmount` | src/features/nutrition/utils/nutritionCalculator.ts:5-12 | each nutrient of the total is the sum of that nutrient over the ingredients |
| `Aggregator.SumAppend` | src/features/nutrition/utils/nutritionCalculator.ts:5-10 | a nutrient's sum over a concatenation is the sum of the two parts' sums |
| `Aggregator.SumPermutation` | src/features/nutrition/utils/nutritionCalculator.ts:5-10 | a nutrient's sum is the same for any reordering of the list |
| `Aggregator.TotalAppendAmount` | src/features/nutrition/utils/nutritionCalculator.ts:5-12 | for each nutrient, its total over xs + ys is its total over xs plus its total over ys |
| `Aggregator.TotalAppend` | src/features/nutrition/utils/nutritionCalculator.ts:5-15 | additivity: total(xs + ys) is the field-wise sum of total(xs) and total(ys) |
| `Aggregator.TotalPermutation` | src/features/nutrition/utils/nutritionCalculator.ts:5-15 | lists that are permutations of each other have equal totals |
| `Aggregator.TotalSingleton` | src/features/nutrition/utils/nutritionCalculator.ts:5-14 | the total of one ingredient carries its amounts, with absent fiber or sugar becoming 0 |
| `Aggregator.Combine` | src/features/nutrition/utils/nutritionCalculator.ts:7-12 | field-wise addition of summaries adds every nutrient amount and makes fiber and sugar present |
| `Aggregator.PerServing` | src/features/nutrition/utils/nutritionCalculator.ts:18-30 | every per-serving amount times the serving count gives back the total's amount (absent counted as 0); fiber and sugar are present |
| `Aggregator.PerServingOne` | src/features/nutrition/utils/nutritionCalculator.ts:22-29 | one serving returns the input, except that absent fiber or sugar becomes 0 |
| `Aggregator.DivideTwice` | src/features/nutrition/utils/nutritionCalculator.ts:23-28 | dividing by a and then by b equals dividing by a·b |
| `Aggregator.PerServingTwice` | src/features/nutrition/utils/nutritionCalculator.ts:22-29 | dividing into a servings and then b servings equals dividing into a·b servings |
| `Aggregator.CalorieDistributionOf` | src/features/nutrition/utils/nutritionCalculator.ts:32-43 | each percentage times the summary's calories is 100 × 4 × protein, 100 × 4 × carbs and 100 × 9 × fat |
| `Aggregator.DistributionSumsTo100` | src/features/nutrition/utils/nutritionCalculator.ts:36-42 | the three percentages sum to exactly 100 iff calories = 4·protein + 4·carbs + 9·fat (no renormalisation) |
| `Aggregator.DistributionIgnoresFiberAndSugar` | src/features/nutrition/utils/nutritionCalculator.ts:32-42 | summaries that agree on calories, protein, carbs and fat have the same distribution |
| `Aggregator.ConsistentTotal` | src/features/nutrition/utils/nutritionCalculator.ts:5-10 | if every ingredient's calories equal its 4/4/9 energy, so do the total's |
| `Aggregator.ConsistentDistribution` | src/features/nutrition/utils/nutritionCalculator.ts:4-43 | if every ingredient's calories equal its 4/4/9 energy and the total's calories are non-zero, the total's calorie distribution sums to exactly 100 |
| `RecipeBuilder.FindByName` | src/features/nutrition/components/NutritionCalculator.tsx:31-32 | the catalog lookup finds the first entry with the name, and finds nothing exactly when no entry has it |
| `RecipeBuilder.Scale` | src/features/nutrition/components/NutritionCalculator.tsx:34-41 | calories, protein, carbs and fat are the base amount × q / 100; name, fiber and sugar are copied unscaled; quantity is q |
| `RecipeBuilder.AddIngredient` | src/features/nutrition/components/NutritionCalculator.tsx:21-45 | with no selection, no quantity or an unknown name the state is unchanged; otherwise one scaled copy of the first matching catalog entry is appended, earlier entries are kept, selection and quantity are cleared, and name and store are untouched |
| `RecipeBuilder.DropPosition` | src/features/nutrition/components/NutritionCalculator.tsx:54 | filtering by position removes exactly the element at that index and keeps the order of the rest; an out-of-range index keeps the list |
| `RecipeBuilder.RemoveIngredient` | src/features/nutrition/components/NutritionCalculator.tsx:53-55 | removes the entry at the index (none if out of range) and changes nothing else |
| `RecipeBuilder.SaveRecipe` | src/features/nutrition/components/NutritionCalculator.tsx:62-92 | with an empty name or list the state is unchanged; otherwise one recipe is appended to the store, holding the id, name, timestamp and ingredients and a total equal to the field-wise sums; then the name and ingredients are cleared |
| `RecipeBuilder.AddThenRemoveLast` | src/features/nutrition/components/NutritionCalculator.tsx:43-54 | removing the entry a successful add appended restores the list, name and store |
| `RecipeBuilder.AddIncreasesTotal` | src/features/nutrition/components/NutritionCalculator.tsx:43 | after a successful add every nutrient of the running total grows by the added entry's amount |
| `RecipeBuilder.ScaleHundred` | src/features/nutrition/components/NutritionCalculator.tsx:34-41 | 100 g of an entry has the entry's own amounts |
| `RecipeBuilder.ScaleAdditive` | src/features/nutrition/components/NutritionCalculator.tsx:37-40 | scaling to a + b grams equals the sum of scaling to a and to b, for the four scaled fields |
| `RecipeBuilder.ScaleKeepsEnergyConsistent` | src/features/nutrition/components/NutritionCalculator.tsx:37-40 | scaling keeps calories equal to the 4/4/9 energy if the entry's were |
| `RecipeBuilder.AddKeepsFromCatalog` | src/features/nutrition/components/NutritionCalculator.tsx:31-43 | an add keeps every listed entry a catalog entry scaled to its own quantity |
| `RecipeBuilder.RemoveKeepsFromCatalog` | src/features/nutrition/components/NutritionCalculator.tsx:53-55 | a removal keeps every listed entry a catalog entry scaled to its own quantity |
| `RecipeBuilder.HandlersKeepFromCatalog` | src/features/nutrition/components/NutritionCalculator.tsx:31-54 | add, remove and save keep every listed entry a catalog entry scaled to its own quantity |
| `RecipeBuilder.SaveKeepsSnapshots` | src/features/nutrition/components/NutritionCalculator.tsx:72-83 | saving keeps each stored recipe's total equal to the total of its stored ingredients |
| `RecipeManager.Load` | src/features/nutrition/components/RecipeManager.tsx:15-18 | on mount the list is the stored collection and nothing is expanded |
| `RecipeManager.WithoutId` | src/features/nutrition/components/RecipeManager.tsx:21 | the filter keeps exactly the recipes whose id differs, so none with the id remain |
| `RecipeManager.DeleteRecipe` | src/features/nutrition/components/RecipeManager.tsx:20-27 | the list becomes the order-preserving filter of the old list by id, so no recipe with the id remains and exactly the others survive; the store equals the list; the expanded recipe is closed iff it has the id, and otherwise it is kept |
| `RecipeManager.ViewRecipe` | src/features/nutrition/components/RecipeManager.tsx:35-37 | the result has nothing expanded iff a recipe with the same id was expanded; otherwise the given recipe is expanded; list and store are untouched |
| `RecipeManager.WithoutIdAppend` | src/features/nutrition/components/RecipeManager.tsx:21 | the filter distributes over concatenation, so survivors keep their relative order |
| `RecipeManager.WithoutAbsentId` | src/features/nutrition/components/RecipeManager.tsx:21 | filtering an id no recipe has returns the list unchanged |
| `RecipeManager.DeleteUnique` | src/features/nutrition/components/RecipeManager.tsx:21 | with distinct ids, deleting the id of the k-th recipe removes exactly that recipe |
| `RecipeManager.DeleteAbsent` | src/features/nutrition/components/RecipeManager.tsx:20-27 | deleting an absent id keeps list and store; with the expanded recipe listed, it changes nothing |
| `RecipeManager.ViewTwice` | src/features/nutrition/components/RecipeManager.tsx:36 | from nothing expanded, viewing expands the recipe, and viewing it again returns to the starting state |
| `RecipeManager.HandlersKeepSelectionListed` | src/features/nutrition/components/RecipeManager.tsx:20-37 | delete, and view of a listed recipe, keep the expanded recipe among the listed ones |
| `RecipeManager.SaveThenLoad` | src/features/nutrition/components/NutritionCalculator.tsx:72-83 | a recipe saved by the builder is found on load with the same id, name, ingredients and total |
| `RecipeManager.SaveThenDelete` | src/features/nutrition/components/RecipeManager.tsx:20-23 | saving under a fresh id and then deleting that id restores the stored collection |

## Left out

- Rendering: JSX, `toast` notifications and styling are presentation only. `NutritionPage.tsx`, a two-tab switch with no computational rule, is also left out.
- Storage: `localStorage` and JSON serialisation are modelled as a `seq<Recipe>` field (`savedRecipes`, `stored`). A missing key reads as an empty collection, which is the empty `seq`. Corrupt stored text makes `JSON.parse` throw, which aborts `saveRecipe` before it writes or resets the form and makes the mount effect fail; that exception path is not modelled.
- Clocks: `Date.now()` ids and `new Date()` timestamps are parameters (`id`, `now`) of `SaveRecipe`. Timestamps are integers.
- Quantity input: `parseFloat` is not modelled. The quantity field is `Option<real>`, with `None` for the empty string. A non-numeric entry, which parses to NaN in the source, has no counterpart.
- Display: `toFixed` rounding is presentation only.
- Arithmetic: IEEE-754 rounding, NaN and Infinity are not modelled. Sums are exact, so order independence (`TotalPermutation`) holds for the model; with floating point it holds only up to rounding.
- Ingredient catalog: `ingredientDatabase` is not part of this model. It is passed in as a `seq<Ingredient>` parameter.
- Unused field: the optional `servings` field of a recipe is never set by the handlers. Saved recipes carry `None`.
- PerServing: requires `servings != 0`. The source does not guard this case and yields non-finite values, which exact reals cannot represent.
- CalorieDistributionOf: requires `calories != 0`, for the same reason.
