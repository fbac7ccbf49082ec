/** The nutrition aggregator: totals over an ingredient list, per-serving values and the
    share of calories contributed by each macronutrient. */
module Aggregator {
  import opened Wrappers
  import opened NutritionTypes

  /** Energy densities in kcal per gram. */
  const ProteinKcalPerGram: real := 4.0
  const CarbsKcalPerGram: real := 4.0
  const FatKcalPerGram: real := 9.0

  /** The seed of the reduction: every field 0, fiber and sugar present. */
  const ZeroSummary: NutritionSummary := NutritionSummary(0.0, 0.0, 0.0, 0.0, Some(0.0), Some(0.0))

  /** One step of the reduction: add an ingredient's amounts to a running total. */
  function Accumulate(total: NutritionSummary, i: Ingredient): NutritionSummary
  {
    NutritionSummary(
      total.calories + i.calories,
      total.protein + i.protein,
      total.carbs + i.carbs,
      total.fat + i.fat,
      Some(OrZero(total.fiber) + OrZero(i.fiber)),
      Some(OrZero(total.sugar) + OrZero(i.sugar)))
  }

  /** Total nutrition of a list: a left fold of `Accumulate` from `ZeroSummary`,
      visiting the ingredients in list order. */
  function TotalNutrition(ingredients: seq<Ingredient>): (r: NutritionSummary)
    ensures Complete(r)
    ensures |ingredients| == 0 ==> forall n :: SummaryAmount(r, n) == 0.0
    decreases |ingredients|
  {
    if |ingredients| == 0 then ZeroSummary
    else Accumulate(TotalNutrition(ingredients[..|ingredients| - 1]), ingredients[|ingredients| - 1])
  }

  /** Reference definition: the sum of one nutrient over a list, head first. */
  function Sum(xs: seq<Ingredient>, n: Nutrient): real
  {
    if |xs| == 0 then 0.0 else IngredientAmount(xs[0], n) + Sum(xs[1..], n)
  }

  /** The summary whose every field is the sum of that nutrient over the list. */
  function FieldwiseSum(xs: seq<Ingredient>): NutritionSummary
  {
    NutritionSummary(
      Sum(xs, Calories), Sum(xs, Protein), Sum(xs, Carbs), Sum(xs, Fat),
      Some(Sum(xs, Fiber)), Some(Sum(xs, Sugar)))
  }

  /** Field-wise addition of two summaries, absent fiber or sugar read as 0. */
  function Combine(a: NutritionSummary, b: NutritionSummary): (r: NutritionSummary)
    ensures Complete(r)
    ensures forall n :: SummaryAmount(r, n) == SummaryAmount(a, n) + SummaryAmount(b, n)
  {
    NutritionSummary(
      a.calories + b.calories, a.protein + b.protein, a.carbs + b.carbs, a.fat + b.fat,
      Some(OrZero(a.fiber) + OrZero(b.fiber)), Some(OrZero(a.sugar) + OrZero(b.sugar)))
  }

  lemma {:induction false} SumAppend(xs: seq<Ingredient>, ys: seq<Ingredient>, n: Nutrient)
    ensures Sum(xs + ys, n) == Sum(xs, n) + Sum(ys, n)
    decreases |xs|
  {
    if |xs| == 0 {
      assert xs + ys == ys;
    } else {
      assert (xs + ys)[1..] == xs[1..] + ys;
      SumAppend(xs[1..], ys, n);
    }
  }

  /** Removing the head of `xs` and a matching element of its permutation `ys` leaves
      permutations of each other. */
  lemma RemoveMatching(xs: seq<Ingredient>, ys: seq<Ingredient>, j: nat)
    requires multiset(xs) == multiset(ys)
    requires |xs| > 0 && j < |ys| && ys[j] == xs[0]
    ensures multiset(xs[1..]) == multiset(ys[..j] + ys[j + 1..])
  {
    var x, before, after := xs[0], ys[..j], ys[j + 1..];
    assert xs == [x] + xs[1..];
    assert ys == before + [x] + after;
    assert multiset(xs) == multiset{x} + multiset(xs[1..]);
    assert multiset(ys) == multiset(before) + multiset{x} + multiset(after);
    assert multiset(before + after) == multiset(before) + multiset(after);
    assert multiset(xs[1..]) == multiset(xs) - multiset{x};
    assert multiset(before + after) == multiset(ys) - multiset{x};
  }

  /** The sum over a list is unchanged by reordering it. */
  lemma {:induction false} SumPermutation(xs: seq<Ingredient>, ys: seq<Ingredient>, n: Nutrient)
    requires multiset(xs) == multiset(ys)
    ensures Sum(xs, n) == Sum(ys, n)
    decreases |xs|
  {
    if |xs| == 0 {
      assert |ys| == |multiset(ys)| == 0;
    } else {
      var x := xs[0];
      assert x in multiset(ys);
      var j :| 0 <= j < |ys| && ys[j] == x;
      var before, after := ys[..j], ys[j + 1..];
      RemoveMatching(xs, ys, j);
      SumPermutation(xs[1..], before + after, n);
      assert ys == before + ([x] + after);
      SumAround(before, x, after, n);
    }
  }

  /** Taking one element out of the middle of a list takes its amount out of the sum. */
  lemma SumAround(before: seq<Ingredient>, x: Ingredient, after: seq<Ingredient>, n: Nutrient)
    ensures Sum(before + ([x] + after), n) == IngredientAmount(x, n) + Sum(before + after, n)
  {
    SumAppend(before, [x] + after, n);
    SumAppend(before, after, n);
    assert ([x] + after)[1..] == after;
  }

  /** The fold computes, for every nutrient, the sum of that nutrient over the list,
      and fiber and sugar are always present in the result. */
  lemma {:induction false} TotalIsFieldwiseSum(xs: seq<Ingredient>)
    ensures TotalNutrition(xs) == FieldwiseSum(xs)
    decreases |xs|
  {
    if |xs| > 0 {
      var init, last := xs[..|xs| - 1], xs[|xs| - 1];
      TotalIsFieldwiseSum(init);
      assert xs == init + [last];
      forall n: Nutrient
        ensures Sum(xs, n) == Sum(init, n) + IngredientAmount(last, n)
      {
        SumAppend(init, [last], n);
      }
      assert Sum(xs, Fiber) == Sum(init, Fiber) + IngredientAmount(last, Fiber);
      assert Sum(xs, Sugar) == Sum(init, Sugar) + IngredientAmount(last, Sugar);
    }
  }

  /** Each nutrient of the total is that nutrient's sum over the list. */
  lemma TotalAmount(xs: seq<Ingredient>, n: Nutrient)
    ensures SummaryAmount(TotalNutrition(xs), n) == Sum(xs, n)
  {
    TotalIsFieldwiseSum(xs);
  }

  /** Two summaries with fiber and sugar present are equal when every nutrient agrees. */
  lemma SummaryEquality(a: NutritionSummary, b: NutritionSummary)
    requires Complete(a) && Complete(b)
    requires SummaryAmount(a, Calories) == SummaryAmount(b, Calories)
    requires SummaryAmount(a, Protein) == SummaryAmount(b, Protein)
    requires SummaryAmount(a, Carbs) == SummaryAmount(b, Carbs)
    requires SummaryAmount(a, Fat) == SummaryAmount(b, Fat)
    requires SummaryAmount(a, Fiber) == SummaryAmount(b, Fiber)
    requires SummaryAmount(a, Sugar) == SummaryAmount(b, Sugar)
    ensures a == b
  {
  }

  /** Additivity for one nutrient: its total over a concatenation is the sum of its
      totals over the two parts. */
  lemma TotalAppendAmount(xs: seq<Ingredient>, ys: seq<Ingredient>, n: Nutrient)
    ensures SummaryAmount(TotalNutrition(xs + ys), n)
      == SummaryAmount(TotalNutrition(xs), n) + SummaryAmount(TotalNutrition(ys), n)
  {
    TotalAmount(xs + ys, n);
    TotalAmount(xs, n);
    TotalAmount(ys, n);
    SumAppend(xs, ys, n);
  }

  /** Additivity: the total of a concatenation is the field-wise sum of the totals. */
  lemma TotalAppend(xs: seq<Ingredient>, ys: seq<Ingredient>)
    ensures TotalNutrition(xs + ys) == Combine(TotalNutrition(xs), TotalNutrition(ys))
  {
    var whole, parts := TotalNutrition(xs + ys), Combine(TotalNutrition(xs), TotalNutrition(ys));
    TotalAppendAmount(xs, ys, Calories);
    TotalAppendAmount(xs, ys, Protein);
    TotalAppendAmount(xs, ys, Carbs);
    TotalAppendAmount(xs, ys, Fat);
    TotalAppendAmount(xs, ys, Fiber);
    TotalAppendAmount(xs, ys, Sugar);
    SummaryEquality(whole, parts);
  }

  /** Over exact arithmetic the total does not depend on the order of the ingredients. */
  lemma TotalPermutation(xs: seq<Ingredient>, ys: seq<Ingredient>)
    requires multiset(xs) == multiset(ys)
    ensures TotalNutrition(xs) == TotalNutrition(ys)
  {
    TotalIsFieldwiseSum(xs);
    TotalIsFieldwiseSum(ys);
    SumPermutation(xs, ys, Calories);
    SumPermutation(xs, ys, Protein);
    SumPermutation(xs, ys, Carbs);
    SumPermutation(xs, ys, Fat);
    SumPermutation(xs, ys, Fiber);
    SumPermutation(xs, ys, Sugar);
  }

  /** The total of a one-element list carries that ingredient's amounts, absent fiber or
      sugar turned into 0. */
  lemma TotalSingleton(i: Ingredient)
    ensures forall n :: SummaryAmount(TotalNutrition([i]), n) == IngredientAmount(i, n)
  {
    assert [i][..0] == [];
  }

  /** `s` with absent fiber or sugar replaced by 0. */
  function Normalize(s: NutritionSummary): (r: NutritionSummary)
    ensures Complete(r)
    ensures forall n :: SummaryAmount(r, n) == SummaryAmount(s, n)
  {
    s.(fiber := Some(OrZero(s.fiber)), sugar := Some(OrZero(s.sugar)))
  }

  /** Nutrition per serving: every field divided by the number of servings. */
  function PerServing(total: NutritionSummary, servings: real): (r: NutritionSummary)
    requires servings != 0.0
    ensures Complete(r)
    ensures forall n :: SummaryAmount(r, n) * servings == SummaryAmount(total, n)
  {
    NutritionSummary(
      total.calories / servings,
      total.protein / servings,
      total.carbs / servings,
      total.fat / servings,
      Some(OrZero(total.fiber) / servings),
      Some(OrZero(total.sugar) / servings))
  }

  /** One serving is the whole total, with absent fiber or sugar turned into 0. */
  lemma PerServingOne(total: NutritionSummary)
    ensures PerServing(total, 1.0) == Normalize(total)
  {
  }

  /** Dividing by `a` and then by `b` is dividing by `a * b`. */
  lemma DivideTwice(x: real, a: real, b: real)
    requires a != 0.0 && b != 0.0
    ensures x / a / b == x / (a * b)
  {
    var q := x / a / b;
    assert q * b == x / a;
    assert q * b * a == x;
    assert q * (a * b) == x;
  }

  /** Dividing in two steps is dividing once by the product. */
  lemma PerServingTwice(total: NutritionSummary, a: real, b: real)
    requires a != 0.0 && b != 0.0
    ensures PerServing(PerServing(total, a), b) == PerServing(total, a * b)
  {
    DivideTwice(total.calories, a, b);
    DivideTwice(total.protein, a, b);
    DivideTwice(total.carbs, a, b);
    DivideTwice(total.fat, a, b);
    DivideTwice(OrZero(total.fiber), a, b);
    DivideTwice(OrZero(total.sugar), a, b);
  }

  /** Percentages of total calories contributed by protein, carbohydrate and fat. */
  datatype CalorieDistribution = CalorieDistribution(protein: real, carbs: real, fat: real)

  /** Each macronutrient's energy as a percentage of the summary's own `calories` field;
      the percentages are not renormalised. */
  function CalorieDistributionOf(nutrition: NutritionSummary): (r: CalorieDistribution)
    requires nutrition.calories != 0.0
    ensures r.protein * nutrition.calories == 100.0 * ProteinKcalPerGram * nutrition.protein
    ensures r.carbs * nutrition.calories == 100.0 * CarbsKcalPerGram * nutrition.carbs
    ensures r.fat * nutrition.calories == 100.0 * FatKcalPerGram * nutrition.fat
  {
    var proteinCalories := nutrition.protein * ProteinKcalPerGram;
    var carbCalories := nutrition.carbs * CarbsKcalPerGram;
    var fatCalories := nutrition.fat * FatKcalPerGram;
    var totalCalories := nutrition.calories;
    CalorieDistribution(
      (proteinCalories / totalCalories) * 100.0,
      (carbCalories / totalCalories) * 100.0,
      (fatCalories / totalCalories) * 100.0)
  }

  /** The energy the three macronutrients account for, by the 4/4/9 rule. */
  function MacroCalories(s: NutritionSummary): real
  {
    ProteinKcalPerGram * s.protein + CarbsKcalPerGram * s.carbs + FatKcalPerGram * s.fat
  }

  /** The percentages add up to exactly 100 iff the summary's calories equal its
      macronutrient energy. */
  lemma DistributionSumsTo100(nutrition: NutritionSummary)
    requires nutrition.calories != 0.0
    ensures var d := CalorieDistributionOf(nutrition);
      d.protein + d.carbs + d.fat == 100.0 <==> nutrition.calories == MacroCalories(nutrition)
  {
    var d := CalorieDistributionOf(nutrition);
    var c := nutrition.calories;
    assert (d.protein + d.carbs + d.fat) * c == 100.0 * MacroCalories(nutrition);
    if d.protein + d.carbs + d.fat == 100.0 {
      assert 100.0 * c == 100.0 * MacroCalories(nutrition);
    }
  }

  /** The distribution reads only calories, protein, carbs and fat. */
  lemma DistributionIgnoresFiberAndSugar(a: NutritionSummary, b: NutritionSummary)
    requires a.calories != 0.0
    requires a.calories == b.calories && a.protein == b.protein
    requires a.carbs == b.carbs && a.fat == b.fat
    ensures CalorieDistributionOf(a) == CalorieDistributionOf(b)
  {
  }

  /** An ingredient whose calories are exactly its 4/4/9 macronutrient energy. */
  predicate EnergyConsistent(i: Ingredient)
  {
    i.calories == ProteinKcalPerGram * i.protein + CarbsKcalPerGram * i.carbs + FatKcalPerGram * i.fat
  }

  /** If every ingredient's calories match its macronutrients, so do the total's. */
  lemma {:induction false} ConsistentTotal(xs: seq<Ingredient>)
    requires forall k :: 0 <= k < |xs| ==> EnergyConsistent(xs[k])
    ensures TotalNutrition(xs).calories == MacroCalories(TotalNutrition(xs))
    decreases |xs|
  {
    if |xs| > 0 {
      ConsistentTotal(xs[..|xs| - 1]);
      assert EnergyConsistent(xs[|xs| - 1]);
    }
  }

  /** When every ingredient's calories match its macronutrients, the distribution of
      their non-zero total adds up to exactly 100. */
  lemma {:induction false} ConsistentDistribution(xs: seq<Ingredient>)
    requires forall k :: 0 <= k < |xs| ==> EnergyConsistent(xs[k])
    requires TotalNutrition(xs).calories != 0.0
    ensures var d := CalorieDistributionOf(TotalNutrition(xs));
      d.protein + d.carbs + d.fat == 100.0
  {
    ConsistentTotal(xs);
    DistributionSumsTo100(TotalNutrition(xs));
  }
}
