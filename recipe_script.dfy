/** Exercise_1.3.py: the first recipe script. Recipes are read into a
    module-level list, their ingredients merged into a second list without
    duplicates, each recipe's difficulty worked out by an if-chain, and the
    ingredient list finally printed in sorted order. */
module RecipeScript {
  import opened Classification
  import opened Text
  import opened Seqs
  import Sorting

  /** A recipe as this script stores it: no difficulty field. */
  datatype ScriptRecipe = ScriptRecipe(name: string, cookingTime: int, ingredients: seq<string>)

  /** The three answers take_recipe reads; the time is the value int()
      returned. */
  datatype Answers = Answers(name: string, cookingTime: int, ingredientsLine: string)

  /** `[ingredient.strip() for ingredient in line.split(",")]`: every piece
      is kept, even an empty one. */
  function SplitIngredients(line: string): (tokens: seq<string>)
    ensures |tokens| == CountChar(line, ',') + 1
    ensures forall i :: 0 <= i < |tokens| ==> tokens[i] == Strip(Split(line, ',')[i]) && IsStripped(tokens[i])
  {
    StripEach(Split(line, ','))
  }

  /** Stripped ingredients without commas, typed with "," between them, are
      read back exactly. */
  lemma SplitIngredientsOfJoin(ingredients: seq<string>)
    requires |ingredients| >= 1
    requires forall i :: 0 <= i < |ingredients| ==> ',' !in ingredients[i] && IsStripped(ingredients[i])
    ensures SplitIngredients(Join(ingredients, ',')) == ingredients
  {
    SplitJoin(ingredients, ',');
    StripEachFixed(ingredients);
  }

  /** An empty answer gives one empty ingredient. */
  lemma EmptyLineGivesEmptyIngredient()
    ensures SplitIngredients("") == [""]
  {
    assert Split("", ',') == [""];
    assert Strip("") == "";
  }

  /** A lone comma gives two empty ingredients. */
  lemma LoneCommaGivesTwoEmpty()
    ensures SplitIngredients(",") == ["", ""]
  {
    assert ","[1..] == "";
    assert Split(",", ',') == ["", ""];
    assert Strip("") == "";
  }

  /** take_recipe: the name is stored as typed, and there is one ingredient
      per comma-separated piece, each stripped. */
  function TakeRecipe(answers: Answers): (r: ScriptRecipe)
    ensures r.name == answers.name && r.cookingTime == answers.cookingTime
    ensures |r.ingredients| == CountChar(answers.ingredientsLine, ',') + 1
    ensures forall i :: 0 <= i < |r.ingredients|
              ==> r.ingredients[i] == Strip(Split(answers.ingredientsLine, ',')[i])
  {
    ScriptRecipe(answers.name, answers.cookingTime, SplitIngredients(answers.ingredientsLine))
  }

  function IngredientsOf(r: ScriptRecipe): seq<string> {
    r.ingredients
  }

  /** Blanks around the name are kept, and an empty ingredient answer still
      gives one (empty) ingredient. */
  lemma TakeRecipeKeepsBlanks()
    ensures TakeRecipe(Answers(" tea ", 5, "")) == ScriptRecipe(" tea ", 5, [""])
  {
    EmptyLineGivesEmptyIngredient();
  }

  /** The ingredient lists of the given recipes. */
  function IngredientLists(recipes: seq<ScriptRecipe>): seq<seq<string>> {
    Map(recipes, IngredientsOf)
  }

  /** The recipes take_recipe builds from the given answers, in order. */
  function TakeAll(entries: seq<Answers>): (r: seq<ScriptRecipe>)
    ensures |r| == |entries| && forall i :: 0 <= i < |entries| ==> r[i] == TakeRecipe(entries[i])
  {
    if entries == [] then [] else TakeAll(entries[..|entries| - 1]) + [TakeRecipe(entries[|entries| - 1])]
  }

  lemma TakeAllStep(entries: seq<Answers>, i: nat)
    requires i < |entries|
    ensures TakeAll(entries[..i + 1]) == TakeAll(entries[..i]) + [TakeRecipe(entries[i])]
  {
    assert entries[..i + 1][..i] == entries[..i];
  }

  /** The first loop: one recipe per set of answers, in entry order, and
      ingredients_list built from empty by the append-if-absent merge. */
  method CollectRecipes(entries: seq<Answers>) returns (recipesList: seq<ScriptRecipe>, ingredientsList: seq<string>)
    ensures recipesList == TakeAll(entries)
    ensures ingredientsList == AppendAbsent([], Flatten(IngredientLists(recipesList)))
  {
    recipesList, ingredientsList := [], [];
    for i := 0 to |entries|
      invariant recipesList == TakeAll(entries[..i])
      invariant ingredientsList == AppendAbsent([], Flatten(IngredientLists(recipesList)))
    {
      var recipe := TakeRecipe(entries[i]);
      ingredientsList := AppendEachAbsent(ingredientsList, recipe.ingredients);
      FlattenMapSnoc(recipesList, recipe, IngredientsOf);
      AppendAbsentConcat([], Flatten(IngredientLists(recipesList)), recipe.ingredients);
      TakeAllStep(entries, i);
      recipesList := recipesList + [recipe];
    }
    assert entries[..|entries|] == entries;
  }

  /** ingredients_list holds no duplicates and every ingredient of every
      recipe, each in the order it was first entered. */
  lemma IngredientsListSpec(recipesList: seq<ScriptRecipe>)
    ensures var list := AppendAbsent([], Flatten(IngredientLists(recipesList)));
      && NoDup(list)
      && (forall i, k :: 0 <= i < |recipesList| && 0 <= k < |recipesList[i].ingredients|
            ==> recipesList[i].ingredients[k] in list)
      && (forall k :: 0 <= k < |list| ==> list[k] in Flatten(IngredientLists(recipesList)))
      && InFirstSeenOrder(list, Flatten(IngredientLists(recipesList)))
  {
    var flat := Flatten(IngredientLists(recipesList));
    AppendAbsentSpec([], flat);
    var list := AppendAbsent([], flat);
    assert list[0..] == list;
    forall i, k | 0 <= i < |recipesList| && 0 <= k < |recipesList[i].ingredients|
      ensures recipesList[i].ingredients[k] in list
    {
      assert IngredientLists(recipesList)[i][k] in flat;
    }
  }

  /** The second loop: the if-chain gives, for each recipe, the rating of
      the shared table. */
  method RecipeDetails(recipesList: seq<ScriptRecipe>) returns (difficulties: seq<Difficulty>)
    ensures |difficulties| == |recipesList|
    ensures forall i :: 0 <= i < |recipesList|
              ==> difficulties[i] == Classify(recipesList[i].cookingTime, |recipesList[i].ingredients|)
  {
    difficulties := [];
    for i := 0 to |recipesList|
      invariant |difficulties| == i
      invariant forall k :: 0 <= k < i
                  ==> difficulties[k] == Classify(recipesList[k].cookingTime, |recipesList[k].ingredients|)
    {
      var numIngredients := |recipesList[i].ingredients|;
      var cookingTime := recipesList[i].cookingTime;
      var difficulty;
      if cookingTime < 10 && numIngredients < 4 {
        difficulty := Easy;
      } else if cookingTime < 10 && numIngredients >= 4 {
        difficulty := Medium;
      } else if cookingTime >= 10 && numIngredients < 4 {
        difficulty := Intermediate;
      } else {
        difficulty := Hard;
      }
      difficulties := difficulties + [difficulty];
    }
  }

  lemma LexLeTotalOrder()
    ensures Sorting.Total(LexLe) && Sorting.Transitive(LexLe)
  {
    forall a, b ensures LexLe(a, b) || LexLe(b, a) {
      LexTotal(a, b);
    }
    forall a, b, c | LexLe(a, b) && LexLe(b, c) ensures LexLe(a, c) {
      LexTransitive(a, b, c);
    }
  }

  /** sorted(ingredients_list): the same ingredients in ascending order. */
  function CompleteListing(ingredientsList: seq<string>): (listing: seq<string>)
    ensures multiset(listing) == multiset(ingredientsList)
    ensures forall i, j :: 0 <= i < j < |listing| ==> LexLe(listing[i], listing[j])
  {
    LexLeTotalOrder();
    var listing := Sorting.SortBy(ingredientsList, LexLe);
    Sorting.SortedPairwise(listing, LexLe);
    listing
  }
}
