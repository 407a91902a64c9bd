/** recipe_input.py: the difficulty rule, the rules that accept one
    recipe's answers, and the loop that appends the entered recipes to the
    loaded catalogue and merges their ingredients into all_ingredients. */
module RecipeInput {
  import opened Wrappers
  import opened Classification
  import opened Text
  import opened Seqs

  /** One stored recipe (the dictionary take_recipe returns). */
  datatype RecipeRecord = RecipeRecord(name: string, cookingTime: int, ingredients: seq<string>, difficulty: Difficulty)

  /** The dictionary that is loaded and saved: the recipes and the list of
      distinct ingredients. */
  datatype CatalogueState = CatalogueState(recipesList: seq<RecipeRecord>, allIngredients: seq<string>)

  /** One answer to a prompt read with int(input(...)): an integer, or
      text that int() rejects with ValueError. */
  datatype IntInput = Number(value: int) | NotANumber

  /** calc_difficulty: the same table as Recipe.calculate_difficulty,
      written as one chain of tests; the two agree on every input. */
  function CalcDifficulty(cookingTime: int, numIngredients: int): (d: Difficulty)
    ensures d == Classify(cookingTime, numIngredients)
  {
    if cookingTime < 10 && numIngredients < 4 then Easy
    else if cookingTime < 10 && numIngredients >= 4 then Medium
    else if cookingTime >= 10 && numIngredients < 4 then Intermediate
    else Hard
  }

  predicate NonEmpty(token: string) {
    token != ""
  }

  /** The pieces of the ingredient answer: stripped, split on ",", each
      piece stripped. */
  function IngredientPieces(line: string): seq<string> {
    StripEach(Split(Strip(line), ','))
  }

  /** The list comprehension of take_recipe: the pieces that are not empty,
      in input order, each kept as often as it was typed. */
  function ParseIngredients(line: string): (tokens: seq<string>)
    ensures forall i :: 0 <= i < |tokens| ==> tokens[i] != "" && IsStripped(tokens[i])
    ensures IsSubsequence(tokens, IngredientPieces(line))
    ensures forall x | x in multiset(IngredientPieces(line))
              :: multiset(tokens)[x] == if x != "" then multiset(IngredientPieces(line))[x] else 0
  {
    var pieces := IngredientPieces(line);
    FilterIsSubsequence(pieces, NonEmpty);
    NonEmptyCounts(pieces);
    Filter(pieces, NonEmpty)
  }

  /** Filtering on NonEmpty keeps every copy of a non-empty piece and no
      copy of the empty one. */
  lemma NonEmptyCounts(pieces: seq<string>)
    ensures forall x | x in multiset(pieces)
              :: multiset(Filter(pieces, NonEmpty))[x] == if x != "" then multiset(pieces)[x] else 0
  {
    forall x | x in multiset(pieces)
      ensures multiset(Filter(pieces, NonEmpty))[x] == if x != "" then multiset(pieces)[x] else 0
    {
      assert NonEmpty(x) <==> x != "";
    }
  }

  /** Only empty pieces are dropped: every non-empty piece is kept, and the
      number of ingredients (which sets the difficulty) is the number of
      pieces less the empty ones. */
  lemma ParseKeepsEveryToken(line: string)
    ensures forall i :: 0 <= i < |IngredientPieces(line)| && IngredientPieces(line)[i] != ""
              ==> IngredientPieces(line)[i] in ParseIngredients(line)
    ensures |ParseIngredients(line)| == |IngredientPieces(line)| - multiset(IngredientPieces(line))[""]
  {
    var pieces := IngredientPieces(line);
    FilterDropsOnly(pieces, NonEmpty, "");
    forall i | 0 <= i < |pieces| && pieces[i] != "" ensures pieces[i] in ParseIngredients(line) {
      assert NonEmpty(pieces[i]);
    }
  }

  /** A record take_recipe can return: a stripped non-empty name, a positive
      time, at least one stripped non-empty ingredient, and the difficulty the
      table gives. */
  ghost predicate WellFormed(r: RecipeRecord) {
    && r.name != "" && IsStripped(r.name)
    && r.cookingTime > 0
    && |r.ingredients| >= 1
    && (forall i :: 0 <= i < |r.ingredients| ==> r.ingredients[i] != "" && IsStripped(r.ingredients[i]))
    && r.difficulty == Classify(r.cookingTime, |r.ingredients|)
  }

  /** The name prompt accepts an answer that is not blank. */
  predicate AcceptedName(answer: string) {
    Strip(answer) != ""
  }

  /** The time prompt accepts a positive number; a ValueError or a number
      below 1 makes it ask again. */
  predicate AcceptedTime(answer: IntInput) {
    answer.Number? && answer.value > 0
  }

  /** The ingredient prompt accepts an answer with at least one non-empty
      piece. */
  predicate AcceptedIngredients(answer: string) {
    ParseIngredients(Strip(answer)) != []
  }

  /** take_recipe: each of its three prompts is repeated until it gets an
      acceptable answer; the answers each prompt would receive are given in
      order. None means the answers of some prompt ran out first. */
  method TakeRecipe(nameAnswers: seq<string>, timeAnswers: seq<IntInput>, ingredientAnswers: seq<string>)
    returns (r: Option<RecipeRecord>)
    ensures r.Some? <==> && FirstWhere(nameAnswers, AcceptedName).Some?
                         && FirstWhere(timeAnswers, AcceptedTime).Some?
                         && FirstWhere(ingredientAnswers, AcceptedIngredients).Some?
    ensures r.Some? ==> WellFormed(r.value)
    ensures r.Some? ==>
      && r.value.name == Strip(nameAnswers[FirstWhere(nameAnswers, AcceptedName).value])
      && r.value.cookingTime == timeAnswers[FirstWhere(timeAnswers, AcceptedTime).value].value
      && r.value.ingredients
         == ParseIngredients(Strip(ingredientAnswers[FirstWhere(ingredientAnswers, AcceptedIngredients).value]))
  {
    var i := FindFirst(nameAnswers, AcceptedName);
    if i == |nameAnswers| {
      return None;
    }
    var t := FindFirst(timeAnswers, AcceptedTime);
    if t == |timeAnswers| {
      return None;
    }
    var k := FindFirst(ingredientAnswers, AcceptedIngredients);
    if k == |ingredientAnswers| {
      return None;
    }
    var name := Strip(nameAnswers[i]);
    var cookingTime := timeAnswers[t].value;
    var ingredients := ParseIngredients(Strip(ingredientAnswers[k]));
    var difficulty := CalcDifficulty(cookingTime, |ingredients|);
    r := Some(RecipeRecord(name, cookingTime, ingredients, difficulty));
    AcceptedIsWellFormed(nameAnswers[i], timeAnswers[t], ingredientAnswers[k]);
  }

  /** Accepted answers to the three prompts make a well-formed record. */
  lemma AcceptedIsWellFormed(nameAnswer: string, timeAnswer: IntInput, ingredientAnswer: string)
    requires AcceptedName(nameAnswer) && AcceptedTime(timeAnswer) && AcceptedIngredients(ingredientAnswer)
    ensures var ingredients := ParseIngredients(Strip(ingredientAnswer));
      WellFormed(RecipeRecord(Strip(nameAnswer), timeAnswer.value, ingredients,
                              CalcDifficulty(timeAnswer.value, |ingredients|)))
  {
  }

  function IngredientsOf(r: RecipeRecord): seq<string> {
    r.ingredients
  }

  /** The ingredient lists of the given recipes. */
  function IngredientLists(recipes: seq<RecipeRecord>): seq<seq<string>> {
    Map(recipes, IngredientsOf)
  }

  /** all_ingredients after the entered recipes are merged in. */
  function MergedIngredients(allIngredients: seq<string>, entered: seq<RecipeRecord>): seq<string> {
    AppendAbsent(allIngredients, Flatten(IngredientLists(entered)))
  }

  /** The merge keeps the loaded list as a prefix and adds no duplicate; it
      ends up holding every ingredient of every entered recipe, and the
      ingredients it adds come in the order they were first entered. */
  lemma MergedIngredientsSpec(allIngredients: seq<string>, entered: seq<RecipeRecord>)
    ensures var merged := MergedIngredients(allIngredients, entered);
      && |allIngredients| <= |merged| && merged[..|allIngredients|] == allIngredients
      && (NoDup(allIngredients) ==> NoDup(merged))
      && (forall i, k :: 0 <= i < |entered| && 0 <= k < |entered[i].ingredients|
            ==> entered[i].ingredients[k] in merged)
      && (forall k :: |allIngredients| <= k < |merged| ==> merged[k] !in allIngredients)
      && InFirstSeenOrder(merged[|allIngredients|..], Flatten(IngredientLists(entered)))
  {
    var flat := Flatten(IngredientLists(entered));
    AppendAbsentSpec(allIngredients, flat);
    forall i, k | 0 <= i < |entered| && 0 <= k < |entered[i].ingredients|
      ensures entered[i].ingredients[k] in MergedIngredients(allIngredients, entered)
    {
      assert IngredientLists(entered)[i][k] in flat;
    }
  }

  /** The main loop: each entered recipe is appended to recipes_list and
      each of its ingredients not yet in all_ingredients is appended there. */
  method EnterRecipes(data: CatalogueState, entered: seq<RecipeRecord>) returns (saved: CatalogueState)
    ensures saved.recipesList == data.recipesList + entered
    ensures saved.allIngredients == MergedIngredients(data.allIngredients, entered)
  {
    var recipesList, allIngredients := data.recipesList, data.allIngredients;
    for i := 0 to |entered|
      invariant recipesList == data.recipesList + entered[..i]
      invariant allIngredients == AppendAbsent(data.allIngredients, Flatten(IngredientLists(entered[..i])))
    {
      var recipe := entered[i];
      recipesList := recipesList + [recipe];
      allIngredients := AppendEachAbsent(allIngredients, recipe.ingredients);
      assert entered[..i + 1] == entered[..i] + [recipe];
      FlattenMapSnoc(entered[..i], recipe, IngredientsOf);
      AppendAbsentConcat(data.allIngredients, Flatten(IngredientLists(entered[..i])), recipe.ingredients);
    }
    assert entered[..|entered|] == entered;
    saved := CatalogueState(recipesList, allIngredients);
  }
}
