/** The Recipe class of recipe_oop.py. A recipe's difficulty is derived from
    its cooking time and ingredient count and is recomputed whenever either
    changes. The class-level set Recipe.all_ingredients, shared by every
    recipe of the process, is an IngredientRegistry object that each recipe
    holds a reference to. */
module RecipeOop {
  import opened Wrappers
  import opened Classification
  import Seqs

  /** The set of every ingredient added to any recipe. */
  class IngredientRegistry {
    var all: set<string>

    constructor ()
      ensures all == {}
    {
      all := {};
    }
  }

  class Recipe {
    var name: string
    var ingredients: seq<string>
    var cookingTime: int
    var difficulty: Option<Difficulty>
    const registry: IngredientRegistry

    /** Either not yet computed (a fresh recipe) or consistent with the
        current cooking time and ingredient count. */
    ghost predicate Valid()
      reads this
    {
      difficulty == None || difficulty == Some(Classify(cookingTime, |ingredients|))
    }

    constructor (name: string, cookingTime: int, registry: IngredientRegistry)
      ensures Valid()
      ensures this.name == name && this.cookingTime == cookingTime && this.registry == registry
      ensures ingredients == [] && difficulty == None
    {
      this.name := name;
      ingredients := [];
      this.cookingTime := cookingTime;
      difficulty := None;
      this.registry := registry;
    }

    /** Appends the arguments in order, records each in the shared set, then
        recomputes the difficulty. */
    method AddIngredients(args: seq<string>)
      modifies this, registry
      ensures GetIngredients() == old(GetIngredients()) + args
      ensures registry.all == old(registry.all) + (set x | x in args)
      ensures (forall i :: 0 <= i < |args| ==> args[i] in old(registry.all)) ==> registry.all == old(registry.all)
      ensures difficulty == Some(Classify(cookingTime, |ingredients|)) && Valid()
      ensures name == old(name) && cookingTime == old(cookingTime)
    {
      for i := 0 to |args|
        invariant ingredients == old(ingredients) + args[..i]
        invariant registry.all == old(registry.all) + (set x | x in args[..i])
        invariant name == old(name) && cookingTime == old(cookingTime)
      {
        ingredients := ingredients + [args[i]];
        UpdateAllIngredients(args[i]);
        assert args[..i + 1] == args[..i] + [args[i]];
      }
      assert args[..|args|] == args;
      CalculateDifficulty();
    }

    /** Sets difficulty from the table. */
    method CalculateDifficulty()
      modifies this`difficulty
      ensures difficulty == Some(Classify(cookingTime, |ingredients|)) && Valid()
    {
      var numIngredients := |ingredients|;
      if cookingTime < 10 {
        difficulty := Some(if numIngredients < 4 then Easy else Medium);
      } else {
        difficulty := Some(if numIngredients < 4 then Intermediate else Hard);
      }
    }

    function GetName(): (r: string)
      reads this
    {
      name
    }

    method SetName(newName: string)
      requires Valid()
      modifies this`name
      ensures GetName() == newName && Valid()
    {
      name := newName;
    }

    function GetCookingTime(): (r: int)
      reads this
    {
      cookingTime
    }

    /** Changes the time and recomputes the difficulty; nothing else changes. */
    method SetCookingTime(newTime: int)
      modifies this`cookingTime, this`difficulty
      ensures GetCookingTime() == newTime
      ensures difficulty == Some(Classify(newTime, |ingredients|)) && Valid()
    {
      cookingTime := newTime;
      CalculateDifficulty();
    }

    function GetIngredients(): (r: seq<string>)
      reads this
    {
      ingredients
    }

    /** Returns the rating, computing and storing it first only when it has
        not been computed yet. */
    method GetDifficulty() returns (d: Difficulty)
      requires Valid()
      modifies this`difficulty
      ensures d == Classify(cookingTime, |ingredients|)
      ensures difficulty == Some(d) && Valid()
      ensures old(difficulty) != None ==> difficulty == old(difficulty)
    {
      if difficulty == None {
        CalculateDifficulty();
      }
      d := difficulty.value;
    }

    /** Exact, case-sensitive membership in this recipe's ingredient list. */
    predicate SearchIngredient(ingredient: string)
      reads this
    {
      ingredient in ingredients
    }

    /** Adds one ingredient to the shared set. */
    method UpdateAllIngredients(ingredient: string)
      modifies registry
      ensures registry.all == old(registry.all) + {ingredient}
    {
      registry.all := registry.all + {ingredient};
    }
  }

  /** search_ingredient is true exactly when some position of the list holds
      a string equal to the term, character for character. */
  lemma SearchIsExactMatch(recipe: Recipe, term: string)
    ensures recipe.SearchIngredient(term) <==> exists i :: 0 <= i < |recipe.ingredients| && recipe.ingredients[i] == term
  {
  }

  /** The match is case-sensitive: Tea's list holds "Sugar" but not "sugar". */
  lemma SearchIsCaseSensitive(tea: Recipe)
    requires tea.ingredients == ["Tea Leaves", "Sugar", "Water"]
    ensures tea.SearchIngredient("Sugar") && !tea.SearchIngredient("sugar")
  {
    assert tea.ingredients[1] == "Sugar";
    assert "sugar" != "Tea Leaves" && "sugar" != "Sugar" && "sugar" != "Water";
  }

  /** The recipes of `recipes` whose ingredient lists contain the term, in
      list order. */
  ghost function Containing(recipes: seq<Recipe>, term: string): seq<Recipe>
    reads recipes
    decreases |recipes|
  {
    if recipes == [] then []
    else
      var last := recipes[|recipes| - 1];
      Containing(recipes[..|recipes| - 1], term) + (if last.SearchIngredient(term) then [last] else [])
  }

  /** Containing keeps exactly the recipes that contain the term, in their
      original order. */
  lemma {:induction false} ContainingSpec(recipes: seq<Recipe>, term: string)
    ensures forall r :: r in Containing(recipes, term) <==> r in recipes && term in r.ingredients
    ensures Seqs.IsSubsequence(Containing(recipes, term), recipes)
    ensures forall r | r in multiset(recipes)
              :: multiset(Containing(recipes, term))[r] == if term in r.ingredients then multiset(recipes)[r] else 0
    decreases |recipes|
  {
    if recipes != [] {
      var init, last := recipes[..|recipes| - 1], recipes[|recipes| - 1];
      assert recipes == init + [last];
      ContainingSpec(init, term);
      var c := Containing(init, term);
      Seqs.SubsequenceExtend(c, init, last);
      if last.SearchIngredient(term) {
        assert Containing(recipes, term) == c + [last];
      } else {
        assert Containing(recipes, term) == c;
      }
    }
  }

  /** recipe_search: the recipes it prints, one per match, in list order
      (ContainingSpec says what that sequence holds). */
  method RecipeSearch(recipes: seq<Recipe>, searchTerm: string) returns (printed: seq<Recipe>)
    ensures printed == Containing(recipes, searchTerm)
  {
    printed := [];
    for i := 0 to |recipes|
      invariant printed == Containing(recipes[..i], searchTerm)
    {
      assert recipes[..i + 1][..i] == recipes[..i];
      if recipes[i].SearchIngredient(searchTerm) {
        printed := printed + [recipes[i]];
      }
    }
    assert recipes[..|recipes|] == recipes;
  }

  /** The names of the given recipes. */
  function Names(recipes: seq<Recipe>): seq<string>
    reads recipes
  {
    seq(|recipes|, i reads recipes requires 0 <= i < |recipes| => recipes[i].name)
  }

  /** Containing unfolded on a list of four recipes. */
  lemma ContainingFour(a: Recipe, b: Recipe, c: Recipe, d: Recipe, t: string)
    ensures Containing([a, b, c, d], t)
         == (if t in a.ingredients then [a] else []) + (if t in b.ingredients then [b] else [])
          + (if t in c.ingredients then [c] else []) + (if t in d.ingredients then [d] else [])
  {
    assert [a, b, c, d][..3] == [a, b, c];
    assert [a, b, c][..2] == [a, b];
    assert [a, b][..1] == [a];
    assert [a][..0] == [];
    assert Containing([a], t) == (if t in a.ingredients then [a] else []);
    assert Containing([a, b], t) == Containing([a], t) + (if t in b.ingredients then [b] else []);
    assert Containing([a, b, c], t) == Containing([a, b], t) + (if t in c.ingredients then [c] else []);
  }

  /** The script: four recipes and their difficulties. */
  method CatalogueScenario() returns (tea: Difficulty, cake: Difficulty, smoothie: Difficulty,
                                      withWater: seq<string>, withSugar: seq<string>, withBananas: seq<string>)
    ensures tea == Easy && cake == Hard && smoothie == Medium
    ensures withWater == ["Tea", "Coffee"]
    ensures withSugar == ["Tea", "Coffee", "Cake", "Banana Smoothie"]
    ensures withBananas == ["Banana Smoothie"]
  {
    var registry := new IngredientRegistry();
    var teaRecipe := new Recipe("Tea", 5, registry);
    teaRecipe.AddIngredients(["Tea Leaves", "Sugar", "Water"]);
    var coffee := new Recipe("Coffee", 5, registry);
    coffee.AddIngredients(["Coffee Powder", "Sugar", "Water"]);
    var cakeRecipe := new Recipe("Cake", 50, registry);
    cakeRecipe.AddIngredients(["Sugar", "Butter", "Eggs", "Vanilla Essence", "Flour", "Baking Powder", "Milk"]);
    var bananaSmoothie := new Recipe("Banana Smoothie", 5, registry);
    bananaSmoothie.AddIngredients(["Bananas", "Milk", "Peanut Butter", "Sugar", "Ice Cubes"]);
    tea := teaRecipe.difficulty.value;
    cake := cakeRecipe.difficulty.value;
    smoothie := bananaSmoothie.difficulty.value;
    withWater, withSugar, withBananas := ScenarioSearches(teaRecipe, coffee, cakeRecipe, bananaSmoothie);
  }

  /** Which of the script's ingredient lists hold the three search terms. */
  lemma ScenarioMembership()
    ensures "Water" in ["Tea Leaves", "Sugar", "Water"] && "Water" in ["Coffee Powder", "Sugar", "Water"]
    ensures "Water" !in ["Sugar", "Butter", "Eggs", "Vanilla Essence", "Flour", "Baking Powder", "Milk"]
    ensures "Water" !in ["Bananas", "Milk", "Peanut Butter", "Sugar", "Ice Cubes"]
    ensures "Sugar" in ["Tea Leaves", "Sugar", "Water"] && "Sugar" in ["Coffee Powder", "Sugar", "Water"]
    ensures "Sugar" in ["Sugar", "Butter", "Eggs", "Vanilla Essence", "Flour", "Baking Powder", "Milk"]
    ensures "Sugar" in ["Bananas", "Milk", "Peanut Butter", "Sugar", "Ice Cubes"]
    ensures "Bananas" !in ["Tea Leaves", "Sugar", "Water"] && "Bananas" !in ["Coffee Powder", "Sugar", "Water"]
    ensures "Bananas" !in ["Sugar", "Butter", "Eggs", "Vanilla Essence", "Flour", "Baking Powder", "Milk"]
    ensures "Bananas" in ["Bananas", "Milk", "Peanut Butter", "Sugar", "Ice Cubes"]
  {
    assert ["Tea Leaves", "Sugar", "Water"][2] == "Water";
    assert ["Coffee Powder", "Sugar", "Water"][2] == "Water";
    assert ["Tea Leaves", "Sugar", "Water"][1] == "Sugar";
    assert ["Coffee Powder", "Sugar", "Water"][1] == "Sugar";
    assert ["Sugar", "Butter", "Eggs", "Vanilla Essence", "Flour", "Baking Powder", "Milk"][0] == "Sugar";
    assert ["Bananas", "Milk", "Peanut Butter", "Sugar", "Ice Cubes"][3] == "Sugar";
    assert ["Bananas", "Milk", "Peanut Butter", "Sugar", "Ice Cubes"][0] == "Bananas";
  }

  /** The script's three searches over [tea, coffee, cake, banana_smoothie]. */
  method ScenarioSearches(tea: Recipe, coffee: Recipe, cake: Recipe, smoothie: Recipe)
    returns (withWater: seq<string>, withSugar: seq<string>, withBananas: seq<string>)
    requires tea.ingredients == ["Tea Leaves", "Sugar", "Water"] && tea.name == "Tea"
    requires coffee.ingredients == ["Coffee Powder", "Sugar", "Water"] && coffee.name == "Coffee"
    requires cake.ingredients == ["Sugar", "Butter", "Eggs", "Vanilla Essence", "Flour", "Baking Powder", "Milk"]
    requires cake.name == "Cake"
    requires smoothie.ingredients == ["Bananas", "Milk", "Peanut Butter", "Sugar", "Ice Cubes"]
    requires smoothie.name == "Banana Smoothie"
    ensures withWater == ["Tea", "Coffee"]
    ensures withSugar == ["Tea", "Coffee", "Cake", "Banana Smoothie"]
    ensures withBananas == ["Banana Smoothie"]
  {
    var recipesList := [tea, coffee, cake, smoothie];
    ScenarioMembership();
    var found := RecipeSearch(recipesList, "Water");
    ContainingFour(tea, coffee, cake, smoothie, "Water");
    withWater := Names(found);
    found := RecipeSearch(recipesList, "Sugar");
    ContainingFour(tea, coffee, cake, smoothie, "Sugar");
    withSugar := Names(found);
    found := RecipeSearch(recipesList, "Bananas");
    ContainingFour(tea, coffee, cake, smoothie, "Bananas");
    withBananas := Names(found);
  }
}
