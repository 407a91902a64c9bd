/** recipe_search.py: the numbered ingredient menu and the loop that reads
    a choice until it is in range, the filter over the stored recipes, and
    the count, the singular/plural word and the dashed line of the report. */
module RecipeSearch {
  import opened Wrappers
  import opened Text
  import opened Seqs
  import opened RecipeInput

  /** How the selection loop ends: with a token, with the ValueError that
      ends the search, or with no answers left. */
  datatype Selection = Selected(token: string) | InvalidNumber | NoMoreInput

  /** The bounds check and the lookup all_ingredients[choice - 1]. */
  function Select(allIngredients: seq<string>, choice: int): (r: Option<string>)
    ensures r.Some? <==> 1 <= choice <= |allIngredients|
    ensures r.Some? ==> r.value == allIngredients[choice - 1]
  {
    if 1 <= choice <= |allIngredients| then Some(allIngredients[choice - 1]) else None
  }

  /** The number printed beside an ingredient in the menu selects it. */
  lemma MenuNumberSelects(allIngredients: seq<string>, i: int)
    requires 0 <= i < |allIngredients|
    ensures Select(allIngredients, i + 1) == Some(allIngredients[i])
  {
  }

  /** In a duplicate-free menu an ingredient has one number: the one
      printed beside it. */
  lemma SelectedNumberIsMenuNumber(allIngredients: seq<string>, choice: int, token: string)
    requires NoDup(allIngredients)
    requires Select(allIngredients, choice) == Some(token)
    ensures token in allIngredients && choice == FirstIndex(allIngredients, token) + 1
  {
    var k := FirstIndex(allIngredients, token);
    assert allIngredients[choice - 1] == token == allIngredients[k];
  }

  /** The selection loop: answers are read in order until one is in range;
      a non-number ends the search. `used` is the position of the answer
      that ended the loop. */
  method PickIngredient(allIngredients: seq<string>, choices: seq<IntInput>) returns (sel: Selection, used: nat)
    ensures used <= |choices|
    ensures forall k :: 0 <= k < used ==> choices[k].Number? && Select(allIngredients, choices[k].value) == None
    ensures sel.Selected? ==> used < |choices| && choices[used].Number?
                              && Select(allIngredients, choices[used].value) == Some(sel.token)
    ensures sel.InvalidNumber? ==> used < |choices| && choices[used] == NotANumber
    ensures sel.NoMoreInput? ==> used == |choices|
  {
    used := 0;
    while used < |choices|
      invariant used <= |choices|
      invariant forall k :: 0 <= k < used ==> choices[k].Number? && Select(allIngredients, choices[k].value) == None
    {
      match choices[used]
      case NotANumber =>
        return InvalidNumber, used;
      case Number(choice) =>
        if 1 <= choice <= |allIngredients| {
          return Selected(allIngredients[choice - 1]), used;
        }
      used := used + 1;
    }
    sel := NoMoreInput;
  }

  /** The comprehension `[recipe for recipe in recipes_list if token in
      recipe["ingredients"]]`. */
  function RecipesWith(recipes: seq<RecipeRecord>, token: string): (matches: seq<RecipeRecord>)
    ensures forall i :: 0 <= i < |matches| ==> matches[i] in recipes && token in matches[i].ingredients
    ensures forall i :: 0 <= i < |recipes| && token in recipes[i].ingredients ==> recipes[i] in matches
    ensures IsSubsequence(matches, recipes)
    ensures forall r | r in multiset(recipes)
              :: multiset(matches)[r] == if token in r.ingredients then multiset(recipes)[r] else 0
  {
    var hasToken := (r: RecipeRecord) => token in r.ingredients;
    FilterIsSubsequence(recipes, hasToken);
    Filter(recipes, hasToken)
  }

  /** No recipe contains the token exactly when there are no matches: an
      absent token gives a count of 0, not an error. */
  lemma NoMatchesIffAbsent(recipes: seq<RecipeRecord>, token: string)
    ensures |RecipesWith(recipes, token)| == 0
        <==> forall i :: 0 <= i < |recipes| ==> token !in recipes[i].ingredients
  {
    var m := RecipesWith(recipes, token);
    if |m| != 0 {
      assert m[0] in recipes;
    }
  }

  /** "Recipe" when there is exactly one match, "Recipes" otherwise. */
  function RecipeWord(numRecipes: nat): (word: string)
    ensures word == "Recipe" <==> numRecipes == 1
    ensures word == "Recipe" || word == "Recipes"
  {
    if numRecipes == 1 then "Recipe" else "Recipes"
  }

  /** The report line, with the token as stored. */
  function Summary(numRecipes: nat, recipeWord: string, token: string): string {
    DecimalString(numRecipes) + " " + recipeWord + " found containing " + token
  }

  /** "-" * (len(message) + 2). */
  function Decoration(message: string): (line: string)
    ensures |line| == |message| + 2
    ensures forall k :: 0 <= k < |line| ==> line[k] == '-'
  {
    Repeat('-', |message| + 2)
  }

  /** What the search prints after a token is chosen. */
  datatype Report = Report(matches: seq<RecipeRecord>, numRecipes: nat, recipeWord: string,
                           message: string, decoration: string)

  function MakeReport(recipes: seq<RecipeRecord>, token: string): (rep: Report)
    ensures rep.matches == RecipesWith(recipes, token)
    ensures rep.numRecipes == |rep.matches|
    ensures rep.recipeWord == RecipeWord(rep.numRecipes)
    ensures rep.recipeWord == "Recipe" <==> rep.numRecipes == 1
    ensures rep.message == Summary(rep.numRecipes, rep.recipeWord, token)
    ensures |rep.decoration| == |rep.message| + 2
    ensures forall k :: 0 <= k < |rep.decoration| ==> rep.decoration[k] == '-'
  {
    var matches := RecipesWith(recipes, token);
    var numRecipes := |matches|;
    var recipeWord := RecipeWord(numRecipes);
    var message := Summary(numRecipes, recipeWord, token);
    Report(matches, numRecipes, recipeWord, message, Decoration(message))
  }

  /** The count at the head of the report line reads back as the number of
      matches. */
  lemma SummaryStartsWithCount(recipes: seq<RecipeRecord>, token: string)
    ensures var rep := MakeReport(recipes, token);
      var digits := DecimalString(rep.numRecipes);
      |digits| < |rep.message| && rep.message[..|digits|] == digits
      && DecimalValue(digits) == |RecipesWith(recipes, token)|
  {
    var rep := MakeReport(recipes, token);
    DecimalRoundTrip(rep.numRecipes);
  }

  /** search_ingredient: choose a token, then report on the recipes that
      contain it. A chosen index is always in range, so the IndexError
      handler cannot run. */
  method SearchIngredient(data: CatalogueState, choices: seq<IntInput>)
    returns (sel: Selection, used: nat, report: Option<Report>)
    ensures used <= |choices|
    ensures forall k :: 0 <= k < used ==> choices[k].Number? && Select(data.allIngredients, choices[k].value) == None
    ensures sel.Selected? ==> used < |choices| && choices[used].Number?
                              && Select(data.allIngredients, choices[used].value) == Some(sel.token)
    ensures sel.InvalidNumber? ==> used < |choices| && choices[used] == NotANumber
    ensures sel.NoMoreInput? ==> used == |choices|
    ensures report.Some? <==> sel.Selected?
    ensures sel.Selected? ==> sel.token in data.allIngredients
    ensures sel.Selected? ==> report == Some(MakeReport(data.recipesList, sel.token))
  {
    sel, used := PickIngredient(data.allIngredients, choices);
    if sel.Selected? {
      report := Some(MakeReport(data.recipesList, sel.token));
    } else {
      report := None;
    }
  }
}
