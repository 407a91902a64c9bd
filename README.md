# Recipe catalogue, Height and ShoppingList — a verified Dafny model

This project models the sequential logic of the Achievement 1 Python exercises
from TubaJordan/PythonCourse:

- **The recipe catalogue.**
  - A four-way difficulty rating of (cooking time, ingredient count), used by
    three scripts.
  - The `Recipe` class, whose `difficulty` field is recomputed whenever the
    cooking time or the ingredients change and which records every added
    ingredient in the class-wide `all_ingredients` set.
  - The validation and comma-splitting rules of `take_recipe`.
  - The append-if-absent merge into the list of distinct ingredients.
  - The 1-based ingredient menu of the search script, the filter over the
    stored recipes and the count, singular/plural word and line of dashes of
    its report.
  - The first script's collection loop, difficulty if-chain and sorted
    ingredient listing.
- **`Height`.** Feet and inches. Addition and absolute-difference subtraction
  normalise the result to inches in [0, 11], and all six comparisons work on
  the total number of inches.
- **`ShoppingList`.** A named list without duplicates. `add_items` does
  nothing for an item already present, and `remove_item` deletes the first
  occurrence of an item.

Modules:

| file | module | models |
|---|---|---|
| wrappers.dfy | `Wrappers` | `Option` |
| seqs.dfy | `Seqs` | sequences: no duplicates, first index, subsequence, append-if-absent merge, filter, first match, remove-first, flatten |
| text.dfy | `Text` | `str.strip`, `str.split`, code-point string order, decimal rendering of counts, `"-" * n` |
| sorting.dfy | `Sorting` | sorting by a total preorder, and the uniqueness of a sorted permutation |
| classification.dfy | `Classification` | the shared difficulty table |
| recipe_oop.dfy | `RecipeOop` | `Recipe` of Exercise 1.5 as a class over the heap, `recipe_search` as a method with a loop |
| recipe_input.dfy | `RecipeInput` | `calc_difficulty`, `take_recipe` and the entry loop of Exercise 1.4 |
| recipe_search.dfy | `RecipeSearch` | `search_ingredient` of Exercise 1.4 |
| heights.dfy | `Heights` | `Height` and its script |
| recipe_script.dfy | `RecipeScript` | Exercise_1.3.py |
| shopping_list.dfy | `Shopping` | `ShoppingList` and its script |

Where the source changes state in place (`Recipe`, the shared ingredient set,
`ShoppingList`), the model is a Dafny `class` with `modifies` clauses. Where
the source runs a loop (`add_ingredients` over `*args`, the entry and merge loops,
the input retry loops, the selection loop, the if-chain loop), the model is a
`method` with a loop, proved against a specification function. `Height` is
never mutated after construction, so it is a datatype with pure functions.

Console input is a parameter. Each prompt that the source repeats until the
answer is acceptable receives the answers it would have read, in order. An
`int(input())` answer is an `IntInput`: either a number or text that `int()`
rejects.

The search menu numbers `all_ingredients` in its stored order, which is
first-seen entry order, built by the merge at `Achievement1/Exercise1.4/recipe_input.py:81-83`
and enumerated at `Achievement1/Exercise1.4/recipe_search.py:32-40`;
`RecipeSearch.Select` indexes that list.

## Model

| member | source | states |
|---|---|---|
| Classification.Classify | Achievement1/Exercise1.5/recipe_oop.py:17-23 | Each of the four ratings holds exactly in its cell: Easy iff time < 10 and k < 4, Medium iff time < 10 and k >= 4, Intermediate iff time >= 10 and k < 4, Hard iff time >= 10 and k >= 4 |
| Classification.LabelInjective | Achievement1/Exercise1.5/recipe_oop.py:21-23 | Different ratings are stored as different strings |
| RecipeOop.IngredientRegistry.constructor | Achievement1/Exercise1.5/recipe_oop.py:2 | The class-wide ingredient set starts empty |
| RecipeOop.Recipe.constructor | Achievement1/Exercise1.5/recipe_oop.py:4-8 | A new recipe has the given name and time, no ingredients and no difficulty yet, and it satisfies the class invariant |
| RecipeOop.Recipe.AddIngredients | Achievement1/Exercise1.5/recipe_oop.py:10-15 | Afterwards get_ingredients returns the old list with the arguments appended in order. The shared set gains exactly the arguments, so it is unchanged when all of them were already known. The difficulty is the table's rating of the current time and ingredient count. The name and time are unchanged |
| RecipeOop.Recipe.CalculateDifficulty | Achievement1/Exercise1.5/recipe_oop.py:17-23 | Stores the table's rating of the current time and ingredient count; nothing else changes |
| RecipeOop.Recipe.SetName | Achievement1/Exercise1.5/recipe_oop.py:29-31 | Afterwards get_name returns the new name. Only the name changes, and the difficulty invariant still holds |
| RecipeOop.Recipe.SetCookingTime | Achievement1/Exercise1.5/recipe_oop.py:37-40 | Afterwards get_cooking_time returns the new time. Only the time and the difficulty change, and the difficulty becomes the rating of the new time and the unchanged ingredient count |
| RecipeOop.Recipe.GetDifficulty | Achievement1/Exercise1.5/recipe_oop.py:46-50 | Always returns the rating of the current state. It stores that rating, and a value already stored is left as it was |
| RecipeOop.Recipe.SearchIngredient | Achievement1/Exercise1.5/recipe_oop.py:52-54 | Membership of the term in this recipe's list; SearchIsExactMatch states what that means |
| RecipeOop.Recipe.UpdateAllIngredients | Achievement1/Exercise1.5/recipe_oop.py:56-58 | The shared set gains exactly this one ingredient |
| RecipeOop.SearchIsExactMatch | Achievement1/Exercise1.5/recipe_oop.py:52-54 | search_ingredient holds exactly when some position of the list is equal to the term (exact, case-sensitive) |
| RecipeOop.SearchIsCaseSensitive | Achievement1/Exercise1.5/recipe_oop.py:52-54 | The membership test is case-sensitive: Tea's list holds "Sugar" but not "sugar" |
| RecipeOop.Containing | Achievement1/Exercise1.5/recipe_oop.py:64-68 | The recipes of the list that contain the term, in list order, built one recipe at a time; ContainingSpec states its properties |
| RecipeOop.ContainingSpec | Achievement1/Exercise1.5/recipe_oop.py:64-68 | The recipes the search reports are exactly those whose ingredient list contains the term. They keep their order in the input list, and each is reported as many times as it occurs in the list |
| RecipeOop.RecipeSearch | Achievement1/Exercise1.5/recipe_oop.py:64-68 | The loop prints the matching recipes one by one, in list order |
| RecipeOop.CatalogueScenario | Achievement1/Exercise1.5/recipe_oop.py:78-117 | The script's main code yields: Tea is Easy, Cake is Hard, Banana Smoothie is Medium; "Water" finds Tea and Coffee; "Sugar" finds all four in order; "Bananas" finds only Banana Smoothie |
| RecipeOop.ScenarioSearches | Achievement1/Exercise1.5/recipe_oop.py:96-117 | The three searches over [tea, coffee, cake, banana_smoothie] print those names in that order |
| RecipeInput.CalcDifficulty | Achievement1/Exercise1.4/recipe_input.py:18-26 | calc_difficulty agrees with Recipe.calculate_difficulty on every input |
| RecipeInput.ParseIngredients | Achievement1/Exercise1.4/recipe_input.py:51-52 | Every token is non-empty and has no surrounding whitespace. The tokens are the comma-separated stripped pieces in input order, and each non-empty piece is kept as often as it occurs while the empty ones are dropped |
| RecipeInput.ParseKeepsEveryToken | Achievement1/Exercise1.4/recipe_input.py:52 | Every non-empty stripped piece is kept, and the number of ingredients is the number of pieces less the empty ones |
| RecipeInput.TakeRecipe | Achievement1/Exercise1.4/recipe_input.py:29-58 | Each prompt takes its first acceptable answer: the name is non-blank after strip, the time is an integer > 0, and the ingredients give at least one token. A record comes back iff every prompt gets one. The record holds exactly those answers, and its difficulty is calc_difficulty of the time and ingredient count |
| RecipeInput.AcceptedIsWellFormed | Achievement1/Exercise1.4/recipe_input.py:33-58 | Accepted answers always make a record with a stripped non-empty name, a positive time, one or more stripped non-empty ingredients and the table's difficulty |
| RecipeInput.MergedIngredientsSpec | Achievement1/Exercise1.4/recipe_input.py:78-83 | The merged list keeps the loaded list as a prefix and adds no duplicate. It holds every ingredient of every entered recipe, and each addition is new, in first-seen order |
| RecipeInput.EnterRecipes | Achievement1/Exercise1.4/recipe_input.py:74-83 | recipes_list becomes the loaded records followed by the entered ones, in entry order. all_ingredients becomes the append-if-absent merge of their ingredients |
| RecipeSearch.Select | Achievement1/Exercise1.4/recipe_search.py:39-40 | A choice is accepted iff 1 <= choice <= len, and then it selects all_ingredients[choice-1] |
| RecipeSearch.MenuNumberSelects | Achievement1/Exercise1.4/recipe_search.py:32-40 | The number printed beside an ingredient selects that ingredient |
| RecipeSearch.SelectedNumberIsMenuNumber | Achievement1/Exercise1.4/recipe_search.py:32-40 | In a duplicate-free list, an accepted choice is exactly one more than the position of the ingredient it selects |
| RecipeSearch.PickIngredient | Achievement1/Exercise1.4/recipe_search.py:36-62 | Out-of-range numbers are skipped. The first in-range number selects its ingredient, and text that is not a number ends the search with the ValueError outcome |
| RecipeSearch.RecipesWith | Achievement1/Exercise1.4/recipe_search.py:45 | The matches are a subsequence of recipes_list in original order. They include every recipe containing the token and only those, each as many times as it occurs in recipes_list |
| RecipeSearch.NoMatchesIffAbsent | Achievement1/Exercise1.4/recipe_search.py:45-46 | The count is 0 exactly when no recipe contains the token; that is not an error |
| RecipeSearch.RecipeWord | Achievement1/Exercise1.4/recipe_search.py:49 | "Recipe" iff the count is 1, otherwise "Recipes" |
| RecipeSearch.Decoration | Achievement1/Exercise1.4/recipe_search.py:51 | The line is only "-" characters, two more than the message length |
| RecipeSearch.Summary | Achievement1/Exercise1.4/recipe_search.py:51 | The report line: the count, the word and the token; SummaryStartsWithCount states that the count reads back |
| RecipeSearch.MakeReport | Achievement1/Exercise1.4/recipe_search.py:45-54 | The report's count is the number of matches and its word is RecipeWord of that count, so singular iff it is 1. The message is the summary line for that count, word and token, and the decoration is dashes two longer than the message |
| RecipeSearch.SummaryStartsWithCount | Achievement1/Exercise1.4/recipe_search.py:51-53 | The message begins with the decimal count, which reads back as the number of matches |
| RecipeSearch.SearchIngredient | Achievement1/Exercise1.4/recipe_search.py:27-64 | Out-of-range numbers are skipped. The first in-range number selects the token, and text that is not a number ends the search with the ValueError outcome. A report is produced iff a token was selected. The token is always a known ingredient, so the IndexError branch cannot run, and the report describes that token over the stored recipes |
| Heights.FromInches | Achievement1/Exercise1.5/1.5-PracticeTasks/height_example.py:19-22 | The result has the given total and inches in [0, 11] |
| Heights.NormalFormUnique | Achievement1/Exercise1.5/1.5-PracticeTasks/height_example.py:19-22 | A height with inches in [0, 11] is the one normal form of its total |
| Heights.Add | Achievement1/Exercise1.5/1.5-PracticeTasks/height_example.py:10-25 | The sum's total is the sum of both totals, with inches in [0, 11] |
| Heights.Sub | Achievement1/Exercise1.5/1.5-PracticeTasks/height_example.py:27-41 | The difference's total is the absolute difference of the totals, with non-negative feet and inches in [0, 11] |
| Heights.AddCommutes | Achievement1/Exercise1.5/1.5-PracticeTasks/height_example.py:12-25 | a + b and b + a have the same feet and inches |
| Heights.SubSymmetric | Achievement1/Exercise1.5/1.5-PracticeTasks/height_example.py:27-41 | a - b and b - a have the same feet and inches |
| Heights.Lt | Achievement1/Exercise1.5/1.5-PracticeTasks/height_example.py:43-46 | Python's <: compares the total inches only; ComparisonsConsistent relates it to the other five |
| Heights.Le | Achievement1/Exercise1.5/1.5-PracticeTasks/height_example.py:48-51 | Python's <=: compares the total inches only; ComparisonsConsistent relates it to the other five |
| Heights.Eq | Achievement1/Exercise1.5/1.5-PracticeTasks/height_example.py:53-56 | Python's ==: compares the total inches only; ComparisonsConsistent relates it to the other five |
| Heights.Gt | Achievement1/Exercise1.5/1.5-PracticeTasks/height_example.py:58-61 | Python's >: compares the total inches only; ComparisonsConsistent relates it to the other five |
| Heights.Ge | Achievement1/Exercise1.5/1.5-PracticeTasks/height_example.py:63-66 | Python's >=: compares the total inches only; ComparisonsConsistent relates it to the other five |
| Heights.Ne | Achievement1/Exercise1.5/1.5-PracticeTasks/height_example.py:68-71 | Python's !=: compares the total inches only; ComparisonsConsistent relates it to the other five |
| Heights.EqIffSameNormalForm | Achievement1/Exercise1.5/1.5-PracticeTasks/height_example.py:53-56 | == holds exactly when both heights normalise to the same feet and inches |
| Heights.ComparisonsConsistent | Achievement1/Exercise1.5/1.5-PracticeTasks/height_example.py:43-71 | < iff not >=, <= iff < or ==, > iff b < a, >= iff b <= a, != iff not ==, and == is symmetric |
| Heights.LeTotalOrder | Achievement1/Exercise1.5/1.5-PracticeTasks/height_example.py:48-51 | <= relates any two heights and is transitive |
| Heights.SortHeights | Achievement1/Exercise1.5/1.5-PracticeTasks/height_example.py:101-103 | The result is a permutation of the input, non-decreasing in total inches |
| Heights.AddExample | Achievement1/Exercise1.5/1.5-PracticeTasks/height_example.py:73-77 | 5'10" + 4'10" is 10'8" |
| Heights.SubExample | Achievement1/Exercise1.5/1.5-PracticeTasks/height_example.py:79-83 | 3'9" - 5'10" is 2'1" |
| Heights.ComparisonExamples | Achievement1/Exercise1.5/1.5-PracticeTasks/height_example.py:85-91 | Each comparison the script prints is true, and 5'10" == 4'22" |
| Heights.SortExample | Achievement1/Exercise1.5/1.5-PracticeTasks/height_example.py:94-105 | Sorting the script's six heights, in any arrangement, gives 4'10", 5'5", 5'6", 5'6", 6'7", 7'1" |
| RecipeScript.SplitIngredients | Achievement1/Exercise1.3/Exercise_1.3.py:8 | There is one token per comma plus one, none filtered out, and token i is the i-th comma-separated piece, stripped |
| RecipeScript.SplitIngredientsOfJoin | Achievement1/Exercise1.3/Exercise_1.3.py:7-8 | Stripped ingredients without commas, typed with "," between them, are read back exactly |
| RecipeScript.EmptyLineGivesEmptyIngredient | Achievement1/Exercise1.3/Exercise_1.3.py:7-8 | An empty answer yields [""] |
| RecipeScript.LoneCommaGivesTwoEmpty | Achievement1/Exercise1.3/Exercise_1.3.py:7-8 | An answer of "," yields ["", ""] |
| RecipeScript.TakeRecipe | Achievement1/Exercise1.3/Exercise_1.3.py:4-10 | The name is stored as typed, blanks included, and the time as given. There is one ingredient per comma-separated piece of the answer, each stripped |
| RecipeScript.TakeRecipeKeepsBlanks | Achievement1/Exercise1.3/Exercise_1.3.py:4-10 | The name " tea " is kept with its blanks, and an empty ingredient answer gives [""] |
| RecipeScript.CollectRecipes | Achievement1/Exercise1.3/Exercise_1.3.py:15-20 | recipes_list has one record per iteration, in entry order. ingredients_list is the append-if-absent merge of their ingredients, starting from empty |
| RecipeScript.IngredientsListSpec | Achievement1/Exercise1.3/Exercise_1.3.py:17-19 | ingredients_list has no duplicates, holds every ingredient of every recipe and nothing else, and is in first-seen order |
| RecipeScript.RecipeDetails | Achievement1/Exercise1.3/Exercise_1.3.py:24-35 | For each recipe, the if-chain gives the shared table's rating |
| RecipeScript.LexLeTotalOrder | Achievement1/Exercise1.3/Exercise_1.3.py:45 | Python's string order relates any two strings and is transitive |
| RecipeScript.CompleteListing | Achievement1/Exercise1.3/Exercise_1.3.py:45 | The listing is a permutation of ingredients_list in ascending string order |
| Shopping.ShoppingList.constructor | Achievement1/Exercise1.5/1.5-PracticeTasks/shopping_list.py:2-4 | A new list has the given name and no items |
| Shopping.ShoppingList.AddItems | Achievement1/Exercise1.5/1.5-PracticeTasks/shopping_list.py:6-8 | The item is appended iff it is absent, so adding a present item changes nothing. The list stays duplicate-free and the name is unchanged |
| Shopping.ShoppingList.RemoveItem | Achievement1/Exercise1.5/1.5-PracticeTasks/shopping_list.py:10-11 | Succeeds iff the item is present. It then deletes its first occurrence and keeps the other items in order; the item is gone afterwards and the list stays duplicate-free |
| Shopping.PetStoreScenario | Achievement1/Exercise1.5/1.5-PracticeTasks/shopping_list.py:16-28 | The script's final list is ["dog food", "frisbee", "bowl", "collars"] |
| Seqs.AppendEachAbsent | Achievement1/Exercise1.4/recipe_input.py:81-83 | The inner loop appends each not-yet-present item, which is the append-if-absent merge |
| Seqs.AppendAbsent | Achievement1/Exercise1.4/recipe_input.py:81-83 | Each item is appended unless already present, left to right; AppendAbsentSpec states its properties |
| Seqs.AppendAbsentSpec | Achievement1/Exercise1.3/Exercise_1.3.py:17-19 | The merge keeps the old list as a prefix and adds only new items, each once, in first-seen order. Every merged item ends up present |
| Seqs.AppendAbsentKnown | Achievement1/Exercise1.5/1.5-PracticeTasks/shopping_list.py:7 | Merging items that are all already present leaves the list unchanged |
| Seqs.FindFirst | Achievement1/Exercise1.4/recipe_input.py:33-37 | A retry loop stops at the first acceptable answer, or runs through all of them when none is acceptable |
| Seqs.Filter | Achievement1/Exercise1.4/recipe_search.py:45 | A filter comprehension keeps exactly the elements that pass, each as often as it occurs |
| Seqs.FilterIsSubsequence | Achievement1/Exercise1.4/recipe_search.py:45 | A filter comprehension keeps its elements in their original order |
| Seqs.FilterDropsOnly | Achievement1/Exercise1.4/recipe_input.py:52 | A filter that drops one value shortens the list by that value's number of copies |
| Seqs.RemoveFirstSlice | Achievement1/Exercise1.5/1.5-PracticeTasks/shopping_list.py:11 | list.remove deletes exactly the element at the first index of the item |
| Seqs.RemoveFirstMultiset | Achievement1/Exercise1.5/1.5-PracticeTasks/shopping_list.py:11 | list.remove takes away one copy of the item and nothing else |
| Seqs.RemoveFirstNoDup | Achievement1/Exercise1.5/1.5-PracticeTasks/shopping_list.py:11 | Removing from a duplicate-free list leaves it duplicate-free and without the item |
| Seqs.RemoveFirst | Achievement1/Exercise1.5/1.5-PracticeTasks/shopping_list.py:11 | list.remove: the list without its first copy of the item; RemoveFirstSlice and RemoveFirstMultiset state its properties |
| Text.OccursIsMembership | Achievement1/Exercise1.4/recipe_input.py:34 | A character counts as whitespace for str.strip exactly when it is one of the listed whitespace code points |
| Text.Strip | Achievement1/Exercise1.4/recipe_input.py:34 | str.strip gives a string with no leading or trailing whitespace, no longer than the input |
| Text.StripIsTrimmedSlice | Achievement1/Exercise1.4/recipe_input.py:34 | str.strip removes only whitespace, and only from the two ends |
| Text.StripIdempotent | Achievement1/Exercise1.4/recipe_input.py:51-52 | Stripping twice is the same as stripping once, so stripping the answer before the split and each piece after it loses nothing |
| Text.StripEachFixed | Achievement1/Exercise1.4/recipe_input.py:52 | Stripping pieces that are already stripped changes none of them |
| Text.Split | Achievement1/Exercise1.3/Exercise_1.3.py:8 | str.split(",") gives one piece per comma plus one, and no piece contains a comma |
| Text.JoinSplit | Achievement1/Exercise1.3/Exercise_1.3.py:8 | Joining the pieces with "," gives back the answer |
| Text.SplitJoin | Achievement1/Exercise1.3/Exercise_1.3.py:8 | Splitting a comma-join of comma-free pieces gives back the pieces |
| Text.LexTotal | Achievement1/Exercise1.3/Exercise_1.3.py:45 | String order relates any two strings |
| Text.LexAntisymmetric | Achievement1/Exercise1.3/Exercise_1.3.py:45 | Two strings ordered both ways are equal |
| Text.LexTransitive | Achievement1/Exercise1.3/Exercise_1.3.py:45 | String order is transitive |
| Text.DecimalRoundTrip | Achievement1/Exercise1.4/recipe_search.py:51 | The count rendered in decimal reads back as the count |
| Sorting.SortBy | Achievement1/Exercise1.5/1.5-PracticeTasks/height_example.py:103 | sorted() gives a permutation of its input, ordered by the comparison |
| Sorting.SortedUnique | Achievement1/Exercise1.5/1.5-PracticeTasks/height_example.py:103 | Under an order where no two different elements compare equal, a list has only one sorted permutation |

## Left out

- Pickle load and save, file opening and `FileNotFoundError` handling (`Achievement1/Exercise1.4/recipe_input.py:62-72, 86-91`, `Achievement1/Exercise1.4/recipe_search.py:67-77`). These are I/O in a serialisation format whose code is not part of this model. Both `RecipeInput.EnterRecipes` and `RecipeSearch.SearchIngredient` take the loaded dictionary as a `CatalogueState` parameter; `EnterRecipes` returns the one recipe_input.py saves at lines 86-89, and recipe_search.py saves nothing.
- Console input. `input()` and `int()` become parameters. Each retry prompt gets its own sequence of answers instead of one interleaved console stream, and the count `n` is the length of the sequence of entered recipes.
- RecipeInput.TakeRecipe: a prompt that never gets an acceptable answer makes Python loop forever. The model returns `None` once that prompt's answers run out.
- RecipeSearch.PickIngredient: an empty ingredient list makes the Python selection loop run until a non-number arrives. The model ends with `NoMoreInput` when the answers run out.
- RecipeScript.TakeRecipe: `int()` rejecting the time answer makes Exercise_1.3.py crash with ValueError. The model takes the time as an integer, so that crash is not modelled; the same holds for the `n` prompts of both entry scripts.
- All printing: the ASCII-art headers, `display_recipe`, `Recipe.__str__`, `Height.__str__`, `view_list`, and the recipe details printed by Exercise_1.3.py.
- RecipeSearch.MakeReport: the printed message title-cases the ingredient. The model's message uses the token as stored, because Unicode title-casing is library behaviour. So the decoration length is stated for the untitled message. The two lengths agree for ASCII tokens but can differ for characters whose title case is longer.
- Difficulty is a datatype; `Classification.Label` gives the string the scripts store.
- RecipeOop.Recipe.GetName, GetCookingTime, GetIngredients: plain field reads. What they return after each change of state is stated by SetName, SetCookingTime and AddIngredients.
- RecipeOop.Recipe.GetIngredients: returns the list as a value. In Python it returns the live list, and mutating that list would change the recipe without recomputing the difficulty.
- RecipeOop.Recipe.SetName: requires the class invariant `Valid()` so that it can promise to keep it. It holds after the constructor and after every method of the class. `GetDifficulty` requires it for the same reason.
- The process-wide class variable `Recipe.all_ingredients` is an `IngredientRegistry` object passed to each recipe's constructor. The scenario passes the same registry to all four recipes.
- Shopping.ShoppingList.RemoveItem: when the item is absent, `list.remove` raises ValueError. The model returns `ok == false` and leaves the list unchanged.
- Heights.SortHeights: does not state that the sort is stable. Python's `sorted` keeps heights with equal totals (unequal feet and inches, such as 5'10" and 4'22") in their input order. The model proves only a permutation in non-decreasing order; `SortExample` shows the result is unique when no two different heights share a total.
- Sorting.SortBy: does not state stability either. The insertion places each element before its equals among the already sorted rest, but the contract asserts only a permutation in non-decreasing order.
- Heights.SortExample: stated for every arrangement of the script's six heights (a `multiset` precondition) instead of for the literal list alone. That keeps the solver from unfolding the sort on the concrete list, and it covers the literal list as one case.
- Heights equality: Python's `__eq__` compares total inches, so `Height(5, 10) == Height(4, 22)` is true. The model writes that comparison as `Heights.Eq`; Dafny's `==` on `Height` compares feet and inches.
- Python's `str.strip()` with no argument strips Unicode whitespace. `Text.IsSpace` lists the code points Python treats as whitespace.
- The Django bookstore tests and `recipe_read.py` are not part of this model.
