/** The difficulty rating shared by the recipe scripts: a total function of
    the cooking time in minutes and the number of ingredients. */
module Classification {

  datatype Difficulty = Easy | Medium | Intermediate | Hard

  /** The string the scripts store for a rating. */
  function Label(d: Difficulty): string {
    match d
    case Easy => "Easy"
    case Medium => "Medium"
    case Intermediate => "Intermediate"
    case Hard => "Hard"
  }

  /** Recipe.calculate_difficulty: split on the cooking time first, then on
      the number of ingredients. Each rating holds in exactly one cell of the
      table. */
  function Classify(cookingTime: int, numIngredients: int): (d: Difficulty)
    ensures d == Easy <==> cookingTime < 10 && numIngredients < 4
    ensures d == Medium <==> cookingTime < 10 && numIngredients >= 4
    ensures d == Intermediate <==> cookingTime >= 10 && numIngredients < 4
    ensures d == Hard <==> cookingTime >= 10 && numIngredients >= 4
  {
    if cookingTime < 10 then (if numIngredients < 4 then Easy else Medium)
    else (if numIngredients < 4 then Intermediate else Hard)
  }

  /** The labels tell the ratings apart. */
  lemma LabelInjective(d: Difficulty, e: Difficulty)
    ensures Label(d) == Label(e) ==> d == e
  {
    if d != e {
      assert Label(d)[0] != Label(e)[0] || |Label(d)| != |Label(e)|;
    }
  }
}
