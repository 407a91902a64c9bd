/** The Height class of height_example.py: feet and inches, with addition,
    absolute-difference subtraction and six comparisons, all computed on
    the total number of inches. A Height is never changed after it is made,
    so it is a value. */
module Heights {
  import Sorting

  datatype Height = Height(feet: int, inches: int)

  /** feet * 12 + inches, the quantity every operator works on. */
  function TotalInches(h: Height): int {
    h.feet * 12 + h.inches
  }

  /** Height(total // 12, total - (total // 12) * 12). Python's `//` floors;
      for the positive divisor 12 Dafny's Euclidean `/` is the same. */
  function FromInches(total: int): (h: Height)
    ensures TotalInches(h) == total
    ensures 0 <= h.inches <= 11
  {
    var feet := total / 12;
    Height(feet, total - feet * 12)
  }

  /** A given total has exactly one form with inches in [0, 11]. */
  lemma NormalFormUnique(h: Height)
    requires 0 <= h.inches <= 11
    ensures FromInches(TotalInches(h)) == h
  {
  }

  /** __add__ */
  function Add(a: Height, b: Height): (r: Height)
    ensures TotalInches(r) == TotalInches(a) + TotalInches(b)
    ensures 0 <= r.inches <= 11
  {
    var totalInches := TotalInches(a) + TotalInches(b);
    FromInches(totalInches)
  }

  /** __sub__: always the taller minus the shorter. */
  function Sub(a: Height, b: Height): (r: Height)
    ensures TotalInches(r) == if TotalInches(a) > TotalInches(b)
                              then TotalInches(a) - TotalInches(b)
                              else TotalInches(b) - TotalInches(a)
    ensures r.feet >= 0 && 0 <= r.inches <= 11
  {
    var heightA, heightB := TotalInches(a), TotalInches(b);
    if heightA > heightB then FromInches(heightA - heightB)
    else FromInches(heightB - heightA)
  }

  predicate Lt(a: Height, b: Height) { TotalInches(a) < TotalInches(b) }
  predicate Le(a: Height, b: Height) { TotalInches(a) <= TotalInches(b) }
  predicate Eq(a: Height, b: Height) { TotalInches(a) == TotalInches(b) }
  predicate Gt(a: Height, b: Height) { TotalInches(a) > TotalInches(b) }
  predicate Ge(a: Height, b: Height) { TotalInches(a) >= TotalInches(b) }
  predicate Ne(a: Height, b: Height) { TotalInches(a) != TotalInches(b) }

  /** Addition gives the same feet and inches in either order. */
  lemma AddCommutes(a: Height, b: Height)
    ensures Add(a, b) == Add(b, a)
  {
  }

  /** Subtraction is symmetric. */
  lemma SubSymmetric(a: Height, b: Height)
    ensures Sub(a, b) == Sub(b, a)
  {
    var heightA, heightB := TotalInches(a), TotalInches(b);
    var diff := if heightA > heightB then heightA - heightB else heightB - heightA;
    assert Sub(a, b) == FromInches(diff);
    assert Sub(b, a) == FromInches(diff);
  }

  /** Two heights are == exactly when they normalise to the same feet and
      inches; so `==` is an equivalence and ignores how a height is written. */
  lemma EqIffSameNormalForm(a: Height, b: Height)
    ensures Eq(a, b) <==> FromInches(TotalInches(a)) == FromInches(TotalInches(b))
  {
    if FromInches(TotalInches(a)) == FromInches(TotalInches(b)) {
      assert TotalInches(FromInches(TotalInches(a))) == TotalInches(a);
      assert TotalInches(FromInches(TotalInches(b))) == TotalInches(b);
    }
  }

  /** The six comparisons agree with each other. */
  lemma ComparisonsConsistent(a: Height, b: Height)
    ensures Lt(a, b) <==> !Ge(a, b)
    ensures Le(a, b) <==> Lt(a, b) || Eq(a, b)
    ensures Gt(a, b) <==> Lt(b, a)
    ensures Ge(a, b) <==> Le(b, a)
    ensures Ne(a, b) <==> !Eq(a, b)
    ensures Eq(a, b) <==> Eq(b, a)
  {
  }

  /** `<=` relates any two heights, one way or the other, and is transitive. */
  lemma LeTotalOrder()
    ensures Sorting.Total(Le) && Sorting.Transitive(Le)
  {
  }

  /** sorted(heights): a permutation in non-decreasing order of total
      inches. */
  function SortHeights(heights: seq<Height>): (r: seq<Height>)
    ensures multiset(r) == multiset(heights)
    ensures forall i, j :: 0 <= i < j < |r| ==> TotalInches(r[i]) <= TotalInches(r[j])
  {
    LeTotalOrder();
    var r := Sorting.SortBy(heights, Le);
    Sorting.SortedPairwise(r, Le);
    r
  }

  /** The sum the script prints: 5'10" + 4'10" is 10'8". */
  lemma AddExample()
    ensures Add(Height(5, 10), Height(4, 10)) == Height(10, 8)
  {
    assert TotalInches(Height(5, 10)) + TotalInches(Height(4, 10)) == 128;
    NormalFormUnique(Height(10, 8));
  }

  /** The difference the script prints: 3'9" - 5'10" is 2'1". */
  lemma SubExample()
    ensures Sub(Height(3, 9), Height(5, 10)) == Height(2, 1)
  {
    assert TotalInches(Height(5, 10)) - TotalInches(Height(3, 9)) == 25;
    NormalFormUnique(Height(2, 1));
  }

  /** The comparisons the script prints, and 5'10" == 4'22". */
  lemma ComparisonExamples()
    ensures Lt(Height(4, 5), Height(4, 6)) && Le(Height(4, 5), Height(4, 5))
    ensures Eq(Height(5, 10), Height(5, 10)) && Gt(Height(4, 6), Height(4, 5))
    ensures Ge(Height(4, 5), Height(4, 5)) && Ne(Height(5, 9), Height(5, 10))
    ensures Eq(Height(5, 10), Height(4, 22))
  {
  }

  /** The six heights the script sorts, and their order after sorted():
      4'10", 5'5", 5'6", 5'6", 6'7", 7'1". */
  const Unsorted := [Height(4, 10), Height(5, 6), Height(7, 1), Height(5, 5), Height(6, 7), Height(5, 6)]
  const Sorted := [Height(4, 10), Height(5, 5), Height(5, 6), Height(5, 6), Height(6, 7), Height(7, 1)]

  /** sorted() applied to the script's list, or to any other arrangement of
      the same six heights, gives exactly Sorted. */
  lemma SortExample(heights: seq<Height>)
    requires multiset(heights) == multiset(Unsorted)
    ensures SortHeights(heights) == Sorted
  {
    var r := SortHeights(heights);
    ScriptHeightsPermuted();
    ScriptHeightsDistinct();
    SortedInOrder();
    assert Sorting.PairwiseSortedBy(r, Le);
    Sorting.SortedUnique(Sorted, r, Le);
  }

  /** Two of the script's heights with the same total are the same height. */
  lemma ScriptHeightsDistinct()
    ensures forall x, y :: x in Sorted && y in Sorted && Le(x, y) && Le(y, x) ==> x == y
  {
  }

  /** Sorted holds the script's heights, each as often as Unsorted does. */
  lemma ScriptHeightsPermuted()
    ensures multiset(Sorted) == multiset(Unsorted)
  {
  }

  lemma SortedInOrder()
    ensures Sorting.PairwiseSortedBy(Sorted, Le)
  {
  }
}
