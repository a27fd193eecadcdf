/**
 Tabular input as the target encoder sees it, and the few facts about finite
 sets of labels that its validation relies on.

 A data frame is a map from column name to the column's values, each value
 already rendered as a string (the encoder converts the target column with
 `astype(str)` before looking at it).
 */
module LabelSets {

  type Column = seq<string>

  type DataFrame = map<string, Column>

  /** The distinct labels of a column, as Python's `set(...)` builds them. */
  function Distinct(labels: seq<string>): (s: set<string>)
    ensures forall x :: x in s <==> x in labels
  {
    set x | x in labels
  }

  /** A subset is never larger than its superset. */
  lemma SubsetSize<T>(a: set<T>, b: set<T>)
    requires a <= b
    ensures |a| <= |b|
  {
    assert b == a + (b - a);
    assert a * (b - a) == {};
  }

  /** A subset as large as its superset is the superset. */
  lemma SubsetOfEqualSize<T>(a: set<T>, b: set<T>)
    requires a <= b
    requires |a| == |b|
    ensures a == b
  {
    assert b == a + (b - a);
    assert a * (b - a) == {};
    assert |b - a| == 0;
  }

  /** A two-element set drawn from `{x, y}` is `{x, y}`, and `x` and `y` differ. */
  lemma PairSubset<T>(s: set<T>, x: T, y: T)
    requires s <= {x, y}
    requires |s| == 2
    ensures x != y
    ensures s == {x, y}
  {
    SubsetSize(s, {x, y});
    SubsetOfEqualSize(s, {x, y});
  }

  /** For a two-element set, meeting `c` in two elements is being contained in `c`. */
  lemma PairIntersection<T>(observed: set<T>, c: set<T>)
    requires |observed| == 2
    ensures |observed * c| == 2 <==> observed <= c
  {
    if |observed * c| == 2 {
      SubsetOfEqualSize(observed * c, observed);
    }
    if observed <= c {
      assert observed * c == observed;
    }
  }
}
