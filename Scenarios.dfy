/**
 * The three-restaurant example: two diners around a cafe.
 */
module Scenarios {
  import opened Wrappers
  import opened Sequences
  import opened Records
  import opened Grouper

  const Alpha := Record(Some("Alpha Diner"), Some("Diner"), None)
  const Beta := Record(Some("Beta Cafe"), Some("Cafe"), None)
  const Gamma := Record(Some("Gamma Diner"), Some("Diner"), None)

  lemma FirstOccurrencesOfThree<T(!new)>(x: T, y: T)
    requires x != y
    ensures FirstOccurrences([x, y, x]) == [x, y]
  {
    FirstOccurrencesSnoc([], x);
    FirstOccurrencesSnoc([x], y);
    FirstOccurrencesSnoc([x, y], x);
    assert [] + [x] == [x] && [x] + [y] == [x, y] && [x, y] + [x] == [x, y, x];
  }

  lemma FilterOfThree<T>(a: T, b: T, c: T, p: T -> bool)
    ensures Filter([a, b, c], p) ==
      (if p(a) then [a] else []) + (if p(b) then [b] else []) + (if p(c) then [c] else [])
  {
    FilterSnoc([], a, p);
    FilterSnoc([a], b, p);
    FilterSnoc([a, b], c, p);
    assert [] + [a] == [a] && [a] + [b] == [a, b] && [a, b] + [c] == [a, b, c];
  }

  lemma CategoriesOfThree(a: Record, b: Record, c: Record)
    ensures Categories([a, b, c]) == [a.category, b.category, c.category]
  {
    assert Categories([a, b, c])[0] == a.category;
  }

  /** The lists of three records whose first and last share a category. */
  lemma BucketsOfThree(a: Record, b: Record, c: Record)
    requires a.category == c.category != b.category
    ensures Buckets([a, b, c]) == map[a.category := [a, c], b.category := [b]]
  {
    var x, y := a.category, b.category;
    var m := Buckets([a, b, c]);
    assert m.Keys == {x, y} by {
      CategoriesOfThree(a, b, c);
    }
    assert m[x] == [a, c] by {
      FilterOfThree(a, b, c, InCategory(x));
    }
    assert m[y] == [b] by {
      FilterOfThree(a, b, c, InCategory(y));
    }
  }

  /** Three records whose first and last share a category: that category is
      the first key and holds both, in order. */
  lemma GroupingOfThree(g: CategoryGroups, a: Record, b: Record, c: Record)
    requires a.category == c.category != b.category
    requires IsGroupingOf(g, [a, b, c])
    ensures g.keys == [a.category, b.category]
    ensures g.buckets == map[a.category := [a, c], b.category := [b]]
  {
    CategoriesOfThree(a, b, c);
    FirstOccurrencesOfThree(a.category, b.category);
    BucketsOfThree(a, b, c);
  }

  /** Grouping the example yields "Diner" with both diners, then "Cafe". */
  lemma DinerGrouping(g: CategoryGroups)
    requires IsGroupingOf(g, [Alpha, Beta, Gamma])
    ensures g.keys == [Some("Diner"), Some("Cafe")]
    ensures g.buckets == map[Some("Diner") := [Alpha, Gamma], Some("Cafe") := [Beta]]
  {
    GroupingOfThree(g, Alpha, Beta, Gamma);
  }
}
