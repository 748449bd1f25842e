/**
 * `filterList`: the records whose name, lower-cased, includes the lower-cased
 * query. The callback returns `undefined` for a record whose name is missing
 * or empty, so such a record is always dropped.
 */
module NameFilter {
  import opened Sequences
  import opened Records
  import opened Text

  /** The callback given to `list.filter` in `filterList`. */
  predicate Matches(r: Record, query: string)
  {
    HasName(r) && Contains(ToLower(r.name.value), ToLower(query))
  }

  function MatchesQuery(query: string): Record -> bool
  {
    (r: Record) => Matches(r, query)
  }

  function FilterList(list: seq<Record>, query: string): (r: seq<Record>)
    ensures |r| <= |list|
    ensures forall x :: x in r ==>
      x in list && HasName(x) && Contains(ToLower(x.name.value), ToLower(query))
  {
    FilterMembers(list, MatchesQuery(query));
    Filter(list, MatchesQuery(query))
  }

  /** The result is the subsequence of the input made of exactly the matching
      records, in their original order. */
  lemma FilterListSelectsMatches(list: seq<Record>, query: string)
    ensures IsSubsequence(FilterList(list, query), list)
    ensures SelectsExactly(FilterList(list, query), list, MatchesQuery(query))
  {
    FilterSelectsExactly(list, MatchesQuery(query));
  }

  /** A record without a (non-empty) name is never returned, whatever the query. */
  lemma FilterListDropsNameless(list: seq<Record>, query: string, x: Record)
    requires !HasName(x)
    ensures x !in FilterList(list, query)
  {
    FilterMembers(list, MatchesQuery(query));
  }

  /** With an empty query the filter keeps exactly the named records. */
  lemma FilterListEmptyQuery(list: seq<Record>)
    ensures FilterList(list, "") == Filter(list, HasName)
  {
    forall i | 0 <= i < |list|
      ensures MatchesQuery("")(list[i]) == HasName(list[i])
    {
      if HasName(list[i]) {
        ContainsEmpty(ToLower(list[i].name.value));
      }
    }
    FilterCongruence(list, MatchesQuery(""), HasName);
  }

  /** The query's case does not matter. */
  lemma FilterListCaseInsensitive(list: seq<Record>, query: string)
    ensures FilterList(list, ToLower(query)) == FilterList(list, query)
  {
    ToLowerIdempotent(query);
    FilterCongruence(list, MatchesQuery(ToLower(query)), MatchesQuery(query));
  }
}
