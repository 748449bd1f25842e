/**
 * `shapeDataForLineChart`: a `reduce` that builds an object mapping each
 * category to the records of that category, appending with `push`.
 *
 * A JavaScript object remembers the order in which its keys were created, so
 * the accumulator is modelled as that key order together with a map. A record
 * without a category is filed under the key `undefined`, which is `None` here.
 */
module Grouper {
  import opened Wrappers
  import opened Sequences
  import opened Records

  type Category = Option<string>

  /** The accumulator object: its keys in creation order, and its entries. */
  datatype CategoryGroups = CategoryGroups(keys: seq<Category>, buckets: map<Category, seq<Record>>)

  function InCategory(k: Category): Record -> bool
  {
    (r: Record) => r.category == k
  }

  /** The category of each record, in input order. */
  function Categories(s: seq<Record>): (r: seq<Category>)
    ensures |r| == |s|
    ensures forall i :: 0 <= i < |s| ==> r[i] == s[i].category
  {
    if s == [] then [] else Categories(s[..|s| - 1]) + [s[|s| - 1].category]
  }

  /** For each category that occurs, the records of that category in input
      order. */
  ghost function Buckets(records: seq<Record>): map<Category, seq<Record>>
  {
    map k | k in Categories(records) :: Filter(records, InCategory(k))
  }

  /** `g` is the object that grouping `records` must produce: one key per
      category, created in order of first occurrence, each holding exactly
      the records of its category in input order. */
  ghost predicate IsGroupingOf(g: CategoryGroups, records: seq<Record>)
  {
    g.keys == FirstOccurrences(Categories(records)) && g.buckets == Buckets(records)
  }

  lemma CategoriesSnoc(done: seq<Record>, item: Record)
    ensures Categories(done + [item]) == Categories(done) + [item.category]
  {
    assert (done + [item])[..|done|] == done;
  }

  /** A record of an already seen category adds no key. */
  lemma KeysAfterSeenCategory(done: seq<Record>, item: Record)
    requires item.category in Categories(done)
    ensures FirstOccurrences(Categories(done + [item])) == FirstOccurrences(Categories(done))
  {
    CategoriesSnoc(done, item);
    FirstOccurrencesSnoc(Categories(done), item.category);
  }

  /** A record of a new category adds its category as the last key. */
  lemma KeysAfterNewCategory(done: seq<Record>, item: Record)
    requires item.category !in Categories(done)
    ensures FirstOccurrences(Categories(done + [item])) == FirstOccurrences(Categories(done)) + [item.category]
  {
    CategoriesSnoc(done, item);
    FirstOccurrencesSnoc(Categories(done), item.category);
  }

  /** A category that has not occurred yet has no records. */
  lemma {:induction false} UnseenCategoryIsEmpty(done: seq<Record>, k: Category)
    requires k !in Categories(done)
    ensures Filter(done, InCategory(k)) == []
  {
    forall i | 0 <= i < |done|
      ensures !InCategory(k)(done[i])
    {
      assert Categories(done)[i] == done[i].category;
    }
    FilterKeepsNone(done, InCategory(k));
  }

  /** One more record adds its category to the keys and no other. */
  lemma BucketKeysSnoc(done: seq<Record>, item: Record)
    ensures Buckets(done + [item]).Keys == Buckets(done).Keys + {item.category}
  {
    CategoriesSnoc(done, item);
  }

  /** One more record changes only the list of its own category. */
  lemma BucketEntrySnoc(done: seq<Record>, item: Record, k: Category)
    requires k in Buckets(done + [item])
    ensures Buckets(done + [item])[k] ==
      if k != item.category then Buckets(done)[k]
      else (if k in Buckets(done) then Buckets(done)[k] else []) + [item]
  {
    CategoriesSnoc(done, item);
    FilterSnoc(done, item, InCategory(k));
    if k !in Buckets(done) {
      UnseenCategoryIsEmpty(done, k);
    }
  }

  /** One more record: its category's list is created as `[item]` if the
      category is new, and otherwise has `item` pushed onto it; every other
      list is unchanged. */
  lemma BucketsSnoc(done: seq<Record>, item: Record)
    ensures Buckets(done + [item]) == Buckets(done)[item.category :=
      (if item.category in Buckets(done) then Buckets(done)[item.category] else []) + [item]]
  {
    var c := item.category;
    var before, after := Buckets(done), Buckets(done + [item]);
    var expected := before[c := (if c in before then before[c] else []) + [item]];
    assert after.Keys == expected.Keys by {
      BucketKeysSnoc(done, item);
    }
    forall k | k in after
      ensures after[k] == expected[k]
    {
      BucketEntrySnoc(done, item, k);
    }
  }

  method ShapeDataForLineChart(records: seq<Record>) returns (g: CategoryGroups)
    ensures IsGroupingOf(g, records)
  {
    var keys: seq<Category> := [];
    var buckets: map<Category, seq<Record>> := map[];
    for i := 0 to |records|
      invariant keys == FirstOccurrences(Categories(records[..i]))
      invariant buckets == Buckets(records[..i])
    {
      var item := records[i];
      assert records[..i + 1] == records[..i] + [item];
      BucketsSnoc(records[..i], item);
      if item.category !in buckets {
        KeysAfterNewCategory(records[..i], item);
        assert [] + [item] == [item];
        buckets := buckets[item.category := [item]];
        keys := keys + [item.category];
      } else {
        KeysAfterSeenCategory(records[..i], item);
        buckets := buckets[item.category := buckets[item.category] + [item]];
      }
    }
    assert records[..|records|] == records;
    g := CategoryGroups(keys, buckets);
  }

  /** The record at position `i` is in the bucket of its category. */
  lemma RecordInItsBucket(g: CategoryGroups, records: seq<Record>, i: nat)
    requires IsGroupingOf(g, records)
    requires i < |records|
    ensures records[i].category in g.buckets && records[i] in g.buckets[records[i].category]
  {
    var k := records[i].category;
    assert Categories(records)[i] == k;
    FilterEnumerates(records, InCategory(k));
    var idx := KeptIndices(records, InCategory(k));
    assert i in idx;
    var j :| 0 <= j < |idx| && idx[j] == i;
    assert g.buckets[k][j] == records[i];
  }

  /** A bucket holds only records of its own category. */
  lemma BucketHoldsItsCategory(g: CategoryGroups, records: seq<Record>, k: Category, x: Record)
    requires IsGroupingOf(g, records)
    requires k in g.buckets && x in g.buckets[k]
    ensures x.category == k
  {
    FilterMembers(records, InCategory(k));
  }

  /** No bucket is empty. */
  lemma BucketIsNonEmpty(g: CategoryGroups, records: seq<Record>, k: Category)
    requires IsGroupingOf(g, records)
    requires k in g.buckets
    ensures g.buckets[k] != []
  {
    var cats := Categories(records);
    var i :| 0 <= i < |cats| && cats[i] == k;
    RecordInItsBucket(g, records, i);
  }

  /** Every record lands in the bucket of its category, a bucket holds only
      records of its own category (so no record is in two buckets), and no
      bucket is empty. */
  lemma GroupingIsPartition(g: CategoryGroups, records: seq<Record>)
    requires IsGroupingOf(g, records)
    ensures forall i :: 0 <= i < |records| ==>
      records[i].category in g.buckets && records[i] in g.buckets[records[i].category]
    ensures forall k, x :: k in g.buckets && x in g.buckets[k] ==> x.category == k
    ensures forall k :: k in g.buckets ==> g.buckets[k] != []
  {
    forall i | 0 <= i < |records|
      ensures records[i].category in g.buckets && records[i] in g.buckets[records[i].category]
    {
      RecordInItsBucket(g, records, i);
    }
    forall k, x | k in g.buckets && x in g.buckets[k]
      ensures x.category == k
    {
      BucketHoldsItsCategory(g, records, k, x);
    }
    forall k | k in g.buckets
      ensures g.buckets[k] != []
    {
      BucketIsNonEmpty(g, records, k);
    }
  }

  /** Each bucket keeps its records in input order: it is the subsequence of
      the input made of exactly the records of that category. */
  lemma GroupingIsStable(g: CategoryGroups, records: seq<Record>, k: Category)
    requires IsGroupingOf(g, records)
    requires k in g.buckets
    ensures SelectsExactly(g.buckets[k], records, InCategory(k))
  {
    FilterSelectsExactly(records, InCategory(k));
  }

  /** Keys are distinct and appear in order of the first record of each
      category. */
  lemma GroupingKeyOrder(g: CategoryGroups, records: seq<Record>)
    requires IsGroupingOf(g, records)
    ensures NoDuplicates(g.keys)
    ensures forall i :: 0 <= i < |g.keys| ==> g.keys[i] in Categories(records)
    ensures forall i, j :: 0 <= i < j < |g.keys| ==>
      FirstIndex(Categories(records), g.keys[i]) < FirstIndex(Categories(records), g.keys[j])
  {
    FirstOccurrencesOrdered(Categories(records));
  }
}
