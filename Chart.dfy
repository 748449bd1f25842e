/**
 * The data handed to the bar chart by `initChart` and `changeChart`:
 * `labels` is `Object.keys(dataObject)` and `info` is, for each key, the
 * length of its list.
 */
module Chart {
  import opened Wrappers
  import opened Sequences
  import opened Records
  import opened Grouper

  datatype ChartData = ChartData(labels: seq<string>, info: seq<nat>)

  /** A key as JavaScript spells it: the missing category is `"undefined"`. */
  function Label(k: Category): string
  {
    match k
    case Some(name) => name
    case None => "undefined"
  }

  function Labels(keys: seq<Category>): (r: seq<string>)
    ensures |r| == |keys|
    ensures forall i :: 0 <= i < |keys| ==> r[i] == Label(keys[i])
  {
    if keys == [] then [] else Labels(keys[..|keys| - 1]) + [Label(keys[|keys| - 1])]
  }

  /** `keys.map((item) => dataObject[item].length)` */
  function Counts(keys: seq<Category>, buckets: map<Category, seq<Record>>): (r: seq<nat>)
    requires forall k :: k in keys ==> k in buckets
    ensures |r| == |keys|
    ensures forall i :: 0 <= i < |keys| ==> r[i] == |buckets[keys[i]]|
  {
    if keys == [] then []
    else Counts(keys[..|keys| - 1], buckets) + [|buckets[keys[|keys| - 1]]|]
  }

  /** `Object.keys` of an object only lists keys that it has, so every key
      in the order has an entry. */
  function ChartSeries(g: CategoryGroups): (c: ChartData)
    requires forall k :: k in g.keys ==> k in g.buckets
    ensures |c.labels| == |c.info| == |g.keys|
    ensures forall i :: 0 <= i < |g.keys| ==>
      c.labels[i] == Label(g.keys[i]) && c.info[i] == |g.buckets[g.keys[i]]|
  {
    ChartData(Labels(g.keys), Counts(g.keys, g.buckets))
  }

  /** For each category key in `ks`, how many records of `s` have it. */
  ghost function CategorySizes(ks: seq<Category>, s: seq<Record>): seq<nat>
  {
    seq(|ks|, i requires 0 <= i < |ks| => |Filter(s, InCategory(ks[i]))|)
  }

  /** Appending a record adds one to the count of its category, if listed. */
  lemma {:induction false} CategorySizesSnoc(ks: seq<Category>, s: seq<Record>, x: Record)
    requires NoDuplicates(ks)
    ensures Sum(CategorySizes(ks, s + [x])) == Sum(CategorySizes(ks, s)) + (if x.category in ks then 1 else 0)
  {
    if ks != [] {
      var n := |ks| - 1;
      var front, k := ks[..n], ks[n];
      assert ks == front + [k];
      CategorySizesSnoc(front, s, x);
      assert CategorySizes(ks, s) == CategorySizes(front, s) + [|Filter(s, InCategory(k))|];
      assert CategorySizes(ks, s + [x]) == CategorySizes(front, s + [x]) + [|Filter(s + [x], InCategory(k))|];
      SumSnoc(CategorySizes(front, s), |Filter(s, InCategory(k))|);
      SumSnoc(CategorySizes(front, s + [x]), |Filter(s + [x], InCategory(k))|);
      FilterSnoc(s, x, InCategory(k));
      assert x.category == k ==> x.category !in front;
    }
  }

  /** Appending key `k` adds the number of records of category `k` to the
      total. */
  lemma CategorySizesAddKey(ks: seq<Category>, k: Category, s: seq<Record>)
    ensures Sum(CategorySizes(ks + [k], s)) == Sum(CategorySizes(ks, s)) + |Filter(s, InCategory(k))|
  {
    assert CategorySizes(ks + [k], s) == CategorySizes(ks, s) + [|Filter(s, InCategory(k))|];
    SumSnoc(CategorySizes(ks, s), |Filter(s, InCategory(k))|);
  }

  /** A category seen for the first time has exactly one record. */
  lemma FirstRecordOfCategory(front: seq<Record>, x: Record)
    requires x.category !in Categories(front)
    ensures |Filter(front + [x], InCategory(x.category))| == 1
  {
    var c := x.category;
    forall i | 0 <= i < |front| ensures !InCategory(c)(front[i]) {
      assert Categories(front)[i] == front[i].category;
    }
    FilterKeepsNone(front, InCategory(c));
    FilterSnoc(front, x, InCategory(c));
  }

  /** Counting each category once, in first-occurrence order, counts every
      record once. */
  lemma {:induction false} CategorySizesCoverInput(s: seq<Record>)
    ensures Sum(CategorySizes(FirstOccurrences(Categories(s)), s)) == |s|
  {
    if s != [] {
      var n := |s| - 1;
      var front, x := s[..n], s[n];
      var c := x.category;
      assert s == front + [x];
      CategorySizesCoverInput(front);
      var ks := FirstOccurrences(Categories(front));
      assert Categories(s) == Categories(front) + [c];
      FirstOccurrencesSnoc(Categories(front), c);
      CategorySizesSnoc(ks, front, x);
      if c !in Categories(front) {
        CategorySizesAddKey(ks, c, s);
        FirstRecordOfCategory(front, x);
      }
    }
  }

  lemma InfoIsCategorySizes(g: CategoryGroups, records: seq<Record>)
    requires IsGroupingOf(g, records)
    ensures ChartSeries(g).info == CategorySizes(g.keys, records)
  {
    var info, sizes := ChartSeries(g).info, CategorySizes(g.keys, records);
    forall i | 0 <= i < |g.keys|
      ensures info[i] == sizes[i]
    {
      var k := g.keys[i];
      assert k in g.buckets;
      assert info[i] == |g.buckets[k]|;
    }
  }

  /** The chart series of a grouping: one label per key, each count is the
      number of input records of that category and is positive, and the
      counts add up to the number of input records. */
  lemma ChartSeriesCountsRecords(g: CategoryGroups, records: seq<Record>)
    requires IsGroupingOf(g, records)
    ensures |ChartSeries(g).labels| == |ChartSeries(g).info| == |g.keys|
    ensures forall i :: 0 <= i < |g.keys| ==>
      ChartSeries(g).info[i] == |Filter(records, InCategory(g.keys[i]))| > 0
    ensures Sum(ChartSeries(g).info) == |records|
  {
    assert Sum(ChartSeries(g).info) == |records| by {
      InfoIsCategorySizes(g, records);
      CategorySizesCoverInput(records);
    }
    forall i | 0 <= i < |g.keys|
      ensures ChartSeries(g).info[i] == |Filter(records, InCategory(g.keys[i]))| > 0
    {
      BucketIsNonEmpty(g, records, g.keys[i]);
    }
  }

  /** Distinct categories get distinct labels unless one of them is the
      category literally named `"undefined"`. */
  lemma LabelsDiffer(a: Category, b: Category)
    requires a != b && a != Some("undefined") && b != Some("undefined")
    ensures Label(a) != Label(b)
  {
  }

  lemma CategoryIsNotUndefined(records: seq<Record>, k: Category)
    requires forall i :: 0 <= i < |records| ==> records[i].category != Some("undefined")
    requires k in Categories(records)
    ensures k != Some("undefined")
  {
    var m :| 0 <= m < |records| && Categories(records)[m] == k;
  }

  /** Labels are distinct as long as no record names its category
      `"undefined"`, the spelling JavaScript gives the missing category. */
  lemma ChartLabelsDistinct(g: CategoryGroups, records: seq<Record>)
    requires IsGroupingOf(g, records)
    requires forall i :: 0 <= i < |records| ==> records[i].category != Some("undefined")
    ensures NoDuplicates(ChartSeries(g).labels)
  {
    var labels := ChartSeries(g).labels;
    forall i, j | 0 <= i < j < |labels|
      ensures labels[i] != labels[j]
    {
      var a, b := g.keys[i], g.keys[j];
      CategoryIsNotUndefined(records, a);
      CategoryIsNotUndefined(records, b);
      LabelsDiffer(a, b);
    }
  }
}
