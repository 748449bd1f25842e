/**
 * The data flow of `mainEvent`: the chart drawn after loading, and the list
 * and chart produced by the "generate" (submit) action. DOM updates and the
 * chart object itself are not part of this model; what remains is what the
 * views are computed from.
 */
module Page {
  import opened Wrappers
  import opened Sequences
  import opened Records
  import opened Loader
  import opened Grouper
  import opened Chart
  import opened Sampler

  /** After the fetch: validate, group, and draw the chart of all records.
      The bars are the dataset's categories in order of first occurrence,
      each as tall as its number of records. */
  method InitialChart(json: seq<Record>) returns (dataset: seq<Record>, g: CategoryGroups, chart: ChartData)
    ensures dataset == ValidRecords(json)
    ensures IsGroupingOf(g, dataset)
    ensures chart == ChartSeries(g)
    ensures Sum(chart.info) == |dataset|
    ensures dataset == [] ==> chart.labels == [] && chart.info == []
  {
    dataset := ValidRecords(json);
    g := ShapeDataForLineChart(dataset);
    chart := ChartSeries(g);
    ChartSeriesCountsRecords(g, dataset);
    if dataset == [] {
      assert Categories(dataset) == [];
    }
  }

  /** The submit handler as written: draw fifteen entries with
      `processRestaurants` and list them. If an entry is a hole, listing it
      throws before the chart is touched, so no new chart is drawn (`None`);
      otherwise the chart is redrawn from the grouping of the sample and its
      bars add up to the sample size. */
  method Generate(dataset: seq<Record>, randoms: seq<real>)
    returns (sample: seq<Option<Record>>, g: CategoryGroups, chart: Option<ChartData>)
    requires ValidRandoms(randoms)
    ensures sample == ProcessRestaurants(dataset, randoms)
    ensures chart.None? <==> None in sample
    ensures chart.None? ==> g == CategoryGroups([], map[])
    ensures chart.Some? ==> None !in sample && IsGroupingOf(g, Present(sample))
    ensures chart.Some? ==> chart.value == ChartSeries(g) && Sum(chart.value.info) == SampleSize
  {
    sample := ProcessRestaurants(dataset, randoms);
    if None in sample {
      g := CategoryGroups([], map[]);
      chart := None;
    } else {
      var shown := Present(sample);
      g := ShapeDataForLineChart(shown);
      chart := Some(ChartSeries(g));
      ChartSeriesCountsRecords(g, shown);
    }
  }

  /** The submit handler with the corrected sampler: every entry is a record
      of the dataset, so the chart is always redrawn, from the grouping of the
      sample, with bars adding up to the sample size. Submitting is only
      possible once the dataset is non-empty. */
  method GenerateCorrected(dataset: seq<Record>, randoms: seq<real>)
    returns (sample: seq<Record>, g: CategoryGroups, chart: ChartData)
    requires |dataset| > 0
    requires ValidRandoms(randoms)
    ensures sample == ProcessRestaurantsCorrected(dataset, randoms)
    ensures forall x :: x in sample ==> x in dataset
    ensures IsGroupingOf(g, sample)
    ensures chart == ChartSeries(g)
    ensures Sum(chart.info) == SampleSize
  {
    sample := ProcessRestaurantsCorrected(dataset, randoms);
    g := ShapeDataForLineChart(sample);
    chart := ChartSeries(g);
    ChartSeriesCountsRecords(g, sample);
  }
}
