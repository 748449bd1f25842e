# Restaurant explorer data shaping, in Dafny

A model of the data-shaping core of a small page that loads a county's
restaurant inspection dataset, shows fifteen random restaurants as a list,
filters that list by name, and plots how many restaurants fall in each
category on a bar chart. Everything the page renders is computed by five
small routines in `client/lab_9/script.js`, and those are what this project
models and proves things about:

- **Loader** (`getData`): after the fetch, keep the records that have a
  location (`geocoded_column_1`) and then those that have a non-empty name.
- **Sampler** (`processRestaurants`, `getRandomIntInclusive`): fifteen draws
  with replacement of an index in `[0, list.length]`, each read back with
  `list[index]`. The value of `Math.random()` for each draw is a parameter.
- **Text filter** (`filterList`): the records whose lower-cased name includes
  the lower-cased query; records without a name are dropped.
- **Category grouper** (`shapeDataForLineChart`): a `reduce` that builds an
  object from category to the records of that category. It is modelled as a
  method with a loop over the records that updates a key order and a map, and
  is proved against `IsGroupingOf`: the keys are the categories in order of
  first occurrence and the map is `Buckets`, which sends each category to the
  records of that category in input order.
- **Chart series** (`initChart`, `changeChart`): the bar labels are the
  grouping's keys and the bar heights are the lengths of their lists.

Modules: `Wrappers` (Option), `Sequences` (filter, subsequence, sums,
first occurrences), `Records`, `Text` (ASCII lower-casing, `includes`),
`NameFilter`, `Loader`, `Grouper`, `Chart`, `Sampler`, `Page` (what
`mainEvent` computes after loading and on submit) and `Scenarios` (a worked
example).

Two behaviours of the code are easy to miss:

- With an empty query the text filter does not return its whole input: a
  record without a name is still dropped (`NameFilter.FilterListEmptyQuery`).
  On loaded data every record has a name, so there the whole input is kept
  (`Loader.LoadedRecordsPassEmptyQuery`).
- The grouper does not skip records without a category. JavaScript turns the
  missing key into the string `"undefined"`, so those records get a bucket of
  their own. Here the category is an `Option<string>` and `None` is that
  bucket; the chart labels it `"undefined"`.

## Model

| member | source | states |
|---|---|---|
| `Sequences.Filter` | client/lab_9/script.js:45-50 | the filtered list is no longer than the input |
| `Sequences.FilterMembers` | client/lab_9/script.js:45-50 | every kept element comes from the input and passes the callback |
| `Sequences.FilterSelectsExactly` | client/lab_9/script.js:45-50 | the result is the order-preserving subsequence of the input made of exactly the passing elements |
| `Sequences.FilterEnumerates` | client/lab_9/script.js:45-50 | the filter keeps exactly the positions whose element passes, in increasing order |
| `Sequences.FilterFilter` | client/lab_9/script.js:132 | two chained filters equal one filter by the conjunction of their callbacks |
| `Sequences.FirstOccurrences` | client/lab_9/script.js:119-120 | the key list has no duplicates and holds exactly the values that occur in the input |
| `Sequences.FirstOccurrencesOrdered` | client/lab_9/script.js:119-120 | the de-duplicated key list is ordered by each key's first position in the input |
| `Text.ToLower` | client/lab_9/script.js:47-48 | lower-casing keeps the length and maps every character to its ASCII lower case |
| `Text.ToLowerIdempotent` | client/lab_9/script.js:47-48 | lower-casing an already lower-cased string changes nothing |
| `Text.ContainsIffOccurs` | client/lab_9/script.js:49 | `includes` holds exactly when the query occurs as a contiguous slice at some position |
| `NameFilter.FilterList` | client/lab_9/script.js:44-50 | every returned record is from the input and has a non-empty name whose lower case includes the lower-cased query |
| `NameFilter.FilterListSelectsMatches` | client/lab_9/script.js:44-50 | the result is an order-preserving subsequence of the input made of exactly the matching records |
| `NameFilter.FilterListDropsNameless` | client/lab_9/script.js:46 | a record with a missing or empty name is never returned, whatever the query |
| `NameFilter.FilterListEmptyQuery` | client/lab_9/script.js:45-49 | with the empty query the result is exactly the records with a non-empty name, in order |
| `NameFilter.FilterListCaseInsensitive` | client/lab_9/script.js:47-49 | lower-casing the query does not change the result |
| `Loader.ValidRecords` | client/lab_9/script.js:132 | every loaded record is from the input and has both a location and a non-empty name |
| `Loader.ValidRecordsIsOneFilter` | client/lab_9/script.js:132 | filtering by location then by name equals one filter by both |
| `Loader.ValidRecordsSelectsValid` | client/lab_9/script.js:132 | loading keeps exactly the records with a location and a name, in their original order |
| `Loader.LoadedRecordsPassEmptyQuery` | client/lab_9/script.js:132 | on loaded data the empty query keeps every record |
| `Grouper.KeysAfterNewCategory` | client/lab_9/script.js:119-120 | a record of a category not seen before appends that category to the key order |
| `Grouper.KeysAfterSeenCategory` | client/lab_9/script.js:121-122 | a record of a category already seen leaves the key order unchanged |
| `Grouper.UnseenCategoryIsEmpty` | client/lab_9/script.js:119-120 | a category that has not occurred yet has no records, which is why its list starts as `[item]` |
| `Grouper.BucketsSnoc` | client/lab_9/script.js:119-123 | one more record creates its category's list as `[item]` if the category is new, else pushes `item` onto it, and leaves every other list unchanged |
| `Grouper.ShapeDataForLineChart` | client/lab_9/script.js:117-126 | the built object is the grouping of the input: keys in first-occurrence order, each list exactly that category's records in input order |
| `Grouper.RecordInItsBucket` | client/lab_9/script.js:119-123 | the record at any position is in the list of its own category |
| `Grouper.BucketHoldsItsCategory` | client/lab_9/script.js:119-123 | a list holds only records of its own category |
| `Grouper.BucketIsNonEmpty` | client/lab_9/script.js:119-121 | no list is empty: a key is only created together with its first record |
| `Grouper.GroupingIsPartition` | client/lab_9/script.js:118-125 | every record is in its category's list, a list holds only records of its own category, and no list is empty |
| `Grouper.GroupingIsStable` | client/lab_9/script.js:119-123 | each list is the order-preserving subsequence of exactly that category's records |
| `Grouper.GroupingKeyOrder` | client/lab_9/script.js:119-120 | keys are distinct, each is some record's category, and they appear in order of first occurrence |
| `Chart.Labels` | client/lab_9/script.js:80 | one label per key, the missing category spelled `"undefined"` |
| `Chart.Counts` | client/lab_9/script.js:81 | one count per key, the length of that key's list |
| `Chart.ChartSeries` | client/lab_9/script.js:106-107 | labels and counts have the grouping's number of keys and entry i of each belongs to key i |
| `Chart.CategorySizesSnoc` | client/lab_9/script.js:122 | one more record raises the total over distinct categories by one exactly when its category is listed |
| `Chart.CategorySizesCoverInput` | client/lab_9/script.js:118-125 | counting each category once, in first-occurrence order, counts every record once |
| `Chart.ChartSeriesCountsRecords` | client/lab_9/script.js:80-81 | for a grouping, each count is the positive number of input records of that category and the counts sum to the input length |
| `Chart.ChartLabelsDistinct` | client/lab_9/script.js:80 | labels are distinct unless some record's category is literally `"undefined"` |
| `Sampler.RandomIntInclusive` | client/lab_9/script.js:8-12 | for `Math.random()` in `[0, 1)` the draw lies in `[min, max]` |
| `Sampler.RandomFor` | client/lab_9/script.js:11 | for each value in `[min, max]` there is a `Math.random()` value in `[0, 1)` drawing it |
| `Sampler.RandomIntInclusiveReachesAll` | client/lab_9/script.js:8-12 | every value in `[min, max]`, both ends included, can be drawn |
| `Sampler.ProcessRestaurants` | client/lab_9/script.js:34-42 | always fifteen entries; entry j is the `undefined` hole exactly when its draw equals the list length, and otherwise the record at the drawn index |
| `Sampler.Present` | client/lab_9/script.js:21-23 | a sample without holes read as records, entry by entry |
| `Sampler.SampleEntriesComeFromList` | client/lab_9/script.js:37-40 | every entry that is not a hole is a record of the list |
| `Sampler.SampleCanBeAllHoles` | client/lab_9/script.js:38-39 | for every list, even a non-empty one, some random values make all fifteen entries holes |
| `Sampler.SampleOfEmptyList` | client/lab_9/script.js:36-40 | sampling the empty list gives fifteen holes |
| `Sampler.ProcessRestaurantsCorrected` | client/lab_9/script.js:34-42 | with draws in `[0, length - 1]` and a non-empty list, fifteen entries, all records of the list |
| `Sampler.CorrectedSamplerReachesEvery` | client/lab_9/script.js:38-39 | every record of the list can appear in a corrected sample |
| `Page.InitialChart` | client/lab_9/script.js:148-151 | after loading, the dataset is the valid records, the chart is the series of their grouping (categories in first-occurrence order, each bar that category's record count), the bars add up to the dataset size, and an empty dataset gives no bars |
| `Page.Generate` | client/lab_9/script.js:178-184 | on submit, the sample is `processRestaurants` as written; no chart is drawn exactly when the sample has a hole (listing it throws first), and otherwise the chart is the series of the sample's grouping with bars adding up to fifteen |
| `Page.GenerateCorrected` | client/lab_9/script.js:178-184 | with the corrected sampler, the sample comes from the dataset and the chart is always the series of its grouping, with bars adding up to fifteen |
| `Scenarios.BucketsOfThree` | client/lab_9/script.js:119-123 | for three records whose first and last share a category, that category's list is the first and last record and the middle one's is just itself |
| `Scenarios.GroupingOfThree` | client/lab_9/script.js:117-126 | three records whose first and last share a category group as that category (both records, in order) then the middle one's |
| `Scenarios.DinerGrouping` | client/lab_9/script.js:117-126 | two diners around a cafe group as "Diner" with both diners, then "Cafe" |

## Findings

| source | as written | input that shows it | evidently intended | confidence | as-written member | corrected member |
|---|---|---|---|---|---|---|
| client/lab_9/script.js:38-39 | the index is drawn from `[0, list.length]`, so `list[index]` can read one past the end and yield `undefined` | a one-record list with `Math.random()` returning 0.5 draws index 1 | draw from `[0, list.length - 1]` | not executed | `Sampler.SampleCanBeAllHoles` | `Sampler.ProcessRestaurantsCorrected` |

`Sampler.ProcessRestaurants` keeps the code as written (holes are `None`),
and `Page.Generate` composes it as the submit handler does: a sample with a
hole draws no new chart. `Page.GenerateCorrected` composes the corrected
sampler, whose entries are always records, so its chart is always redrawn.

## Left out

- DOM rendering in `injectHTML`, the loading indicator and the submit button's visibility: user-interface output.
- `initMap` and `markerPlace` (Leaflet map and markers) and the construction and `update()` of the Chart.js object: third-party rendering; only the labels and counts they are given are modelled.
- `fetch` and `json()` in `getData`, and what happens when either fails: network input and asynchrony. The model starts from the parsed array.
- The event wiring of `mainEvent`, including the input handler that filters a `currentList` declared inside the `if` block (so it never sees the sample the submit handler stores): event glue. `Page` models only what is computed after loading and on submit.
- `console.log` calls: output only.
- `Sampler.RandomIntInclusive`: `Math.random()` is a parameter and the arithmetic is on exact reals, so floating-point rounding (which could in principle push a product up to the next integer) is not modelled.
- `Text.ToLower`: only ASCII letters are lower-cased; full Unicode case mapping is not modelled.
- `Grouper.ShapeDataForLineChart`: a record whose category is the string `"undefined"` shares the JavaScript key with records that have no category; the model keeps the two apart. Keys that JavaScript treats specially (inherited names such as `constructor`, integer-like keys that `Object.keys` lists first, a `null` category) are not modelled.
- `Records.Record`: only the fields the page reads are kept, and a name is a string or absent; JSON values of other types are not modelled.
- `Page.Generate`: the exception a hole raises in `injectHTML` is modelled only as "no new chart"; the partly filled list already in the page and the error itself are not modelled.
