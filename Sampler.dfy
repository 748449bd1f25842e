/**
 * `processRestaurants` and `getRandomIntInclusive`: fifteen draws, with
 * replacement, of an index in `[0, list.length]` inclusive, each read back
 * with `list[index]`. `Math.random()` is a parameter: one real in `[0, 1)`
 * per draw.
 */
module Sampler {
  import opened Wrappers
  import opened Records

  /** `[...Array(15).keys()]`: the number of draws. */
  const SampleSize: nat := 15

  /** `getRandomIntInclusive(min, max)` on integer bounds, where `u` is the
      value of `Math.random()`. */
  function RandomIntInclusive(min: int, max: int, u: real): (r: int)
    requires 0.0 <= u < 1.0
    requires min <= max
    ensures min <= r <= max
  {
    var width := (max - min + 1) as real;
    assert 0.0 <= u * width < width by {
      assert width - u * width == (1.0 - u) * width;
    }
    (u * width + min as real).Floor
  }

  /** A value of `Math.random()` for which the draw is `v`. */
  function RandomFor(min: int, max: int, v: int): (u: real)
    requires min <= v <= max
    ensures 0.0 <= u < 1.0
    ensures RandomIntInclusive(min, max, u) == v
  {
    var width := (max - min + 1) as real;
    var offset := (v - min) as real;
    var u := offset / width;
    assert u * width == offset;
    assert u < 1.0 by {
      assert (1.0 - u) * width == width - offset;
    }
    assert u * width + min as real == v as real;
    u
  }

  /** Every value in `[min, max]`, both ends included, can be drawn. */
  lemma RandomIntInclusiveReachesAll(min: int, max: int, v: int)
    requires min <= v <= max
    ensures exists u :: 0.0 <= u < 1.0 && RandomIntInclusive(min, max, u) == v
  {
    var u := RandomFor(min, max, v);
  }

  /** `list[index]`: an index past the end reads `undefined`. */
  function At(list: seq<Record>, index: int): Option<Record>
  {
    if 0 <= index < |list| then Some(list[index]) else None
  }

  ghost predicate ValidRandoms(randoms: seq<real>)
  {
    |randoms| == SampleSize && forall j :: 0 <= j < |randoms| ==> 0.0 <= randoms[j] < 1.0
  }

  /** The same value of `Math.random()` for every draw. */
  function Repeated(u: real): (randoms: seq<real>)
    ensures |randoms| == SampleSize
  {
    seq(SampleSize, j => u)
  }

  /** `processRestaurants` as written: the draw may be `list.length`. */
  function ProcessRestaurants(list: seq<Record>, randoms: seq<real>): (r: seq<Option<Record>>)
    requires ValidRandoms(randoms)
    ensures |r| == SampleSize
    ensures forall j :: 0 <= j < SampleSize ==>
      (r[j].None? <==> RandomIntInclusive(0, |list|, randoms[j]) == |list|)
    ensures forall j :: 0 <= j < SampleSize && r[j].Some? ==>
      r[j].value == list[RandomIntInclusive(0, |list|, randoms[j])]
  {
    seq(SampleSize, j requires 0 <= j < SampleSize => At(list, RandomIntInclusive(0, |list|, randoms[j])))
  }

  /** A sample without holes, read as the records it holds. */
  function Present(sample: seq<Option<Record>>): (r: seq<Record>)
    requires None !in sample
    ensures |r| == |sample|
    ensures forall i :: 0 <= i < |r| ==> sample[i] == Some(r[i])
  {
    if sample == [] then []
    else
      var n := |sample| - 1;
      assert sample[n] in sample;
      Present(sample[..n]) + [sample[n].value]
  }

  /** Every entry that is not a hole is an element of the list. */
  lemma SampleEntriesComeFromList(list: seq<Record>, randoms: seq<real>)
    requires ValidRandoms(randoms)
    ensures forall j :: 0 <= j < SampleSize && ProcessRestaurants(list, randoms)[j].Some? ==>
      ProcessRestaurants(list, randoms)[j].value in list
  {
  }

  /** The off-by-one: for every list, even a non-empty one, some value of
      `Math.random()` makes every entry of the sample `undefined`. */
  lemma SampleCanBeAllHoles(list: seq<Record>)
    ensures ValidRandoms(Repeated(RandomFor(0, |list|, |list|)))
    ensures forall j :: 0 <= j < SampleSize ==>
      ProcessRestaurants(list, Repeated(RandomFor(0, |list|, |list|)))[j] == None
  {
  }

  /** Sampling the empty list gives fifteen holes. */
  lemma SampleOfEmptyList(randoms: seq<real>)
    requires ValidRandoms(randoms)
    ensures ProcessRestaurants([], randoms) == seq(SampleSize, j => None)
  {
  }

  /** The evidently intended sampler: the draw is in `[0, list.length - 1]`. */
  function ProcessRestaurantsCorrected(list: seq<Record>, randoms: seq<real>): (r: seq<Record>)
    requires |list| > 0
    requires ValidRandoms(randoms)
    ensures |r| == SampleSize
    ensures forall j :: 0 <= j < SampleSize ==> r[j] in list
  {
    seq(SampleSize, j requires 0 <= j < SampleSize => list[RandomIntInclusive(0, |list| - 1, randoms[j])])
  }

  /** Every record of the list can be drawn by the corrected sampler. */
  lemma CorrectedSamplerReachesEvery(list: seq<Record>, i: nat)
    requires i < |list|
    ensures ValidRandoms(Repeated(RandomFor(0, |list| - 1, i)))
    ensures list[i] in ProcessRestaurantsCorrected(list, Repeated(RandomFor(0, |list| - 1, i)))
  {
    var u := RandomFor(0, |list| - 1, i);
    assert Repeated(u)[0] == u;
    assert ProcessRestaurantsCorrected(list, Repeated(u))[0] == list[i];
  }
}
