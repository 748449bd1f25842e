/**
 * The pure part of `getData`: after the fetch, keep the records that have a
 * location (`geocoded_column_1`) and then those that have a name.
 */
module Loader {
  import opened Sequences
  import opened Records
  import opened NameFilter

  function ValidRecords(json: seq<Record>): (r: seq<Record>)
    ensures |r| <= |json|
    ensures forall x :: x in r ==> x in json && HasLocation(x) && HasName(x)
  {
    FilterMembers(json, HasLocation);
    FilterMembers(Filter(json, HasLocation), HasName);
    Filter(Filter(json, HasLocation), HasName)
  }

  predicate IsValid(r: Record)
  {
    HasLocation(r) && HasName(r)
  }

  /** The two chained filters are one filter by the combined predicate. */
  lemma ValidRecordsIsOneFilter(json: seq<Record>)
    ensures ValidRecords(json) == Filter(json, IsValid)
  {
    FilterFilter(json, HasLocation, HasName, IsValid);
  }

  /** Loading keeps exactly the records with both a location and a name, in
      their original order. */
  lemma ValidRecordsSelectsValid(json: seq<Record>)
    ensures SelectsExactly(ValidRecords(json), json, IsValid)
  {
    ValidRecordsIsOneFilter(json);
    FilterSelectsExactly(json, IsValid);
  }

  /** On loaded data every record has a name, so the empty query keeps all. */
  lemma LoadedRecordsPassEmptyQuery(json: seq<Record>)
    ensures FilterList(ValidRecords(json), "") == ValidRecords(json)
  {
    FilterListEmptyQuery(ValidRecords(json));
    FilterKeepsAll(ValidRecords(json), HasName);
  }
}
