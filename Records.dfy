/**
 * One restaurant entry of the county dataset, as far as the page looks at it,
 * and the JavaScript truthiness tests the page applies to its fields.
 */
module Records {
  import opened Wrappers

  /** `geocoded_column_1.coordinates`: [longitude, latitude]. */
  datatype Point = Point(longitude: real, latitude: real)

  /** A field absent from the JSON object is `None`. */
  datatype Record = Record(name: Option<string>, category: Option<string>, location: Option<Point>)

  /** `Boolean(item.name)`: a string is truthy exactly when it is non-empty. */
  predicate HasName(r: Record)
  {
    r.name.Some? && r.name.value != ""
  }

  /** `Boolean(item.geocoded_column_1)`: an object is always truthy. */
  predicate HasLocation(r: Record)
  {
    r.location.Some?
  }
}
