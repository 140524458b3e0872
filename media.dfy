/**
 * A media item as the catalog returns it and as the watchlist stores it.
 * Only the fields the application reads are kept; a field the payload lacks
 * (or holds as null) is `None`.
 */
module Media {
  import opened Wrappers

  datatype Item = Item(
    id: int,
    title: Option<string>,         // movies carry `title`
    name: Option<string>,          // TV shows carry `name`
    releaseDate: Option<string>,   // `release_date`
    firstAirDate: Option<string>,  // `first_air_date`
    posterPath: Option<string>     // `poster_path`
  )

  /** JavaScript truthiness of an optional string field: present and not the empty string. */
  predicate Truthy(field: Option<string>) {
    field.Some? && field.value != ""
  }
}
