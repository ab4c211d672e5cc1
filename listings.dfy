/** A Daft listing, reduced to the two fields the load logic reads. */
module Listings {
  import opened Common

  datatype Listing = Listing(propertyId: Option<string>, publishDate: Option<int>)

  /** The sort key `listing.get('publish_date') or 0`: a missing or zero
      publish date counts as 0. */
  function PublishKey(l: Listing): int
  {
    if l.publishDate.Some? then l.publishDate.value else 0
  }
}
