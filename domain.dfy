/**
 * The entities the follower crawler handles.  A decoded page of the
 * followers API is a sequence of user records plus the total number of
 * followers; a stored user is such a record with the id the user store
 * assigned on save; a follow relation links two stored ids.
 */
module Domain {
  /** One follower as decoded from a page (the `User` entity before it is saved). */
  datatype Record = Record(zhihuUserId: string, urlToken: string, name: string, headline: string)

  /** A row of the user store: the saved record and the id assigned on save. */
  datatype User = User(id: nat, zhihuUserId: string, urlToken: string, name: string, headline: string)

  /** "followerId follows followeeId"; both are ids of stored users. */
  datatype FollowerRelation = FollowerRelation(followeeId: nat, followerId: nat)

  /** One decoded response: the page's followers, in page order, and `paging.totals`. */
  datatype Page = Page(data: seq<Record>, totals: int)

  /** The stored user that saving `r` under id `id` produces. */
  function Saved(r: Record, id: nat): User
  {
    User(id, r.zhihuUserId, r.urlToken, r.name, r.headline)
  }
}
