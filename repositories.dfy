/**
 * The two stores the crawler writes to, as the crawler sees them: the user
 * table keyed by an id assigned on save, with look-ups by url token and by a
 * batch of zhihu user ids, and the follow-relation table.
 */
module Repositories {
  import opened Wrappers
  import opened Domain

  /**
   * The row whose url token is `token`; a missing (null) token matches no row.
   * Url tokens are taken to be unique in the store (the source's single-result
   * finder would fail on two matches); should two rows share one, the first is
   * returned.
   */
  function FirstWithUrlToken(rows: seq<User>, token: Option<string>): (r: Option<User>)
    ensures r.Some? ==> token.Some? && r.value in rows && r.value.urlToken == token.value
    ensures r.None? ==> token.None? || forall u :: u in rows ==> u.urlToken != token.value
  {
    if token.None? || |rows| == 0 then None
    else if rows[0].urlToken == token.value then Some(rows[0])
    else FirstWithUrlToken(rows[1..], token)
  }

  /** The rows whose zhihu user id is one of `ids`, in row order. */
  function WithZhihuUserIdIn(rows: seq<User>, ids: seq<string>): (r: seq<User>)
    ensures forall u :: u in r <==> u in rows && u.zhihuUserId in ids
  {
    if |rows| == 0 then []
    else (if rows[0].zhihuUserId in ids then [rows[0]] else []) + WithZhihuUserIdIn(rows[1..], ids)
  }

  /** Ids are assigned in increasing order and stay below the next id to assign. */
  ghost predicate IdsBelow(rows: seq<User>, nextId: nat)
  {
    && (forall i :: 0 <= i < |rows| ==> rows[i].id < nextId)
    && (forall i, j :: 0 <= i < j < |rows| ==> rows[i].id < rows[j].id)
  }

  class UserRepository {
    var rows: seq<User>
    var nextId: nat

    ghost predicate Valid()
      reads this
    {
      IdsBelow(rows, nextId)
    }

    constructor (initial: seq<User>, next: nat)
      requires IdsBelow(initial, next)
      ensures Valid() && rows == initial && nextId == next
    {
      rows := initial;
      nextId := next;
    }

    /** `findUserByUrlToken` */
    function FindUserByUrlToken(token: Option<string>): (u: Option<User>)
      reads this
      ensures u.Some? ==> u.value in rows && token == Some(u.value.urlToken)
      ensures u.None? ==> token.None? || forall v :: v in rows ==> v.urlToken != token.value
    {
      FirstWithUrlToken(rows, token)
    }

    /** `findByZhihuUserIdIn` */
    function FindByZhihuUserIdIn(ids: seq<string>): (r: seq<User>)
      reads this
      ensures forall u :: u in r <==> u in rows && u.zhihuUserId in ids
    {
      WithZhihuUserIdIn(rows, ids)
    }

    /** `save` of a new entity: the store assigns the next id and appends the row. */
    method Save(r: Record) returns (u: User)
      requires Valid()
      modifies this
      ensures Valid()
      ensures u == Saved(r, old(nextId))
      ensures rows == old(rows) + [u] && nextId == old(nextId) + 1
    {
      u := Saved(r, nextId);
      rows := rows + [u];
      nextId := nextId + 1;
    }
  }

  class FollowerRelationRepository {
    var edges: seq<FollowerRelation>

    constructor (initial: seq<FollowerRelation>)
      ensures edges == initial
    {
      edges := initial;
    }

    /** `save`: the relation is appended; earlier relations are kept. */
    method Save(e: FollowerRelation)
      modifies this
      ensures edges == old(edges) + [e]
    {
      edges := edges + [e];
    }
  }
}
