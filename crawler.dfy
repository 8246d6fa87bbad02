/**
 * The page handler of the follower crawler.  Given one decoded page of the
 * root user's followers it saves the followers not yet stored, one follow
 * relation each, and moves the pagination cursor, requesting the next page
 * while pages remain.
 */
module FollowerCrawler {
  import opened Wrappers
  import opened Domain
  import opened Repositories
  import opened Dedup
  import opened Pagination
  import opened Urls

  /** What the handler reads and writes: both stores and the cursor. */
  datatype Snapshot = Snapshot(users: seq<User>, nextId: nat, edges: seq<FollowerRelation>, limit: int, offset: int)

  /** The rows saving `rs` in order appends, ids assigned from `firstId` upwards. */
  function SaveAll(rs: seq<Record>, firstId: nat): (us: seq<User>)
  {
    seq(|rs|, i requires 0 <= i < |rs| => Saved(rs[i], firstId + i))
  }

  /** One relation "follower follows `followeeId`" per user of `followers`, in order. */
  function EdgesTo(followeeId: nat, followers: seq<User>): (es: seq<FollowerRelation>)
  {
    seq(|followers|, i requires 0 <= i < |followers| => FollowerRelation(followeeId, followers[i].id))
  }

  lemma EdgesToSnoc(followeeId: nat, followers: seq<User>, u: User)
    ensures EdgesTo(followeeId, followers + [u]) == EdgesTo(followeeId, followers) + [FollowerRelation(followeeId, u.id)]
  {
  }

  /** The record a stored row was saved from. */
  function Unsaved(u: User): Record
  {
    Record(u.zhihuUserId, u.urlToken, u.name, u.headline)
  }

  function Unsave(us: seq<User>): (rs: seq<Record>)
  {
    seq(|us|, i requires 0 <= i < |us| => Unsaved(us[i]))
  }

  /**
   * The saving step: the page's followers not yet stored are saved in page
   * order, each followed by its relation to the root user; the cursor is
   * untouched.
   */
  function Persist(rootId: nat, s: Snapshot, data: seq<Record>): Snapshot
  {
    var added := SaveAll(ToAdd(data, s.users), s.nextId);
    s.(users := s.users + added, nextId := s.nextId + |added|, edges := s.edges + EdgesTo(rootId, added))
  }

  /** The cursor step: move on by `limit` and request the next page, or stop. */
  function Advance(rootName: string, s: Snapshot, totals: int): (Snapshot, Option<string>)
  {
    match NextOffset(s.offset, s.limit, totals)
    case None => (s, None)
    case Some(o) => (s.(offset := o), Some(FollowersUrl(rootName, s.limit, o)))
  }

  /**
   * The handler on one page: nothing happens unless the root user is stored
   * and the page reports followers; otherwise the new followers are saved
   * with their relations and the cursor rule picks the next page, if any.
   */
  function HandlePage(rootName: Option<string>, s: Snapshot, page: Page): (Snapshot, Option<string>)
  {
    match FirstWithUrlToken(s.users, rootName)
    case None => (s, None)
    case Some(root) =>
      if page.totals == 0 then (s, None)
      else Advance(rootName.value, Persist(root.id, s, page.data), page.totals)
  }

  /** The handler writes nothing and requests nothing unless the root user is stored and `totals` is not 0. */
  lemma NoRootOrNoFollowers(rootName: Option<string>, s: Snapshot, page: Page)
    requires FirstWithUrlToken(s.users, rootName).None? || page.totals == 0
    ensures HandlePage(rootName, s, page) == (s, None)
  {
  }

  /** Saving appends rows under fresh increasing ids and loses nothing of the records saved. */
  lemma SaveAllAppends(rows: seq<User>, rs: seq<Record>, firstId: nat)
    requires IdsBelow(rows, firstId)
    ensures IdsBelow(rows + SaveAll(rs, firstId), firstId + |rs|)
    ensures Unsave(SaveAll(rs, firstId)) == rs
  {
  }

  /** The rows the handler appends to the user store. */
  function NewRows(rootName: Option<string>, s: Snapshot, page: Page): seq<User>
  {
    var t := HandlePage(rootName, s, page).0;
    if |s.users| <= |t.users| then t.users[|s.users|..] else []
  }

  /**
   * The handler only appends to the user store: rows stored before the page
   * are kept as they were, and ids stay increasing and below the next id.
   */
  lemma HandlePageKeepsUsers(rootName: Option<string>, s: Snapshot, page: Page)
    requires IdsBelow(s.users, s.nextId)
    ensures var t := HandlePage(rootName, s, page).0;
      t.users == s.users + NewRows(rootName, s, page) && IdsBelow(t.users, t.nextId)
  {
    var t := HandlePage(rootName, s, page).0;
    if FirstWithUrlToken(s.users, rootName).Some? && page.totals != 0 {
      var root := FirstWithUrlToken(s.users, rootName).value;
      var toAdd := ToAdd(page.data, s.users);
      var p := Persist(root.id, s, page.data);
      assert t.users == p.users && t.nextId == p.nextId;
      assert p.users == s.users + SaveAll(toAdd, s.nextId) && p.nextId == s.nextId + |toAdd|;
      SaveAllAppends(s.users, toAdd, s.nextId);
    } else {
      assert t == s;
    }
  }

  /**
   * The rows appended are exactly the page's followers whose zhihu user id
   * was not stored, each as often as in the page and in page order, or none
   * when the root user is missing or the page reports no followers.
   */
  lemma HandlePageSavesNew(rootName: Option<string>, s: Snapshot, page: Page)
    ensures Subsequence(Unsave(NewRows(rootName, s, page)), page.data)
    ensures forall r :: multiset(Unsave(NewRows(rootName, s, page)))[r] ==
                        if FirstWithUrlToken(s.users, rootName).None? || page.totals == 0 || IsStored(s.users, r.zhihuUserId)
                        then 0 else multiset(page.data)[r]
  {
    var t := HandlePage(rootName, s, page).0;
    if FirstWithUrlToken(s.users, rootName).Some? && page.totals != 0 {
      var root := FirstWithUrlToken(s.users, rootName).value;
      var toAdd := ToAdd(page.data, s.users);
      var added := SaveAll(toAdd, s.nextId);
      assert t.users == Persist(root.id, s, page.data).users == s.users + added;
      assert NewRows(rootName, s, page) == added;
      assert Unsave(added) == toAdd;
      ToAddIsSubsequence(page.data, s.users);
      forall r: Record
        ensures multiset(toAdd)[r] == if IsStored(s.users, r.zhihuUserId) then 0 else multiset(page.data)[r]
      {
        ToAddCount(page.data, s.users, r);
      }
    } else {
      assert t == s;
      assert NewRows(rootName, s, page) == [];
      assert Unsave([]) == [];
    }
  }

  /**
   * Relations stored before the page are kept, and one relation is appended
   * per user saved, from that user (the id assigned on save) to the root user.
   */
  lemma HandlePageEdges(rootName: Option<string>, s: Snapshot, page: Page)
    ensures var t := HandlePage(rootName, s, page).0;
      && |t.users| - |s.users| == |t.edges| - |s.edges| >= 0
      && t.nextId == s.nextId + (|t.users| - |s.users|)
      && t.edges[..|s.edges|] == s.edges
      && forall i :: |s.edges| <= i < |t.edges| ==>
           && FirstWithUrlToken(s.users, rootName).Some?
           && t.edges[i].followeeId == FirstWithUrlToken(s.users, rootName).value.id
           && t.edges[i].followerId == t.users[|s.users| + (i - |s.edges|)].id
  {
  }

  /**
   * The cursor rule: a next page is requested exactly when the root user is
   * stored, `totals` is not 0 and `offset + limit < totals`; then the offset
   * moves on by `limit` and the URL requested is the followers URL at the new
   * cursor.  The page size never changes, and otherwise the offset does not.
   */
  lemma HandlePageCursor(rootName: Option<string>, s: Snapshot, page: Page)
    ensures var (t, next) := HandlePage(rootName, s, page);
      && t.limit == s.limit
      && (next.Some? <==>
           FirstWithUrlToken(s.users, rootName).Some? && page.totals != 0 && s.offset + s.limit < page.totals)
      && (next.Some? ==>
           (rootName.Some? && t.offset == s.offset + s.limit &&
            ParseFollowersUrl(rootName.value, next.value) == Some((s.limit, t.offset))))
      && (next.None? ==> t.offset == s.offset)
  {
    var (t, next) := HandlePage(rootName, s, page);
    if next.Some? {
      FollowersUrlRoundTrip(rootName.value, s.limit, t.offset);
    }
  }

  /**
   * Handling the same page again saves nobody: after a page is handled every
   * one of its followers is stored, so a second call on the state the first
   * left appends no row and no relation.
   */
  lemma HandlePageIdempotent(rootName: Option<string>, s: Snapshot, page: Page)
    requires FirstWithUrlToken(s.users, rootName).Some? && page.totals != 0
    ensures ToAdd(page.data, HandlePage(rootName, s, page).0.users) == []
    ensures var t := HandlePage(rootName, s, page).0;
      var t2 := HandlePage(rootName, t, page).0;
      NewRows(rootName, t, page) == [] && t2.users == t.users && t2.nextId == t.nextId && t2.edges == t.edges
  {
    var t := HandlePage(rootName, s, page).0;
    var toAdd := ToAdd(page.data, s.users);
    var added := SaveAll(toAdd, s.nextId);
    var p := Persist(FirstWithUrlToken(s.users, rootName).value.id, s, page.data);
    assert t.users == p.users == s.users + added;
    forall r | r in page.data
      ensures IsStored(t.users, r.zhihuUserId)
    {
      ToAddMember(page.data, s.users, r);
      if !IsStored(s.users, r.zhihuUserId) {
        var i :| 0 <= i < |toAdd| && toAdd[i] == r;
        assert added[i] in t.users;
      } else {
        var u :| u in s.users && u.zhihuUserId == r.zhihuUserId;
        assert u in t.users;
      }
    }
    var again := ToAdd(page.data, t.users);
    if again != [] {
      ToAddMember(page.data, t.users, again[0]);
      assert false;
    }
    FirstWithUrlTokenStable(s.users, added, rootName);
    var root := FirstWithUrlToken(t.users, rootName).value;
    var p2 := Persist(root.id, t, page.data);
    assert SaveAll([], t.nextId) == [] && EdgesTo(root.id, []) == [];
    assert p2.users == t.users && p2.nextId == t.nextId && p2.edges == t.edges;
    assert HandlePage(rootName, t, page).0.users == p2.users;
  }

  lemma {:induction false} FirstWithUrlTokenStable(rows: seq<User>, more: seq<User>, token: Option<string>)
    requires FirstWithUrlToken(rows, token).Some?
    ensures FirstWithUrlToken(rows + more, token) == FirstWithUrlToken(rows, token)
  {
    if rows[0].urlToken != token.value {
      assert (rows + more)[1..] == rows[1..] + more;
      FirstWithUrlTokenStable(rows[1..], more, token);
    }
  }

  /**
   * The number of pages handled when the handler is run on `pages` in turn,
   * each run on the state the previous one left, stopping after a page that
   * requests no next page.
   */
  function PagesHandled(rootName: Option<string>, s: Snapshot, pages: seq<Page>): nat
    decreases |pages|
  {
    if |pages| == 0 then 0
    else
      var (t, next) := HandlePage(rootName, s, pages[0]);
      if next.None? then 1 else 1 + PagesHandled(rootName, t, pages[1..])
  }

  /**
   * Against a constant `totals`, with the root user stored, repeated calls of
   * the handler follow the pagination rule page for page.
   */
  lemma {:induction false} PagesHandledFollowsCursor(rootName: Option<string>, s: Snapshot, pages: seq<Page>, totals: int)
    requires s.limit > 0 && FirstWithUrlToken(s.users, rootName).Some?
    requires forall i :: 0 <= i < |pages| ==> pages[i].totals == totals
    requires |pages| >= PagesFetched(s.offset, s.limit, totals)
    ensures PagesHandled(rootName, s, pages) == PagesFetched(s.offset, s.limit, totals)
    decreases |pages|
  {
    var (t, next) := HandlePage(rootName, s, pages[0]);
    HandlePageCursor(rootName, s, pages[0]);
    if next.Some? {
      FirstWithUrlTokenStable(s.users, t.users[|s.users|..], rootName);
      assert t.users == s.users + t.users[|s.users|..] by {
        HandlePageEdges(rootName, s, pages[0]);
      }
      PagesHandledFollowsCursor(rootName, t, pages[1..], totals);
    }
  }

  /**
   * A crawl that starts at offset 0 with page size L > 0 against T > 0
   * followers handles ceil(T / L) pages; against T = 0 it handles one.
   */
  lemma CrawlPageCount(rootName: Option<string>, s: Snapshot, pages: seq<Page>, totals: int)
    requires s.offset == 0 && s.limit > 0 && totals >= 0 && FirstWithUrlToken(s.users, rootName).Some?
    requires forall i :: 0 <= i < |pages| ==> pages[i].totals == totals
    requires |pages| >= (totals + s.limit - 1) / s.limit && |pages| >= 1
    ensures totals > 0 ==> PagesHandled(rootName, s, pages) == (totals + s.limit - 1) / s.limit
    ensures totals == 0 ==> PagesHandled(rootName, s, pages) == 1
  {
    PagesFetchedFromStart(s.limit, totals);
    PagesHandledFollowsCursor(rootName, s, pages, totals);
  }

  /**
   * The crawler: the root user's url token, the cursor (static fields of the
   * crawler in the source) and the two injected stores.
   */
  class Crawler {
    const rootName: Option<string>
    var limit: int
    var offset: int
    const userRepository: UserRepository
    const followerRelationRepository: FollowerRelationRepository

    ghost predicate Valid()
      reads this, userRepository
    {
      userRepository.Valid()
    }

    ghost function State(): Snapshot
      reads this, userRepository, followerRelationRepository
    {
      Snapshot(userRepository.rows, userRepository.nextId, followerRelationRepository.edges, limit, offset)
    }

    /** A fresh crawler: the cursor starts at LIMIT = 20, OFFSET = 0. */
    constructor (rootName: Option<string>, users: UserRepository, relations: FollowerRelationRepository)
      requires users.Valid()
      ensures Valid() && this.rootName == rootName && limit == 20 && offset == 0
      ensures userRepository == users && followerRelationRepository == relations
    {
      this.rootName := rootName;
      limit, offset := 20, 0;
      userRepository, followerRelationRepository := users, relations;
    }

    /**
     * `startUrls`: no start URL when the root name is null or empty, otherwise
     * the one followers URL at the current cursor, which encodes that cursor.
     */
    function StartUrls(): (r: Option<seq<string>>)
      reads this
      ensures r.None? <==> rootName.None? || rootName.value == ""
      ensures r.Some? ==> r.value == [FollowersUrl(rootName.value, limit, offset)]
      ensures r.Some? ==> ParseFollowersUrl(rootName.value, r.value[0]) == Some((limit, offset))
    {
      if rootName.None? || rootName.value == "" then None
      else
        FollowersUrlRoundTrip(rootName.value, limit, offset);
        Some([FollowersUrl(rootName.value, limit, offset)])
    }

    /**
     * The insert loop of `start`: each user in turn is saved and then linked
     * to the root user by one relation carrying the id assigned on save.
     */
    method SaveFollowers(followeeId: nat, users: seq<Record>)
      requires userRepository.Valid()
      modifies userRepository, followerRelationRepository
      ensures userRepository.Valid()
      ensures userRepository.rows == old(userRepository.rows) + SaveAll(users, old(userRepository.nextId))
      ensures userRepository.nextId == old(userRepository.nextId) + |users|
      ensures followerRelationRepository.edges ==
        old(followerRelationRepository.edges) + EdgesTo(followeeId, SaveAll(users, old(userRepository.nextId)))
    {
      ghost var added := SaveAll(users, userRepository.nextId);
      var i := 0;
      while i < |users|
        invariant 0 <= i <= |users|
        invariant userRepository.Valid()
        invariant userRepository.rows == old(userRepository.rows) + added[..i]
        invariant userRepository.nextId == old(userRepository.nextId) + i
        invariant followerRelationRepository.edges == old(followerRelationRepository.edges) + EdgesTo(followeeId, added[..i])
      {
        var followerUser := userRepository.Save(users[i]);
        followerRelationRepository.Save(FollowerRelation(followeeId, followerUser.id));
        assert added[..i + 1] == added[..i] + [followerUser];
        EdgesToSnoc(followeeId, added[..i], followerUser);
        i := i + 1;
      }
      assert added[..i] == added;
    }

    /**
     * `start` on a decoded page; the URL it pushes for the next page, if any,
     * is returned.
     */
    method Start(page: Page) returns (next: Option<string>)
      requires Valid()
      modifies this, userRepository, followerRelationRepository
      ensures Valid()
      ensures (State(), next) == HandlePage(rootName, old(State()), page)
    {
      var followeeUser := userRepository.FindUserByUrlToken(rootName);
      if followeeUser.None? {
        return None;
      }
      var totals := page.totals;
      if totals == 0 {
        return None;
      }
      var userList := page.data;
      var zhihuUserIdList := ZhihuUserIds(userList);
      var duplicateUserList := userRepository.FindByZhihuUserIdIn(zhihuUserIdList);
      var duplicateZhihuUserIdList := StoredIds(duplicateUserList);
      var thisTimeToAddUserList := NotIn(userList, duplicateZhihuUserIdList);
      ghost var before := State();
      ghost var persisted := Persist(followeeUser.value.id, before, page.data);
      assert HandlePage(rootName, before, page) == Advance(rootName.value, persisted, totals) by {
        assert followeeUser == FirstWithUrlToken(before.users, rootName);
      }
      assert thisTimeToAddUserList == ToAdd(page.data, before.users);
      SaveFollowers(followeeUser.value.id, thisTimeToAddUserList);
      assert State() == persisted;
      var hasGetTotal := offset + limit;
      if hasGetTotal < totals {
        offset := offset + limit;
        next := Some(FollowersUrl(rootName.value, limit, offset));
        assert (State(), next) == (persisted.(offset := offset), next);
      } else {
        next := None;
        assert (State(), next) == (persisted, None);
      }
    }
  }
}
