/**
 * The de-duplication step of the page handler: the page's zhihu user ids are
 * looked up in the user store once, and the page's users whose id was found
 * are dropped, the rest kept in page order.
 */
module Dedup {
  import opened Domain
  import opened Repositories

  /** Some stored row carries zhihu user id `id`. */
  ghost predicate IsStored(rows: seq<User>, id: string)
  {
    exists u :: u in rows && u.zhihuUserId == id
  }

  /** The zhihu user ids of the page, in page order. */
  function ZhihuUserIds(rs: seq<Record>): (ids: seq<string>)
    ensures |ids| == |rs|
    ensures forall i :: 0 <= i < |rs| ==> ids[i] == rs[i].zhihuUserId
  {
    if |rs| == 0 then [] else [rs[0].zhihuUserId] + ZhihuUserIds(rs[1..])
  }

  /** The zhihu user ids of stored rows. */
  function StoredIds(us: seq<User>): (ids: seq<string>)
    ensures forall id :: id in ids <==> IsStored(us, id)
  {
    if |us| == 0 then []
    else
      assert forall u :: u in us <==> u == us[0] || u in us[1..];
      [us[0].zhihuUserId] + StoredIds(us[1..])
  }

  /** The page users whose id is not in `duplicateIds`, in page order. */
  function NotIn(rs: seq<Record>, duplicateIds: seq<string>): seq<Record>
  {
    if |rs| == 0 then []
    else (if rs[0].zhihuUserId in duplicateIds then [] else [rs[0]]) + NotIn(rs[1..], duplicateIds)
  }

  /**
   * The page users to save: one batched look-up of the page's ids against the
   * stored rows, then the filter against the ids found.
   */
  function ToAdd(page: seq<Record>, rows: seq<User>): seq<Record>
  {
    NotIn(page, StoredIds(WithZhihuUserIdIn(rows, ZhihuUserIds(page))))
  }

  /** `s` is `t` with some elements dropped, the rest in the same order. */
  ghost predicate Subsequence<T>(s: seq<T>, t: seq<T>)
  {
    if |s| == 0 then true
    else if |t| == 0 then false
    else (s[0] == t[0] && Subsequence(s[1..], t[1..])) || Subsequence(s, t[1..])
  }

  lemma {:induction false} NotInSubsequence(rs: seq<Record>, d: seq<string>)
    ensures Subsequence(NotIn(rs, d), rs)
  {
    if |rs| > 0 {
      NotInSubsequence(rs[1..], d);
      var tail := NotIn(rs[1..], d);
      if rs[0].zhihuUserId !in d {
        assert NotIn(rs, d) == [rs[0]] + tail;
        assert ([rs[0]] + tail)[1..] == tail;
      } else {
        assert NotIn(rs, d) == tail;
      }
    }
  }

  /**
   * Each page user is kept as often as it occurs in the page when its id is
   * not among the duplicates, and not at all otherwise.
   */
  lemma {:induction false} NotInCount(rs: seq<Record>, d: seq<string>, r: Record)
    ensures multiset(NotIn(rs, d))[r] == if r.zhihuUserId in d then 0 else multiset(rs)[r]
  {
    if |rs| > 0 {
      var head := if rs[0].zhihuUserId in d then [] else [rs[0]];
      NotInCount(rs[1..], d, r);
      assert NotIn(rs, d) == head + NotIn(rs[1..], d);
      assert multiset(NotIn(rs, d)) == multiset(head) + multiset(NotIn(rs[1..], d));
      assert rs == [rs[0]] + rs[1..];
      assert multiset(rs) == multiset([rs[0]]) + multiset(rs[1..]);
    }
  }

  /** The users kept by the filter keep their relative page order. */
  lemma ToAddIsSubsequence(page: seq<Record>, rows: seq<User>)
    ensures Subsequence(ToAdd(page, rows), page)
  {
    NotInSubsequence(page, StoredIds(WithZhihuUserIdIn(rows, ZhihuUserIds(page))));
  }

  /**
   * A page user is saved exactly when no stored row has its zhihu user id, and
   * then as many times as it occurs in the page: the look-up is made once,
   * before any save, so repeats within one page are all kept.
   */
  lemma ToAddCount(page: seq<Record>, rows: seq<User>, r: Record)
    ensures multiset(ToAdd(page, rows))[r] == if IsStored(rows, r.zhihuUserId) then 0 else multiset(page)[r]
  {
    var ids := ZhihuUserIds(page);
    var found := WithZhihuUserIdIn(rows, ids);
    NotInCount(page, StoredIds(found), r);
    if r in page {
      var i :| 0 <= i < |page| && page[i] == r;
      assert ids[i] == r.zhihuUserId;
      assert IsStored(found, r.zhihuUserId) <==> IsStored(rows, r.zhihuUserId);
    } else {
      NotInSubsequenceMember(page, StoredIds(found), r);
    }
  }

  lemma {:induction false} NotInSubsequenceMember(rs: seq<Record>, d: seq<string>, r: Record)
    requires r !in rs
    ensures r !in NotIn(rs, d)
  {
    if |rs| > 0 {
      NotInSubsequenceMember(rs[1..], d, r);
    }
  }

  /** Membership form of ToAddCount: which page users the handler saves. */
  lemma ToAddMember(page: seq<Record>, rows: seq<User>, r: Record)
    ensures r in ToAdd(page, rows) <==> r in page && !IsStored(rows, r.zhihuUserId)
  {
    ToAddCount(page, rows, r);
  }

  /** An id is among the duplicates found by the look-up iff it is stored and on the page. */
  lemma DuplicateIds(page: seq<Record>, rows: seq<User>, id: string)
    ensures id in StoredIds(WithZhihuUserIdIn(rows, ZhihuUserIds(page))) <==>
            IsStored(rows, id) && id in ZhihuUserIds(page)
  {
  }

  lemma {:induction false} NotInAppend(xs: seq<Record>, ys: seq<Record>, d: seq<string>)
    ensures NotIn(xs + ys, d) == NotIn(xs, d) + NotIn(ys, d)
  {
    if |xs| > 0 {
      NotInAppend(xs[1..], ys, d);
      assert (xs + ys)[1..] == xs[1..] + ys;
    } else {
      assert xs + ys == ys;
    }
  }

  lemma DropTwoKeepTwo(a: Record, b: Record, c: Record, d: Record, dup: seq<string>)
    requires a.zhihuUserId in dup && b.zhihuUserId in dup
    requires c.zhihuUserId !in dup && d.zhihuUserId !in dup
    ensures NotIn([a, b, c, d], dup) == [c, d]
  {
    assert [a, b, c, d] == [a] + [b] + [c] + [d];
    NotInAppend([a] + [b] + [c], [d], dup);
    NotInAppend([a] + [b], [c], dup);
    NotInAppend([a], [b], dup);
  }

  /** With users A and B stored, a page A, B, C, D saves C and D, in that order. */
  lemma DedupExample(a: Record, b: Record, c: Record, d: Record, rows: seq<User>)
    requires a.zhihuUserId == "A" && b.zhihuUserId == "B" && c.zhihuUserId == "C" && d.zhihuUserId == "D"
    requires forall u :: u in rows ==> u.zhihuUserId == "A" || u.zhihuUserId == "B"
    requires IsStored(rows, "A") && IsStored(rows, "B")
    ensures ToAdd([a, b, c, d], rows) == [c, d]
  {
    var page := [a, b, c, d];
    var ids := ZhihuUserIds(page);
    var dup := StoredIds(WithZhihuUserIdIn(rows, ids));
    assert a.zhihuUserId in dup && b.zhihuUserId in dup by {
      assert ids[0] == a.zhihuUserId && ids[1] == b.zhihuUserId;
      DuplicateIds(page, rows, a.zhihuUserId);
      DuplicateIds(page, rows, b.zhihuUserId);
    }
    assert c.zhihuUserId !in dup by {
      assert !IsStored(rows, c.zhihuUserId);
      DuplicateIds(page, rows, c.zhihuUserId);
    }
    assert d.zhihuUserId !in dup by {
      assert !IsStored(rows, d.zhihuUserId);
      DuplicateIds(page, rows, d.zhihuUserId);
    }
    DropTwoKeepTwo(a, b, c, d, dup);
  }
}
