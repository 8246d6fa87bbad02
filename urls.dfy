/**
 * The followers-API request URL of the crawler, built by string
 * concatenation from the root user's url token and the cursor, and a reader
 * that recovers the cursor from such a URL.
 */
module Urls {
  import opened Wrappers
  import opened Decimal

  const MembersBase: string := "https://www.zhihu.com/api/v4/members/"
  const FollowersQuery: string := "/followers?limit="
  const OffsetParam: string := "&offset="

  /** The URL of the page of `rootName`'s followers at (`limit`, `offset`). */
  function FollowersUrl(rootName: string, limit: int, offset: int): string
  {
    MembersBase + rootName + FollowersQuery + DecimalString(limit) + OffsetParam + DecimalString(offset)
  }

  /** The index of the first `c` in `s`, if any. */
  function IndexOf(s: string, c: char): (r: Option<nat>)
    ensures r.Some? ==> r.value < |s| && s[r.value] == c && c !in s[..r.value]
    ensures r.None? ==> c !in s
  {
    if |s| == 0 then None
    else if s[0] == c then Some(0)
    else match IndexOf(s[1..], c)
      case None => None
      case Some(i) =>
        assert s[..i + 1] == [s[0]] + s[1..][..i];
        Some(i + 1)
  }

  /**
   * Reads (limit, offset) back from a followers URL of `rootName`; None when
   * `url` is not one.
   */
  function ParseFollowersUrl(rootName: string, url: string): Option<(int, int)>
  {
    var head := MembersBase + rootName + FollowersQuery;
    if |url| < |head| || url[..|head|] != head then None
    else
      var query := url[|head|..];
      match IndexOf(query, '&')
      case None => None
      case Some(k) =>
        var rest := query[k..];
        if |rest| < |OffsetParam| || rest[..|OffsetParam|] != OffsetParam then None
        else match (ParseDecimal(query[..k]), ParseDecimal(rest[|OffsetParam|..]))
          case (Some(limit), Some(offset)) => Some((limit, offset))
          case _ => None
  }

  /** A followers URL determines the cursor it was built from. */
  lemma FollowersUrlRoundTrip(rootName: string, limit: int, offset: int)
    ensures ParseFollowersUrl(rootName, FollowersUrl(rootName, limit, offset)) == Some((limit, offset))
  {
    var url := FollowersUrl(rootName, limit, offset);
    var head := MembersBase + rootName + FollowersQuery;
    var l, o := DecimalString(limit), DecimalString(offset);
    assert url == head + (l + OffsetParam + o);
    var query := url[|head|..];
    assert query == l + OffsetParam + o;
    assert '&' !in l;
    assert query[|l|] == '&';
    assert IndexOf(query, '&') == Some(|l|) by {
      var r := IndexOf(query, '&');
      assert r.Some?;
      assert query[..|l|] == l;
    }
    assert query[..|l|] == l;
    var rest := query[|l|..];
    assert rest == OffsetParam + o;
    assert rest[|OffsetParam|..] == o;
    DecimalRoundTrip(limit);
    DecimalRoundTrip(offset);
  }
}
