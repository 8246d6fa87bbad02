# Follower crawler page handler, modelled in Dafny

This project models how the zhihu follower crawler handles a page
(`FollowerCrawler`). The crawler pages through the followers of one root
user through the followers API. For each decoded page, the handler
`start` does the following:

- It does nothing unless the root user (looked up by url token) is already stored.
- It does nothing if the page reports `totals == 0`.
- It looks up all of the page's zhihu user ids in the user store in one batched query.
- It saves every page user whose id was not found, in page order. Each save is followed by one follow relation (followee = root user, follower = the id assigned on save).
- It moves the cursor. If `OFFSET + LIMIT < totals`, `OFFSET` grows by `LIMIT` and the URL of the next page is pushed. Otherwise the crawl ends.

Files:

- `wrappers.dfy`: `Option`, which stands in for Java's `null`.
- `decimal.dfy`: `Integer.toString` as used by string concatenation, its reader, and their round trip.
- `domain.dfy`: page records, stored users, follow relations and the decoded page.
- `repositories.dfy`: the user store and the follow-relation store as classes. The user store holds a sequence of rows and a counter for the next id. The relation store holds a sequence of relations. `findUserByUrlToken` and `findByZhihuUserIdIn` are functions over the rows.
- `dedup.dfy`: the de-duplication stream pipeline and its properties.
- `pagination.dfy`: the cursor rule, the page count of a crawl, and the 32-bit version of the cursor rule.
- `urls.dfy`: the followers URL and a reader that recovers the cursor from it.
- `crawler.dfy`: `HandlePage`, the handler as a function on a snapshot of both stores and the cursor. `Crawler.Start` is the imperative handler, proved equal to `HandlePage`. This file also holds the lemmas about one call and about repeated calls.

The cursor is kept in the crawler's fields `limit` and `offset`. In the
source these are static fields. The URL pushed for the next page is returned
by `Start` instead of being scheduled.

Two facts about the code shape the model:

- `startUrls` does not check the root user, so the first page is fetched even when the root user is missing. Only `start` returns early, with no writes and no further request.
- The zhihu-id look-up is made once, before any save, so two records of one page with the same id are both saved. The user store is therefore a sequence of rows, not a map keyed by id.

## Model

| member | source | states |
|---|---|---|
| Repositories.UserRepository.FindUserByUrlToken | src/main/java/com/netopstec/spiderzhihu/crawler/FollowerCrawler.java:71 | finds a stored row whose url token is the root name, or proves that no stored row has it; a null root name finds nothing |
| Repositories.UserRepository.FindByZhihuUserIdIn | src/main/java/com/netopstec/spiderzhihu/crawler/FollowerCrawler.java:96 | a row is returned iff it is stored and its zhihu user id is one of the ids queried |
| Repositories.UserRepository.Save | src/main/java/com/netopstec/spiderzhihu/crawler/FollowerCrawler.java:105 | appends exactly one row, with the record's fields and the next id, and keeps ids increasing |
| Repositories.FollowerRelationRepository.Save | src/main/java/com/netopstec/spiderzhihu/crawler/FollowerCrawler.java:109 | appends exactly the given relation and keeps every earlier one |
| Dedup.ZhihuUserIds | src/main/java/com/netopstec/spiderzhihu/crawler/FollowerCrawler.java:93-95 | the ids queried are the page's zhihu user ids, one per page user, in page order |
| Dedup.StoredIds | src/main/java/com/netopstec/spiderzhihu/crawler/FollowerCrawler.java:97-99 | an id is among the duplicate ids iff some row returned by the look-up carries it |
| Dedup.ToAddIsSubsequence | src/main/java/com/netopstec/spiderzhihu/crawler/FollowerCrawler.java:100-102 | the users kept by the filter are a subsequence of the page, in page order |
| Dedup.ToAddCount | src/main/java/com/netopstec/spiderzhihu/crawler/FollowerCrawler.java:93-102 | a page user is kept as many times as it occurs in the page if its id was not stored, and not at all otherwise, so repeats within one page are all kept |
| Dedup.ToAddMember | src/main/java/com/netopstec/spiderzhihu/crawler/FollowerCrawler.java:100-102 | a user is saved iff it is on the page and no stored row has its zhihu user id |
| Dedup.DuplicateIds | src/main/java/com/netopstec/spiderzhihu/crawler/FollowerCrawler.java:93-99 | an id is among the duplicates found by the one batched look-up iff it is stored and it is the id of a page user |
| Dedup.DedupExample | src/main/java/com/netopstec/spiderzhihu/crawler/FollowerCrawler.java:93-102 | with users A and B stored, the page A, B, C, D saves exactly C then D |
| Decimal.DecimalString | src/main/java/com/netopstec/spiderzhihu/crawler/FollowerCrawler.java:65 | the rendering of an int is non-empty, contains only digits and '-', and starts with '-' iff the value is negative |
| Decimal.DecimalRoundTrip | src/main/java/com/netopstec/spiderzhihu/crawler/FollowerCrawler.java:126 | reading back the rendering of any int gives that int |
| Urls.FollowersUrlRoundTrip | src/main/java/com/netopstec/spiderzhihu/crawler/FollowerCrawler.java:126 | the followers URL of a root name gives back the (limit, offset) it was built from, so distinct cursors give distinct URLs |
| Pagination.NextOffset | src/main/java/com/netopstec/spiderzhihu/crawler/FollowerCrawler.java:111-114 | a next offset exists iff offset + limit < totals, and it is then offset + limit |
| Pagination.PagesFetchedFrom | src/main/java/com/netopstec/spiderzhihu/crawler/FollowerCrawler.java:111-116 | from an offset below totals, the crawl handles ceil((totals - offset) / limit) pages |
| Pagination.PagesFetchedFromStart | src/main/java/com/netopstec/spiderzhihu/crawler/FollowerCrawler.java:111-116 | from offset 0 with limit L > 0, T > 0 followers take ceil(T / L) pages and T = 0 takes one page |
| Pagination.NextOffsetInt32Agrees | src/main/java/com/netopstec/spiderzhihu/crawler/FollowerCrawler.java:111-114 | while offset + limit fits in an int, the 32-bit cursor rule as written equals the cursor rule |
| Pagination.NextOffsetInt32Wraps | src/main/java/com/netopstec/spiderzhihu/crawler/FollowerCrawler.java:111-114 | with totals above 2^31 - 1, the rule as written moves from offset 2147483640 to offset -2147483636 |
| FollowerCrawler.NoRootOrNoFollowers | src/main/java/com/netopstec/spiderzhihu/crawler/FollowerCrawler.java:71-85 | with no stored root user, or with totals = 0, no row, no relation, no cursor change and no next request |
| FollowerCrawler.SaveAllAppends | src/main/java/com/netopstec/spiderzhihu/crawler/FollowerCrawler.java:104-105 | saving the new users appends rows with fresh, increasing ids and with exactly the records saved |
| FollowerCrawler.HandlePageKeepsUsers | src/main/java/com/netopstec/spiderzhihu/crawler/FollowerCrawler.java:96-105 | the handler only appends to the user store: rows stored before the page are kept unchanged, and ids stay increasing and below the next id |
| FollowerCrawler.HandlePageSavesNew | src/main/java/com/netopstec/spiderzhihu/crawler/FollowerCrawler.java:93-105 | the rows appended are exactly the page users whose id was not stored, each as often as it occurs in the page and in page order; none are appended when the root user is missing or totals = 0 |
| FollowerCrawler.HandlePageEdges | src/main/java/com/netopstec/spiderzhihu/crawler/FollowerCrawler.java:104-110 | relations stored before are kept; there is one new relation per saved user, from that user's assigned id to the root user's id; the relation count grows by the number of users saved |
| FollowerCrawler.HandlePageCursor | src/main/java/com/netopstec/spiderzhihu/crawler/FollowerCrawler.java:111-128 | a next page is requested iff the root is stored, totals != 0 and offset + limit < totals; then offset grows by limit and the URL pushed encodes the new cursor; limit never changes and otherwise offset does not either |
| FollowerCrawler.HandlePageIdempotent | src/main/java/com/netopstec/spiderzhihu/crawler/FollowerCrawler.java:93-110 | after a page is handled its users are all stored, so handling the same page again appends no row and no relation |
| FollowerCrawler.PagesHandledFollowsCursor | src/main/java/com/netopstec/spiderzhihu/crawler/FollowerCrawler.java:111-116 | over pages with a constant totals and a stored root, the number of pages handled by repeated calls equals the count given by the cursor rule |
| FollowerCrawler.CrawlPageCount | src/main/java/com/netopstec/spiderzhihu/crawler/FollowerCrawler.java:55-56 | with the root user stored, starting at offset 0 with limit L > 0, repeated calls handle ceil(T / L) pages for T > 0 and one page for T = 0 |
| FollowerCrawler.Crawler.constructor | src/main/java/com/netopstec/spiderzhihu/crawler/FollowerCrawler.java:55-56 | the cursor starts at LIMIT = 20 and OFFSET = 0 |
| FollowerCrawler.Crawler.StartUrls | src/main/java/com/netopstec/spiderzhihu/crawler/FollowerCrawler.java:59-66 | no start URL iff the root name is null or empty; otherwise exactly one, the followers URL at the current cursor, which encodes that cursor |
| FollowerCrawler.Crawler.SaveFollowers | src/main/java/com/netopstec/spiderzhihu/crawler/FollowerCrawler.java:104-110 | the insert loop appends the saved rows under consecutive ids from the next id, and appends one relation per saved row from that row's id to the root user; nothing before is changed |
| FollowerCrawler.Crawler.Start | src/main/java/com/netopstec/spiderzhihu/crawler/FollowerCrawler.java:70-120 | the new rows, next id, relations, cursor and pushed URL are exactly those of HandlePage on the old state, and the store invariant is kept |

## Findings

| source | as written | input that shows it | evidently intended | confidence | as-written member | corrected member |
|---|---|---|---|---|---|---|
| src/main/java/com/netopstec/spiderzhihu/crawler/FollowerCrawler.java:111-114 | `OFFSET + LIMIT` and `OFFSET += LIMIT` are 32-bit `int` sums; only the comparison with the `Long` totals is 64-bit | totals = 3000000000, OFFSET = 2147483640 (page 107374183 at LIMIT = 20): the sum wraps to -2147483636, which is below totals, so the next page requested has a negative offset | the offset advances to 2147483660, and the crawl ends after ceil(T / L) pages | not executed; the wrap follows from Java's int semantics, but no real follower count reaches 2^31 | Pagination.NextOffsetInt32Wraps | Pagination.PagesFetchedFromStart |

The rest of the model uses the corrected rule `Pagination.NextOffset`, which uses unbounded integers.

## Left out

- `proxy()` and `getUserAgent()` (proxy pool and user-agent rotation): these are calls into services that are not shown, with logging and no logic that can be stated.
- Decoding the response: the document body, `JsonUtil.removeTheStringFieldValue`, `JsonUtil.string2Obj` and `UserInfo.toEntity` are not shown. The page arrives already decoded as records plus `totals`. The conversion loop that maps `UserInfo` to `User` is therefore not modelled. A missing `paging` or `totals` field, which would throw, is not modelled either.
- `push(Request.build(url, "start"))` is scheduling and network I/O. The URL is returned by `Start` instead.
- Spring Data JPA behaviour: transactions, unique constraints, and store failures. Url tokens are assumed unique in the user store: the root look-up returns the first matching row, whereas the source's single-result finder would fail on two matches. Every save succeeds. Ids come from a counter that increases by one on each save. `findByZhihuUserIdIn` returns matching rows in storage order.
- Logging and Spring injection.
- FollowerCrawler.Crawler.Start: the cursor arithmetic uses unbounded integers, not 32-bit `int`. The wrap is shown separately under Findings.
- FollowerCrawler.CrawlPageCount: assumes every page reports the same `totals`. If `totals` changes between pages, `HandlePage` still applies the rule per page, but no count is proved.
- The static cursor is shared by all crawler instances in the source. The model gives each crawler its own cursor, because nothing in the core runs two crawls at once.
