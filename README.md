# AuthentiWrite in-memory store, modelled in Dafny

This project models the in-memory `Database` of AuthentiWrite, a platform where
verified users publish writings. The store holds six tables:

- users;
- writings;
- comments;
- per-user analytics;
- an index from government id to user;
- an index from email to user.

Every mutator keeps some derived data in step with the tables it changes:

- the follow graph, kept on both users' `following` and `followers` lists;
- the up- and down-vote lists of a writing;
- the per-author counters: views, shares, up-votes, earnings, writings and
  followers.

The query side consists of filters over the tables and two ranked feeds:

- trending, ordered by views + 10 × up-votes + 5 × shares;
- following, newest first.

Each feed is a stable sort followed by `slice(0, limit)`.

The model is a Dafny class `Store.Database`:

- Each JavaScript `Map` becomes a `map` field. Its iteration order, which decides
  the order of ties in the feeds, is kept as a list of ids (`order`, `commentOrder`).
- Records are datatypes that the mutators replace in the maps.
- Fresh ids come from a counter (`nextId`).
- Timestamps are natural numbers, and the current time is a parameter.
- Each mutator is a method with a field-level `modifies` clause. Its `ensures`
  gives the whole new state as a function of the old one.
- The functions behind those `ensures` are pure, in the modules `Social`,
  `Votes`, `Edits`, `Counters`, `Ranking` and `Queries`. Their properties are
  proved as lemmas.
- The class invariant `Valid` is made of the predicates in `StoreInvariants`:
  - the follow graph is symmetric, duplicate-free and has no self-follow;
  - every user has exactly one analytics record;
  - no follower count exceeds the follower list;
  - both indexes point at the newest user with that key;
  - the insertion orders list exactly the stored ids.
- `StoreSteps` proves, one lemma per kind of change, that each mutator keeps `Valid`.

Earnings are kept in tenths of a dollar (`totalEarningsTenths`). The source
computes them as `totalViews * 0.1` in floating point; in the model a view sets
the earnings in tenths equal to the view count.

One might expect `unfollowUser` on a pair that never followed to be a no-op.
The code still decrements the target's `followersCount`, floored at 0
(`authentiwrite/lib/db/database.ts:182-185`). The model follows the code:

- `Social.UnfollowedWithoutEdge` shows that the follow lists are left as they were.
- `Store.Database.UnfollowUser` still applies `RemoveFollower` to the count.
- The invariant therefore bounds `followersCount` by the length of the follower
  list; it does not make the two equal.

## Model

| member | source | states |
|---|---|---|
| Store.Database.constructor | authentiwrite/lib/db/database.ts:6-16 | A new store is empty and satisfies the store invariant. |
| Store.Database.Writings | authentiwrite/lib/db/database.ts:218 | `Array.from(this.writings.values())`: position `i` holds the writing stored under the `i`-th id of the insertion order (which lists each stored id once), and the listing holds exactly the stored writings. |
| Store.Database.Comments | authentiwrite/lib/db/database.ts:318 | `Array.from(this.comments.values())`: position `i` holds the comment stored under the `i`-th id of the comment order, and the listing holds exactly the stored comments. |
| Store.Database.GetUserById | authentiwrite/lib/db/database.ts:119-121 | A user is returned iff the id is known, and it is the user stored under that id. |
| Store.Database.GetUserByGovId | authentiwrite/lib/db/database.ts:114-117 | A user is found iff some user has that government id; the result has it and is the newest such user. |
| Store.Database.GetUserByEmail | authentiwrite/lib/db/database.ts:123-126 | A user is found iff some user has that email; the result has it and is the newest such user. |
| Store.Database.CreateUser | authentiwrite/lib/db/database.ts:128-152 | Adds the new user with a fresh id and empty follow lists, points both indexes at it, adds a zeroed analytics record and adds no follow edge; duplicates are not rejected; the id source moves on by one. |
| Store.Database.FollowUser | authentiwrite/lib/db/database.ts:154-171 | Returns true iff both users are known, distinct and not yet linked. Then both lists grow by the edge, the target's follower count rises by one and the edge holds afterwards, so a repeat call is refused. On false nothing changes. |
| Store.Database.UnfollowUser | authentiwrite/lib/db/database.ts:173-187 | Returns true iff both users are known. Then every occurrence is filtered from both lists and the target's count is decremented, floored at 0, whether or not the edge existed. On false nothing changes. |
| Store.Database.CreateWriting | authentiwrite/lib/db/database.ts:190-211 | Stores the writing under a fresh id with zeroed counters, both timestamps `now` and the given legal hash. It is appended to the insertion order, the author's writing count rises when the author has analytics, and the id source moves on by one. |
| Store.Database.GetWritingById | authentiwrite/lib/db/database.ts:213-215 | A writing is returned iff the id is stored, and it is the record stored under that id. |
| Store.Database.GetWritingsByAuthor | authentiwrite/lib/db/database.ts:217-219 | Exactly the stored writings with that author, each as often as in the full listing (so once per id holding it). |
| Store.Database.GetPublicWritings | authentiwrite/lib/db/database.ts:221-223 | Exactly the stored public writings, each as often as in the full listing. |
| Store.Database.UpdateWriting | authentiwrite/lib/db/database.ts:225-236 | None and no change iff the id is unknown. Otherwise the merged record replaces the stored one under the same id. |
| Store.Database.DeleteWriting | authentiwrite/lib/db/database.ts:238-251 | Returns true iff the id is stored. Then exactly that writing leaves the map and the order, and the author's writing count drops, floored at 0. On false nothing changes. |
| Store.Database.VoteWriting | authentiwrite/lib/db/database.ts:253-277 | Returns true iff the writing is stored. Then the vote is applied to it. An up-vote sets the author's `totalUpvotes` to a rescan of the whole store; a down-vote leaves analytics unchanged. |
| Store.Database.IncrementViews | authentiwrite/lib/db/database.ts:279-291 | Unknown id: no change. Otherwise the writing gains one view and the author's record gets the `AddView` edit. |
| Store.Database.IncrementShares | authentiwrite/lib/db/database.ts:293-304 | Unknown id: no change. Otherwise the writing gains one share and the author's record gets the `AddShare` edit. |
| Store.Database.CreateComment | authentiwrite/lib/db/database.ts:307-315 | Stores the comment under a fresh id and appends it to the comment order, with no check that the writing or the author exists; the id source moves on by one. |
| Store.Database.GetCommentsByWriting | authentiwrite/lib/db/database.ts:317-319 | Exactly the stored comments on that writing, each as often as in the full comment listing. |
| Store.Database.GetAnalytics | authentiwrite/lib/db/database.ts:322-324 | A record is returned iff the user is known, and it is the record stored for that user. |
| Store.Database.GetTrendingWritings | authentiwrite/lib/db/database.ts:327-336 | Stored public writings only, by non-increasing score, exactly `min(limit, #public)` of them for `limit >= 0`. No public writing left out outscores one listed, and equal scores keep insertion order. |
| Store.Database.GetFollowingFeed | authentiwrite/lib/db/database.ts:338-346 | Empty for an unknown user. Otherwise public writings by followed authors, newest first, `min(limit, #candidates)` of them; none left out is newer than one listed, and equal times keep insertion order. |
| Social.FollowedShape | authentiwrite/lib/db/database.ts:160-162 | Following changes only `a.following` (grows by `b`) and `b.followers` (grows by `a`); every other field and record stays. |
| Social.UnfollowedShape | authentiwrite/lib/db/database.ts:179-180 | Unfollowing changes only `a.following` and `b.followers`, each filtered, also when `a == b`. |
| Social.FollowedKeepsRecords | authentiwrite/lib/db/database.ts:160-162 | Following a user not yet followed keeps every record duplicate-free and without self-follow. |
| Social.FollowedKeepsMirrors | authentiwrite/lib/db/database.ts:160-162 | Following keeps `following` and `followers` mirroring each other. |
| Social.FollowedAddsEdge | authentiwrite/lib/db/database.ts:154-171 | Following adds exactly the edge a→b and keeps the graph well formed. `b`'s follower list grows by one; every other follower list keeps its length. |
| Social.UnfollowedKeepsGraph | authentiwrite/lib/db/database.ts:173-187 | Unfollowing keeps the graph well formed, with or without the edge and when `a == b`. |
| Social.UnfollowedRemovesEdge | authentiwrite/lib/db/database.ts:179-180 | Unfollowing removes exactly the edge a→b. `b`'s follower list shrinks by one exactly when the edge existed; every other list keeps its length. |
| Social.UnfollowedWithoutEdge | authentiwrite/lib/db/database.ts:179-180 | Unfollowing a user one does not follow leaves all follow lists unchanged. |
| Social.UnfollowedAbsent | authentiwrite/lib/db/database.ts:179-180 | Filtering ids that are absent from both lists changes no record. |
| Social.AddedUserKeepsGraph | authentiwrite/lib/db/database.ts:132-136 | A new user with empty lists keeps the graph well formed and adds no edge. |
| Counters.ApplyEdit | authentiwrite/lib/db/database.ts:286-289 | An analytics edit keeps the owner, and each counter (followers, views with earnings, shares, up-votes, writings) changes only under the edit named after it. After a view, earnings in tenths equal the view count. Floored removals lower a positive count by exactly one and never go below 0. |
| Counters.Edited | authentiwrite/lib/db/database.ts:205-208 | Editing the record of an id, if it has one, adds and removes no record and changes no other record. |
| Votes.ApplyVote | authentiwrite/lib/db/database.ts:257-266 | After a vote the voter occurs exactly once in the chosen list and not in the other; every other voter's counts and every other field are unchanged. |
| Votes.LastVoteWins | authentiwrite/lib/db/database.ts:257-266 | Voting twice equals voting once with the second kind. |
| Votes.ClearTwice | authentiwrite/lib/db/database.ts:258-259 | Filtering a voter out again, with or without a vote pushed in between, gives the first filtering. |
| Votes.AuthorUpvotesUpdate | authentiwrite/lib/db/database.ts:271-273 | Replacing one writing changes an author's rescanned up-vote total by the difference in that writing's contribution. |
| Votes.VoteChangesAuthorTotal | authentiwrite/lib/db/database.ts:268-274 | After a vote by `u`, the rescan changes the author's total as follows: +1 minus `u`'s earlier up-votes for an up-vote, minus them for a down-vote. Other authors are unchanged. |
| StoreSteps.UpvoteRescan | authentiwrite/lib/db/database.ts:270-273 | The up-vote rescan over the store finds the previous total, less the voter's earlier up-votes on that writing, plus one. |
| Edits.Merge | authentiwrite/lib/db/database.ts:229-233 | The spread merge forces `lastModified` to the edit time; every other field, required or optional, takes the supplied value when there is one and keeps the stored value otherwise. |
| Edits.MergeNothing | authentiwrite/lib/db/database.ts:229-233 | An empty update only refreshes `lastModified`. |
| Edits.ContentEditKeepsLegalHash | authentiwrite/lib/db/database.ts:229-233 | Editing the content leaves the legal hash taken at creation unchanged. |
| Edits.MergeTwice | authentiwrite/lib/db/database.ts:229-233 | Applying an update twice equals applying it once at the later time. |
| Queries.ByAuthor | authentiwrite/lib/db/database.ts:218 | The filter keeps exactly the writings by the author, each as often as listed. |
| Queries.PublicOnly | authentiwrite/lib/db/database.ts:222 | The filter keeps exactly the public writings, each as often as listed. |
| Queries.OnWriting | authentiwrite/lib/db/database.ts:318 | The filter keeps exactly the comments on the writing, each as often as listed. |
| Queries.FromFollowed | authentiwrite/lib/db/database.ts:343 | The filter keeps exactly the public writings whose author is followed, each as often as in the input. |
| Queries.Trending | authentiwrite/lib/db/database.ts:327-336 | Public writings only, by non-increasing score, with `slice` length for any limit (negative included). Nothing left out scores higher, and each tie class is a prefix of its listing order. |
| Queries.FollowingFeed | authentiwrite/lib/db/database.ts:342-345 | Followed authors' public writings only, by non-increasing time, with `slice` length. Nothing left out is newer, and ties keep listing order. |
| Queries.TrendingLeads | authentiwrite/lib/db/database.ts:327-336 | With any positive limit and some public writing, the feed is non-empty and opens with a highest-scoring public writing. |
| Queries.HigherScoreFirst | authentiwrite/lib/db/database.ts:330-334 | A writing with the higher score comes first even when stored later. |
| Queries.TiesKeepStoreOrder | authentiwrite/lib/db/database.ts:328-334 | When all public writings score the same, the trending feed is a prefix of them in store order. |
| Ranking.InsertDesc | authentiwrite/lib/db/database.ts:330-334 | One insertion step of the stable sort: the result is a permutation of the list plus the element, stays sorted, and puts the element first in its tie class. |
| Ranking.SortDesc | authentiwrite/lib/db/database.ts:330-334 | The comparator sort yields a permutation sorted by non-increasing key in which every tie class keeps its input order (stability). |
| Ranking.TopK | authentiwrite/lib/db/database.ts:330-335 | Sort then `slice(0, limit)`: a sub-multiset of the input, sorted, of `slice` length, dominating what is left out, with tie classes as prefixes. |
| Ranking.SortedPrefixFacts | authentiwrite/lib/db/database.ts:335 | A prefix of a stable sort is drawn from the input, sorted, dominates the rest and keeps tie order. |
| Ranking.TieClassPrefix | authentiwrite/lib/db/database.ts:335 | The tie classes of a prefix are prefixes of the tie classes. |
| Seqs.RemoveAll | authentiwrite/lib/db/database.ts:179 | `filter(id => id !== x)` removes every `x` and keeps every other element with its multiplicity. |
| Seqs.RemoveAbsent | authentiwrite/lib/db/database.ts:179 | Filtering out an absent value changes nothing. |
| Seqs.RemoveAllConcat | authentiwrite/lib/db/database.ts:258 | Filtering distributes over concatenation. |
| Seqs.RemoveAllIsFilter | authentiwrite/lib/db/database.ts:179 | Removing `x` is the general filter with a predicate that rejects exactly `x`. |
| Seqs.RemoveAllNoDuplicates | authentiwrite/lib/db/database.ts:179-180 | Filtering keeps a duplicate-free list duplicate-free. |
| Seqs.AppendNoDuplicates | authentiwrite/lib/db/database.ts:161-162 | Pushing an absent id keeps a list duplicate-free. |
| Seqs.NoDuplicatesCount | authentiwrite/lib/db/database.ts:180 | A duplicate-free list holds each id at most once, so a filter drops at most one. |
| Seqs.Filter | authentiwrite/lib/db/database.ts:222 | `filter(p)` keeps exactly the elements satisfying `p`, with their multiplicities. |
| Seqs.FilterConcat | authentiwrite/lib/db/database.ts:218-222 | `filter` keeps the input order: filtering a concatenation concatenates the filtered parts. |
| Seqs.InOrder | authentiwrite/lib/db/database.ts:218 | `Array.from(map.values())` lists, position by position, the value of each id in insertion order. |
| Seqs.InOrderValues | authentiwrite/lib/db/database.ts:218 | When the order lists exactly the keys, the listing holds exactly the map's values. |
| Seqs.InOrderUpdate | authentiwrite/lib/db/database.ts:271 | Replacing one stored value replaces one element of the listing, at that id's position. |
| StoreInvariants.IndexFacts | authentiwrite/lib/db/database.ts:114-117 | An index answers every key some user has, with the newest such user. |
| StoreSteps.RegisterKeepsIndex | authentiwrite/lib/db/database.ts:137-138 | Pointing a key at the newly registered user keeps the index valid, including the newest-user rule. |
| StoreSteps.RegisterKeepsUsersOk | authentiwrite/lib/db/database.ts:128-152 | `createUser` keeps the user side of the invariant. |
| StoreSteps.CounterEditKeepsUsersOk | authentiwrite/lib/db/database.ts:205-208 | An analytics edit that leaves the follower count alone keeps the user side. |
| StoreSteps.FollowListsEditKeepsUsersOk | authentiwrite/lib/db/database.ts:179-185 | Rewriting follow lists into a well-formed graph, with the count staying within the list, keeps the user side. |
| StoreSteps.FollowKeepsUsersOk | authentiwrite/lib/db/database.ts:160-167 | `followUser` on a new edge keeps the user side. |
| StoreSteps.UnfollowKeepsUsersOk | authentiwrite/lib/db/database.ts:179-185 | `unfollowUser` keeps the user side, including the bound of count by list. |
| StoreSteps.WritingAddedKeepsContentOk | authentiwrite/lib/db/database.ts:202 | Storing a writing under a fresh id keeps the listing. |
| StoreSteps.WritingReplacedKeepsContentOk | authentiwrite/lib/db/database.ts:234 | Storing a record back under a known id keeps the listing. |
| StoreSteps.WritingRemovedKeepsContentOk | authentiwrite/lib/db/database.ts:242 | Deleting a writing keeps the listing. |
| StoreSteps.CommentAddedKeepsContentOk | authentiwrite/lib/db/database.ts:313 | Storing a comment under a fresh id keeps the comment listing. |

## Left out

- `generateHash` (SHA-256 of the content and `Date.now()`) is a foreign call. `CreateWriting` takes the legal hash as a parameter and carries it unchanged.
- `uuidv4()` is replaced by a counter. Fresh ids are distinct from every id drawn before; uuid collisions and the string form of ids are not modelled.
- `new Date().toISOString()` and the `Date` parsing in the following feed are replaced by natural-number timestamps. The current time is a parameter.
- The floating-point `totalEarnings = totalViews * 0.1` is kept as integer tenths of a dollar, so rounding is not modelled.
- JavaScript numbers are modelled as unbounded naturals: counters never lose precision or overflow.
- The sample data seeded by the constructor (`initializeSampleData`) is left out, and the store starts empty. That data is not self-consistent: 1250 views stand beside earnings of 125.50 rather than 125.00.
- The module-level singleton `db` and all HTTP route handlers are not part of this model.
- Getters and mutators hand out and edit the stored JavaScript objects in place. The model uses values: a caller mutating a returned object, and so changing the store through an alias, is not modelled.
- `updateWriting` takes `Partial<Writing>`. It is modelled as one optional value per field. A key present with the value `undefined`, and keys that are not fields of a writing, are not modelled.
- The index lookups test the stored id for truthiness. Ids are never empty, so the test always passes and the model does not repeat it.
- Store.Database.GetFollowingFeed: the limit-driven length is stated for `limit >= 0` only. `Queries.FollowingFeed` also states it for negative limits.
- Store.Database.GetTrendingWritings: the limit-driven length is stated for `limit >= 0` only. `Queries.Trending` also states it for negative limits.
- Store.Database.VoteWriting: the change in the author's total is not part of the method's `ensures`. `StoreSteps.UpvoteRescan` and `Votes.VoteChangesAuthorTotal` state it over the same rescan.
