/** The in-memory `Database`: six maps (users, writings, comments, analytics
    and the government-id and email indexes) that every mutator updates in
    place, keeping the follow lists, the vote lists and the per-author
    analytics in step. The insertion order of the writing and comment maps,
    which JavaScript's `Map` iterates in, is kept as a list of ids. */
module Store {
  import opened Types
  import opened Seqs
  import Social
  import Votes
  import Edits
  import Ranking
  import Queries
  import opened Counters
  import opened StoreInvariants
  import opened StoreSteps

  class Database {
    var users: map<Id, User>
    var writings: map<Id, Writing>
    var order: seq<Id>
    var comments: map<Id, Comment>
    var commentOrder: seq<Id>
    var analytics: map<Id, Analytics>
    var govIdToUserId: map<string, Id>
    var emailToUserId: map<string, Id>
    /** Source of fresh ids, standing for `uuidv4()`. */
    var nextId: nat

    ghost predicate Valid()
      reads this
    {
      && UsersOk(users, analytics, govIdToUserId, emailToUserId, nextId)
      && ContentOk(writings, order, comments, commentOrder, nextId)
    }

    /** An empty store (the sample data the source seeds is not modelled). */
    constructor ()
      ensures Valid()
      ensures users == map[] && writings == map[] && comments == map[] && analytics == map[]
      ensures order == [] && commentOrder == []
    {
      users, writings, comments, analytics := map[], map[], map[], map[];
      order, commentOrder := [], [];
      govIdToUserId, emailToUserId := map[], map[];
      nextId := 0;
    }

    /** `Array.from(this.writings.values())`. */
    function Writings(): (r: seq<Writing>)
      reads this
      requires Valid()
      ensures |r| == |order|
      ensures forall i | 0 <= i < |order| :: r[i] == writings[order[i]]
      ensures forall w :: w in r <==> w in writings.Values
    {
      InOrderValues(order, writings);
      InOrder(order, writings)
    }

    /** `Array.from(this.comments.values())`. */
    function Comments(): (r: seq<Comment>)
      reads this
      requires Valid()
      ensures |r| == |commentOrder|
      ensures forall i | 0 <= i < |commentOrder| :: r[i] == comments[commentOrder[i]]
      ensures forall c :: c in r <==> c in comments.Values
    {
      InOrderValues(commentOrder, comments);
      InOrder(commentOrder, comments)
    }

    // ----- User operations -----

    function GetUserById(id: Id): (r: Option<User>)
      reads this
      requires Valid()
      ensures r.Some? <==> id in users
      ensures r.Some? ==> r.value.id == id && r.value in users.Values
    {
      if id in users then Some(users[id]) else None
    }

    /** `getUserByGovId`: the newest registered user with that government id. */
    function GetUserByGovId(govId: string): (r: Option<User>)
      reads this
      requires Valid()
      ensures r.Some? <==> exists id :: id in users && users[id].govId == govId
      ensures r.Some? ==> r.value.govId == govId && r.value.id in users && users[r.value.id] == r.value
      ensures r.Some? ==> forall id | id in users && users[id].govId == govId :: id <= r.value.id
    {
      IndexFacts(govIdToUserId, users, GovIdKey, govId);
      if govId in govIdToUserId then Some(users[govIdToUserId[govId]]) else None
    }

    /** `getUserByEmail`: the newest registered user with that email. */
    function GetUserByEmail(email: string): (r: Option<User>)
      reads this
      requires Valid()
      ensures r.Some? <==> exists id :: id in users && users[id].email == email
      ensures r.Some? ==> r.value.email == email && r.value.id in users && users[r.value.id] == r.value
      ensures r.Some? ==> forall id | id in users && users[id].email == email :: id <= r.value.id
    {
      IndexFacts(emailToUserId, users, EmailKey, email);
      if email in emailToUserId then Some(users[emailToUserId[email]]) else None
    }

    /** `createUser`: a fresh id, empty follow lists, both indexes pointed at
      the new user and a zeroed analytics record. Duplicate government ids
      or emails are not rejected here; the newer user takes the index over. */
    method CreateUser(data: UserData, now: Timestamp) returns (u: User)
      requires Valid()
      modifies this`users, this`govIdToUserId, this`emailToUserId, this`analytics, this`nextId
      ensures Valid()
      ensures u == User(old(nextId), data.govId, data.email, data.name, data.verified,
                        data.bio, data.avatar, [], [], now)
      ensures u.id !in old(users) && nextId == old(nextId) + 1
      ensures users == old(users)[u.id := u]
      ensures analytics == old(analytics)[u.id := Analytics(u.id, 0, 0, 0, 0, 0, 0)]
      ensures govIdToUserId == old(govIdToUserId)[data.govId := u.id]
      ensures emailToUserId == old(emailToUserId)[data.email := u.id]
      ensures forall x, y :: Social.Follows(users, x, y) <==> Social.Follows(old(users), x, y)
    {
      u := User(nextId, data.govId, data.email, data.name, data.verified, data.bio, data.avatar, [], [], now);
      RegisterKeepsUsersOk(users, analytics, govIdToUserId, emailToUserId, nextId, u);
      ContentOkLater(writings, order, comments, commentOrder, nextId, nextId + 1);
      Social.AddedUserKeepsGraph(users, u);
      users, govIdToUserId, emailToUserId, analytics, nextId :=
        users[u.id := u], govIdToUserId[u.govId := u.id], emailToUserId[u.email := u.id],
        analytics[u.id := Analytics(u.id, 0, 0, 0, 0, 0, 0)], nextId + 1;
    }

    /** `followUser`: refused (false, nothing changes) for an unknown user,
      for following oneself and for an existing relationship; otherwise
      adds the edge on both lists and raises the target's follower count
      by one, so a repeated call is refused. */
    method FollowUser(followerId: Id, followingId: Id) returns (ok: bool)
      requires Valid()
      modifies this`users, this`analytics
      ensures Valid()
      ensures ok == (followerId in old(users) && followingId in old(users) &&
                     followerId != followingId && !Social.Follows(old(users), followerId, followingId))
      ensures ok ==> users == Social.Followed(old(users), followerId, followingId)
      ensures ok ==> analytics == Edited(old(analytics), followingId, AddFollower)
      ensures !ok ==> users == old(users) && analytics == old(analytics)
      ensures ok ==> Social.Follows(users, followerId, followingId)
    {
      if followerId !in users || followingId !in users || followerId == followingId {
        return false;
      }
      if followingId in users[followerId].following {
        return false;
      }
      FollowKeepsUsersOk(users, analytics, govIdToUserId, emailToUserId, nextId, followerId, followingId);
      users, analytics := Social.Followed(users, followerId, followingId), Edited(analytics, followingId, AddFollower);
      ok := true;
    }

    /** `unfollowUser`: refused for an unknown user; otherwise removes every
      occurrence of the edge from both lists and decrements the target's
      follower count floored at zero, whether or not the edge existed. */
    method UnfollowUser(followerId: Id, followingId: Id) returns (ok: bool)
      requires Valid()
      modifies this`users, this`analytics
      ensures Valid()
      ensures ok == (followerId in old(users) && followingId in old(users))
      ensures ok ==> users == Social.Unfollowed(old(users), followerId, followingId)
      ensures ok ==> analytics == Edited(old(analytics), followingId, RemoveFollower)
      ensures !ok ==> users == old(users) && analytics == old(analytics)
    {
      if followerId !in users || followingId !in users {
        return false;
      }
      UnfollowKeepsUsersOk(users, analytics, govIdToUserId, emailToUserId, nextId, followerId, followingId);
      users, analytics := Social.Unfollowed(users, followerId, followingId), Edited(analytics, followingId, RemoveFollower);
      ok := true;
    }

    // ----- Writing operations -----

    /** `createWriting`: a fresh id, both timestamps set to `now`, zeroed
      counters and vote lists, the legal hash given by the caller (taken
      once, at creation), appended to the insertion order; the author's
      writing count rises by one when the author has analytics. */
    method CreateWriting(data: WritingData, now: Timestamp, legalHash: string) returns (w: Writing)
      requires Valid()
      modifies this`writings, this`order, this`analytics, this`nextId
      ensures Valid()
      ensures w == Writing(old(nextId), data.authorId, data.title, data.content, data.template,
                           data.isPublic, now, now, data.background, data.fontFamily,
                           data.colorGrade, data.images, data.links, 0, [], [], 0, legalHash)
      ensures w.id !in old(writings) && nextId == old(nextId) + 1
      ensures writings == old(writings)[w.id := w] && order == old(order) + [w.id]
      ensures analytics == Edited(old(analytics), data.authorId, AddWriting)
    {
      w := Writing(nextId, data.authorId, data.title, data.content, data.template, data.isPublic,
                   now, now, data.background, data.fontFamily, data.colorGrade, data.images,
                   data.links, 0, [], [], 0, legalHash);
      WritingAddedKeepsContentOk(writings, order, comments, commentOrder, nextId, w);
      UsersOkLater(users, analytics, govIdToUserId, emailToUserId, nextId, nextId + 1);
      CounterEditKeepsUsersOk(users, analytics, govIdToUserId, emailToUserId, nextId + 1, data.authorId, AddWriting);
      writings, order, analytics, nextId :=
        writings[w.id := w], order + [w.id], Edited(analytics, data.authorId, AddWriting), nextId + 1;
    }

    function GetWritingById(id: Id): (r: Option<Writing>)
      reads this
      requires Valid()
      ensures r.Some? <==> id in writings
      ensures r.Some? ==> r.value == writings[id]
    {
      if id in writings then Some(writings[id]) else None
    }

    /** `getWritingsByAuthor`: every stored writing by that author, in
      insertion order. */
    function GetWritingsByAuthor(authorId: Id): (r: seq<Writing>)
      reads this
      requires Valid()
      ensures forall w :: w in r <==> w in writings.Values && w.authorId == authorId
      ensures forall w: Writing | w.authorId == authorId :: multiset(r)[w] == multiset(Writings())[w]
    {
      Queries.ByAuthor(Writings(), authorId)
    }

    /** `getPublicWritings`: every stored public writing, in insertion order. */
    function GetPublicWritings(): (r: seq<Writing>)
      reads this
      requires Valid()
      ensures forall w :: w in r <==> w in writings.Values && w.isPublic
      ensures forall w: Writing | w.isPublic :: multiset(r)[w] == multiset(Writings())[w]
    {
      Queries.PublicOnly(Writings())
    }

    /** `updateWriting`: unknown id gives `None` and no change; otherwise the
      supplied fields are spread over the record (any field, `id`,
      `authorId` and `legalHash` included) with `lastModified` forced to
      `now`, the record is stored back under the same id and keeps its
      place in the insertion order. */
    method UpdateWriting(id: Id, updates: Edits.WritingUpdate, now: Timestamp) returns (r: Option<Writing>)
      requires Valid()
      modifies this`writings
      ensures Valid()
      ensures r.Some? <==> id in old(writings)
      ensures r.Some? ==> r.value == Edits.Merge(old(writings)[id], updates, now)
      ensures r.Some? ==> writings == old(writings)[id := r.value]
      ensures r.None? ==> writings == old(writings)
    {
      if id !in writings {
        return None;
      }
      var updated := Edits.Merge(writings[id], updates, now);
      WritingReplacedKeepsContentOk(writings, order, comments, commentOrder, nextId, id, updated);
      writings := writings[id := updated];
      r := Some(updated);
    }

    /** `deleteWriting`: false for an unknown id, with no change; otherwise
      removes exactly that writing from the map and the insertion order
      and lowers the author's writing count, floored at zero. */
    method DeleteWriting(id: Id) returns (ok: bool)
      requires Valid()
      modifies this`writings, this`order, this`analytics
      ensures Valid()
      ensures ok == (id in old(writings))
      ensures ok ==> writings == old(writings) - {id} && order == RemoveAll(old(order), id)
      ensures ok ==> analytics == Edited(old(analytics), old(writings)[id].authorId, RemoveWriting)
      ensures !ok ==> writings == old(writings) && order == old(order) && analytics == old(analytics)
    {
      if id !in writings {
        return false;
      }
      var a := writings[id].authorId;
      WritingRemovedKeepsContentOk(writings, order, comments, commentOrder, nextId, id);
      CounterEditKeepsUsersOk(users, analytics, govIdToUserId, emailToUserId, nextId, a, RemoveWriting);
      writings, order, analytics := writings - {id}, RemoveAll(order, id), Edited(analytics, a, RemoveWriting);
      ok := true;
    }

    /** `voteWriting`: false for an unknown writing, with no change;
      otherwise the voter's earlier votes on it are dropped and the new one
      recorded. An up-vote then recomputes the author's `totalUpvotes` by a
      rescan of all the author's writings; a down-vote leaves the analytics
      as they were, so the total can go stale. */
    method VoteWriting(id: Id, userId: Id, kind: Votes.VoteType) returns (ok: bool)
      requires Valid()
      modifies this`writings, this`analytics
      ensures Valid()
      ensures ok == (id in old(writings))
      ensures ok ==> writings == old(writings)[id := Votes.ApplyVote(old(writings)[id], userId, kind)]
      ensures ok && kind == Votes.Up ==>
                analytics == Edited(old(analytics), old(writings)[id].authorId,
                                    SetUpvotes(Votes.AuthorUpvotes(InOrder(order, writings), old(writings)[id].authorId)))
      ensures ok && kind == Votes.Down ==> analytics == old(analytics)
      ensures !ok ==> writings == old(writings) && analytics == old(analytics)
    {
      if id !in writings {
        return false;
      }
      var w := writings[id];
      var a := w.authorId;
      var voted := Votes.ApplyVote(w, userId, kind);
      WritingReplacedKeepsContentOk(writings, order, comments, commentOrder, nextId, id, voted);
      if kind == Votes.Up {
        var total := Votes.AuthorUpvotes(InOrder(order, writings[id := voted]), a);
        CounterEditKeepsUsersOk(users, analytics, govIdToUserId, emailToUserId, nextId, a, SetUpvotes(total));
        writings, analytics := writings[id := voted], Edited(analytics, a, SetUpvotes(total));
      } else {
        writings := writings[id := voted];
      }
      ok := true;
    }

    /** `incrementViews`: no change for an unknown id; otherwise one more
      view on the writing and on the author's total, and the author's
      earnings reassigned to $0.10 per total view. */
    method IncrementViews(id: Id)
      requires Valid()
      modifies this`writings, this`analytics
      ensures Valid()
      ensures id !in old(writings) ==> writings == old(writings) && analytics == old(analytics)
      ensures id in old(writings) ==>
                writings == old(writings)[id := old(writings)[id].(views := old(writings)[id].views + 1)]
      ensures id in old(writings) ==> analytics == Edited(old(analytics), old(writings)[id].authorId, AddView)
    {
      if id in writings {
        var w := writings[id];
        WritingReplacedKeepsContentOk(writings, order, comments, commentOrder, nextId, id, w.(views := w.views + 1));
        CounterEditKeepsUsersOk(users, analytics, govIdToUserId, emailToUserId, nextId, w.authorId, AddView);
        writings, analytics := writings[id := w.(views := w.views + 1)], Edited(analytics, w.authorId, AddView);
      }
    }

    /** `incrementShares`: no change for an unknown id; otherwise one more
      share on the writing and on the author's total. */
    method IncrementShares(id: Id)
      requires Valid()
      modifies this`writings, this`analytics
      ensures Valid()
      ensures id !in old(writings) ==> writings == old(writings) && analytics == old(analytics)
      ensures id in old(writings) ==>
                writings == old(writings)[id := old(writings)[id].(shares := old(writings)[id].shares + 1)]
      ensures id in old(writings) ==> analytics == Edited(old(analytics), old(writings)[id].authorId, AddShare)
    {
      if id in writings {
        var w := writings[id];
        WritingReplacedKeepsContentOk(writings, order, comments, commentOrder, nextId, id, w.(shares := w.shares + 1));
        CounterEditKeepsUsersOk(users, analytics, govIdToUserId, emailToUserId, nextId, w.authorId, AddShare);
        writings, analytics := writings[id := w.(shares := w.shares + 1)], Edited(analytics, w.authorId, AddShare);
      }
    }

    // ----- Comment operations -----

    /** `createComment`: a fresh id and the time `now`; neither the writing
      nor the author is checked to exist. */
    method CreateComment(data: CommentData, now: Timestamp) returns (c: Comment)
      requires Valid()
      modifies this`comments, this`commentOrder, this`nextId
      ensures Valid()
      ensures c == Comment(old(nextId), data.writingId, data.authorId, data.content, now)
      ensures c.id !in old(comments) && nextId == old(nextId) + 1
      ensures comments == old(comments)[c.id := c] && commentOrder == old(commentOrder) + [c.id]
    {
      c := Comment(nextId, data.writingId, data.authorId, data.content, now);
      CommentAddedKeepsContentOk(writings, order, comments, commentOrder, nextId, c);
      UsersOkLater(users, analytics, govIdToUserId, emailToUserId, nextId, nextId + 1);
      comments, commentOrder, nextId := comments[c.id := c], commentOrder + [c.id], nextId + 1;
    }

    /** `getCommentsByWriting`: every comment on that writing, in creation
      order. */
    function GetCommentsByWriting(writingId: Id): (r: seq<Comment>)
      reads this
      requires Valid()
      ensures forall c :: c in r <==> c in comments.Values && c.writingId == writingId
      ensures forall c: Comment | c.writingId == writingId :: multiset(r)[c] == multiset(Comments())[c]
    {
      Queries.OnWriting(Comments(), writingId)
    }

    // ----- Analytics and feeds -----

    /** `getAnalytics`: every known user has a record, and only they do. */
    function GetAnalytics(userId: Id): (r: Option<Analytics>)
      reads this
      requires Valid()
      ensures r.Some? <==> userId in users
      ensures r.Some? ==> r.value == analytics[userId] && r.value.userId == userId
    {
      if userId in analytics then Some(analytics[userId]) else None
    }

    /** `getTrendingWritings(limit = 10)`: stored public writings, highest score
      first, equal scores in insertion order, at most `limit` of them, and
      no public writing left out scores above one listed. */
    function GetTrendingWritings(limit: int := 10): (r: seq<Writing>)
      reads this
      requires Valid()
      ensures forall i | 0 <= i < |r| :: r[i].isPublic && r[i] in writings.Values
      ensures Ranking.SortedDesc(r, Queries.Score)
      ensures limit >= 0 ==> |r| == if limit < |Queries.PublicOnly(Writings())| then limit
                                    else |Queries.PublicOnly(Writings())|
      ensures forall w, i | w in writings.Values && w.isPublic && w !in r && 0 <= i < |r| ::
                Queries.Score(r[i]) >= Queries.Score(w)
      ensures forall k :: Ranking.TieClass(r, Queries.Score, k) <=
                            Ranking.TieClass(Queries.PublicOnly(Writings()), Queries.Score, k)
    {
      Queries.Trending(Writings(), limit)
    }

    /** `getFollowingFeed(userId, limit = 20)`: empty for an unknown user;
      otherwise public writings by authors the user follows, newest first,
      at most `limit` of them, and none left out is newer than one listed. */
    function GetFollowingFeed(userId: Id, limit: int := 20): (r: seq<Writing>)
      reads this
      requires Valid()
      ensures userId !in users ==> r == []
      ensures forall i | 0 <= i < |r| ::
                r[i].isPublic && Social.Follows(users, userId, r[i].authorId) && r[i] in writings.Values
      ensures Ranking.SortedDesc(r, Queries.Recency)
      ensures userId in users && limit >= 0 ==>
                |r| == if limit < |Queries.FromFollowed(Writings(), users[userId].following)| then limit
                       else |Queries.FromFollowed(Writings(), users[userId].following)|
      ensures forall w, i | w in writings.Values && w.isPublic && Social.Follows(users, userId, w.authorId) &&
                            w !in r && 0 <= i < |r| ::
                Queries.Recency(r[i]) >= Queries.Recency(w)
      ensures userId in users ==>
                forall k :: Ranking.TieClass(r, Queries.Recency, k) <=
                            Ranking.TieClass(Queries.FromFollowed(Writings(), users[userId].following), Queries.Recency, k)
    {
      if userId !in users then []
      else Queries.FollowingFeed(Writings(), users[userId].following, limit)
    }
  }
}
