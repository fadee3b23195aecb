/** The read-only pipelines of the store over its writings and comments
    (listed in `Map` insertion order): the filters behind
    `getWritingsByAuthor`, `getPublicWritings` and `getCommentsByWriting`,
    and the two ranked feeds. */
module Queries {
  import opened Types
  import opened Seqs
  import opened Ranking

  /** Trending score: views + 10 per up-vote + 5 per share. */
  function Score(w: Writing): int {
    w.views + |w.upvotes| * 10 + w.shares * 5
  }

  /** Creation time, the following feed's sort key. */
  function Recency(w: Writing): int {
    w.timestamp
  }

  predicate IsPublic(w: Writing) {
    w.isPublic
  }

  /** `writings.filter(w => w.authorId === a)`. */
  function ByAuthor(ws: seq<Writing>, a: Id): (r: seq<Writing>)
    ensures forall w :: w in r <==> w in ws && w.authorId == a
    ensures forall w: Writing | w.authorId == a :: multiset(r)[w] == multiset(ws)[w]
  {
    Filter(ws, (w: Writing) => w.authorId == a)
  }

  /** `writings.filter(w => w.isPublic)`. */
  function PublicOnly(ws: seq<Writing>): (r: seq<Writing>)
    ensures forall w :: w in r <==> w in ws && w.isPublic
    ensures forall w: Writing | w.isPublic :: multiset(r)[w] == multiset(ws)[w]
  {
    Filter(ws, IsPublic)
  }

  /** `comments.filter(c => c.writingId === id)`. */
  function OnWriting(cs: seq<Comment>, id: Id): (r: seq<Comment>)
    ensures forall c :: c in r <==> c in cs && c.writingId == id
    ensures forall c: Comment | c.writingId == id :: multiset(r)[c] == multiset(cs)[c]
  {
    Filter(cs, (c: Comment) => c.writingId == id)
  }

  /** `writings.filter(w => w.isPublic && following.includes(w.authorId))`. */
  function FromFollowed(ws: seq<Writing>, following: seq<Id>): (r: seq<Writing>)
    ensures forall w :: w in r <==> w in ws && w.isPublic && w.authorId in following
    ensures forall w: Writing | w.isPublic && w.authorId in following :: multiset(r)[w] == multiset(ws)[w]
  {
    Filter(ws, (w: Writing) => w.isPublic && w.authorId in following)
  }

  /** `getTrendingWritings(limit)` over the listed writings: public writings
      only, highest score first, equal scores in listing order, cut by
      `slice(0, limit)` (a negative limit drops that many from the end). */
  function Trending(ws: seq<Writing>, limit: int): (r: seq<Writing>)
    ensures forall i | 0 <= i < |r| :: r[i].isPublic && r[i] in ws
    ensures SortedDesc(r, Score)
    ensures limit >= 0 ==> |r| == if limit < |PublicOnly(ws)| then limit else |PublicOnly(ws)|
    ensures limit < 0 ==> |r| == if |PublicOnly(ws)| + limit > 0 then |PublicOnly(ws)| + limit else 0
    ensures forall w, i | w in ws && w.isPublic && w !in r && 0 <= i < |r| :: Score(r[i]) >= Score(w)
    ensures forall k :: TieClass(r, Score, k) <= TieClass(PublicOnly(ws), Score, k)
  {
    TopK(PublicOnly(ws), Score, limit)
  }

  /** `getFollowingFeed` for a known user whose `following` list is given:
      public writings by followed authors, newest first, ties in listing
      order, cut to `limit`. */
  function FollowingFeed(ws: seq<Writing>, following: seq<Id>, limit: int): (r: seq<Writing>)
    ensures forall i | 0 <= i < |r| :: r[i].isPublic && r[i].authorId in following && r[i] in ws
    ensures SortedDesc(r, Recency)
    ensures limit >= 0 ==> |r| == if limit < |FromFollowed(ws, following)| then limit else |FromFollowed(ws, following)|
    ensures limit < 0 ==> |r| == if |FromFollowed(ws, following)| + limit > 0 then |FromFollowed(ws, following)| + limit else 0
    ensures forall w, i | w in ws && w.isPublic && w.authorId in following && w !in r && 0 <= i < |r| ::
              Recency(r[i]) >= Recency(w)
    ensures forall k :: TieClass(r, Recency, k) <= TieClass(FromFollowed(ws, following), Recency, k)
  {
    TopK(FromFollowed(ws, following), Recency, limit)
  }

  /** With any positive limit the trending feed opens with a public writing
      of the highest score. */
  lemma TrendingLeads(ws: seq<Writing>, limit: int, w: Writing)
    requires limit >= 1 && w in ws && w.isPublic
    ensures |Trending(ws, limit)| >= 1
    ensures forall v | v in ws && v.isPublic :: Score(Trending(ws, limit)[0]) >= Score(v)
  {
    var r := Trending(ws, limit);
    assert w in PublicOnly(ws);
    forall v | v in ws && v.isPublic ensures Score(r[0]) >= Score(v) {
      if v in r {
        SortedHeadLeads(r, Score, v);
      }
    }
  }

  /** The head of a list sorted by descending key has the largest key. */
  lemma SortedHeadLeads<T>(r: seq<T>, key: T -> int, x: T)
    requires SortedDesc(r, key) && x in r
    ensures key(r[0]) >= key(x)
  {
    var j :| 0 <= j < |r| && r[j] == x;
    assert j == 0 || KeyAt(r, key, 0) >= KeyAt(r, key, j);
  }

  /** A writing with the higher score is listed first even when it was
      stored later. */
  lemma HigherScoreFirst(w1: Writing, w2: Writing)
    requires w1.isPublic && w2.isPublic && Score(w2) > Score(w1)
    ensures Trending([w1, w2], 1) == [w2]
  {
    TrendingLeads([w1, w2], 1, w2);
    var r := Trending([w1, w2], 1);
    assert r[0] in [w1, w2];
  }

  /** A tie class lists elements that all share its key. */
  lemma {:induction false} TieClassOfUniform<T>(s: seq<T>, key: T -> int, k: int)
    requires forall i | 0 <= i < |s| :: key(s[i]) == k
    ensures TieClass(s, key, k) == s
  {
    if s != [] {
      TieClassOfUniform(s[1..], key, k);
      assert s == [s[0]] + s[1..];
    }
  }

  /** When all public writings score the same, the trending feed lists them
      in store order. */
  lemma TiesKeepStoreOrder(ws: seq<Writing>, limit: int, k: int)
    requires forall w | w in ws && w.isPublic :: Score(w) == k
    ensures Trending(ws, limit) <= PublicOnly(ws)
  {
    var p := PublicOnly(ws);
    var r := Trending(ws, limit);
    assert forall i | 0 <= i < |p| :: p[i] in p;
    TieClassOfUniform(p, Score, k);
    TieClassOfUniform(r, Score, k);
  }
}
