/** One lemma per kind of change the store makes, each saying that the
    change keeps the invariants of `StoreInvariants`. */
module StoreSteps {
  import opened Types
  import opened Seqs
  import Social
  import Votes
  import opened StoreInvariants
  import opened Counters

  lemma UsersOkLater(users: map<Id, User>, analytics: map<Id, Analytics>,
                     g: map<string, Id>, e: map<string, Id>, n: nat, n': nat)
    requires UsersOk(users, analytics, g, e, n) && n <= n'
    ensures UsersOk(users, analytics, g, e, n')
  {
  }

  /** Registering a new user with the largest id so far points the key at it
      and keeps the index valid. */
  lemma RegisterKeepsIndex(index: map<string, Id>, users: map<Id, User>, k: IndexKey, u: User)
    requires IndexValid(index, users, k)
    requires u.id !in users && forall id | id in users :: id < u.id
    ensures IndexValid(index[KeyOf(u, k) := u.id], users[u.id := u], k)
  {
    var index', users' := index[KeyOf(u, k) := u.id], users[u.id := u];
    forall s | s in index' ensures index'[s] in users' && KeyOf(users'[index'[s]], k) == s {
      if s != KeyOf(u, k) {
        assert index[s] in users && index[s] != u.id;
      }
    }
    forall id | id in users' ensures KeyOf(users'[id], k) in index' {
      if id != u.id {
        assert users'[id] == users[id];
      }
    }
    forall id, s | id in users' && s in index' && KeyOf(users'[id], k) == s ensures id <= index'[s] {
      if id != u.id && s != KeyOf(u, k) {
        assert users'[id] == users[id];
      }
    }
  }

  /** Rewriting users' follow lists leaves both indexes valid. */
  lemma SameKeysKeepIndex(index: map<string, Id>, users: map<Id, User>, users': map<Id, User>, k: IndexKey)
    requires IndexValid(index, users, k)
    requires users'.Keys == users.Keys
    requires forall x | x in users :: users'[x].govId == users[x].govId && users'[x].email == users[x].email
    ensures IndexValid(index, users', k)
  {
    assert forall x | x in users :: KeyOf(users'[x], k) == KeyOf(users[x], k);
  }

  /** `createUser` keeps the user side well formed. */
  lemma RegisterKeepsUsersOk(users: map<Id, User>, analytics: map<Id, Analytics>,
                             g: map<string, Id>, e: map<string, Id>, n: nat, u: User)
    requires UsersOk(users, analytics, g, e, n)
    requires u.id == n && u.following == [] && u.followers == []
    ensures UsersOk(users[u.id := u], analytics[u.id := Analytics(u.id, 0, 0, 0, 0, 0, 0)],
                    g[u.govId := u.id], e[u.email := u.id], n + 1)
  {
    Social.AddedUserKeepsGraph(users, u);
    RegisterKeepsIndex(g, users, GovIdKey, u);
    RegisterKeepsIndex(e, users, EmailKey, u);
  }

  /** An edit of one analytics record that leaves the follower count alone
      keeps the user side. */
  lemma CounterEditKeepsUsersOk(users: map<Id, User>, analytics: map<Id, Analytics>,
                                g: map<string, Id>, e: map<string, Id>, n: nat, a: Id, edit: CounterEdit)
    requires UsersOk(users, analytics, g, e, n) && !TouchesFollowers(edit)
    ensures UsersOk(users, Edited(analytics, a, edit), g, e, n)
  {
  }

  /** Rewriting follow lists into another well-formed graph keeps the user
      side, together with a follower-count edit for `b` that stays within
      `b`'s new list, provided no other user's follower list changes
      length. */
  lemma FollowListsEditKeepsUsersOk(users: map<Id, User>, analytics: map<Id, Analytics>,
                                    g: map<string, Id>, e: map<string, Id>, n: nat,
                                    users': map<Id, User>, b: Id, edit: CounterEdit)
    requires UsersOk(users, analytics, g, e, n)
    requires Social.FollowGraph(users') && users'.Keys == users.Keys
    requires forall x | x in users :: users'[x].govId == users[x].govId && users'[x].email == users[x].email
    requires forall x | x in users && x != b :: |users'[x].followers| == |users[x].followers|
    requires b in users && b in analytics
    requires ApplyEdit(analytics[b], edit).followersCount <= |users'[b].followers|
    ensures UsersOk(users', Edited(analytics, b, edit), g, e, n)
  {
    SameKeysKeepIndex(g, users, users', GovIdKey);
    SameKeysKeepIndex(e, users, users', EmailKey);
    var analytics' := Edited(analytics, b, edit);
    forall x | x in users' ensures x in analytics' && analytics'[x].followersCount <= |users'[x].followers| {
      assert x in users && x in analytics;
    }
  }

  /** `followUser` on a new edge keeps the user side: the target's follower
      list and count both grow by one. */
  lemma FollowKeepsUsersOk(users: map<Id, User>, analytics: map<Id, Analytics>,
                           g: map<string, Id>, e: map<string, Id>, n: nat, a: Id, b: Id)
    requires UsersOk(users, analytics, g, e, n)
    requires a in users && b in users && a != b && !Social.Follows(users, a, b)
    ensures UsersOk(Social.Followed(users, a, b), Edited(analytics, b, AddFollower), g, e, n)
  {
    Social.FollowedAddsEdge(users, a, b);
    Social.FollowedShape(users, a, b);
    assert b in analytics;
    FollowListsEditKeepsUsersOk(users, analytics, g, e, n, Social.Followed(users, a, b), b, AddFollower);
  }

  /** `unfollowUser` keeps the user side: the follower count is floored at
      zero and drops by one, while the list shrinks by at most one. */
  lemma UnfollowKeepsUsersOk(users: map<Id, User>, analytics: map<Id, Analytics>,
                             g: map<string, Id>, e: map<string, Id>, n: nat, a: Id, b: Id)
    requires UsersOk(users, analytics, g, e, n)
    requires a in users && b in users
    ensures UsersOk(Social.Unfollowed(users, a, b), Edited(analytics, b, RemoveFollower), g, e, n)
  {
    Social.UnfollowedKeepsGraph(users, a, b);
    Social.UnfollowedRemovesEdge(users, a, b);
    Social.UnfollowedShape(users, a, b);
    assert b in analytics;
    FollowListsEditKeepsUsersOk(users, analytics, g, e, n, Social.Unfollowed(users, a, b), b, RemoveFollower);
  }

  lemma ContentOkLater(writings: map<Id, Writing>, order: seq<Id>,
                       comments: map<Id, Comment>, commentOrder: seq<Id>, n: nat, n': nat)
    requires ContentOk(writings, order, comments, commentOrder, n) && n <= n'
    ensures ContentOk(writings, order, comments, commentOrder, n')
  {
  }

  /** `createWriting` appends a fresh id to the insertion order. */
  lemma WritingAddedKeepsContentOk(writings: map<Id, Writing>, order: seq<Id>,
                                   comments: map<Id, Comment>, commentOrder: seq<Id>, n: nat, w: Writing)
    requires ContentOk(writings, order, comments, commentOrder, n)
    ensures n !in writings
    ensures ContentOk(writings[n := w], order + [n], comments, commentOrder, n + 1)
  {
    AppendNoDuplicates(order, n);
  }

  /** Storing a record back under a known id keeps the listing. */
  lemma WritingReplacedKeepsContentOk(writings: map<Id, Writing>, order: seq<Id>,
                                      comments: map<Id, Comment>, commentOrder: seq<Id>, n: nat, id: Id, w: Writing)
    requires ContentOk(writings, order, comments, commentOrder, n) && id in writings
    ensures ContentOk(writings[id := w], order, comments, commentOrder, n)
  {
  }

  /** The rescan `voteWriting` runs after an up-vote by `u` on writing `id`
      finds the author's previous total, less the up-votes `u` already had
      on that writing, plus one. */
  lemma UpvoteRescan(writings: map<Id, Writing>, order: seq<Id>, id: Id, u: Id)
    requires Listing(order, writings) && id in writings
    ensures Votes.AuthorUpvotes(InOrder(order, writings[id := Votes.ApplyVote(writings[id], u, Votes.Up)]),
                                writings[id].authorId) ==
            Votes.AuthorUpvotes(InOrder(order, writings), writings[id].authorId)
              - multiset(writings[id].upvotes)[u] + 1
  {
    var i :| 0 <= i < |order| && order[i] == id;
    InOrderUpdate(order, writings, i, Votes.ApplyVote(writings[id], u, Votes.Up));
    Votes.VoteChangesAuthorTotal(InOrder(order, writings), i, u, Votes.Up, writings[id].authorId);
  }

  /** `deleteWriting` drops the id from the map and the insertion order. */
  lemma WritingRemovedKeepsContentOk(writings: map<Id, Writing>, order: seq<Id>,
                                     comments: map<Id, Comment>, commentOrder: seq<Id>, n: nat, id: Id)
    requires ContentOk(writings, order, comments, commentOrder, n)
    ensures ContentOk(writings - {id}, RemoveAll(order, id), comments, commentOrder, n)
  {
    RemoveAllNoDuplicates(order, id);
  }

  /** `createComment` appends a fresh id to the comment order. */
  lemma CommentAddedKeepsContentOk(writings: map<Id, Writing>, order: seq<Id>,
                                   comments: map<Id, Comment>, commentOrder: seq<Id>, n: nat, c: Comment)
    requires ContentOk(writings, order, comments, commentOrder, n) && c.id == n
    ensures n !in comments
    ensures ContentOk(writings, order, comments[n := c], commentOrder + [n], n + 1)
  {
    AppendNoDuplicates(commentOrder, n);
  }
}
