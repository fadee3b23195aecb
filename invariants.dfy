/** What the store keeps true between operations, stated on the values of
    its fields. */
module StoreInvariants {
  import opened Types
  import opened Seqs
  import Social

  /** Which secondary index: government id or email. */
  datatype IndexKey = GovIdKey | EmailKey

  function KeyOf(u: User, k: IndexKey): string {
    match k
    case GovIdKey => u.govId
    case EmailKey => u.email
  }

  /** An index sends each key to a known user carrying that key, and every
      user's key is indexed, to the newest user (largest id) carrying it:
      registering a duplicate key takes the index over. */
  ghost predicate IndexValid(index: map<string, Id>, users: map<Id, User>, k: IndexKey) {
    && (forall s {:trigger index[s]} | s in index :: index[s] in users && KeyOf(users[index[s]], k) == s)
    && (forall id {:trigger KeyOf(users[id], k)} | id in users :: KeyOf(users[id], k) in index)
    && (forall id, s {:trigger KeyOf(users[id], k), index[s]} |
          id in users && s in index && KeyOf(users[id], k) == s :: id <= index[s])
  }

  /** What an index answers for one key, stated for the caller with a
      trigger on `users[id]`: safe to use for one index at a time. */
  lemma IndexFacts(index: map<string, Id>, users: map<Id, User>, k: IndexKey, key: string)
    requires IndexValid(index, users, k)
    ensures forall id {:trigger users[id]} | id in users && KeyOf(users[id], k) == key ::
              key in index && id <= index[key]
    ensures key in index ==> index[key] in users && KeyOf(users[index[key]], k) == key
  {
  }

  /** `ids` lists the keys of `m`, each once: the insertion order of a `Map`. */
  ghost predicate Listing<V>(ids: seq<Id>, m: map<Id, V>) {
    NoDuplicates(ids) && forall id :: id in ids <==> id in m
  }

  /** Every user has an analytics record whose follower count is at most the
      length of the user's follower list. (The count can fall below it:
      unfollowing a user one never followed still decrements the count.) */
  ghost predicate FollowerCountsBounded(users: map<Id, User>, analytics: map<Id, Analytics>) {
    forall x | x in users :: x in analytics && analytics[x].followersCount <= |users[x].followers|
  }

  /** The user side of the store: the follow graph, one analytics record
      per user (and none for anyone else), both indexes, and user ids all
      drawn below `nextId`. */
  ghost predicate UsersOk(users: map<Id, User>, analytics: map<Id, Analytics>,
                          govIndex: map<string, Id>, emailIndex: map<string, Id>, nextId: nat)
  {
    && Social.FollowGraph(users)
    && (forall x | x in analytics :: x in users && analytics[x].userId == x)
    && FollowerCountsBounded(users, analytics)
    && IndexValid(govIndex, users, GovIdKey)
    && IndexValid(emailIndex, users, EmailKey)
    && (forall id | id in users :: id < nextId)
  }

  /** The content side: writings and comments listed in insertion order,
      under ids already drawn. */
  ghost predicate ContentOk(writings: map<Id, Writing>, order: seq<Id>,
                            comments: map<Id, Comment>, commentOrder: seq<Id>, nextId: nat)
  {
    && Listing(order, writings)
    && Listing(commentOrder, comments)
    && (forall id | id in writings :: id < nextId)
    && (forall id | id in comments :: id < nextId)
  }
}
