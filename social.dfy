/** The follow graph kept on the user records: each user lists whom it
    follows (`following`) and who follows it (`followers`), and the
    analytics record of a user counts its followers (`followersCount`). */
module Social {
  import opened Types
  import opened Seqs

  /** `x` follows `y`, read off `x`'s own `following` list. */
  ghost predicate Follows(users: map<Id, User>, x: Id, y: Id) {
    x in users && y in users[x].following
  }

  /** What the store keeps true of one user record. */
  ghost predicate UserOk(users: map<Id, User>, x: Id)
    requires x in users
  {
    && users[x].id == x
    && NoDuplicates(users[x].following)
    && NoDuplicates(users[x].followers)
    && x !in users[x].following
  }

  /** Everyone `x` follows is a known user who lists `x` as a follower. */
  ghost predicate FollowingMirrored(users: map<Id, User>) {
    forall x, y {:trigger y in users[x].following} | x in users && y in users[x].following ::
      y in users && x in users[y].followers
  }

  /** Everyone listed as a follower of `x` is a known user who follows `x`. */
  ghost predicate FollowersMirrored(users: map<Id, User>) {
    forall x, y {:trigger y in users[x].followers} | x in users && y in users[x].followers ::
      y in users && x in users[y].following
  }

  /** The shape the store keeps: each user is stored under its id, lists
      only known users, lists each at most once, never follows itself, and
      the two lists mirror each other (`y` is in `x.following` exactly when
      `x` is in `y.followers`). */
  ghost predicate FollowGraph(users: map<Id, User>) {
    && (forall x | x in users :: UserOk(users, x))
    && FollowingMirrored(users)
    && FollowersMirrored(users)
  }

  /** The effect of a successful `followUser(a, b)`: `b` pushed onto
      `a.following`, then `a` pushed onto `b.followers`. */
  function Followed(users: map<Id, User>, a: Id, b: Id): map<Id, User>
    requires a in users && b in users
  {
    var u := users[a := users[a].(following := users[a].following + [b])];
    u[b := u[b].(followers := u[b].followers + [a])]
  }

  /** The effect of `unfollowUser(a, b)` on two known users: every `b`
      filtered out of `a.following`, then every `a` filtered out of
      `b.followers`. The second step reads the record the first one wrote,
      as the source does when `a` and `b` are the same object. */
  function Unfollowed(users: map<Id, User>, a: Id, b: Id): map<Id, User>
    requires a in users && b in users
  {
    var u := users[a := users[a].(following := RemoveAll(users[a].following, b))];
    u[b := u[b].(followers := RemoveAll(u[b].followers, a))]
  }

  /** Following touches only `a.following` and `b.followers`: every other
      field of every record stays. */
  lemma FollowedShape(users: map<Id, User>, a: Id, b: Id)
    requires a in users && b in users && a != b
    ensures Followed(users, a, b).Keys == users.Keys
    ensures forall x | x in users ::
      && Followed(users, a, b)[x].(following := users[x].following, followers := users[x].followers) == users[x]
      && Followed(users, a, b)[x].following ==
         (if x == a then users[a].following + [b] else users[x].following)
      && Followed(users, a, b)[x].followers ==
         (if x == b then users[b].followers + [a] else users[x].followers)
  {
  }

  /** Unfollowing touches only `a.following` and `b.followers`, also when
      `a` and `b` are the same user. */
  lemma UnfollowedShape(users: map<Id, User>, a: Id, b: Id)
    requires a in users && b in users
    ensures Unfollowed(users, a, b).Keys == users.Keys
    ensures forall x | x in users ::
      && Unfollowed(users, a, b)[x].(following := users[x].following, followers := users[x].followers) == users[x]
      && Unfollowed(users, a, b)[x].following ==
         (if x == a then RemoveAll(users[a].following, b) else users[x].following)
      && Unfollowed(users, a, b)[x].followers ==
         (if x == b then RemoveAll(users[b].followers, a) else users[x].followers)
  {
  }

  /** Following a user one does not follow yet keeps every record well
      formed: the pushed ids were absent from the lists they join. */
  lemma FollowedKeepsRecords(users: map<Id, User>, a: Id, b: Id)
    requires FollowGraph(users)
    requires a in users && b in users && a != b && !Follows(users, a, b)
    ensures forall x | x in Followed(users, a, b) :: UserOk(Followed(users, a, b), x)
  {
    var u := Followed(users, a, b);
    FollowedShape(users, a, b);
    assert a !in users[b].followers;
    forall x | x in u ensures UserOk(u, x) {
      assert UserOk(users, x);
      if x == a {
        AppendNoDuplicates(users[a].following, b);
      }
      if x == b {
        AppendNoDuplicates(users[b].followers, a);
      }
    }
  }

  /** Following keeps the two lists mirroring each other. */
  lemma FollowedKeepsMirrors(users: map<Id, User>, a: Id, b: Id)
    requires FollowGraph(users)
    requires a in users && b in users && a != b
    ensures FollowingMirrored(Followed(users, a, b)) && FollowersMirrored(Followed(users, a, b))
  {
    var u := Followed(users, a, b);
    FollowedShape(users, a, b);
    assert FollowingMirrored(u) by {
      forall x, y | x in u && y in u[x].following ensures y in u && x in u[y].followers {
        assert y in users[x].following || (x == a && y == b);
      }
    }
    assert FollowersMirrored(u) by {
      forall x, y | x in u && y in u[x].followers ensures y in u && x in u[y].following {
        assert y in users[x].followers || (x == b && y == a);
      }
    }
  }

  /** Following adds exactly the edge `a -> b`, keeps the graph well formed,
      and grows `b`'s follower list by one while every other follower list
      keeps its length. */
  lemma FollowedAddsEdge(users: map<Id, User>, a: Id, b: Id)
    requires FollowGraph(users)
    requires a in users && b in users && a != b && !Follows(users, a, b)
    ensures FollowGraph(Followed(users, a, b))
    ensures forall x, y :: Follows(Followed(users, a, b), x, y) <==> Follows(users, x, y) || (x == a && y == b)
    ensures Followed(users, a, b).Keys == users.Keys
    ensures |Followed(users, a, b)[b].followers| == |users[b].followers| + 1
    ensures forall x | x in users && x != b :: |Followed(users, a, b)[x].followers| == |users[x].followers|
  {
    FollowedKeepsRecords(users, a, b);
    FollowedKeepsMirrors(users, a, b);
    FollowedShape(users, a, b);
  }

  /** Unfollowing keeps the graph well formed, whether or not the edge
      `a -> b` existed and also when `a` and `b` are the same user. */
  lemma UnfollowedKeepsGraph(users: map<Id, User>, a: Id, b: Id)
    requires FollowGraph(users)
    requires a in users && b in users
    ensures FollowGraph(Unfollowed(users, a, b))
  {
    var u := Unfollowed(users, a, b);
    UnfollowedShape(users, a, b);
    forall x | x in u ensures UserOk(u, x) {
      assert UserOk(users, x);
      if x == a {
        RemoveAllNoDuplicates(users[a].following, b);
      }
      if x == b {
        RemoveAllNoDuplicates(users[b].followers, a);
      }
    }
    assert FollowingMirrored(u) by {
      forall x, y | x in u && y in u[x].following ensures y in u && x in u[y].followers {
        assert y in users[x].following && (x == a ==> y != b);
        assert x in users[y].followers;
        if y == b {
          assert u[y].followers == RemoveAll(users[b].followers, a);
        } else {
          assert u[y].followers == users[y].followers;
        }
      }
    }
    assert FollowersMirrored(u) by {
      forall x, y | x in u && y in u[x].followers ensures y in u && x in u[y].following {
        assert y in users[x].followers && (x == b ==> y != a);
        assert x in users[y].following;
        if y == a {
          assert u[y].following == RemoveAll(users[a].following, b);
        } else {
          assert u[y].following == users[y].following;
        }
      }
    }
  }

  /** Unfollowing removes exactly the edge `a -> b`, whether or not it
      existed, and shortens `b`'s follower list by one exactly when it
      existed; every other follower list keeps its length. */
  lemma UnfollowedRemovesEdge(users: map<Id, User>, a: Id, b: Id)
    requires FollowGraph(users)
    requires a in users && b in users
    ensures forall x, y :: Follows(Unfollowed(users, a, b), x, y) <==> Follows(users, x, y) && !(x == a && y == b)
    ensures |Unfollowed(users, a, b)[b].followers| ==
            |users[b].followers| - (if Follows(users, a, b) then 1 else 0)
    ensures forall x | x in users && x != b :: |Unfollowed(users, a, b)[x].followers| == |users[x].followers|
  {
    UnfollowedShape(users, a, b);
    assert UserOk(users, b);
    assert Follows(users, a, b) <==> a in users[b].followers;
    NoDuplicatesCount(users[b].followers, a);
  }

  /** Unfollowing a user one does not follow leaves every follow list as it
      was (the follower count is still decremented by the store). */
  lemma UnfollowedWithoutEdge(users: map<Id, User>, a: Id, b: Id)
    requires FollowGraph(users)
    requires a in users && b in users && !Follows(users, a, b)
    ensures Unfollowed(users, a, b) == users
  {
    assert a !in users[b].followers;
    UnfollowedAbsent(users, a, b);
  }

  /** Filtering out ids that are absent changes no record. */
  lemma UnfollowedAbsent(users: map<Id, User>, a: Id, b: Id)
    requires a in users && b in users
    requires b !in users[a].following && a !in users[b].followers
    ensures Unfollowed(users, a, b) == users
  {
    RemoveAbsent(users[a].following, b);
    RemoveAbsent(users[b].followers, a);
    assert users[a].(following := users[a].following) == users[a];
    var u := users[a := users[a]];
    assert u == users;
    assert u[b].(followers := u[b].followers) == u[b];
  }

  /** Registering a user with empty lists keeps the graph well formed and
      adds no edge. */
  lemma AddedUserKeepsGraph(users: map<Id, User>, u: User)
    requires FollowGraph(users)
    requires u.id !in users && u.following == [] && u.followers == []
    ensures FollowGraph(users[u.id := u])
    ensures forall x, y :: Follows(users[u.id := u], x, y) <==> Follows(users, x, y)
  {
    var v := users[u.id := u];
    forall x | x in v ensures UserOk(v, x) {
      if x != u.id {
        assert UserOk(users, x);
      }
    }
    assert FollowingMirrored(v) by {
      forall x, y | x in v && y in v[x].following ensures y in v && x in v[y].followers {
        assert x != u.id && y in users[x].following;
        assert y in users && y != u.id;
      }
    }
    assert FollowersMirrored(v) by {
      forall x, y | x in v && y in v[x].followers ensures y in v && x in v[y].following {
        assert x != u.id && y in users[x].followers;
        assert y in users && y != u.id;
      }
    }
  }
}
