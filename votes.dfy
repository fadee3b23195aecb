/** Voting on a writing and the author's up-vote total that `voteWriting`
    recomputes by a full rescan of the store. */
module Votes {
  import opened Types
  import opened Seqs

  datatype VoteType = Up | Down

  /** The edit `voteWriting` makes to the writing: every earlier vote by `u`
      is filtered out of both lists, then `u` is pushed onto the chosen one. */
  function ApplyVote(w: Writing, u: Id, kind: VoteType): (r: Writing)
    ensures kind == Up ==> multiset(r.upvotes)[u] == 1 && u !in r.downvotes
    ensures kind == Down ==> multiset(r.downvotes)[u] == 1 && u !in r.upvotes
    ensures forall v | v != u ::
              multiset(r.upvotes)[v] == multiset(w.upvotes)[v] &&
              multiset(r.downvotes)[v] == multiset(w.downvotes)[v]
    ensures r.(upvotes := w.upvotes, downvotes := w.downvotes) == w
  {
    var cleared := w.(upvotes := RemoveAll(w.upvotes, u), downvotes := RemoveAll(w.downvotes, u));
    if kind == Up then cleared.(upvotes := cleared.upvotes + [u])
    else cleared.(downvotes := cleared.downvotes + [u])
  }

  /** Only the last vote a user casts on a writing matters: voting again
      with the same kind changes nothing, and switching leaves exactly the
      new vote. */
  lemma LastVoteWins(w: Writing, u: Id, first: VoteType, second: VoteType)
    ensures ApplyVote(ApplyVote(w, u, first), u, second) == ApplyVote(w, u, second)
  {
    ClearTwice(w.upvotes, u);
    ClearTwice(w.downvotes, u);
    var once := ApplyVote(w, u, first);
    assert RemoveAll(once.upvotes, u) == RemoveAll(w.upvotes, u);
    assert RemoveAll(once.downvotes, u) == RemoveAll(w.downvotes, u);
  }

  /** Filtering `u` out again, with or without a vote by `u` pushed in
      between, gives what the first filtering gave. */
  lemma ClearTwice(s: seq<Id>, u: Id)
    ensures RemoveAll(RemoveAll(s, u), u) == RemoveAll(s, u)
    ensures RemoveAll(RemoveAll(s, u) + [u], u) == RemoveAll(s, u)
  {
    RemoveAbsent(RemoveAll(s, u), u);
    RemoveAllConcat(RemoveAll(s, u), [u], u);
    assert RemoveAll([u], u) == [];
    assert RemoveAll(s, u) + [] == RemoveAll(s, u);
  }

  /** What writing `w` adds to author `a`'s up-vote total. */
  function UpvotesFor(w: Writing, a: Id): nat {
    if w.authorId == a then |w.upvotes| else 0
  }

  /** The rescan behind an up-vote: the number of up-votes summed over
      every stored writing by `a`. */
  function AuthorUpvotes(ws: seq<Writing>, a: Id): nat {
    if ws == [] then 0 else UpvotesFor(ws[0], a) + AuthorUpvotes(ws[1..], a)
  }

  /** Replacing one writing changes every author's total by the difference
      in that writing's contribution. */
  lemma {:induction false} AuthorUpvotesUpdate(ws: seq<Writing>, i: nat, w: Writing, a: Id)
    requires i < |ws|
    ensures AuthorUpvotes(ws[i := w], a) == AuthorUpvotes(ws, a) - UpvotesFor(ws[i], a) + UpvotesFor(w, a)
  {
    if i > 0 {
      assert ws[i := w][1..] == ws[1..][i - 1 := w];
      AuthorUpvotesUpdate(ws[1..], i - 1, w, a);
    }
  }

  /** What the rescan sees after a vote by `u` on `ws[i]`: an up-vote raises
      the author's total by one minus the up-votes `u` already had there; a
      down-vote lowers it by those up-votes. Other authors' totals stay. */
  lemma VoteChangesAuthorTotal(ws: seq<Writing>, i: nat, u: Id, kind: VoteType, a: Id)
    requires i < |ws|
    ensures a == ws[i].authorId && kind == Up ==>
              AuthorUpvotes(ws[i := ApplyVote(ws[i], u, kind)], a) ==
              AuthorUpvotes(ws, a) - multiset(ws[i].upvotes)[u] + 1
    ensures a == ws[i].authorId && kind == Down ==>
              AuthorUpvotes(ws[i := ApplyVote(ws[i], u, kind)], a) ==
              AuthorUpvotes(ws, a) - multiset(ws[i].upvotes)[u]
    ensures a != ws[i].authorId ==>
              AuthorUpvotes(ws[i := ApplyVote(ws[i], u, kind)], a) == AuthorUpvotes(ws, a)
  {
    AuthorUpvotesUpdate(ws, i, ApplyVote(ws[i], u, kind), a);
  }
}
