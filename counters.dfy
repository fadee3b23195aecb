/** The per-user analytics counters and the edits the store makes to them.
    Each mutator looks up the record of one user and edits it only when
    that user has one; a missing record is skipped silently. */
module Counters {
  import opened Types

  /** One edit of an analytics record, named after the operation making it. */
  datatype CounterEdit =
    | AddWriting          // createWriting: writingsCount++
    | RemoveWriting       // deleteWriting: writingsCount floored decrement
    | AddFollower         // followUser: followersCount++
    | RemoveFollower      // unfollowUser: followersCount floored decrement
    | AddView             // incrementViews: totalViews++, earnings = views * $0.10
    | AddShare            // incrementShares: totalShares++
    | SetUpvotes(total: nat)  // voteWriting (up-vote): totalUpvotes = rescanned total

  /** Whether an edit changes the follower count. */
  predicate TouchesFollowers(e: CounterEdit) {
    e.AddFollower? || e.RemoveFollower?
  }

  /** The record after the edit. It keeps its owner; each counter moves
      only under the edit named after it; after a view the earnings in tenths equal
      the view count; a removal never takes a count below zero and lowers
      a positive one by exactly one. */
  function ApplyEdit(st: Analytics, e: CounterEdit): (r: Analytics)
    ensures r.userId == st.userId
    ensures !TouchesFollowers(e) ==> r.followersCount == st.followersCount
    ensures e.AddView? ==> r.totalViews == st.totalViews + 1 && r.totalEarningsTenths == r.totalViews
    ensures e.AddFollower? ==> r.followersCount == st.followersCount + 1
    ensures e.RemoveFollower? ==> r.followersCount + (if st.followersCount > 0 then 1 else 0) == st.followersCount
    ensures e.AddWriting? ==> r.writingsCount == st.writingsCount + 1
    ensures e.RemoveWriting? ==> r.writingsCount + (if st.writingsCount > 0 then 1 else 0) == st.writingsCount
    ensures e.AddShare? ==> r.totalShares == st.totalShares + 1
    ensures e.SetUpvotes? ==> r.totalUpvotes == e.total
    ensures !e.AddView? ==> r.totalViews == st.totalViews && r.totalEarningsTenths == st.totalEarningsTenths
    ensures !e.AddShare? ==> r.totalShares == st.totalShares
    ensures !e.SetUpvotes? ==> r.totalUpvotes == st.totalUpvotes
    ensures !(e.AddWriting? || e.RemoveWriting?) ==> r.writingsCount == st.writingsCount
  {
    match e
    case AddWriting => st.(writingsCount := st.writingsCount + 1)
    case RemoveWriting => st.(writingsCount := DecrementFloored(st.writingsCount))
    case AddFollower => st.(followersCount := st.followersCount + 1)
    case RemoveFollower => st.(followersCount := DecrementFloored(st.followersCount))
    case AddView => st.(totalViews := st.totalViews + 1, totalEarningsTenths := st.totalViews + 1)
    case AddShare => st.(totalShares := st.totalShares + 1)
    case SetUpvotes(total) => st.(totalUpvotes := total)
  }

  /** The analytics map after editing `a`'s record, when `a` has one: no
      record appears or disappears and no other record changes. */
  function Edited(analytics: map<Id, Analytics>, a: Id, e: CounterEdit): (r: map<Id, Analytics>)
    ensures r.Keys == analytics.Keys
    ensures a in analytics ==> r[a] == ApplyEdit(analytics[a], e)
    ensures forall x | x in analytics && x != a :: r[x] == analytics[x]
  {
    if a in analytics then analytics[a := ApplyEdit(analytics[a], e)] else analytics
  }
}
