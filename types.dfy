/** Record shapes of the AuthentiWrite store: users, writings, comments and
    the per-user analytics aggregate. Ids are opaque; they are drawn from a
    counter in the store, so they are modelled as natural numbers. Timestamps
    are milliseconds since the epoch. */
module Types {

  type Id = nat
  type Timestamp = nat

  datatype Option<T> = None | Some(value: T) {
    function GetOr(default: T): T {
      match this
      case Some(v) => v
      case None => default
    }
  }

  /** The fixed set of writing templates. */
  datatype Template = Blank | Report | Article | Note

  datatype User = User(
    id: Id,
    govId: string,
    email: string,
    name: string,
    verified: bool,
    bio: Option<string>,
    avatar: Option<string>,
    followers: seq<Id>,
    following: seq<Id>,
    createdAt: Timestamp)

  datatype Writing = Writing(
    id: Id,
    authorId: Id,
    title: string,
    content: string,
    template: Template,
    isPublic: bool,
    timestamp: Timestamp,
    lastModified: Timestamp,
    background: Option<string>,
    fontFamily: Option<string>,
    colorGrade: Option<string>,
    images: Option<seq<string>>,
    links: Option<seq<string>>,
    views: nat,
    upvotes: seq<Id>,
    downvotes: seq<Id>,
    shares: nat,
    legalHash: string)

  datatype Comment = Comment(
    id: Id,
    writingId: Id,
    authorId: Id,
    content: string,
    timestamp: Timestamp)

  /** Per-user aggregate. Earnings are kept in tenths of a dollar: a view
      earns $0.10, so the earnings after a view equal the view count. */
  datatype Analytics = Analytics(
    userId: Id,
    totalViews: nat,
    totalUpvotes: nat,
    totalShares: nat,
    totalEarningsTenths: nat,
    writingsCount: nat,
    followersCount: nat)

  /** What a caller supplies to create a user (everything but the id, the
      follow lists and the creation time). */
  datatype UserData = UserData(
    govId: string,
    email: string,
    name: string,
    verified: bool,
    bio: Option<string>,
    avatar: Option<string>)

  /** What a caller supplies to create a writing. */
  datatype WritingData = WritingData(
    authorId: Id,
    title: string,
    content: string,
    template: Template,
    isPublic: bool,
    background: Option<string>,
    fontFamily: Option<string>,
    colorGrade: Option<string>,
    images: Option<seq<string>>,
    links: Option<seq<string>>)

  /** What a caller supplies to create a comment. */
  datatype CommentData = CommentData(writingId: Id, authorId: Id, content: string)

  /** Floor-at-zero decrement, `Math.max(0, n - 1)`. */
  function DecrementFloored(n: nat): (r: nat)
    ensures n > 0 ==> r == n - 1
    ensures n == 0 ==> r == 0
  {
    if n == 0 then 0 else n - 1
  }
}
