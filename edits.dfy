/** `updateWriting`'s merge `{ ...writing, ...updates, lastModified: now }`:
    every field the caller supplies replaces the stored one, including
    `id`, `authorId`, the counters, the vote lists and `legalHash`; only
    `lastModified` is forced to the time of the edit. */
module Edits {
  import opened Types

  /** A `Partial<Writing>`: `Some(v)` for each field the caller supplied. */
  datatype WritingUpdate = WritingUpdate(
    id: Option<Id>,
    authorId: Option<Id>,
    title: Option<string>,
    content: Option<string>,
    template: Option<Template>,
    isPublic: Option<bool>,
    timestamp: Option<Timestamp>,
    lastModified: Option<Timestamp>,
    background: Option<string>,
    fontFamily: Option<string>,
    colorGrade: Option<string>,
    images: Option<seq<string>>,
    links: Option<seq<string>>,
    views: Option<nat>,
    upvotes: Option<seq<Id>>,
    downvotes: Option<seq<Id>>,
    shares: Option<nat>,
    legalHash: Option<string>)

  /** The update that supplies nothing. */
  const NoChanges := WritingUpdate(None, None, None, None, None, None, None, None, None,
                                   None, None, None, None, None, None, None, None, None)

  /** A supplied optional field replaces the stored one; an absent one keeps it. */
  function Override<T>(supplied: Option<T>, stored: Option<T>): Option<T> {
    if supplied.Some? then supplied else stored
  }

  /** A required field after the spread: the supplied value if there is
      one, the stored value otherwise. */
  predicate Spread<T(==)>(supplied: Option<T>, stored: T, merged: T) {
    (supplied.Some? ==> merged == supplied.value) && (supplied.None? ==> merged == stored)
  }

  /** An optional field after the spread: a supplied value is set, an
      absent one leaves the stored field, set or unset, as it was. */
  predicate SpreadOptional<T(==)>(supplied: Option<T>, stored: Option<T>, merged: Option<T>) {
    (supplied.Some? ==> merged == supplied) && (supplied.None? ==> merged == stored)
  }

  /** Every field but `lastModified` is replaced when supplied and kept
      otherwise; `lastModified` is the time of the edit even when the
      caller supplies one. */
  function Merge(w: Writing, upd: WritingUpdate, now: Timestamp): (r: Writing)
    ensures r.lastModified == now
    ensures Spread(upd.id, w.id, r.id) && Spread(upd.authorId, w.authorId, r.authorId)
    ensures Spread(upd.title, w.title, r.title) && Spread(upd.content, w.content, r.content)
    ensures Spread(upd.template, w.template, r.template) && Spread(upd.isPublic, w.isPublic, r.isPublic)
    ensures Spread(upd.timestamp, w.timestamp, r.timestamp)
    ensures SpreadOptional(upd.background, w.background, r.background)
    ensures SpreadOptional(upd.fontFamily, w.fontFamily, r.fontFamily)
    ensures SpreadOptional(upd.colorGrade, w.colorGrade, r.colorGrade)
    ensures SpreadOptional(upd.images, w.images, r.images)
    ensures SpreadOptional(upd.links, w.links, r.links)
    ensures Spread(upd.views, w.views, r.views) && Spread(upd.shares, w.shares, r.shares)
    ensures Spread(upd.upvotes, w.upvotes, r.upvotes) && Spread(upd.downvotes, w.downvotes, r.downvotes)
    ensures Spread(upd.legalHash, w.legalHash, r.legalHash)
  {
    Writing(
      upd.id.GetOr(w.id),
      upd.authorId.GetOr(w.authorId),
      upd.title.GetOr(w.title),
      upd.content.GetOr(w.content),
      upd.template.GetOr(w.template),
      upd.isPublic.GetOr(w.isPublic),
      upd.timestamp.GetOr(w.timestamp),
      now,
      Override(upd.background, w.background),
      Override(upd.fontFamily, w.fontFamily),
      Override(upd.colorGrade, w.colorGrade),
      Override(upd.images, w.images),
      Override(upd.links, w.links),
      upd.views.GetOr(w.views),
      upd.upvotes.GetOr(w.upvotes),
      upd.downvotes.GetOr(w.downvotes),
      upd.shares.GetOr(w.shares),
      upd.legalHash.GetOr(w.legalHash))
  }

  /** An empty update only refreshes `lastModified`. */
  lemma MergeNothing(w: Writing, now: Timestamp)
    ensures Merge(w, NoChanges, now) == w.(lastModified := now)
  {
  }

  /** Editing the content (or anything but `legalHash`) never recomputes the
      legal hash: it keeps the fingerprint taken at creation. */
  lemma ContentEditKeepsLegalHash(w: Writing, content: string, now: Timestamp)
    ensures Merge(w, NoChanges.(content := Some(content)), now).legalHash == w.legalHash
    ensures Merge(w, NoChanges.(content := Some(content)), now).content == content
  {
  }

  /** Applying the same update twice is the same as applying it once at the
      later time. */
  lemma MergeTwice(w: Writing, upd: WritingUpdate, t1: Timestamp, t2: Timestamp)
    ensures Merge(Merge(w, upd, t1), upd, t2) == Merge(w, upd, t2)
  {
  }
}
