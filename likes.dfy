/**
 * Liking and unliking a video, a comment or a tweet
 * (src/controllers/like.controllers.js). A like is a record of what is liked
 * and who likes it; a toggle looks for the first such record and deletes it,
 * or creates one when there is none.
 */
module Likes {

  import opened Base
  import opened Api
  import opened Collection
  import opened Entities

  /** The like a toggle creates when the store's counter stands at `next`. */
  function NewLike(target: Target, user: Id, next: nat): (r: Like)
    ensures r.id == Id(next) && r.createdAt == next
    ensures LikeKey(r.body) == (target, user)
  {
    Doc(Id(next), next, LikeData(target, user))
  }

  /**
   * The toggle the three handlers share: `findOne` the like of `user` on `target`; delete it if
   * there is one, otherwise create it and read it back. Both answers are 200 with `{}`.
   */
  method ToggleLike(db: Store, target: Target, user: Id, unliked: string, liked: string, failed: string)
    returns (r: Outcome<()>)
    requires db.Valid()
    modifies db
    ensures db.Valid()
    ensures db.likes == Toggled(old(db.likes), LikeKey, (target, user), NewLike(target, user, old(db.next)))
    ensures db.State() == old(db.State()).(likes := db.likes, next := db.next)
    ensures FindKey(old(db.likes), LikeKey, (target, user)).Some? ==> r == Ok(200, (), unliked) && db.next == old(db.next)
    ensures FindKey(old(db.likes), LikeKey, (target, user)).None? ==> r == Ok(200, (), liked) && db.next == old(db.next) + 1
  {
    ghost var before := db.likes;
    var existing := FindKey(db.likes, LikeKey, (target, user));
    if existing.Some? {
      RemoveByIdMembers(db.likes, db.likes[existing.value].id);
      db.likes := RemoveById(db.likes, db.likes[existing.value].id);
      ToggledKeepsIds(before, LikeKey, (target, user), NewLike(target, user, db.next), db.next);
      return Ok(200, (), unliked);
    }
    var id, now := db.NewDoc();
    db.likes := db.likes + [Doc(id, now, LikeData(target, user))];
    AppendFresh(before, Doc(id, now, LikeData(target, user)), id.n);
    var createdLike := FindById(db.likes, id);
    if createdLike.None? {
      return Throw(Fail(500, failed));
    }
    return Ok(200, (), liked);
  }

  /** `toggleVideoLike`. */
  method ToggleVideoLike(db: Store, videoId: Id, user: Id) returns (r: Outcome<()>)
    requires db.Valid()
    modifies db
    ensures db.Valid()
    ensures db.likes == Toggled(old(db.likes), LikeKey, (OnVideo(videoId), user), NewLike(OnVideo(videoId), user, old(db.next)))
    ensures db.State() == old(db.State()).(likes := db.likes, next := db.next)
    ensures r == Ok(200, (), if FindKey(old(db.likes), LikeKey, (OnVideo(videoId), user)).Some?
                             then "Video unliked successfully" else "Video liked successfully")
  {
    r := ToggleLike(db, OnVideo(videoId), user, "Video unliked successfully", "Video liked successfully", "Failed to like video");
  }

  /** `toggleCommentLike`. */
  method ToggleCommentLike(db: Store, commentId: Id, user: Id) returns (r: Outcome<()>)
    requires db.Valid()
    modifies db
    ensures db.Valid()
    ensures db.likes == Toggled(old(db.likes), LikeKey, (OnComment(commentId), user), NewLike(OnComment(commentId), user, old(db.next)))
    ensures db.State() == old(db.State()).(likes := db.likes, next := db.next)
    ensures r == Ok(200, (), if FindKey(old(db.likes), LikeKey, (OnComment(commentId), user)).Some?
                             then "Comment unliked successfully" else "Comment liked successfully")
  {
    r := ToggleLike(db, OnComment(commentId), user, "Comment unliked successfully", "Comment liked successfully", "Failed to like comment");
  }

  /** `toggleTweetLike`. */
  method ToggleTweetLike(db: Store, tweetId: Id, user: Id) returns (r: Outcome<()>)
    requires db.Valid()
    modifies db
    ensures db.Valid()
    ensures db.likes == Toggled(old(db.likes), LikeKey, (OnTweet(tweetId), user), NewLike(OnTweet(tweetId), user, old(db.next)))
    ensures db.State() == old(db.State()).(likes := db.likes, next := db.next)
    ensures r == Ok(200, (), if FindKey(old(db.likes), LikeKey, (OnTweet(tweetId), user)).Some?
                             then "Tweet unliked successfully" else "Tweet liked successfully")
  {
    r := ToggleLike(db, OnTweet(tweetId), user, "Tweet unliked successfully", "Tweet liked successfully", "Failed to like tweet");
  }

  /** A toggle on an existing pair deletes exactly that pair's first record; on an absent pair it
      adds exactly the new record, carrying the target and the liker. */
  lemma ToggleLikeEffect(likes: seq<Like>, target: Target, user: Id, next: nat)
    requires UniqueIds(likes)
    ensures var found := FindKey(likes, LikeKey, (target, user));
            found.Some? ==> Toggled(likes, LikeKey, (target, user), NewLike(target, user, next))
                            == likes[..found.value] + likes[found.value + 1..]
    ensures FindKey(likes, LikeKey, (target, user)).None? ==>
              Toggled(likes, LikeKey, (target, user), NewLike(target, user, next))
              == likes + [Doc(Id(next), next, LikeData(target, user))]
  {
    var found := FindKey(likes, LikeKey, (target, user));
    if found.Some? {
      RemoveByIdAt(likes, found.value);
    }
  }

  /** Liking and then unliking (or the reverse) leaves every pair with as many records as before,
      so the set of (target, liker) pairs is restored. */
  lemma LikeToggleTwiceRestoresPairs(likes: seq<Like>, target: Target, user: Id, next: nat)
    requires UniqueIds(likes) && IdsBelow(likes, next) && AtMostOnePerKey(likes, LikeKey)
    ensures var once := Toggled(likes, LikeKey, (target, user), NewLike(target, user, next));
            var twice := Toggled(once, LikeKey, (target, user), NewLike(target, user, next + 1));
            KeySet(twice, LikeKey) == KeySet(likes, LikeKey)
            && forall k :: CountKey(twice, LikeKey, k) == CountKey(likes, LikeKey, k)
  {
    ToggleTwiceRestores(likes, LikeKey, (target, user), NewLike(target, user, next), NewLike(target, user, next + 1), next);
  }

  /** A toggle keeps "at most one like per pair". */
  lemma LikeToggleKeepsAtMostOne(likes: seq<Like>, target: Target, user: Id, next: nat)
    requires UniqueIds(likes) && AtMostOnePerKey(likes, LikeKey)
    ensures AtMostOnePerKey(Toggled(likes, LikeKey, (target, user), NewLike(target, user, next)), LikeKey)
  {
    ToggledKeepsAtMostOne(likes, LikeKey, (target, user), NewLike(target, user, next));
  }

  /** A toggle deletes one record only: where a pair was stored twice, it is still liked afterwards. */
  lemma LikeToggleKeepsDuplicates(likes: seq<Like>, target: Target, user: Id, next: nat)
    requires UniqueIds(likes) && CountKey(likes, LikeKey, (target, user)) >= 2
    ensures var after := Toggled(likes, LikeKey, (target, user), NewLike(target, user, next));
            CountKey(after, LikeKey, (target, user)) == CountKey(likes, LikeKey, (target, user)) - 1
            && (target, user) in KeySet(after, LikeKey)
  {
    var after := Toggled(likes, LikeKey, (target, user), NewLike(target, user, next));
    ToggledCounts(likes, LikeKey, (target, user), NewLike(target, user, next));
    KeySetCount(after, LikeKey, (target, user));
  }

  /** Records of every other (target, liker) pair are kept, in their order. */
  lemma LikeToggleKeepsOtherPairs(likes: seq<Like>, target: Target, user: Id, next: nat)
    requires UniqueIds(likes)
    ensures var after := Toggled(likes, LikeKey, (target, user), NewLike(target, user, next));
            Without(after, LikeKey, (target, user)) == Without(likes, LikeKey, (target, user))
    ensures forall d :: d in likes && LikeKey(d.body) != (target, user) ==>
              d in Toggled(likes, LikeKey, (target, user), NewLike(target, user, next))
  {
    var after := Toggled(likes, LikeKey, (target, user), NewLike(target, user, next));
    ToggledFramesOtherKeys(likes, LikeKey, (target, user), NewLike(target, user, next));
    WithoutMembers(likes, LikeKey, (target, user));
    WithoutMembers(after, LikeKey, (target, user));
    forall d | d in likes && LikeKey(d.body) != (target, user) ensures d in after {
      assert d in Without(likes, LikeKey, (target, user));
    }
  }

  /** Likes on videos, comments and tweets are keyed by different fields: toggling the like of a
      comment keeps every like of a video or a tweet, even one whose id has the same value. */
  lemma CommentToggleKeepsVideoAndTweetLikes(likes: seq<Like>, x: Id, user: Id, next: nat)
    requires UniqueIds(likes)
    ensures forall d :: d in likes && (d.body.target == OnVideo(x) || d.body.target == OnTweet(x)) ==>
              d in Toggled(likes, LikeKey, (OnComment(x), user), NewLike(OnComment(x), user, next))
  {
    LikeToggleKeepsOtherPairs(likes, OnComment(x), user, next);
  }
}
