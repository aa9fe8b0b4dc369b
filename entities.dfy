/**
 * The documents of the platform's collections (users, videos, tweets,
 * comments, playlists, likes, subscriptions) and the store that holds them.
 * A handler reads and writes the store's collections in place; the store
 * hands out fresh ids and creation stamps from one counter.
 */
module Entities {

  import opened Base
  import opened Collection

  datatype UserData = UserData(username: string, fullName: string, email: string, watchHistory: seq<Id>)

  datatype VideoData = VideoData(
    videoFile: string, thumbnail: string, title: string, description: string,
    duration: string, views: nat, isPublished: bool, owner: Id)

  datatype TweetData = TweetData(content: string, owner: Id)

  datatype CommentData = CommentData(content: string, video: Id, owner: Id)

  /** `name` and `description` are stored as given, missing ones included. */
  datatype PlaylistData = PlaylistData(name: Option<string>, description: Option<string>, videos: seq<Id>, owner: Id)

  /** A like references exactly one of a video, a comment or a tweet. */
  datatype Target = OnVideo(video: Id) | OnComment(comment: Id) | OnTweet(tweet: Id)

  datatype LikeData = LikeData(target: Target, likedBy: Id)

  datatype SubscriptionData = SubscriptionData(subscriber: Id, channel: Id)

  type User = Doc<UserData>
  type Video = Doc<VideoData>
  type Tweet = Doc<TweetData>
  type Comment = Doc<CommentData>
  type Playlist = Doc<PlaylistData>
  type Like = Doc<LikeData>
  type Subscription = Doc<SubscriptionData>

  /** A like is identified by what is liked and who likes it. */
  function LikeKey(l: LikeData): (Target, Id)
  {
    (l.target, l.likedBy)
  }

  /** A subscription is identified by who subscribes to which channel. */
  function SubscriptionKey(s: SubscriptionData): (Id, Id)
  {
    (s.subscriber, s.channel)
  }

  /** A user joined through `$lookup` with `$project: { username: 1 }` (the id comes along). */
  datatype UserSummary = UserSummary(id: Id, username: string)

  /** `$lookup` of a user id followed by taking the first element (`$arrayElemAt`, `$first`):
      missing when no user has that id. */
  function SummaryOf(users: seq<User>, id: Id): (r: Option<UserSummary>)
    ensures r.Some? <==> exists u :: u in users && u.id == id
    ensures r.Some? ==> r.value.id == id && r.value.username == FindById(users, id).value.body.username
  {
    match FindById(users, id)
    case None => None
    case Some(u) => Some(UserSummary(u.id, u.body.username))
  }

  /** The whole content of the store, for stating what a handler leaves unchanged. */
  datatype Snapshot = Snapshot(
    users: seq<User>, videos: seq<Video>, tweets: seq<Tweet>, comments: seq<Comment>,
    playlists: seq<Playlist>, likes: seq<Like>, subscriptions: seq<Subscription>, next: nat)

  /** One past the largest id in `s`. */
  function IdBound(s: seq<User>): (r: nat)
    ensures IdsBelow(s, r)
  {
    if s == [] then 0
    else
      var rest := IdBound(s[1..]);
      var r := if s[0].id.n + 1 > rest then s[0].id.n + 1 else rest;
      assert forall d :: d in s ==> d == s[0] || d in s[1..];
      r
  }

  /** The database: one sequence per collection, in natural order, and the counter from which
      new documents take their `_id` and `createdAt`. */
  class Store {
    var users: seq<User>
    var videos: seq<Video>
    var tweets: seq<Tweet>
    var comments: seq<Comment>
    var playlists: seq<Playlist>
    var likes: seq<Like>
    var subscriptions: seq<Subscription>
    var next: nat

    /** Ids are unique within each collection, and every id was handed out before `next`. */
    ghost predicate Valid()
      reads this
    {
      && UniqueIds(users) && IdsBelow(users, next)
      && UniqueIds(videos) && IdsBelow(videos, next)
      && UniqueIds(tweets) && IdsBelow(tweets, next)
      && UniqueIds(comments) && IdsBelow(comments, next)
      && UniqueIds(playlists) && IdsBelow(playlists, next)
      && UniqueIds(likes) && IdsBelow(likes, next)
      && UniqueIds(subscriptions) && IdsBelow(subscriptions, next)
    }

    ghost function State(): Snapshot
      reads this
    {
      Snapshot(users, videos, tweets, comments, playlists, likes, subscriptions, next)
    }

    /** A database holding only registered users. */
    constructor (registered: seq<User>)
      requires UniqueIds(registered)
      ensures Valid()
      ensures State() == Snapshot(registered, [], [], [], [], [], [], IdBound(registered))
    {
      users := registered;
      videos, tweets, comments, playlists, likes, subscriptions := [], [], [], [], [], [];
      next := IdBound(registered);
    }

    /** A fresh `_id` and the current time, for a document about to be created. */
    method NewDoc() returns (id: Id, now: nat)
      modifies this`next
      ensures id == Id(old(next)) && now == old(next) && next == old(next) + 1
    {
      id, now := Id(next), next;
      next := next + 1;
    }
  }

  /** Appending a document with the next id keeps a collection's ids unique and below the new bound. */
  lemma AppendFresh<T(!new)>(s: seq<Doc<T>>, d: Doc<T>, bound: nat)
    requires UniqueIds(s) && IdsBelow(s, bound) && d.id.n == bound
    ensures UniqueIds(s + [d]) && IdsBelow(s + [d], bound + 1)
  {
    assert forall j :: 0 <= j < |s| ==> s[j] in s;
  }
}
