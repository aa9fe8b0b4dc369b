/**
 * The guarded routes of src/routes/: the ownership guard runs first and the
 * handler only when it passes, with the document the guard attached. The
 * requester is the principal `verifyJWT` has already established.
 */
module Routes {

  import opened Base
  import opened Api
  import opened Collection
  import opened Entities
  import opened Guards
  import Videos
  import Tweets
  import Playlists

  /** `DELETE /videos/:videoId`: only the owner removes the video; anybody else changes nothing. */
  method DeleteVideoRoute(db: Store, user: Id, videoId: Id) returns (r: Outcome<()>)
    requires db.Valid()
    modifies db
    ensures db.Valid()
    ensures FindById(old(db.videos), videoId).None? ==> r == Throw(Fail(404, "Video not found")) && db.State() == old(db.State())
    ensures FindById(old(db.videos), videoId).Some? && FindById(old(db.videos), videoId).value.body.owner != user ==>
              r == Throw(Fail(403, "Access denied")) && db.State() == old(db.State())
    ensures FindById(old(db.videos), videoId).Some? && FindById(old(db.videos), videoId).value.body.owner == user ==>
              && db.videos == RemoveById(old(db.videos), videoId)
              && db.State() == old(db.State()).(videos := db.videos)
              && r == Ok(200, (), "Video deleted successfully")
  {
    var g := VerifyOwner(db.videos, Some(user), videoId);
    if g.Stop? {
      return Throw(g.error);
    }
    r := Videos.DeleteVideo(db, g.attached);
  }

  /** `PATCH /videos/toggle-publish/:videoId`: only the owner flips the stored flag; the guard's copy
      is the stored one, so the flag really is negated. */
  method TogglePublishRoute(db: Store, user: Id, videoId: Id) returns (r: Outcome<Option<Video>>)
    requires db.Valid()
    modifies db
    ensures db.Valid()
    ensures FindById(old(db.videos), videoId).None? ==> r == Throw(Fail(404, "Video not found")) && db.State() == old(db.State())
    ensures FindById(old(db.videos), videoId).Some? && FindById(old(db.videos), videoId).value.body.owner != user ==>
              r == Throw(Fail(403, "Access denied")) && db.State() == old(db.State())
    ensures FindById(old(db.videos), videoId).Some? && FindById(old(db.videos), videoId).value.body.owner == user ==>
              && (var flag := !FindById(old(db.videos), videoId).value.body.isPublished;
                  db.videos == UpdateById(old(db.videos), videoId, v => Videos.Published(v, flag)))
              && db.State() == old(db.State()).(videos := db.videos)
              && FindById(db.videos, videoId).Some?
              && FindById(db.videos, videoId).value.body.isPublished == !FindById(old(db.videos), videoId).value.body.isPublished
              && r.Ok? && r.data == FindById(db.videos, videoId)
  {
    var g := VerifyOwner(db.videos, Some(user), videoId);
    if g.Stop? {
      return Throw(g.error);
    }
    ghost var before := db.videos;
    r := Videos.TogglePublishStatus(db, g.attached);
    UpdateByIdFrames(before, videoId, v => Videos.Published(v, !g.attached.body.isPublished), videoId);
  }

  /** `PATCH /tweets/:tweetId`: only the owner rewrites the content; anybody else changes nothing. */
  method UpdateTweetRoute(db: Store, user: Id, tweetId: Id, content: Option<string>) returns (r: Outcome<string>)
    requires db.Valid()
    modifies db
    ensures db.Valid()
    ensures FindById(old(db.tweets), tweetId).None? ==> r == Throw(Fail(404, "Tweet not found")) && db.State() == old(db.State())
    ensures FindById(old(db.tweets), tweetId).Some? && FindById(old(db.tweets), tweetId).value.body.owner != user ==>
              r == Throw(Fail(403, "Access denied")) && db.State() == old(db.State())
    ensures FindById(old(db.tweets), tweetId).Some? && FindById(old(db.tweets), tweetId).value.body.owner == user ==>
              && db.tweets == UpdateById(old(db.tweets), tweetId, t => Tweets.Rewritten(t, content))
              && db.State() == old(db.State()).(tweets := db.tweets)
              && r == Ok(200, Tweets.Rewritten(FindById(old(db.tweets), tweetId).value.body, content).content,
                         "Tweet updated successfully")
  {
    var g := VerifyTweetOwner(db.tweets, Some(user), tweetId);
    if g.Stop? {
      return Throw(g.error);
    }
    r := Tweets.UpdateTweet(db, g.attached, content);
  }

  /** `DELETE /tweets/:tweetId`: only the owner removes the tweet; anybody else changes nothing. */
  method DeleteTweetRoute(db: Store, user: Id, tweetId: Id) returns (r: Outcome<()>)
    requires db.Valid()
    modifies db
    ensures db.Valid()
    ensures FindById(old(db.tweets), tweetId).None? ==> r == Throw(Fail(404, "Tweet not found")) && db.State() == old(db.State())
    ensures FindById(old(db.tweets), tweetId).Some? && FindById(old(db.tweets), tweetId).value.body.owner != user ==>
              r == Throw(Fail(403, "Access denied")) && db.State() == old(db.State())
    ensures FindById(old(db.tweets), tweetId).Some? && FindById(old(db.tweets), tweetId).value.body.owner == user ==>
              && db.tweets == RemoveById(old(db.tweets), tweetId)
              && db.State() == old(db.State()).(tweets := db.tweets)
              && r == Ok(200, (), "Tweet deleted successfully")
  {
    var g := VerifyTweetOwner(db.tweets, Some(user), tweetId);
    if g.Stop? {
      return Throw(g.error);
    }
    r := Tweets.DeleteTweet(db, g.attached);
  }

  /** `PATCH /playlists/add/:videoId/:playlistId`: only the owner adds to the playlist. */
  method AddVideoToPlaylistRoute(db: Store, user: Id, videoId: Id, playlistId: Id) returns (r: Outcome<Playlist>)
    requires db.Valid()
    modifies db
    ensures db.Valid()
    ensures FindById(old(db.playlists), playlistId).None? ==>
              r == Throw(Fail(404, "Playlist not found")) && db.State() == old(db.State())
    ensures FindById(old(db.playlists), playlistId).Some? && FindById(old(db.playlists), playlistId).value.body.owner != user ==>
              r == Throw(Fail(403, "Access denied")) && db.State() == old(db.State())
    ensures FindById(old(db.playlists), playlistId).Some? && FindById(old(db.playlists), playlistId).value.body.owner == user ==>
              && db.playlists == UpdateById(old(db.playlists), playlistId, p => Playlists.WithVideo(p, videoId))
              && db.State() == old(db.State()).(playlists := db.playlists)
              && r.Ok? && videoId in r.data.body.videos
  {
    var g := VerifyPlaylistOwner(db.playlists, Some(user), playlistId);
    if g.Stop? {
      return Throw(g.error);
    }
    r := Playlists.AddVideoToPlaylist(db, g.attached, videoId);
  }

  /** `DELETE /playlists/:playlistId`: only the owner removes the playlist. */
  method DeletePlaylistRoute(db: Store, user: Id, playlistId: Id) returns (r: Outcome<()>)
    requires db.Valid()
    modifies db
    ensures db.Valid()
    ensures FindById(old(db.playlists), playlistId).None? ==>
              r == Throw(Fail(404, "Playlist not found")) && db.State() == old(db.State())
    ensures FindById(old(db.playlists), playlistId).Some? && FindById(old(db.playlists), playlistId).value.body.owner != user ==>
              r == Throw(Fail(403, "Access denied")) && db.State() == old(db.State())
    ensures FindById(old(db.playlists), playlistId).Some? && FindById(old(db.playlists), playlistId).value.body.owner == user ==>
              && db.playlists == RemoveById(old(db.playlists), playlistId)
              && db.State() == old(db.State()).(playlists := db.playlists)
              && r == Ok(200, (), "Playlist deleted successfully")
  {
    var g := VerifyPlaylistOwner(db.playlists, Some(user), playlistId);
    if g.Stop? {
      return Throw(g.error);
    }
    r := Playlists.DeletePlaylist(db, g.attached);
  }
}
