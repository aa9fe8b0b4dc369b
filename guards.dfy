/**
 * The ownership guards that run before the handlers which change a video,
 * a tweet or a playlist (src/middlewares/auth.middlewares.js). Each looks the
 * resource up by id, fails 404 when it is missing, compares the owner with the
 * principal through `toString()`, fails 403 when they differ, and otherwise
 * passes the request on with the document it fetched attached.
 */
module Guards {

  import opened Base
  import opened Api
  import opened Collection
  import opened Entities

  /** What a guard does with a request: call `next()` with the resource attached, or throw. */
  datatype Guard<T> = Next(attached: T) | Stop(error: Error)

  /** What `loggedInUserId.toString()` throws when the request carries no principal. */
  const NoPrincipal: Error := OtherError("Cannot read properties of undefined (reading 'toString')")

  /**
   * The rule all three guards share. The lookup comes first, so a missing resource gives 404
   * whoever asks; the ids are compared as strings, which is the same as comparing the ids.
   */
  function VerifyOwnerOf<T(!new)>(docs: seq<Doc<T>>, owner: T -> Id, user: Option<Id>, id: Id, notFound: string)
    : (r: Guard<Doc<T>>)
    ensures FindById(docs, id).None? ==> r == Stop(Fail(404, notFound))
    ensures FindById(docs, id).Some? && user.None? ==> r == Stop(NoPrincipal)
    ensures r.Next? <==> FindById(docs, id).Some? && user == Some(owner(FindById(docs, id).value.body))
    ensures r.Next? ==> r.attached == FindById(docs, id).value && r.attached in docs && r.attached.id == id
    ensures FindById(docs, id).Some? && user.Some? && owner(FindById(docs, id).value.body) != user.value
            ==> r == Stop(Fail(403, "Access denied"))
  {
    match FindById(docs, id)
    case None => Stop(Fail(404, notFound))
    case Some(d) =>
      if user.None? then Stop(NoPrincipal)
      else
        IdStringInjective(owner(d.body), user.value);
        if IdString(owner(d.body)) != IdString(user.value) then Stop(Fail(403, "Access denied"))
        else Next(d)
  }

  /** `verifyOwner`: the caller may change the video only if they own it; attaches `req.video`. */
  function VerifyOwner(videos: seq<Video>, user: Option<Id>, videoId: Id): (r: Guard<Video>)
    ensures FindById(videos, videoId).None? ==> r == Stop(Fail(404, "Video not found"))
    ensures FindById(videos, videoId).Some? && user.None? ==> r.Stop? && r.error.OtherError?
    ensures r.Next? <==> FindById(videos, videoId).Some? && user == Some(FindById(videos, videoId).value.body.owner)
    ensures r.Next? ==> r.attached == FindById(videos, videoId).value
    ensures FindById(videos, videoId).Some? && user.Some? && FindById(videos, videoId).value.body.owner != user.value
            ==> r == Stop(Fail(403, "Access denied"))
  {
    VerifyOwnerOf(videos, (v: VideoData) => v.owner, user, videoId, "Video not found")
  }

  /** `verifyTweetOwner`: the same rule for tweets; attaches `req.tweet`. */
  function VerifyTweetOwner(tweets: seq<Tweet>, user: Option<Id>, tweetId: Id): (r: Guard<Tweet>)
    ensures FindById(tweets, tweetId).None? ==> r == Stop(Fail(404, "Tweet not found"))
    ensures FindById(tweets, tweetId).Some? && user.None? ==> r.Stop? && r.error.OtherError?
    ensures r.Next? <==> FindById(tweets, tweetId).Some? && user == Some(FindById(tweets, tweetId).value.body.owner)
    ensures r.Next? ==> r.attached == FindById(tweets, tweetId).value
    ensures FindById(tweets, tweetId).Some? && user.Some? && FindById(tweets, tweetId).value.body.owner != user.value
            ==> r == Stop(Fail(403, "Access denied"))
  {
    VerifyOwnerOf(tweets, (t: TweetData) => t.owner, user, tweetId, "Tweet not found")
  }

  /** `verifyPlaylistOwner`: the same rule for playlists; attaches `req.playlist`. */
  function VerifyPlaylistOwner(playlists: seq<Playlist>, user: Option<Id>, playlistId: Id): (r: Guard<Playlist>)
    ensures FindById(playlists, playlistId).None? ==> r == Stop(Fail(404, "Playlist not found"))
    ensures FindById(playlists, playlistId).Some? && user.None? ==> r.Stop? && r.error.OtherError?
    ensures r.Next? <==> FindById(playlists, playlistId).Some?
                         && user == Some(FindById(playlists, playlistId).value.body.owner)
    ensures r.Next? ==> r.attached == FindById(playlists, playlistId).value
    ensures FindById(playlists, playlistId).Some? && user.Some?
            && FindById(playlists, playlistId).value.body.owner != user.value
            ==> r == Stop(Fail(403, "Access denied"))
  {
    VerifyOwnerOf(playlists, (p: PlaylistData) => p.owner, user, playlistId, "Playlist not found")
  }

  /** In a valid store the guard passes exactly the owner of the stored document, and attaches
      the document stored under that id. */
  lemma {:induction false} GuardPassesOnlyOwner<T(!new)>(docs: seq<Doc<T>>, owner: T -> Id, user: Id, i: nat, notFound: string)
    requires UniqueIds(docs) && i < |docs|
    ensures VerifyOwnerOf(docs, owner, Some(user), docs[i].id, notFound) == Next(docs[i]) <==> owner(docs[i].body) == user
    ensures owner(docs[i].body) != user ==> VerifyOwnerOf(docs, owner, Some(user), docs[i].id, notFound) == Stop(Fail(403, "Access denied"))
  {
    FindByIdUnique(docs, i);
  }
}
