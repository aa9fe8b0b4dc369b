/**
 * Playlists (src/controllers/playlist.controllers.js): creating one, listing a
 * user's, showing one with its videos and owner joined in, and the changes the
 * owner makes through the playlist guard (add or remove a video, rename,
 * delete). A handler behind the guard receives the playlist the guard fetched
 * (`req.playlist`) and writes the stored document with that id.
 */
module Playlists {

  import opened Base
  import opened Api
  import opened Collection
  import opened Entities

  /** `$addToSet: { videos: videoId }`. */
  function WithVideo(p: PlaylistData, videoId: Id): (r: PlaylistData)
    ensures videoId in r.videos
    ensures forall v :: v in r.videos <==> v in p.videos || v == videoId
    ensures videoId in p.videos ==> r == p
    ensures r.name == p.name && r.description == p.description && r.owner == p.owner
  {
    p.(videos := AddToSet(p.videos, videoId))
  }

  /** `$pull: { videos: videoId }`. */
  function WithoutVideo(p: PlaylistData, videoId: Id): (r: PlaylistData)
    ensures videoId !in r.videos
    ensures forall v :: v in r.videos <==> v in p.videos && v != videoId
    ensures r.name == p.name && r.description == p.description && r.owner == p.owner
  {
    p.(videos := Pull(p.videos, videoId))
  }

  /** `$set: { name, description }`. */
  function Renamed(p: PlaylistData, name: Option<string>, description: Option<string>): (r: PlaylistData)
    ensures r.videos == p.videos && r.owner == p.owner
    ensures r.name == name && r.description == description
  {
    p.(name := name, description := description)
  }

  /** The common shape of the three updating handlers: answer the updated playlist with 200, or
      fail 500 when there is no stored playlist with that id. */
  method UpdatePlaylistById(db: Store, id: Id, update: PlaylistData -> PlaylistData, success: string, failed: string)
    returns (r: Outcome<Playlist>)
    requires db.Valid()
    modifies db
    ensures db.Valid()
    ensures db.playlists == UpdateById(old(db.playlists), id, update)
    ensures db.State() == old(db.State()).(playlists := db.playlists)
    ensures UpdatedOne(old(db.playlists), id, update).None? ==> r == Throw(Fail(500, failed))
    ensures UpdatedOne(old(db.playlists), id, update).Some? ==> r == Ok(200, UpdatedOne(old(db.playlists), id, update).value, success)
  {
    var found := FindById(db.playlists, id);
    if found.None? {
      return Throw(Fail(500, failed));
    }
    var p := found.value;
    SetByIdKeepsIds(db.playlists, id, update(p.body), db.next);
    db.playlists := SetById(db.playlists, id, update(p.body));
    return Ok(200, p.(body := update(p.body)), success);
  }

  /** `createPlaylist`: stores the playlist with the requester as owner and the name and
      description as given (neither is checked), and answers it. */
  method CreatePlaylist(db: Store, user: Id, name: Option<string>, description: Option<string>)
    returns (r: Outcome<Playlist>)
    requires db.Valid()
    modifies db
    ensures db.Valid()
    ensures var created := Doc(Id(old(db.next)), old(db.next), PlaylistData(name, description, [], user));
            db.playlists == old(db.playlists) + [created]
            && r == Ok(200, created, "Playlist created successfully")
    ensures db.State() == old(db.State()).(playlists := db.playlists, next := old(db.next) + 1)
  {
    ghost var before := db.playlists;
    var id, now := db.NewDoc();
    var created := Doc(id, now, PlaylistData(name, description, [], user));
    db.playlists := db.playlists + [created];
    AppendFresh(before, created, id.n);
    var reread := FindById(db.playlists, id);
    if reread.None? {
      return Throw(Fail(500, "Failed to create playlist"));
    }
    return Ok(200, reread.value, "Playlist created successfully");
  }

  /** `addVideoToPlaylist`, behind the playlist guard. */
  method AddVideoToPlaylist(db: Store, playlist: Playlist, videoId: Id) returns (r: Outcome<Playlist>)
    requires db.Valid()
    modifies db
    ensures db.Valid()
    ensures db.playlists == UpdateById(old(db.playlists), playlist.id, p => WithVideo(p, videoId))
    ensures db.State() == old(db.State()).(playlists := db.playlists)
    ensures FindById(old(db.playlists), playlist.id).None? ==> r == Throw(Fail(500, "Failed to add video to playlist"))
    ensures FindById(old(db.playlists), playlist.id).Some? ==>
              r.Ok? && r.status == 200 && r.message == "Video added to playlist successfully"
              && r.data.id == playlist.id && videoId in r.data.body.videos
              && r.data.body == WithVideo(FindById(old(db.playlists), playlist.id).value.body, videoId)
  {
    r := UpdatePlaylistById(db, playlist.id, p => WithVideo(p, videoId),
      "Video added to playlist successfully", "Failed to add video to playlist");
  }

  /** `removeVideoFromPlaylist`, behind the playlist guard. */
  method RemoveVideoFromPlaylist(db: Store, playlist: Playlist, videoId: Id) returns (r: Outcome<Playlist>)
    requires db.Valid()
    modifies db
    ensures db.Valid()
    ensures db.playlists == UpdateById(old(db.playlists), playlist.id, p => WithoutVideo(p, videoId))
    ensures db.State() == old(db.State()).(playlists := db.playlists)
    ensures FindById(old(db.playlists), playlist.id).None? ==> r == Throw(Fail(500, "Failed to remove video from playlist"))
    ensures FindById(old(db.playlists), playlist.id).Some? ==>
              r.Ok? && r.status == 200 && r.message == "Video removed from playlist successfully"
              && r.data.id == playlist.id && videoId !in r.data.body.videos
              && r.data.body == WithoutVideo(FindById(old(db.playlists), playlist.id).value.body, videoId)
  {
    r := UpdatePlaylistById(db, playlist.id, p => WithoutVideo(p, videoId),
      "Video removed from playlist successfully", "Failed to remove video from playlist");
  }

  /** `updatePlaylist`, behind the playlist guard: both fields are required (`!name || !description`
      fails 400 before any write); only the two fields are set. */
  method UpdatePlaylist(db: Store, playlist: Playlist, name: Option<string>, description: Option<string>)
    returns (r: Outcome<Playlist>)
    requires db.Valid()
    modifies db
    ensures db.Valid()
    ensures Falsy(name) || Falsy(description) ==>
              r == Throw(Fail(400, "Name and description are required")) && db.State() == old(db.State())
    ensures !Falsy(name) && !Falsy(description) ==>
              db.playlists == UpdateById(old(db.playlists), playlist.id, p => Renamed(p, name, description))
              && db.State() == old(db.State()).(playlists := db.playlists)
              && (FindById(old(db.playlists), playlist.id).None? ==> r == Throw(Fail(500, "Failed to update playlist")))
              && (FindById(old(db.playlists), playlist.id).Some? ==>
                    r == Ok(200, UpdatedOne(old(db.playlists), playlist.id, p => Renamed(p, name, description)).value,
                            "Playlist updated successfully"))
  {
    if Falsy(name) || Falsy(description) {
      return Throw(Fail(400, "Name and description are required"));
    }
    r := UpdatePlaylistById(db, playlist.id, p => Renamed(p, name, description),
      "Playlist updated successfully", "Failed to update playlist");
  }

  /** `deletePlaylist`, behind the playlist guard: removes the playlist with that id and answers
      200 with `{}` whether or not it was still there. */
  method DeletePlaylist(db: Store, playlist: Playlist) returns (r: Outcome<()>)
    requires db.Valid()
    modifies db
    ensures db.Valid()
    ensures forall p :: p in db.playlists <==> p in old(db.playlists) && p.id != playlist.id
    ensures db.playlists == RemoveById(old(db.playlists), playlist.id)
    ensures db.State() == old(db.State()).(playlists := db.playlists)
    ensures r == Ok(200, (), "Playlist deleted successfully")
  {
    RemoveByIdKeepsUnique(db.playlists, playlist.id);
    RemoveByIdMembers(db.playlists, playlist.id);
    db.playlists := RemoveById(db.playlists, playlist.id);
    return Ok(200, (), "Playlist deleted successfully");
  }

  /** Adding a video twice is the same as adding it once. */
  lemma AddVideoIdempotent(playlists: seq<Playlist>, id: Id, videoId: Id)
    ensures UpdateById(UpdateById(playlists, id, p => WithVideo(p, videoId)), id, p => WithVideo(p, videoId))
            == UpdateById(playlists, id, p => WithVideo(p, videoId))
  {
    var found := FindById(playlists, id);
    if found.Some? {
      var b := WithVideo(found.value.body, videoId);
      FindSetById(playlists, id, b, id);
      SetByIdTwice(playlists, id, b, WithVideo(b, videoId));
    }
  }

  /** Adding a video the playlist did not hold and then removing it restores the playlists exactly. */
  lemma AddThenRemoveRestores(playlists: seq<Playlist>, id: Id, videoId: Id)
    requires UniqueIds(playlists)
    requires FindById(playlists, id).Some? ==> videoId !in FindById(playlists, id).value.body.videos
    ensures UpdateById(UpdateById(playlists, id, p => WithVideo(p, videoId)), id, p => WithoutVideo(p, videoId)) == playlists
  {
    var found := FindById(playlists, id);
    if found.Some? {
      var p := found.value;
      var b := WithVideo(p.body, videoId);
      FindSetById(playlists, id, b, id);
      PullUndoesAdd(p.body.videos, videoId);
      assert WithoutVideo(b, videoId) == p.body;
      SetByIdTwice(playlists, id, b, p.body);
      SetByIdSame(playlists, id);
    }
  }

  /** After a removal the playlist holds no occurrence of the video, and the other entries keep
      their relative order: the result is the list split anywhere, with each part pulled. */
  lemma RemoveVideoKeepsOrder(p: PlaylistData, videoId: Id, i: nat)
    requires i <= |p.videos|
    ensures WithoutVideo(p, videoId).videos == Pull(p.videos[..i], videoId) + Pull(p.videos[i..], videoId)
  {
    var before, after := p.videos[..i], p.videos[i..];
    assert before + after == p.videos;
    PullConcat(before, after, videoId);
  }

  // ----- the two reads -----

  /** `getUserPlaylists`: the requester's playlists, newest first. The route's `:userId` is not read. */
  function GetUserPlaylists(playlists: seq<Playlist>, user: Id): (r: Outcome<seq<Playlist>>)
    ensures r.Ok? && r.status == 200 && r.message == "Playlists found successfully"
    ensures forall p :: p in r.data <==> p in playlists && p.body.owner == user
    ensures multiset(r.data) == multiset(Where(playlists, (p: Playlist) => p.body.owner == user))
    ensures forall i, j :: 0 <= i < j < |r.data| ==> r.data[i].createdAt >= r.data[j].createdAt
  {
    var mine := Where(playlists, (p: Playlist) => p.body.owner == user);
    var sorted := NewestFirst(mine, (p: Playlist) => p.createdAt);
    assert forall p :: p in sorted <==> p in multiset(mine);
    Ok(200, sorted, "Playlists found successfully")
  }

  /** A video joined into a playlist (`$project: { title, thumbnail, createdAt, views }`). */
  datatype VideoSummary = VideoSummary(id: Id, title: string, thumbnail: string, createdAt: nat, views: nat)

  function VideoSummaryOf(v: Video): (s: VideoSummary)
    ensures s.id == v.id && s.createdAt == v.createdAt && s.views == v.body.views
  {
    VideoSummary(v.id, v.body.title, v.body.thumbnail, v.createdAt, v.body.views)
  }

  /** A playlist as shown: its videos replaced by summaries, its owner by the first matching user. */
  datatype PlaylistView = PlaylistView(
    id: Id, name: Option<string>, description: Option<string>,
    videos: seq<VideoSummary>, owner: Option<UserSummary>, createdAt: nat)

  /** `getPlaylistById`: read by anyone (the route has no owner guard); the answer is `playlist[0]`,
      absent when there is no such playlist, and the status is 200 either way. */
  function GetPlaylistById(playlists: seq<Playlist>, videos: seq<Video>, users: seq<User>, playlistId: Id)
    : (r: Outcome<Option<PlaylistView>>)
    ensures r.Ok? && r.status == 200 && r.message == "Playlist found successfully"
    ensures r.data.Some? <==> FindById(playlists, playlistId).Some?
    ensures r.data.Some? ==>
              var p := FindById(playlists, playlistId).value;
              && r.data.value.id == p.id && r.data.value.createdAt == p.createdAt
              && r.data.value.name == p.body.name && r.data.value.description == p.body.description
              && r.data.value.owner == SummaryOf(users, p.body.owner)
              && (forall v :: v in videos && v.id in p.body.videos ==> VideoSummaryOf(v) in r.data.value.videos)
              && (forall s :: s in r.data.value.videos ==>
                    exists v :: v in videos && v.id in p.body.videos && s == VideoSummaryOf(v))
  {
    match FindById(playlists, playlistId)
    case None => Ok(200, None, "Playlist found successfully")
    case Some(p) =>
      var listed := Where(videos, (v: Video) => v.id in p.body.videos);
      var summaries := Project(listed, VideoSummaryOf);
      assert forall v :: v in listed ==> VideoSummaryOf(v) in summaries by {
        forall v | v in listed ensures VideoSummaryOf(v) in summaries {
          var k :| 0 <= k < |listed| && listed[k] == v;
          assert summaries[k] == VideoSummaryOf(v);
        }
      }
      assert forall s :: s in summaries ==> exists v :: v in videos && v.id in p.body.videos && s == VideoSummaryOf(v) by {
        forall s | s in summaries ensures exists v :: v in videos && v.id in p.body.videos && s == VideoSummaryOf(v) {
          var k :| 0 <= k < |summaries| && summaries[k] == s;
          assert listed[k] in listed;
        }
      }
      Ok(200, Some(PlaylistView(p.id, p.body.name, p.body.description, summaries, SummaryOf(users, p.body.owner), p.createdAt)),
         "Playlist found successfully")
  }
}
