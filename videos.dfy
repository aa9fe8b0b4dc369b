/**
 * Videos (src/controllers/video.controllers.js): the public listing, publishing
 * with its uploads and clean-up, watching (view count and watch history), and
 * the owner's changes behind the video guard (edit, delete, publish toggle).
 * The media service and the local file system are outside the model: what the
 * handler asks of them is returned as a log of effects, and what they answer
 * is a parameter.
 */
module Videos {

  import opened Base
  import opened Api
  import opened Collection
  import opened Entities

  // ----- listing -----

  /** The sort fields the listing is modelled for; `NoSort` is an empty `sortBy`. */
  datatype SortField = NoSort | ByCreatedAt | ByViews

  /** The listing's query string, each parameter missing or given. */
  datatype VideoQuery = VideoQuery(
    page: Option<nat>, limit: Option<nat>, query: Option<string>,
    sortBy: Option<SortField>, sortType: Option<string>, userId: Option<Id>)

  /** The listing's answer: a page and the number of all matching videos. */
  datatype VideoList = VideoList(videos: seq<Video>, total: nat)

  function PageOf(q: VideoQuery): nat { if q.page.Some? then q.page.value else 1 }

  function LimitOf(q: VideoQuery): nat { if q.limit.Some? then q.limit.value else 10 }

  function SortFieldOf(q: VideoQuery): SortField { if q.sortBy.Some? then q.sortBy.value else ByCreatedAt }

  /** `sortType === 'asc' ? 1 : -1`, with `'desc'` when missing. */
  predicate Ascending(q: VideoQuery)
  {
    q.sortType == Some("asc")
  }

  /** The filter: published, with a title the search matches when a search is given, and owned by
      `userId` when that is given. The case-insensitive pattern match is the parameter `matches`. */
  predicate Listed(v: Video, q: VideoQuery, matches: (string, string) -> bool)
  {
    && v.body.isPublished
    && (Falsy(q.query) || matches(q.query.value, v.body.title))
    && (q.userId.None? || v.body.owner == q.userId.value)
  }

  /** The value the listing sorts on, negated for a descending sort. */
  function SortKey(q: VideoQuery, v: Video): int
  {
    var field := match SortFieldOf(q)
      case NoSort => 0
      case ByCreatedAt => v.createdAt
      case ByViews => v.body.views;
    if Ascending(q) then field else -field
  }

  function Matching(videos: seq<Video>, q: VideoQuery, matches: (string, string) -> bool): (r: seq<Video>)
    ensures forall v :: v in r <==> v in videos && Listed(v, q, matches)
  {
    Where(videos, v => Listed(v, q, matches))
  }

  /** The matching videos in the order the sort gives them: natural order when nothing is sorted. */
  function Ordered(videos: seq<Video>, q: VideoQuery, matches: (string, string) -> bool): (r: seq<Video>)
    ensures multiset(r) == multiset(Matching(videos, q, matches))
    ensures SortedBy(r, v => SortKey(q, v))
  {
    if SortFieldOf(q) == NoSort then Matching(videos, q, matches)
    else SortBy(Matching(videos, q, matches), v => SortKey(q, v))
  }

  /**
   * `getAllVideos`: the page of the sorted matching videos at offset `(page - 1) * limit`, and
   * the count of every matching video. An empty page is answered 404 directly; a negative
   * offset is refused by the database and reported as 500.
   */
  function GetAllVideos(videos: seq<Video>, q: VideoQuery, matches: (string, string) -> bool): (r: Outcome<VideoList>)
    ensures Paged(Ordered(videos, q, matches), PageOf(q), LimitOf(q)).None? <==>
            r == Throw(Fail(500, "Failed to fetch videos"))
    ensures Paged(Ordered(videos, q, matches), PageOf(q), LimitOf(q)) == Some([]) <==>
            r == Replied(404, Fail(404, "No videos found"))
    ensures r.Ok? ==> r.status == 200 && r.message == "Videos retrieved successfully"
    ensures r.Ok? ==> r.data.total == |Matching(videos, q, matches)|
    ensures r.Ok? ==> r.data.videos != [] && forall v :: v in r.data.videos ==> v in videos && Listed(v, q, matches)
    ensures r.Ok? ==> SortedBy(r.data.videos, v => SortKey(q, v))
    ensures r.Ok? && LimitOf(q) > 0 ==> |r.data.videos| <= LimitOf(q)
    ensures r.Ok? && PageOf(q) >= 1 && LimitOf(q) >= 1 ==>
              r.data.videos == Window(Ordered(videos, q, matches), PageOf(q), LimitOf(q))
    ensures r.Ok? && LimitOf(q) == 0 ==> r.data.videos == Ordered(videos, q, matches)
  {
    var ordered := Ordered(videos, q, matches);
    match Paged(ordered, PageOf(q), LimitOf(q))
    case None => Throw(Fail(500, "Failed to fetch videos"))
    case Some(page) =>
      if |page| == 0 then Replied(404, Fail(404, "No videos found"))
      else
        PagedFacts(ordered, PageOf(q), LimitOf(q), v => SortKey(q, v));
        assert forall v :: v in ordered ==> v in multiset(Matching(videos, q, matches));
        Ok(200, VideoList(page, |Matching(videos, q, matches)|), "Videos retrieved successfully")
  }

  /** Only `sortType == 'asc'` sorts ascending: any other value, or none, sorts the listing
      newest (or most viewed) first. */
  lemma SortDirection(videos: seq<Video>, q: VideoQuery, matches: (string, string) -> bool)
    requires SortFieldOf(q) == ByCreatedAt
    ensures var r := Ordered(videos, q, matches);
            forall i, j :: 0 <= i < j < |r| ==>
              if q.sortType == Some("asc") then r[i].createdAt <= r[j].createdAt else r[i].createdAt >= r[j].createdAt
  {
    var r := Ordered(videos, q, matches);
    assert SortedBy(r, v => SortKey(q, v));
    forall i, j | 0 <= i < j < |r|
      ensures if q.sortType == Some("asc") then r[i].createdAt <= r[j].createdAt else r[i].createdAt >= r[j].createdAt
    {
      assert SortKey(q, r[i]) <= SortKey(q, r[j]);
    }
  }

  // ----- publishing -----

  /** What the media service did with an upload: stored it, resolved with nothing, or failed. */
  datatype Upload = Uploaded(url: string, publicId: string) | NoResult | Rejected

  /** What a handler asks of the world outside the database, in order. */
  datatype Effect = Unlink(path: string) | UploadFile(path: string) | DeleteRemote(publicId: string)

  /** The compensating delete for one upload: only something that was stored is deleted. */
  function Cleanup(u: Upload): (r: seq<Effect>)
    ensures u.Uploaded? ==> r == [DeleteRemote(u.publicId)]
    ensures !u.Uploaded? ==> r == []
  {
    if u.Uploaded? then [DeleteRemote(u.publicId)] else []
  }

  /**
   * The checks `publishAVideo` makes before any upload, in order: a principal (401), both local
   * files (400), no blank title, description or duration (400, after deleting both local files).
   * The result is the error and the effects it had, or nothing when the request passes.
   */
  function PublishChecks(owner: Option<Id>, videoFilePath: Option<string>, thumbnailPath: Option<string>,
                         title: Option<string>, description: Option<string>, duration: Option<string>)
    : (r: Option<(Error, seq<Effect>)>)
    ensures owner.None? ==> r == Some((Fail(401, "Unauthorized user"), []))
    ensures owner.Some? && (Falsy(videoFilePath) || Falsy(thumbnailPath)) ==>
              r == Some((Fail(400, "Video file and thumbnail are required"), []))
    ensures owner.Some? && !Falsy(videoFilePath) && !Falsy(thumbnailPath)
            && (Blank(title) || Blank(description) || Blank(duration)) ==>
              r == Some((Fail(400, "All fields are required"), [Unlink(videoFilePath.value), Unlink(thumbnailPath.value)]))
    ensures r.None? <==> owner.Some? && !Falsy(videoFilePath) && !Falsy(thumbnailPath)
                         && !Blank(title) && !Blank(description) && !Blank(duration)
  {
    if owner.None? then Some((Fail(401, "Unauthorized user"), []))
    else if Falsy(videoFilePath) || Falsy(thumbnailPath) then
      Some((Fail(400, "Video file and thumbnail are required"), []))
    else if Blank(title) || Blank(description) || Blank(duration) then
      Some((Fail(400, "All fields are required"), [Unlink(videoFilePath.value), Unlink(thumbnailPath.value)]))
    else None
  }

  /**
   * `publishAVideo`. After the checks, the video and the thumbnail are uploaded one after the
   * other, and a failed upload ends the request with 500 without undoing the other; then the
   * document is stored and read back (201). If that last step fails, whatever was uploaded is
   * deleted again. `saved` says whether the database accepted the document.
   */
  method PublishAVideo(
    db: Store, owner: Option<Id>, videoFilePath: Option<string>, thumbnailPath: Option<string>,
    title: Option<string>, description: Option<string>, duration: Option<string>,
    videoUpload: Upload, thumbnailUpload: Upload, saved: bool)
    returns (r: Outcome<Video>, effects: seq<Effect>)
    requires db.Valid()
    modifies db
    ensures db.Valid()
    ensures var checks := PublishChecks(owner, videoFilePath, thumbnailPath, title, description, duration);
            checks.Some? ==> r == Throw(checks.value.0) && effects == checks.value.1 && db.State() == old(db.State())
    ensures PublishChecks(owner, videoFilePath, thumbnailPath, title, description, duration).None? ==>
              if videoUpload.Rejected? then
                r == Throw(Fail(500, "Failed to upload video")) && effects == [UploadFile(videoFilePath.value)]
                && db.State() == old(db.State())
              else if thumbnailUpload.Rejected? then
                r == Throw(Fail(500, "Failed to upload thumbnail"))
                && effects == [UploadFile(videoFilePath.value), UploadFile(thumbnailPath.value)]
                && db.State() == old(db.State())
              else if !(videoUpload.Uploaded? && thumbnailUpload.Uploaded? && saved) then
                r == Throw(Fail(500, "Failed to create video"))
                && effects == [UploadFile(videoFilePath.value), UploadFile(thumbnailPath.value)]
                               + Cleanup(videoUpload) + Cleanup(thumbnailUpload)
                && db.videos == old(db.videos)
                && db.State() == old(db.State()).(next := db.next)
              else
                var created := Doc(Id(old(db.next)), old(db.next),
                  VideoData(videoUpload.url, thumbnailUpload.url, title.value, description.value, duration.value,
                            0, false, owner.value));
                && r == Ok(201, created, "Video created successfully")
                && effects == [UploadFile(videoFilePath.value), UploadFile(thumbnailPath.value)]
                && db.videos == old(db.videos) + [created]
                && db.State() == old(db.State()).(videos := db.videos, next := old(db.next) + 1)
    ensures r == Throw(Fail(500, "Failed to create video")) ==>
              && (videoUpload.Uploaded? ==> DeleteRemote(videoUpload.publicId) in effects)
              && (thumbnailUpload.Uploaded? ==> DeleteRemote(thumbnailUpload.publicId) in effects)
    ensures forall e :: e in effects && e.DeleteRemote? ==>
              && r == Throw(Fail(500, "Failed to create video"))
              && ((videoUpload.Uploaded? && e.publicId == videoUpload.publicId)
                  || (thumbnailUpload.Uploaded? && e.publicId == thumbnailUpload.publicId))
  {
    var checks := PublishChecks(owner, videoFilePath, thumbnailPath, title, description, duration);
    if checks.Some? {
      return Throw(checks.value.0), checks.value.1;
    }
    effects := [UploadFile(videoFilePath.value)];
    if videoUpload.Rejected? {
      return Throw(Fail(500, "Failed to upload video")), effects;
    }
    effects := [UploadFile(videoFilePath.value), UploadFile(thumbnailPath.value)];
    if thumbnailUpload.Rejected? {
      return Throw(Fail(500, "Failed to upload thumbnail")), effects;
    }
    var cleanup;
    r, cleanup := SaveVideo(db, owner.value, title.value, description.value, duration.value,
                            videoUpload, thumbnailUpload, saved);
    effects := [UploadFile(videoFilePath.value), UploadFile(thumbnailPath.value)] + cleanup;
    PublishFailureDeletesUploads(videoFilePath.value, thumbnailPath.value, videoUpload, thumbnailUpload);
  }

  /**
   * The `try` block of `publishAVideo` and its `catch`: reading `.url` of a missing upload result
   * throws before the document exists; otherwise the document is saved and read back. On any
   * failure every upload that was stored is deleted again.
   */
  method SaveVideo(db: Store, owner: Id, title: string, description: string, duration: string,
                   videoUpload: Upload, thumbnailUpload: Upload, saved: bool)
    returns (r: Outcome<Video>, cleanup: seq<Effect>)
    requires db.Valid()
    modifies db
    ensures db.Valid()
    ensures !(videoUpload.Uploaded? && thumbnailUpload.Uploaded? && saved) ==>
              r == Throw(Fail(500, "Failed to create video"))
              && cleanup == Cleanup(videoUpload) + Cleanup(thumbnailUpload)
              && db.videos == old(db.videos)
              && db.State() == old(db.State()).(next := db.next)
    ensures videoUpload.Uploaded? && thumbnailUpload.Uploaded? && saved ==>
              var created := Doc(Id(old(db.next)), old(db.next),
                VideoData(videoUpload.url, thumbnailUpload.url, title, description, duration, 0, false, owner));
              && r == Ok(201, created, "Video created successfully")
              && cleanup == []
              && db.videos == old(db.videos) + [created]
              && db.State() == old(db.State()).(videos := db.videos, next := old(db.next) + 1)
  {
    if videoUpload.Uploaded? && thumbnailUpload.Uploaded? {
      var id, now := db.NewDoc();
      if saved {
        ghost var before := db.videos;
        var created := Doc(id, now, VideoData(videoUpload.url, thumbnailUpload.url, title,
                                              description, duration, 0, false, owner));
        db.videos := db.videos + [created];
        AppendFresh(before, created, id.n);
        var reread := FindById(db.videos, id);
        if reread.Some? {
          return Ok(201, reread.value, "Video created successfully"), [];
        }
      }
    }
    return Throw(Fail(500, "Failed to create video")), Cleanup(videoUpload) + Cleanup(thumbnailUpload);
  }

  /** The effects of a failed save after both uploads: each upload that was stored gets its
      delete, and nothing else is deleted. */
  lemma PublishFailureDeletesUploads(vp: string, tp: string, v: Upload, t: Upload)
    ensures var log := [UploadFile(vp), UploadFile(tp)] + Cleanup(v) + Cleanup(t);
            && (v.Uploaded? ==> DeleteRemote(v.publicId) in log)
            && (t.Uploaded? ==> DeleteRemote(t.publicId) in log)
            && forall e :: e in log && e.DeleteRemote? ==>
                 (v.Uploaded? && e.publicId == v.publicId) || (t.Uploaded? && e.publicId == t.publicId)
  {
    var log := [UploadFile(vp), UploadFile(tp)] + Cleanup(v) + Cleanup(t);
    if v.Uploaded? && t.Uploaded? {
      assert log == [UploadFile(vp), UploadFile(tp), DeleteRemote(v.publicId), DeleteRemote(t.publicId)];
    } else if v.Uploaded? {
      assert log == [UploadFile(vp), UploadFile(tp), DeleteRemote(v.publicId)];
    } else if t.Uploaded? {
      assert log == [UploadFile(vp), UploadFile(tp), DeleteRemote(t.publicId)];
    } else {
      assert log == [UploadFile(vp), UploadFile(tp)];
    }
  }

  // ----- watching -----

  /** `$addToSet: { watchHistory: videoId }`. */
  function Watched(u: UserData, videoId: Id): (r: UserData)
    ensures videoId in r.watchHistory
    ensures r.username == u.username && r.fullName == u.fullName && r.email == u.email
  {
    u.(watchHistory := AddToSet(u.watchHistory, videoId))
  }

  /** `$inc: { views: 1 }`. */
  function Viewed(v: VideoData): (r: VideoData)
    ensures r.views == v.views + 1
    ensures r.(views := v.views) == v
  {
    v.(views := v.views + 1)
  }

  /**
   * `getVideoById`: first the viewer's watch history gets the id (even when there is no such
   * video), then the video's views go up by one; a missing video is then 404.
   */
  method GetVideoById(db: Store, user: Id, videoId: Id) returns (r: Outcome<Video>)
    requires db.Valid()
    modifies db
    ensures db.Valid()
    ensures db.users == UpdateById(old(db.users), user, u => Watched(u, videoId))
    ensures db.videos == UpdateById(old(db.videos), videoId, Viewed)
    ensures db.State() == old(db.State()).(users := db.users, videos := db.videos)
    ensures FindById(old(db.videos), videoId).None? ==> r == Throw(Fail(404, "Video not found"))
    ensures FindById(old(db.videos), videoId).Some? ==>
              r == Ok(200, UpdatedOne(old(db.videos), videoId, Viewed).value, "Video found successfully")
              && r.data.body.views == FindById(old(db.videos), videoId).value.body.views + 1
  {
    var viewer := FindById(db.users, user);
    if viewer.Some? {
      SetByIdKeepsIds(db.users, user, Watched(viewer.value.body, videoId), db.next);
      db.users := SetById(db.users, user, Watched(viewer.value.body, videoId));
    }
    var video := FindById(db.videos, videoId);
    if video.None? {
      return Throw(Fail(404, "Video not found"));
    }
    SetByIdKeepsIds(db.videos, videoId, Viewed(video.value.body), db.next);
    db.videos := SetById(db.videos, videoId, Viewed(video.value.body));
    return Ok(200, video.value.(body := Viewed(video.value.body)), "Video found successfully");
  }

  /** The videos after `n` requests for `videoId`. */
  function ViewedTimes(videos: seq<Video>, videoId: Id, n: nat): seq<Video>
  {
    if n == 0 then videos else UpdateById(ViewedTimes(videos, videoId, n - 1), videoId, Viewed)
  }

  /** The users after `n` requests by `user` for `videoId`. */
  function WatchedTimes(users: seq<User>, user: Id, videoId: Id, n: nat): seq<User>
  {
    if n == 0 then users else UpdateById(WatchedTimes(users, user, videoId, n - 1), user, u => Watched(u, videoId))
  }

  /** `n` requests for an existing video raise its views by exactly `n` and change nothing else in it. */
  lemma {:induction false} ViewsGrowByRequests(videos: seq<Video>, videoId: Id, n: nat)
    requires FindById(videos, videoId).Some?
    ensures FindById(ViewedTimes(videos, videoId, n), videoId).Some?
    ensures var before := FindById(videos, videoId).value;
            var after := FindById(ViewedTimes(videos, videoId, n), videoId).value;
            after.body.views == before.body.views + n && after.body.(views := before.body.views) == before.body
            && after.id == before.id && after.createdAt == before.createdAt
  {
    if n > 0 {
      ViewsGrowByRequests(videos, videoId, n - 1);
      UpdateByIdFrames(ViewedTimes(videos, videoId, n - 1), videoId, Viewed, videoId);
    }
  }

  /** However often a user watches a video, the history becomes what one `$addToSet` makes of it:
      the video is appended once if it was not there, and a repeat watch changes nothing. */
  lemma {:induction false} HistoryHoldsVideoOnce(users: seq<User>, user: Id, videoId: Id, n: nat)
    requires n >= 1 && FindById(users, user).Some?
    ensures FindById(WatchedTimes(users, user, videoId, n), user).Some?
    ensures var before := FindById(users, user).value.body.watchHistory;
            var history := FindById(WatchedTimes(users, user, videoId, n), user).value.body.watchHistory;
            && history == (if videoId in before then before else before + [videoId])
            && multiset(history)[videoId] == (if videoId in before then multiset(before)[videoId] else 1)
  {
    var before := FindById(users, user).value.body.watchHistory;
    UpdateByIdFrames(WatchedTimes(users, user, videoId, n - 1), user, u => Watched(u, videoId), user);
    if n > 1 {
      HistoryHoldsVideoOnce(users, user, videoId, n - 1);
    } else {
      UpdateByIdFrames(users, user, u => Watched(u, videoId), user);
    }
    AddToSetOccurrences(before, videoId);
  }

  // ----- the owner's changes, behind the video guard -----

  /** `$set: { title, description, thumbnail }`. */
  function Edited(v: VideoData, title: string, description: string, thumbnail: string): (r: VideoData)
    ensures r.title == title && r.description == description && r.thumbnail == thumbnail
    ensures r.(title := v.title, description := v.description, thumbnail := v.thumbnail) == v
  {
    v.(title := title, description := description, thumbnail := thumbnail)
  }

  /**
   * `updateVideo`: a thumbnail file is required (400), then a title and a description (400);
   * the thumbnail is uploaded outside any `try`, so a failed upload or a missing result reaches
   * the error middleware as it is; an upload without a URL is 500. The answer is 200 even when
   * the video is no longer stored.
   */
  method UpdateVideo(db: Store, video: Video, title: Option<string>, description: Option<string>,
                     thumbnailPath: Option<string>, upload: Upload)
    returns (r: Outcome<Option<Video>>, effects: seq<Effect>)
    requires db.Valid()
    modifies db
    ensures db.Valid()
    ensures Falsy(thumbnailPath) ==> r == Throw(Fail(400, "Thumbnail is required")) && effects == []
    ensures !Falsy(thumbnailPath) && (Falsy(title) || Falsy(description)) ==>
              r == Throw(Fail(400, "Title and description are required")) && effects == []
    ensures !Falsy(thumbnailPath) && !Falsy(title) && !Falsy(description) ==> effects == [UploadFile(thumbnailPath.value)]
    ensures !Falsy(thumbnailPath) && !Falsy(title) && !Falsy(description) && !upload.Uploaded? ==>
              r.Throw? && r.error.OtherError?
    ensures !Falsy(thumbnailPath) && !Falsy(title) && !Falsy(description) && upload.Uploaded? && upload.url == "" ==>
              r == Throw(Fail(500, "Failed to upload thumbnail"))
    ensures !(!Falsy(thumbnailPath) && !Falsy(title) && !Falsy(description) && upload.Uploaded? && upload.url != "") ==>
              db.State() == old(db.State())
    ensures !Falsy(thumbnailPath) && !Falsy(title) && !Falsy(description) && upload.Uploaded? && upload.url != "" ==>
              var edit := (v: VideoData) => Edited(v, title.value, description.value, upload.url);
              && db.videos == UpdateById(old(db.videos), video.id, edit)
              && db.State() == old(db.State()).(videos := db.videos)
              && r == Ok(200, UpdatedOne(old(db.videos), video.id, edit), "Video updated successfully")
  {
    effects := [];
    if Falsy(thumbnailPath) {
      return Throw(Fail(400, "Thumbnail is required")), effects;
    }
    if Falsy(title) || Falsy(description) {
      return Throw(Fail(400, "Title and description are required")), effects;
    }
    effects := [UploadFile(thumbnailPath.value)];
    match upload {
      case Rejected =>
        return Throw(OtherError("upload rejected")), effects;
      case NoResult =>
        return Throw(OtherError("Cannot read properties of null (reading 'url')")), effects;
      case Uploaded(url, _) =>
        if url == "" {
          return Throw(Fail(500, "Failed to upload thumbnail")), effects;
        }
        var edit := (v: VideoData) => Edited(v, title.value, description.value, url);
        var found := FindById(db.videos, video.id);
        if found.Some? {
          SetByIdKeepsIds(db.videos, video.id, edit(found.value.body), db.next);
          db.videos := SetById(db.videos, video.id, edit(found.value.body));
          return Ok(200, Some(found.value.(body := edit(found.value.body))), "Video updated successfully"), effects;
        }
        return Ok(200, None, "Video updated successfully"), effects;
    }
  }

  /** `deleteVideo`: removes the video with that id (its likes, comments and playlist entries stay). */
  method DeleteVideo(db: Store, video: Video) returns (r: Outcome<()>)
    requires db.Valid()
    modifies db
    ensures db.Valid()
    ensures forall v :: v in db.videos <==> v in old(db.videos) && v.id != video.id
    ensures db.videos == RemoveById(old(db.videos), video.id)
    ensures db.State() == old(db.State()).(videos := db.videos)
    ensures r == Ok(200, (), "Video deleted successfully")
  {
    RemoveByIdKeepsUnique(db.videos, video.id);
    RemoveByIdMembers(db.videos, video.id);
    db.videos := RemoveById(db.videos, video.id);
    return Ok(200, (), "Video deleted successfully");
  }

  /** `$set: { isPublished: flag }`. */
  function Published(v: VideoData, flag: bool): (r: VideoData)
    ensures r.isPublished == flag && r.(isPublished := v.isPublished) == v
  {
    v.(isPublished := flag)
  }

  /** `togglePublishStatus`: sets `isPublished` to the negation of the flag in the guard's copy
      (`req.video`), not of the stored one; 200 even when the video is no longer stored. */
  method TogglePublishStatus(db: Store, video: Video) returns (r: Outcome<Option<Video>>)
    requires db.Valid()
    modifies db
    ensures db.Valid()
    ensures db.videos == UpdateById(old(db.videos), video.id, v => Published(v, !video.body.isPublished))
    ensures db.State() == old(db.State()).(videos := db.videos)
    ensures r == Ok(200, UpdatedOne(old(db.videos), video.id, v => Published(v, !video.body.isPublished)),
                    "Video publish status toggled successfully")
    ensures r.data.Some? ==> r.data.value.body.isPublished == !video.body.isPublished
  {
    var flip := (v: VideoData) => Published(v, !video.body.isPublished);
    var found := FindById(db.videos, video.id);
    if found.None? {
      return Ok(200, None, "Video publish status toggled successfully");
    }
    SetByIdKeepsIds(db.videos, video.id, flip(found.value.body), db.next);
    db.videos := SetById(db.videos, video.id, flip(found.value.body));
    return Ok(200, Some(found.value.(body := flip(found.value.body))), "Video publish status toggled successfully");
  }

  /** Toggling twice, each time with the copy the guard fetches just before, restores the videos. */
  lemma TogglePublishTwiceRestores(videos: seq<Video>, i: nat)
    requires UniqueIds(videos) && i < |videos|
    ensures var id := videos[i].id;
            var once := UpdateById(videos, id, v => Published(v, !videos[i].body.isPublished));
            var snapshot := FindById(once, id).value;
            UpdateById(once, id, v => Published(v, !snapshot.body.isPublished)) == videos
  {
    var id := videos[i].id;
    FindByIdUnique(videos, i);
    var b := Published(videos[i].body, !videos[i].body.isPublished);
    FindSetById(videos, id, b, id);
    SetByIdTwice(videos, id, b, videos[i].body);
    SetByIdSame(videos, id);
  }
}
