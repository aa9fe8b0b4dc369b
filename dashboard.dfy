/**
 * The channel dashboard (src/controllers/dashboard.controllers.js): the
 * requester's statistics and the list of their videos. Both handlers only
 * read the store.
 */
module Dashboard {

  import opened Base
  import opened Api
  import opened Collection
  import opened Entities
  import opened Videos

  /** `{ owner: userId }`: the videos of a channel, in natural order. */
  function OwnedBy(videos: seq<Video>, user: Id): (r: seq<Video>)
    ensures forall v :: v in r <==> v in videos && v.body.owner == user
  {
    Where(videos, (v: Video) => v.body.owner == user)
  }

  /** `$sum: "$views"` over a sequence of videos. */
  function SumViews(videos: seq<Video>): nat
  {
    if videos == [] then 0 else videos[0].body.views + SumViews(videos[1..])
  }

  /** Whether a like is on one of the given videos (`video: { $in: ids }`); a like of a comment or a
      tweet has no `video` field and never matches. */
  predicate OnOneOf(l: Like, ids: seq<Id>)
  {
    l.body.target.OnVideo? && l.body.target.video in ids
  }

  /** The ids of a sequence of videos, in order (`videos.map(video => video._id)`). */
  function IdsOf(videos: seq<Video>): (r: seq<Id>)
    ensures |r| == |videos|
    ensures forall id :: id in r <==> exists v :: v in videos && v.id == id
  {
    var r := Project(videos, (v: Video) => v.id);
    assert forall k :: 0 <= k < |videos| ==> videos[k] in videos && r[k] in r;
    r
  }

  /** The `$group` result: `_id: null` and the sum. */
  datatype ViewsGroup = ViewsGroup(totalViews: nat)

  datatype ChannelStats = ChannelStats(
    totalVideos: nat, totalSubscribers: nat, totalVideoViews: seq<ViewsGroup>, totalVideoLikes: nat)

  /**
   * `getChannelStats`: the number of the requester's videos and of the subscriptions to their
   * channel; the views summed in a group, which has no element when the requester owns no video;
   * and the number of likes on any of the requester's videos.
   */
  function GetChannelStats(videos: seq<Video>, subscriptions: seq<Subscription>, likes: seq<Like>, user: Id)
    : (r: Outcome<ChannelStats>)
    ensures r.Ok? && r.status == 200 && r.message == "Channel stats found successfully"
    ensures r.data.totalVideos == |OwnedBy(videos, user)|
    ensures r.data.totalSubscribers == |Where(subscriptions, (s: Subscription) => s.body.channel == user)|
    ensures r.data.totalVideoViews == if OwnedBy(videos, user) == [] then [] else [ViewsGroup(SumViews(OwnedBy(videos, user)))]
    ensures r.data.totalVideoLikes == |Where(likes, (l: Like) => OnOneOf(l, IdsOf(OwnedBy(videos, user))))|
  {
    var owned := OwnedBy(videos, user);
    var views := if owned == [] then [] else [ViewsGroup(SumViews(owned))];
    var ids := IdsOf(NewestFirst(owned, (v: Video) => v.createdAt));
    LikedIdsIgnoreOrder(likes, owned, NewestFirst(owned, (v: Video) => v.createdAt));
    Ok(200, ChannelStats(|owned|, |Where(subscriptions, (s: Subscription) => s.body.channel == user)|, views,
                         |Where(likes, (l: Like) => OnOneOf(l, ids))|),
       "Channel stats found successfully")
  }

  /** `$in` over the ids of the same videos in another order selects the same likes. */
  lemma LikedIdsIgnoreOrder(likes: seq<Like>, a: seq<Video>, b: seq<Video>)
    requires multiset(a) == multiset(b)
    ensures Where(likes, (l: Like) => OnOneOf(l, IdsOf(a))) == Where(likes, (l: Like) => OnOneOf(l, IdsOf(b)))
  {
    forall id ensures id in IdsOf(a) <==> id in IdsOf(b) {
      if id in IdsOf(a) {
        var v :| v in a && v.id == id;
        assert v in multiset(b);
      }
      if id in IdsOf(b) {
        var v :| v in b && v.id == id;
        assert v in multiset(a);
      }
    }
    WhereAgrees(likes, (l: Like) => OnOneOf(l, IdsOf(a)), (l: Like) => OnOneOf(l, IdsOf(b)));
  }

  /** Watching one of the requester's videos raises their total views by exactly one; watching
      anybody else's leaves it. */
  lemma ViewRaisesChannelViews(videos: seq<Video>, i: nat, user: Id)
    requires UniqueIds(videos) && i < |videos|
    ensures var after := UpdateById(videos, videos[i].id, Viewed);
            SumViews(OwnedBy(after, user))
            == SumViews(OwnedBy(videos, user)) + (if videos[i].body.owner == user then 1 else 0)
  {
    var d := videos[i];
    var b := Viewed(d.body);
    FindByIdUnique(videos, i);
    OwnedSetById(videos, d.id, b, user);
  }

  /** Setting under `id` a body that keeps the owner changes the owner's total views by the
      difference between the new and the stored views, and no other channel's total. */
  lemma {:induction false} OwnedSetById(videos: seq<Video>, id: Id, b: VideoData, user: Id)
    requires UniqueIds(videos) && FindById(videos, id).Some? && FindById(videos, id).value.body.owner == b.owner
    ensures SumViews(OwnedBy(SetById(videos, id, b), user))
            == SumViews(OwnedBy(videos, user)) - (if b.owner == user then FindById(videos, id).value.body.views else 0)
               + (if b.owner == user then b.views else 0)
    decreases |videos|
  {
    var r := SetById(videos, id, b);
    assert r[1..] == SetById(videos[1..], id, b);
    assert forall j :: 0 <= j < |videos[1..]| ==> videos[1..][j] == videos[j + 1];
    if videos[0].id == id {
      assert r[1..] == videos[1..];
    } else {
      OwnedSetById(videos[1..], id, b, user);
    }
  }

  /** A like of a comment or a tweet never counts among the channel's video likes, whatever its id. */
  lemma OtherLikesNotCounted(videos: seq<Video>, likes: seq<Like>, l: Like, user: Id)
    requires !l.body.target.OnVideo?
    ensures var ids := IdsOf(OwnedBy(videos, user));
            |Where(likes + [l], (l: Like) => OnOneOf(l, ids))| == |Where(likes, (l: Like) => OnOneOf(l, ids))|
  {
    WhereAppend(likes, l, (l: Like) => OnOneOf(l, IdsOf(OwnedBy(videos, user))));
  }

  /** A new like of one of the channel's videos counts once more. */
  lemma VideoLikeCounted(videos: seq<Video>, likes: seq<Like>, l: Like, user: Id)
    requires l.body.target.OnVideo? && exists v :: v in videos && v.body.owner == user && v.id == l.body.target.video
    ensures var ids := IdsOf(OwnedBy(videos, user));
            |Where(likes + [l], (l: Like) => OnOneOf(l, ids))| == |Where(likes, (l: Like) => OnOneOf(l, ids))| + 1
  {
    WhereAppend(likes, l, (l: Like) => OnOneOf(l, IdsOf(OwnedBy(videos, user))));
  }

  // ----- the channel's videos -----

  /** A video as the channel lists it: every field but `owner`, unpublished ones included. */
  datatype ChannelVideo = ChannelVideo(
    id: Id, createdAt: nat, videoFile: string, thumbnail: string, title: string, description: string,
    duration: string, views: nat, isPublished: bool)

  function ChannelVideoOf(v: Video): (c: ChannelVideo)
  {
    ChannelVideo(v.id, v.createdAt, v.body.videoFile, v.body.thumbnail, v.body.title, v.body.description,
                 v.body.duration, v.body.views, v.body.isPublished)
  }

  /** `getChannelVideos`: one entry per video of the requester, published or not, newest first. */
  function GetChannelVideos(videos: seq<Video>, user: Id): (r: Outcome<seq<ChannelVideo>>)
    ensures r.Ok? && r.status == 200 && r.message == "Channel videos found successfully"
    ensures |r.data| == |OwnedBy(videos, user)|
    ensures forall v :: v in videos && v.body.owner == user ==> ChannelVideoOf(v) in r.data
    ensures forall c :: c in r.data ==> exists v :: v in videos && v.body.owner == user && c == ChannelVideoOf(v)
    ensures forall i, j :: 0 <= i < j < |r.data| ==> r.data[i].createdAt >= r.data[j].createdAt
  {
    ListedView(videos, (v: Video) => v.body.owner == user, ChannelVideoOf, (c: ChannelVideo) => c.createdAt);
    Ok(200, NewestFirst(Project(OwnedBy(videos, user), ChannelVideoOf), (c: ChannelVideo) => c.createdAt),
       "Channel videos found successfully")
  }

  /** The statistics agree with the list: as many videos, and the views summed over the same videos. */
  lemma StatsAgreeWithList(videos: seq<Video>, subscriptions: seq<Subscription>, likes: seq<Like>, user: Id)
    ensures GetChannelStats(videos, subscriptions, likes, user).data.totalVideos == |GetChannelVideos(videos, user).data|
    ensures GetChannelVideos(videos, user).data == [] <==>
            GetChannelStats(videos, subscriptions, likes, user).data.totalVideoViews == []
  {
  }
}
