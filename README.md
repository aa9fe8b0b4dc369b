# Vidtube request handlers, modelled in Dafny

Vidtube is a video-platform backend (Express and MongoDB). Its logic lives in its request
handlers and in three ownership guards. A guard looks a resource up, fails 404 when it is
missing, compares owner and requester, fails 403 when they differ, and otherwise attaches the
resource. A handler validates the request, performs a few database steps (`findOne`, `create`,
`findByIdAndUpdate` with `$set`, `$inc`, `$addToSet` or `$pull`, `findByIdAndDelete`) and answers
`{ statusCode, data, message }`. Anything it throws ends up in one error middleware.

The model is a set of modules over one database and one answer type:

- `Base`: ObjectIds and their `toString()`, JavaScript `trim`, and the `!x` test.
- `Api`: the answers, and the error middleware of `src/app.js`.
- `Collection`: the effects of the database calls on a collection.
- `Entities`: the documents, and the `Store` class that holds every collection.
- One module per controller file: `Likes`, `Subscriptions`, `Playlists`, `Videos`, `Comments`,
  `Tweets`, `Dashboard`.
- `Guards`: the ownership guards.
- `Routes`: the guarded routes, each guard composed with its handler.

How the model is built:

- A collection is a sequence of documents in natural order. Each document has an `_id`, a
  `createdAt` stamp and a body.
- `Store.Valid()` says that ids are unique within each collection and lower than the store's
  counter. New documents take their id and stamp from that counter.
- A handler that writes is a method that `modifies` the store. Its contract states the whole new
  state: the collection it changes, as a function of the old one, and every other field
  unchanged (`State()`).
- A handler that only reads is a function of the collections.
- An outcome is one of three things:
  - `Ok(status, data, message)`, an `ApiResponse`;
  - `Replied(status, error)`, an error body the handler sends itself;
  - `Throw(error)`, a thrown `ApiError` or any other thrown value. It reaches the error middleware
    (`Api.HandleError`).
- Uploads to the media service, and the local files they come from, are an effect log plus the
  service's answers, which are passed in as parameters.

## Model

| member | source | states |
|---|---|---|
| Base.IdStringInjective | src/middlewares/auth.middlewares.js:37 | two ids have equal `toString()` exactly when they are the same id |
| Base.TrimEmptyIffAllWhitespace | src/controllers/comment.controllers.js:35 | `trim()` gives "" exactly when every character is ECMAScript whitespace |
| Base.BlankIsTrimEmpty | src/controllers/comment.controllers.js:35 | the blank test holds exactly for a missing value or one that trims to the empty string |
| Api.HandleError | src/app.js:44-62 | `success` is always false; an `ApiError` keeps its status, message and errors; any other error gives 500 "Internal Server Error" without errors |
| Api.OtherErrorsIndistinguishable | src/app.js:57-61 | any two non-`ApiError` values get the same response |
| Api.HandleErrorKeepsApiErrors | src/app.js:48-55 | two `ApiError`s get the same response exactly when they are equal |
| Collection.FindById | src/controllers/like.controllers.js:22 | the answer is a stored document with that id; null exactly when no document has that id |
| Collection.FindByIdUnique | src/controllers/like.controllers.js:22 | with unique ids, `findById` returns exactly the stored document |
| Collection.RemoveByIdMembers | src/controllers/like.controllers.js:13 | after `findByIdAndDelete(id)` exactly the documents with another id remain |
| Collection.RemoveByIdAt | src/controllers/like.controllers.js:10-13 | deleting by the id of the i-th document removes exactly that position |
| Collection.FindSetById | src/controllers/video.controllers.js:112-114 | after a `$set` under an id, a lookup finds the same document, with the new body under that id |
| Collection.UpdateByIdFrames | src/controllers/video.controllers.js:112-114 | the document answered by `findByIdAndUpdate(..., { new: true })` is the one then stored; documents under other ids are unchanged |
| Collection.Where | src/controllers/comment.controllers.js:11 | a filter keeps exactly the elements that satisfy it |
| Collection.WhereAppend | src/controllers/comment.controllers.js:21 | an appended document joins a filter's result exactly when it satisfies the filter |
| Collection.WhereRemoveById | src/controllers/comment.controllers.js:21 | a delete lowers a filter's count by one exactly when the deleted document satisfied it |
| Collection.WhereSetById | src/controllers/comment.controllers.js:21 | a `$set` that keeps documents on their side of a filter keeps its count |
| Collection.SortBy | src/controllers/video.controllers.js:27 | the result is sorted on the key and is a permutation of the input |
| Collection.NewestFirst | src/controllers/playlist.controllers.js:28 | `sort({ createdAt: -1 })` returns the same documents with non-increasing stamps |
| Collection.ListedView | src/controllers/tweet.controllers.js:60-61 | a filtered, projected, newest-first listing has one entry per selected document, and only those entries |
| Collection.Paged | src/controllers/video.controllers.js:28-29 | a negative skip is refused; a limit of 0 means no limit; otherwise the window at offset `(page-1)*limit` |
| Collection.PagedFacts | src/controllers/video.controllers.js:28-29 | a page holds only documents of the listing, at most `limit` of them, in the listing's order |
| Collection.PagesCover | src/controllers/video.controllers.js:28-29 | pages 1..n together are the listing's first `n*limit` documents, with no gap or overlap |
| Collection.FindKey | src/controllers/like.controllers.js:10 | `findOne` finds the first document with the key, or reports that none has it |
| Collection.ToggledCounts | src/controllers/like.controllers.js:10-27 | a toggle removes one document of the key (duplicates remain) or adds one; every other key keeps its count |
| Collection.ToggledFramesOtherKeys | src/controllers/like.controllers.js:10-20 | documents of every other key are kept, in order |
| Collection.ToggledKeepsAtMostOne | src/controllers/like.controllers.js:10-27 | "at most one document per key" survives a toggle |
| Collection.ToggleTwiceRestores | src/controllers/like.controllers.js:10-27 | two toggles of a key restore every key's count, and so the set of keys |
| Collection.AddToSetOccurrences | src/controllers/playlist.controllers.js:85-87 | `$addToSet` leaves the element in the array exactly once if it was absent, and changes nothing if it was present |
| Collection.PullUndoesAdd | src/controllers/playlist.controllers.js:99-101 | `$pull` after `$addToSet` of an absent element restores the array |
| Entities.SummaryOf | src/controllers/subscription.controllers.js:41-72 | a joined user summary is present exactly when the user exists, and carries that user's username |
| Entities.Store.NewDoc | src/controllers/like.controllers.js:17-20 | `create` takes a fresh id and a stamp from the counter, which advances by one |
| Guards.VerifyOwnerOf | src/middlewares/auth.middlewares.js:28-77 | a missing resource gives 404 whoever asks; otherwise the guard passes exactly the owner, attaches the stored document, and gives 403 to anyone else |
| Guards.VerifyOwner | src/middlewares/auth.middlewares.js:28-43 | the video guard: 404 "Video not found", 403 for a non-owner, `req.video` = the stored video |
| Guards.VerifyTweetOwner | src/middlewares/auth.middlewares.js:45-60 | the same rule for tweets, with 404 "Tweet not found" |
| Guards.VerifyPlaylistOwner | src/middlewares/auth.middlewares.js:62-77 | the same rule for playlists, with 404 "Playlist not found" |
| Guards.GuardPassesOnlyOwner | src/middlewares/auth.middlewares.js:37-42 | for a stored document, the guard attaches it exactly when the requester is its owner, and gives 403 otherwise |
| Likes.ToggleLike | src/controllers/like.controllers.js:6-28 | deletes the first like of the pair or creates one; the answer is 200 with `{}` and the message matching the branch; nothing else in the store changes |
| Likes.ToggleVideoLike | src/controllers/like.controllers.js:6-28 | the toggle on (video, liker), with "Video liked/unliked successfully" |
| Likes.ToggleCommentLike | src/controllers/like.controllers.js:30-52 | the toggle on (comment, liker), with "Comment liked/unliked successfully" |
| Likes.ToggleTweetLike | src/controllers/like.controllers.js:54-76 | the toggle on (tweet, liker), with "Tweet liked/unliked successfully" |
| Likes.ToggleLikeEffect | src/controllers/like.controllers.js:10-20 | an existing pair loses exactly its first record; an absent pair gains exactly the new record |
| Likes.LikeToggleTwiceRestoresPairs | src/controllers/like.controllers.js:10-27 | liking then unliking (or the reverse) restores the set of (target, liker) pairs |
| Likes.LikeToggleKeepsAtMostOne | src/controllers/like.controllers.js:10-27 | at most one like per pair is preserved |
| Likes.LikeToggleKeepsDuplicates | src/controllers/like.controllers.js:10-13 | a pair stored twice is still liked after a toggle, with one record fewer |
| Likes.LikeToggleKeepsOtherPairs | src/controllers/like.controllers.js:10-20 | likes of every other pair are kept, in order |
| Likes.CommentToggleKeepsVideoAndTweetLikes | src/controllers/like.controllers.js:34 | toggling a comment like keeps every video and tweet like, even one with the same id value |
| Subscriptions.ToggleSubscription | src/controllers/subscription.controllers.js:7-36 | 400 for oneself with nothing changed; otherwise deletes the pair's first record (200, `{}`) or creates and answers it (200) |
| Subscriptions.ToggleSubscriptionKeepsInvariants | src/controllers/subscription.controllers.js:11-35 | no self-subscription (for the canonical id spelling) and at most one record per pair are preserved |
| Subscriptions.SubscriptionToggleTwiceRestoresPairs | src/controllers/subscription.controllers.js:15-35 | two toggles restore the set of (subscriber, channel) pairs |
| Subscriptions.SubscriptionToggleKeepsOtherPairs | src/controllers/subscription.controllers.js:15-35 | records of every other pair are kept, in order |
| Subscriptions.GetUserChannelSubscribers | src/controllers/subscription.controllers.js:38-75 | one entry per subscription to the channel, with the subscriber joined, newest first |
| Subscriptions.SubscribersAreTheChannels | src/controllers/subscription.controllers.js:41-72 | the list has an entry for a subscription exactly when it is to the channel |
| Subscriptions.UnknownChannelListsNobody | src/controllers/subscription.controllers.js:39-42 | a channel id that no subscription names, such as the fresh id made from a missing parameter, lists nobody |
| Subscriptions.GetSubscribedChannels | src/controllers/subscription.controllers.js:77-113 | one entry per subscription of the requester, with the channel joined, newest first |
| Subscriptions.ChannelsAreTheRequesters | src/controllers/subscription.controllers.js:79-110 | the list has an entry for a subscription exactly when it is the requester's |
| Playlists.CreatePlaylist | src/controllers/playlist.controllers.js:7-23 | stores the playlist with requester as owner and name and description as given, unvalidated; answers it with 200 |
| Playlists.UpdatePlaylistById | src/controllers/playlist.controllers.js:85-93 | the updated playlist is stored and answered; a missing playlist gives 500 and changes nothing |
| Playlists.AddVideoToPlaylist | src/controllers/playlist.controllers.js:82-94 | `$addToSet` on the guarded playlist; the answer holds the video; 500 when the playlist is gone |
| Playlists.RemoveVideoFromPlaylist | src/controllers/playlist.controllers.js:96-108 | `$pull` on the guarded playlist; the answer no longer holds the video |
| Playlists.UpdatePlaylist | src/controllers/playlist.controllers.js:115-133 | 400 if name or description is falsy, before any write; otherwise sets exactly those two fields |
| Playlists.DeletePlaylist | src/controllers/playlist.controllers.js:110-113 | exactly the playlists with another id remain; 200 with `{}` |
| Playlists.AddVideoIdempotent | src/controllers/playlist.controllers.js:85-87 | adding a video twice equals adding it once |
| Playlists.AddThenRemoveRestores | src/controllers/playlist.controllers.js:85-101 | adding an absent video then removing it restores the playlists |
| Playlists.RemoveVideoKeepsOrder | src/controllers/playlist.controllers.js:99-101 | removal drops every occurrence and keeps the order of the rest |
| Playlists.GetUserPlaylists | src/controllers/playlist.controllers.js:25-31 | exactly the requester's playlists, newest first |
| Playlists.GetPlaylistById | src/controllers/playlist.controllers.js:33-80 | 200 always; a view exactly when the playlist exists, with the owner joined; its videos are the summaries of the stored videos the playlist lists: every such video appears, and every entry is one of them, with that video's fields |
| Videos.Ordered | src/controllers/video.controllers.js:12-27 | the matching videos, sorted on the requested field and direction |
| Videos.GetAllVideos | src/controllers/video.controllers.js:9-46 | 500 for a negative offset; a direct 404 for an empty page; otherwise a non-empty, sorted page of published matching videos, no longer than `limit`, with the count of all matches |
| Videos.SortDirection | src/controllers/video.controllers.js:22 | only `sortType=asc` sorts oldest first; anything else sorts newest first |
| Videos.PublishChecks | src/controllers/video.controllers.js:50-63 | 401, then 400 for a missing file, then 400 for a blank field (after both local files are unlinked); passes exactly when all checks hold |
| Videos.PublishAVideo | src/controllers/video.controllers.js:48-104 | a failed upload gives its own 500 without undoing anything; a failure after both uploads deletes each stored upload, and no path deletes anything else; success stores the video unpublished with 0 views and answers 201 |
| Videos.SaveVideo | src/controllers/video.controllers.js:80-103 | the `try`/`catch` around saving: the video is stored and answered, or every stored upload is deleted and 500 is thrown |
| Videos.PublishFailureDeletesUploads | src/controllers/video.controllers.js:98-102 | after a failed save, each upload that was stored is deleted, and nothing else is; `Videos.PublishAVideo` states the same of its own effects |
| Videos.Watched | src/controllers/video.controllers.js:109-111 | the id is in the history afterwards; no other user field changes |
| Videos.Viewed | src/controllers/video.controllers.js:112-114 | views go up by one; nothing else in the video changes |
| Videos.GetVideoById | src/controllers/video.controllers.js:106-119 | the history write comes first, even for a missing video; then views +1 and 200, or 404 |
| Videos.ViewsGrowByRequests | src/controllers/video.controllers.js:112-114 | n requests raise an existing video's views by exactly n and change nothing else in it |
| Videos.HistoryHoldsVideoOnce | src/controllers/video.controllers.js:109-111 | after any number of requests the history is what one `$addToSet` makes of it: the video is appended once when it was absent, and a repeat watch leaves the history as it was |
| Videos.UpdateVideo | src/controllers/video.controllers.js:121-145 | 400 thumbnail, then 400 title/description; then the upload; a missing URL gives 500; otherwise sets title, description and thumbnail, and answers 200 even when the video is gone |
| Videos.DeleteVideo | src/controllers/video.controllers.js:147-150 | exactly the videos with another id remain; 200 with `{}` |
| Videos.TogglePublishStatus | src/controllers/video.controllers.js:152-159 | sets `isPublished` to the negation of the guard's copy; the answer carries the new flag |
| Videos.TogglePublishTwiceRestores | src/controllers/video.controllers.js:152-159 | two toggles, each after a fresh guard lookup, restore the videos |
| Comments.Listing | src/controllers/comment.controllers.js:11-19 | the video's comments projected without `video` and `_id`, owner joined, newest first |
| Comments.GetVideoComments | src/controllers/comment.controllers.js:6-28 | 500 exactly for a negative offset; otherwise 200 with the count of all the video's comments and, of the newest-first listing, the `limit` entries after the first `(page-1)*limit`, or all of them when `limit` is 0 |
| Comments.UnlimitedListingIsComplete | src/controllers/comment.controllers.js:11-21 | with `limit=0` every comment on the video is listed, as many as the count |
| Comments.AddComment | src/controllers/comment.controllers.js:30-56 | blank content gives 400 and changes nothing; otherwise stores the untrimmed content with the video and owner, and answers it with 200 |
| Comments.AddedCommentIsCounted | src/controllers/comment.controllers.js:21-51 | an added comment raises its own video's count by one and no other video's |
| Comments.RefusedExactlyOthers | src/controllers/comment.controllers.js:73 | the corrected check refuses exactly requesters who are not the author |
| Comments.UpdateCommentBy | src/controllers/comment.controllers.js:58-84 | blank content gives 400; a missing comment or refused requester gives 500 and changes nothing; otherwise only the content is replaced |
| Comments.UpdateCommentAsWritten | src/controllers/comment.controllers.js:58-84 | as written, after the content check the answer is always 500 and the store is unchanged |
| Comments.UpdateComment | src/controllers/comment.controllers.js:58-84 | corrected: the author rewords their comment; anybody else gets 500 and changes nothing |
| Comments.DeleteCommentBy | src/controllers/comment.controllers.js:86-107 | a missing comment or refused requester gives 500 and changes nothing; otherwise the comment is deleted and 200 answered |
| Comments.DeleteCommentAsWritten | src/controllers/comment.controllers.js:86-107 | as written, the answer is always 500 and the store is unchanged |
| Comments.DeleteComment | src/controllers/comment.controllers.js:86-107 | corrected: only the author deletes the comment; exactly that comment goes and the others keep their order; anyone else gets 500 and nothing changes |
| Comments.RewordKeepsCount | src/controllers/comment.controllers.js:76-77 | rewording keeps every video's comment count |
| Comments.DeleteLowersCount | src/controllers/comment.controllers.js:100 | a delete lowers its own video's count by one and no other video's |
| Tweets.CreateChecks | src/controllers/tweet.controllers.js:9-14 | 401 before 400; passes exactly with a principal and truthy content |
| Tweets.WhitespaceTweetAccepted | src/controllers/tweet.controllers.js:12-14 | non-empty content that trims to nothing passes the tweet check, though the comment handlers refuse it as blank |
| Tweets.AggregatedFirst | src/controllers/tweet.controllers.js:22-46 | the aggregation of a stored tweet's id is non-empty, and its first element is that tweet's view |
| Tweets.CreateTweet | src/controllers/tweet.controllers.js:6-56 | failed checks change nothing; otherwise stores the tweet with requester and content, and answers 201 with its view and owner profile |
| Tweets.GetUserTweets | src/controllers/tweet.controllers.js:58-65 | exactly one entry per tweet of the user, without owner and `_id`, newest first |
| Tweets.Rewritten | src/controllers/tweet.controllers.js:69-73 | only the content changes, and a missing content changes nothing |
| Tweets.UpdateTweet | src/controllers/tweet.controllers.js:67-76 | sets the guarded tweet's content without validation and answers it; a vanished tweet throws on null |
| Tweets.DeleteTweet | src/controllers/tweet.controllers.js:78-81 | exactly the tweets with another id remain; 200 with `{}` |
| Tweets.EditShowsInListing | src/controllers/tweet.controllers.js:60-73 | after an edit the owner's listing shows the new content, with the same number of entries |
| Tweets.DeleteShortensListing | src/controllers/tweet.controllers.js:60-79 | a delete takes one entry off its owner's listing and none off another's |
| Tweets.CreatedShowsInListing | src/controllers/tweet.controllers.js:17-61 | a created tweet appears in its owner's listing, which grows by one |
| Dashboard.OwnedBy | src/controllers/dashboard.controllers.js:12 | exactly the requester's videos |
| Dashboard.IdsOf | src/controllers/dashboard.controllers.js:30 | the ids of the given videos, one per video |
| Dashboard.GetChannelStats | src/controllers/dashboard.controllers.js:8-37 | counts the owned videos and the subscriptions to the channel; views as a one-element group, or `[]` without videos; likes of owned videos only |
| Dashboard.LikedIdsIgnoreOrder | src/controllers/dashboard.controllers.js:29-30 | the likes counted do not depend on the order of the video list |
| Dashboard.ViewRaisesChannelViews | src/controllers/dashboard.controllers.js:14-27 | a view of an owned video raises the channel's total views by exactly one; a view of another's video leaves it |
| Dashboard.OwnedSetById | src/controllers/dashboard.controllers.js:14-27 | an update that keeps the owner changes the owner's total views by the change in views, and no other channel's total |
| Dashboard.OtherLikesNotCounted | src/controllers/dashboard.controllers.js:30 | a comment or tweet like never counts among video likes |
| Dashboard.VideoLikeCounted | src/controllers/dashboard.controllers.js:30 | a like of an owned video counts once more |
| Dashboard.GetChannelVideos | src/controllers/dashboard.controllers.js:39-50 | exactly one entry per owned video, published or not, without the owner, newest first |
| Dashboard.StatsAgreeWithList | src/controllers/dashboard.controllers.js:12-14 | the statistics' video count is the length of the channel's video list, and the views group is empty exactly when that list is |
| Routes.DeleteVideoRoute | src/routes/video.routes.js:15 | a missing video gives 404 and a non-owner 403, both with the store unchanged; only the owner deletes the video |
| Routes.TogglePublishRoute | src/routes/video.routes.js:17 | 404 for a missing video, 403 for anyone but the owner, with nothing changed; for the owner, only that video's `isPublished` is negated and every other video and field is kept |
| Routes.UpdateTweetRoute | src/routes/tweet.routes.js:9 | only the owner rewrites a tweet; anyone else changes nothing |
| Routes.DeleteTweetRoute | src/routes/tweet.routes.js:9-10 | only the owner deletes a tweet; anyone else changes nothing |
| Routes.AddVideoToPlaylistRoute | src/routes/playlist.routes.js:17 | only the owner adds to a playlist; anyone else changes nothing |
| Routes.DeletePlaylistRoute | src/routes/playlist.routes.js:15 | only the owner deletes a playlist; anyone else changes nothing |

## Left out

- `verifyJWT` is not modelled: it extracts and verifies a token, which is foreign code. Behind
  it, a handler receives the requester's id. `publishAVideo`, `createTweet` and the guards take
  an optional principal; a missing one gives 401, or, in a guard, the `TypeError` of
  `undefined.toString()`.
- Database and driver failures are not modelled. So the re-read checks after `create` are
  proved unreachable, and the 500 `catch` branches are reached only through errors the handlers
  throw themselves. The one exception is `publishAVideo`'s save: the parameter `saved` covers it.
- Casting a malformed ObjectId, and coercing `page` and `limit` from strings (`parseInt`), are
  not modelled. Page and limit are naturals, with the handlers' defaults when missing.
- The media service is not modelled: its upload result is a parameter (`Upload`), and its
  deletes are assumed to succeed. The local files are not modelled either: the unlinks and
  uploads a handler asks for are returned as an effect log.
- The case-insensitive regular-expression title search is a parameter `matches`.
- Videos.GetAllVideos: `sortBy` is modelled for `createdAt`, `views` and empty (no sort). Other
  field names are not.
- Videos.GetAllVideos: an empty page is answered with a direct 404 body (an `ApiError` sent as
  JSON), not with a 200 and an empty list; the model follows the code.
- Videos.PublishAVideo: the schema's `isPublished` default is not part of this model. It is
  taken as `false`, which matches "unpublished at creation".
- Videos.DeleteVideo: the video's likes, comments and playlist entries are left in place, as in
  the source. No cascade is modelled.
- Subscriptions.GetUserChannelSubscribers reads `channelId`, but its route declares
  `:subscriberId`, so through the router the channel is missing. `new ObjectId(undefined)` then
  generates a fresh id, which no subscription names, so the route as wired always answers an
  empty list (`Subscriptions.UnknownChannelListsNobody`). The model takes the channel the
  handler reads, as if the parameter were passed.
- Subscriptions.ToggleSubscription: the self-subscription test compares the requester's
  canonical 24-digit lower-case hex with the raw route string, and the database then casts that
  string to an ObjectId, accepting upper-case hex. The model receives the id already cast, so
  its 400 case, and the "no self-subscription" invariant kept by
  `Subscriptions.ToggleSubscriptionKeepsInvariants`, hold for the canonical spelling only; a
  requester who writes their own id in upper case can store a subscription to themselves.
- Playlists.GetUserPlaylists ignores the route's `:userId` and lists the requester's playlists.
- Playlists.GetPlaylistById has no owner guard, so anyone can read a playlist.
- Tweets.UpdateTweet: a missing `content` is dropped from the `$set`, following current
  Mongoose; no schema validation runs on the update.
- Tweets.CreateTweet: the `catch` (500 "Failed to create tweet") is reachable only through driver
  failures, which are not modelled.
- Api.HandleError: the `data` field of an `ApiError` is not modelled. `ApiError` and
  `ApiResponse` themselves are not part of this model; only their status, message, data and
  errors are used.
- `getLikedVideos` is not modelled. Its first pipeline stage is malformed, so its behaviour
  depends on how the database rejects the stage.
- Routes: the remaining guarded routes (`PATCH /videos/:videoId`, playlist update and remove) are
  not composed with their guard in the model. Their handlers are modelled.
- Concurrency is not modelled: each request is one atomic step. The race between `findOne`
  and `create` in the toggles is therefore not captured.
- Dashboard.GetChannelStats and Dashboard.GetChannelVideos: the `catch` (500) is reachable only
  through driver failures, which are not modelled.
- The aggregation pipelines' `__v`, `updatedAt` and the order of joined videos are not modelled.

## Findings

| source | as written | input that shows it | evidently intended | confidence | as-written member | corrected member |
|---|---|---|---|---|---|---|
| src/controllers/comment.controllers.js:73 | `comment.owner.toString() !== req.user?._id` compares a string with the requester's ObjectId, strictly, so it is never equal; every update of an existing comment throws 403, which the `catch` reports as 500 | the author of a stored comment asks to update it with content "ok" | the author may update their comment (compare both sides as strings, as the guards do) | not executed | Comments.UpdateCommentAsWritten | Comments.UpdateComment |
| src/controllers/comment.controllers.js:96 | the same comparison in `deleteComment`, so even the author cannot delete a comment and gets 500 | the author of a stored comment asks to delete it | only the author may delete their comment | not executed | Comments.DeleteCommentAsWritten | Comments.DeleteComment |
