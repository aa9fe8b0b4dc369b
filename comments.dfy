/**
 * Comments on a video (src/controllers/comment.controllers.js): the paged
 * listing, adding a comment, and the author's edit and delete. The edit and
 * the delete check authorship themselves; the check as written compares a
 * string with an ObjectId and so refuses everybody. The handlers are modelled
 * over the comparison they use, once as written and once as evidently intended.
 */
module Comments {

  import opened Base
  import opened Api
  import opened Collection
  import opened Entities

  // ----- listing -----

  /** A comment as listed: `-video -_id` dropped, `owner` populated with its `username`. */
  datatype CommentEntry = CommentEntry(content: string, owner: Option<UserSummary>, createdAt: nat)

  /** The listing's answer: one page of comments and the number of all comments on the video. */
  datatype CommentPage = CommentPage(comments: seq<CommentEntry>, totalComments: nat)

  function EntryOf(users: seq<User>, c: Comment): (e: CommentEntry)
  {
    CommentEntry(c.body.content, SummaryOf(users, c.body.owner), c.createdAt)
  }

  /** `{ video: videoId }`: the comments on a video, in natural order. */
  function CommentsOn(comments: seq<Comment>, videoId: Id): (r: seq<Comment>)
    ensures forall c :: c in r <==> c in comments && c.body.video == videoId
  {
    Where(comments, (c: Comment) => c.body.video == videoId)
  }

  /** The comments on a video as listed, newest first, before paging. */
  function Listing(comments: seq<Comment>, users: seq<User>, videoId: Id): (r: seq<CommentEntry>)
    ensures multiset(r) == multiset(Project(CommentsOn(comments, videoId), c => EntryOf(users, c)))
    ensures forall i, j :: 0 <= i < j < |r| ==> r[i].createdAt >= r[j].createdAt
  {
    NewestFirst(Project(CommentsOn(comments, videoId), c => EntryOf(users, c)), (e: CommentEntry) => e.createdAt)
  }

  /**
   * `getVideoComments`: page `page` (default 1) of `limit` (default 10) comments on the video,
   * newest first, and the count of all of them. A negative offset is refused by the database
   * and reported as 500. The video itself is not looked up.
   */
  function GetVideoComments(comments: seq<Comment>, users: seq<User>, videoId: Id, page: Option<nat>, limit: Option<nat>)
    : (r: Outcome<CommentPage>)
    ensures var p := if page.Some? then page.value else 1;
            var l := if limit.Some? then limit.value else 10;
            && (r == Throw(Fail(500, "Failed to get comments")) <==> p == 0 && l > 0)
            && (r.Throw? || r.Ok?)
            && (r.Ok? ==> && r.status == 200 && r.message == "Comments found successfully"
                          && r.data.totalComments == |CommentsOn(comments, videoId)|
                          && (l > 0 ==> |r.data.comments| <= l)
                          && (forall e :: e in r.data.comments ==>
                                exists c :: c in comments && c.body.video == videoId && e == EntryOf(users, c))
                          && (forall i, j :: 0 <= i < j < |r.data.comments| ==>
                                r.data.comments[i].createdAt >= r.data.comments[j].createdAt)
                          && (p >= 1 && l >= 1 ==> r.data.comments == Window(Listing(comments, users, videoId), p, l))
                          && (l == 0 ==> r.data.comments == Listing(comments, users, videoId)))
  {
    var p := if page.Some? then page.value else 1;
    var l := if limit.Some? then limit.value else 10;
    var listing := Listing(comments, users, videoId);
    match Paged(listing, p, l)
    case None => Throw(Fail(500, "Failed to get comments"))
    case Some(shown) =>
      PagedFacts(listing, p, l, (e: CommentEntry) => 0 - e.createdAt);
      ListingEntries(comments, users, videoId);
      Ok(200, CommentPage(shown, |CommentsOn(comments, videoId)|), "Comments found successfully")
  }

  /** Every listed entry is the entry of a comment on the video. */
  lemma ListingEntries(comments: seq<Comment>, users: seq<User>, videoId: Id)
    ensures forall e :: e in Listing(comments, users, videoId) ==>
              exists c :: c in comments && c.body.video == videoId && e == EntryOf(users, c)
    ensures SortedBy(Listing(comments, users, videoId), (e: CommentEntry) => 0 - e.createdAt)
  {
    ListedView(comments, (c: Comment) => c.body.video == videoId, c => EntryOf(users, c),
               (e: CommentEntry) => e.createdAt);
  }

  /** With `limit=0` the listing holds the entry of every comment on the video, once each. */
  lemma UnlimitedListingIsComplete(comments: seq<Comment>, users: seq<User>, videoId: Id, page: Option<nat>)
    ensures var r := GetVideoComments(comments, users, videoId, page, Some(0));
            r.Ok? && |r.data.comments| == r.data.totalComments
            && forall c :: c in comments && c.body.video == videoId ==> EntryOf(users, c) in r.data.comments
  {
    var on := CommentsOn(comments, videoId);
    var entries := Project(on, c => EntryOf(users, c));
    var listing := Listing(comments, users, videoId);
    assert |listing| == |multiset(listing)| == |multiset(entries)| == |entries|;
    forall c | c in comments && c.body.video == videoId
      ensures EntryOf(users, c) in listing
    {
      var k :| 0 <= k < |on| && on[k] == c;
      assert entries[k] in multiset(entries);
    }
  }

  // ----- adding -----

  /** The comment `addComment` stores when the counter stands at `next`. */
  function NewComment(content: string, videoId: Id, user: Id, next: nat): (c: Comment)
    ensures c.id == Id(next) && c.createdAt == next
    ensures c.body.content == content && c.body.video == videoId && c.body.owner == user
  {
    Doc(Id(next), next, CommentData(content, videoId, user))
  }

  /** `addComment`: content that is missing or only whitespace is refused (400) before any write;
      otherwise the comment is stored as given (untrimmed) and answered. */
  method AddComment(db: Store, user: Id, videoId: Id, content: Option<string>) returns (r: Outcome<Comment>)
    requires db.Valid()
    modifies db
    ensures db.Valid()
    ensures Blank(content) ==> r == Throw(Fail(400, "Content is required")) && db.State() == old(db.State())
    ensures !Blank(content) ==>
              var created := NewComment(content.value, videoId, user, old(db.next));
              && db.comments == old(db.comments) + [created]
              && db.State() == old(db.State()).(comments := db.comments, next := old(db.next) + 1)
              && r == Ok(200, created, "Comment added successfully")
  {
    if Blank(content) {
      return Throw(Fail(400, "Content is required"));
    }
    ghost var before := db.comments;
    var id, now := db.NewDoc();
    var created := Doc(id, now, CommentData(content.value, videoId, user));
    db.comments := db.comments + [created];
    AppendFresh(before, created, id.n);
    FindByIdUnique(db.comments, |before|);
    var reread := FindById(db.comments, id);
    if reread.None? {
      return Throw(Fail(500, "Failed to add comment"));
    }
    return Ok(200, reread.value, "Comment added successfully");
  }

  /** An added comment is counted on its own video and on no other. */
  lemma AddedCommentIsCounted(comments: seq<Comment>, c: Comment, videoId: Id)
    ensures |CommentsOn(comments + [c], videoId)| == |CommentsOn(comments, videoId)| + (if c.body.video == videoId then 1 else 0)
  {
    WhereAppend(comments, c, (c: Comment) => c.body.video == videoId);
  }

  // ----- the author's changes -----

  /** `comment.owner.toString() !== req.user?._id` as written: the right side is the requester's
      ObjectId, not a string, and a strict comparison of a string with an object is never equal. */
  predicate RefusedAsWritten(owner: Id, user: Id)
  {
    !StrictEqualsString(IdString(owner), JsObjectId(user))
  }

  /** The comparison evidently intended: both ids as strings, as the ownership guards compare them. */
  predicate Refused(owner: Id, user: Id)
  {
    IdString(owner) != IdString(user)
  }

  /** As written, the check refuses every requester, the comment's author included. */
  lemma AuthorRefusedAsWritten(c: Comment)
    ensures RefusedAsWritten(c.body.owner, c.body.owner)
  {
  }

  /** As intended, the check refuses exactly the requesters who are not the author. */
  lemma RefusedExactlyOthers(owner: Id, user: Id)
    ensures Refused(owner, user) <==> owner != user
  {
    IdStringInjective(owner, user);
  }

  /** The comment with its content replaced. */
  function Reworded(c: CommentData, content: string): (r: CommentData)
    ensures r.content == content && r.video == c.video && r.owner == c.owner
  {
    c.(content := content)
  }

  /**
   * `updateComment` over an ownership comparison `refused`: blank content is refused (400) before
   * the `try`; inside it a missing comment (404) and a refused requester (403) are thrown, and the
   * `catch` reports every one of them as 500. Otherwise the content is replaced and the comment
   * answered.
   */
  method UpdateCommentBy(db: Store, user: Id, commentId: Id, content: Option<string>, refused: (Id, Id) -> bool)
    returns (r: Outcome<Comment>)
    requires db.Valid()
    modifies db
    ensures db.Valid()
    ensures Blank(content) ==> r == Throw(Fail(400, "Content is required")) && db.State() == old(db.State())
    ensures !Blank(content) && (FindById(old(db.comments), commentId).None?
                                || refused(FindById(old(db.comments), commentId).value.body.owner, user))
            ==> r == Throw(Fail(500, "Failed to update comment")) && db.State() == old(db.State())
    ensures !Blank(content) && FindById(old(db.comments), commentId).Some?
            && !refused(FindById(old(db.comments), commentId).value.body.owner, user)
            ==> && db.comments == UpdateById(old(db.comments), commentId, c => Reworded(c, content.value))
                && db.State() == old(db.State()).(comments := db.comments)
                && r == Ok(200, UpdatedOne(old(db.comments), commentId, c => Reworded(c, content.value)).value,
                           "Comment updated successfully")
  {
    if Blank(content) {
      return Throw(Fail(400, "Content is required"));
    }
    var found := FindById(db.comments, commentId);
    if found.None? || refused(found.value.body.owner, user) {
      return Throw(Fail(500, "Failed to update comment"));
    }
    var c := found.value;
    SetByIdKeepsIds(db.comments, commentId, Reworded(c.body, content.value), db.next);
    db.comments := SetById(db.comments, commentId, Reworded(c.body, content.value));
    return Ok(200, c.(body := Reworded(c.body, content.value)), "Comment updated successfully");
  }

  /** `updateComment` as written: after the content check it always fails 500 and changes nothing. */
  method UpdateCommentAsWritten(db: Store, user: Id, commentId: Id, content: Option<string>)
    returns (r: Outcome<Comment>)
    requires db.Valid()
    modifies db
    ensures db.Valid() && db.State() == old(db.State())
    ensures r == if Blank(content) then Throw(Fail(400, "Content is required"))
                 else Throw(Fail(500, "Failed to update comment"))
  {
    r := UpdateCommentBy(db, user, commentId, content, RefusedAsWritten);
  }

  /** `updateComment` with the intended comparison: the author rewords their comment; anybody
      else, and a missing comment, get 500 and change nothing. */
  method UpdateComment(db: Store, user: Id, commentId: Id, content: Option<string>)
    returns (r: Outcome<Comment>)
    requires db.Valid()
    modifies db
    ensures db.Valid()
    ensures Blank(content) ==> r == Throw(Fail(400, "Content is required")) && db.State() == old(db.State())
    ensures !Blank(content) && (FindById(old(db.comments), commentId).None?
                                || FindById(old(db.comments), commentId).value.body.owner != user)
            ==> r == Throw(Fail(500, "Failed to update comment")) && db.State() == old(db.State())
    ensures !Blank(content) && FindById(old(db.comments), commentId).Some?
            && FindById(old(db.comments), commentId).value.body.owner == user
            ==> && db.comments == UpdateById(old(db.comments), commentId, c => Reworded(c, content.value))
                && db.State() == old(db.State()).(comments := db.comments)
                && r.Ok? && r.status == 200 && r.message == "Comment updated successfully"
                && r.data.id == commentId && r.data.body.content == content.value
  {
    var found := FindById(db.comments, commentId);
    if found.Some? {
      RefusedExactlyOthers(found.value.body.owner, user);
    }
    r := UpdateCommentBy(db, user, commentId, content, Refused);
  }

  /**
   * `deleteComment` over an ownership comparison `refused`: a missing comment (404) and a refused
   * requester (403) are thrown inside the `try` and reported as 500; otherwise the comment is
   * removed and the answer is 200 with `{}`.
   */
  method DeleteCommentBy(db: Store, user: Id, commentId: Id, refused: (Id, Id) -> bool) returns (r: Outcome<()>)
    requires db.Valid()
    modifies db
    ensures db.Valid()
    ensures FindById(old(db.comments), commentId).None? || refused(FindById(old(db.comments), commentId).value.body.owner, user)
            ==> r == Throw(Fail(500, "Failed to delete comment")) && db.State() == old(db.State())
    ensures FindById(old(db.comments), commentId).Some? && !refused(FindById(old(db.comments), commentId).value.body.owner, user)
            ==> && db.comments == RemoveById(old(db.comments), commentId)
                && db.State() == old(db.State()).(comments := db.comments)
                && r == Ok(200, (), "Comment deleted successfully")
  {
    var found := FindById(db.comments, commentId);
    if found.None? || refused(found.value.body.owner, user) {
      return Throw(Fail(500, "Failed to delete comment"));
    }
    RemoveByIdKeepsUnique(db.comments, commentId);
    RemoveByIdMembers(db.comments, commentId);
    db.comments := RemoveById(db.comments, commentId);
    return Ok(200, (), "Comment deleted successfully");
  }

  /** `deleteComment` as written: it always fails 500 and changes nothing. */
  method DeleteCommentAsWritten(db: Store, user: Id, commentId: Id) returns (r: Outcome<()>)
    requires db.Valid()
    modifies db
    ensures db.Valid() && db.State() == old(db.State())
    ensures r == Throw(Fail(500, "Failed to delete comment"))
  {
    r := DeleteCommentBy(db, user, commentId, RefusedAsWritten);
  }

  /** `deleteComment` with the intended comparison: the author deletes their comment; anybody
      else, and a missing comment, get 500 and change nothing. */
  method DeleteComment(db: Store, user: Id, commentId: Id) returns (r: Outcome<()>)
    requires db.Valid()
    modifies db
    ensures db.Valid()
    ensures FindById(old(db.comments), commentId).None? || FindById(old(db.comments), commentId).value.body.owner != user
            ==> r == Throw(Fail(500, "Failed to delete comment")) && db.State() == old(db.State())
    ensures FindById(old(db.comments), commentId).Some? && FindById(old(db.comments), commentId).value.body.owner == user
            ==> && db.comments == RemoveById(old(db.comments), commentId)
                && (forall c :: c in db.comments <==> c in old(db.comments) && c.id != commentId)
                && db.State() == old(db.State()).(comments := db.comments)
                && r == Ok(200, (), "Comment deleted successfully")
  {
    var found := FindById(db.comments, commentId);
    if found.Some? {
      RefusedExactlyOthers(found.value.body.owner, user);
    }
    RemoveByIdMembers(db.comments, commentId);
    r := DeleteCommentBy(db, user, commentId, Refused);
  }

  /** Rewording a comment keeps it on its video: every video's comment count is unchanged. */
  lemma RewordKeepsCount(comments: seq<Comment>, commentId: Id, content: string, videoId: Id)
    requires UniqueIds(comments)
    ensures |CommentsOn(UpdateById(comments, commentId, c => Reworded(c, content)), videoId)| == |CommentsOn(comments, videoId)|
  {
    var found := FindById(comments, commentId);
    if found.Some? {
      WhereSetById(comments, commentId, Reworded(found.value.body, content), (c: Comment) => c.body.video == videoId);
    }
  }

  /** Deleting a comment lowers its video's count by one and leaves every other video's count alone. */
  lemma DeleteLowersCount(comments: seq<Comment>, commentId: Id, videoId: Id)
    requires UniqueIds(comments) && FindById(comments, commentId).Some?
    ensures |CommentsOn(RemoveById(comments, commentId), videoId)|
            == |CommentsOn(comments, videoId)| - (if FindById(comments, commentId).value.body.video == videoId then 1 else 0)
  {
    WhereRemoveById(comments, commentId, (c: Comment) => c.body.video == videoId);
  }
}
