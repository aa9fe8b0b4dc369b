/**
 * Tweets (src/controllers/tweet.controllers.js): creating one, listing a
 * user's tweets, and the owner's edit and delete behind the tweet guard.
 */
module Tweets {

  import opened Base
  import opened Api
  import opened Collection
  import opened Entities

  /** The owner as the creation answer joins it: `_id`, `username`, `fullName` and `email`. */
  datatype OwnerProfile = OwnerProfile(id: Id, username: string, fullName: string, email: string)

  /** The created tweet as answered: its `owner` replaced by the first joined user, missing when none. */
  datatype TweetView = TweetView(id: Id, content: string, owner: Option<OwnerProfile>, createdAt: nat)

  function ProfileOf(users: seq<User>, id: Id): (r: Option<OwnerProfile>)
    ensures r.Some? <==> FindById(users, id).Some?
    ensures r.Some? ==> r.value.id == id && r.value.email == FindById(users, id).value.body.email
  {
    match FindById(users, id)
    case None => None
    case Some(u) => Some(OwnerProfile(u.id, u.body.username, u.body.fullName, u.body.email))
  }

  function ViewOf(users: seq<User>, t: Tweet): (v: TweetView)
  {
    TweetView(t.id, t.body.content, ProfileOf(users, t.body.owner), t.createdAt)
  }

  /** The aggregation `$match: { _id }`, then the owner lookup: one view per tweet with that id. */
  function Aggregated(tweets: seq<Tweet>, users: seq<User>, id: Id): (r: seq<TweetView>)
    ensures forall v :: v in r ==> v.id == id
  {
    var matched := Where(tweets, (t: Tweet) => t.id == id);
    assert forall k :: 0 <= k < |matched| ==> matched[k] in matched;
    Project(matched, t => ViewOf(users, t))
  }

  /** What `createTweet` checks before the `try`: the principal (401), then the content (400).
      `!content` lets whitespace-only content through. */
  function CreateChecks(owner: Option<Id>, content: Option<string>): (r: Option<Error>)
    ensures owner.None? ==> r == Some(Fail(401, "Unauthorized user"))
    ensures owner.Some? && Falsy(content) ==> r == Some(Fail(400, "Content is required"))
    ensures r.None? <==> owner.Some? && !Falsy(content)
  {
    if owner.None? then Some(Fail(401, "Unauthorized user"))
    else if Falsy(content) then Some(Fail(400, "Content is required"))
    else None
  }

  /** Unlike a comment, a tweet whose content trims to nothing is accepted, as long as it is not
      empty: the same content is refused as blank by the comment handlers. */
  lemma WhitespaceTweetAccepted(owner: Id, content: string)
    requires content != "" && Trim(content) == ""
    ensures CreateChecks(Some(owner), Some(content)).None?
    ensures Blank(Some(content))
  {
    BlankIsTrimEmpty(Some(content));
  }

  /** With unique ids, the aggregation of a stored tweet's id yields that tweet's view first. */
  lemma AggregatedFirst(tweets: seq<Tweet>, users: seq<User>, i: nat)
    requires UniqueIds(tweets) && i < |tweets|
    ensures Aggregated(tweets, users, tweets[i].id) != []
    ensures Aggregated(tweets, users, tweets[i].id)[0] == ViewOf(users, tweets[i])
  {
    var matched := Where(tweets, (t: Tweet) => t.id == tweets[i].id);
    assert tweets[i] in matched;
    assert matched[0] in matched;
    var k :| 0 <= k < |tweets| && tweets[k] == matched[0];
    assert k == i;
  }

  /**
   * `createTweet`: after the checks the tweet is stored with the requester as owner and the
   * content as given, and answered 201 with the first element of the aggregation. The array's
   * own truthiness is what the source tests, so its empty-result check never fails.
   */
  method CreateTweet(db: Store, owner: Option<Id>, content: Option<string>) returns (r: Outcome<TweetView>)
    requires db.Valid()
    modifies db
    ensures db.Valid()
    ensures CreateChecks(owner, content).Some? ==>
              r == Throw(CreateChecks(owner, content).value) && db.State() == old(db.State())
    ensures CreateChecks(owner, content).None? ==>
              var created := Doc(Id(old(db.next)), old(db.next), TweetData(content.value, owner.value));
              && db.tweets == old(db.tweets) + [created]
              && db.State() == old(db.State()).(tweets := db.tweets, next := old(db.next) + 1)
              && r == Ok(201, ViewOf(db.users, created), "Tweet created successfully")
  {
    var failed := CreateChecks(owner, content);
    if failed.Some? {
      return Throw(failed.value);
    }
    ghost var before := db.tweets;
    var id, now := db.NewDoc();
    var created := Doc(id, now, TweetData(content.value, owner.value));
    db.tweets := db.tweets + [created];
    AppendFresh(before, created, id.n);
    var createdTweet := Aggregated(db.tweets, db.users, id);
    AggregatedFirst(db.tweets, db.users, |before|);
    return Ok(201, createdTweet[0], "Tweet created successfully");
  }

  // ----- listing -----

  /** A tweet as listed: `-owner -_id` dropped. */
  datatype TweetEntry = TweetEntry(content: string, createdAt: nat)

  function EntryOf(t: Tweet): (e: TweetEntry)
  {
    TweetEntry(t.body.content, t.createdAt)
  }

  /** `getUserTweets`: one entry per tweet of the user, newest first; nothing is checked. */
  function GetUserTweets(tweets: seq<Tweet>, userId: Id): (r: Outcome<seq<TweetEntry>>)
    ensures r.Ok? && r.status == 200 && r.message == "Tweets found successfully"
    ensures |r.data| == |Where(tweets, (t: Tweet) => t.body.owner == userId)|
    ensures forall t :: t in tweets && t.body.owner == userId ==> EntryOf(t) in r.data
    ensures forall e :: e in r.data ==> exists t :: t in tweets && t.body.owner == userId && e == EntryOf(t)
    ensures forall i, j :: 0 <= i < j < |r.data| ==> r.data[i].createdAt >= r.data[j].createdAt
  {
    ListedView(tweets, (t: Tweet) => t.body.owner == userId, EntryOf, (e: TweetEntry) => e.createdAt);
    Ok(200, NewestFirst(Project(Where(tweets, (t: Tweet) => t.body.owner == userId), EntryOf),
                        (e: TweetEntry) => e.createdAt),
       "Tweets found successfully")
  }

  // ----- the owner's changes -----

  /** `$set: { content }`: a missing content is dropped from the update, which then changes nothing. */
  function Rewritten(t: TweetData, content: Option<string>): (r: TweetData)
    ensures r.owner == t.owner
    ensures r.content == if content.Some? then content.value else t.content
  {
    if content.Some? then t.(content := content.value) else t
  }

  /** What reading `.content` of a null result throws. */
  const NullContent: Error := OtherError("Cannot read properties of null (reading 'content')")

  /** `updateTweet`, behind the tweet guard: the content is set without any check and the new
      content is answered; when the tweet is gone the handler fails reading the null result. */
  method UpdateTweet(db: Store, tweet: Tweet, content: Option<string>) returns (r: Outcome<string>)
    requires db.Valid()
    modifies db
    ensures db.Valid()
    ensures db.tweets == UpdateById(old(db.tweets), tweet.id, t => Rewritten(t, content))
    ensures db.State() == old(db.State()).(tweets := db.tweets)
    ensures FindById(old(db.tweets), tweet.id).None? ==> r == Throw(NullContent)
    ensures FindById(old(db.tweets), tweet.id).Some? ==>
              r == Ok(200, Rewritten(FindById(old(db.tweets), tweet.id).value.body, content).content,
                      "Tweet updated successfully")
  {
    var found := FindById(db.tweets, tweet.id);
    if found.None? {
      return Throw(NullContent);
    }
    var updated := Rewritten(found.value.body, content);
    SetByIdKeepsIds(db.tweets, tweet.id, updated, db.next);
    db.tweets := SetById(db.tweets, tweet.id, updated);
    return Ok(200, updated.content, "Tweet updated successfully");
  }

  /** `deleteTweet`, behind the tweet guard: removes that tweet only and answers 200 with `{}`. */
  method DeleteTweet(db: Store, tweet: Tweet) returns (r: Outcome<()>)
    requires db.Valid()
    modifies db
    ensures db.Valid()
    ensures forall t :: t in db.tweets <==> t in old(db.tweets) && t.id != tweet.id
    ensures db.tweets == RemoveById(old(db.tweets), tweet.id)
    ensures db.State() == old(db.State()).(tweets := db.tweets)
    ensures r == Ok(200, (), "Tweet deleted successfully")
  {
    RemoveByIdKeepsUnique(db.tweets, tweet.id);
    RemoveByIdMembers(db.tweets, tweet.id);
    db.tweets := RemoveById(db.tweets, tweet.id);
    return Ok(200, (), "Tweet deleted successfully");
  }

  /** After an edit, the owner's listing shows the tweet with its new content, and the number of
      the owner's tweets is unchanged. */
  lemma EditShowsInListing(tweets: seq<Tweet>, i: nat, content: string)
    requires UniqueIds(tweets) && i < |tweets|
    ensures var after := UpdateById(tweets, tweets[i].id, t => Rewritten(t, Some(content)));
            && TweetEntry(content, tweets[i].createdAt) in GetUserTweets(after, tweets[i].body.owner).data
            && |GetUserTweets(after, tweets[i].body.owner).data| == |GetUserTweets(tweets, tweets[i].body.owner).data|
  {
    var d := tweets[i];
    var b := Rewritten(d.body, Some(content));
    FindByIdUnique(tweets, i);
    var after := SetById(tweets, d.id, b);
    assert after[i] == d.(body := b);
    assert after[i] in after;
    assert EntryOf(after[i]) == TweetEntry(content, d.createdAt);
    WhereSetById(tweets, d.id, b, (t: Tweet) => t.body.owner == d.body.owner);
  }

  /** Deleting a tweet takes one entry off its owner's listing and leaves every other listing alone. */
  lemma DeleteShortensListing(tweets: seq<Tweet>, tweetId: Id, userId: Id)
    requires UniqueIds(tweets) && FindById(tweets, tweetId).Some?
    ensures |GetUserTweets(RemoveById(tweets, tweetId), userId).data|
            == |GetUserTweets(tweets, userId).data| - (if FindById(tweets, tweetId).value.body.owner == userId then 1 else 0)
  {
    WhereRemoveById(tweets, tweetId, (t: Tweet) => t.body.owner == userId);
  }

  /** A created tweet appears in its owner's listing, which grows by exactly one. */
  lemma CreatedShowsInListing(tweets: seq<Tweet>, content: string, owner: Id, next: nat)
    ensures var after := tweets + [Doc(Id(next), next, TweetData(content, owner))];
            && TweetEntry(content, next) in GetUserTweets(after, owner).data
            && |GetUserTweets(after, owner).data| == |GetUserTweets(tweets, owner).data| + 1
  {
    var created := Doc(Id(next), next, TweetData(content, owner));
    WhereAppend(tweets, created, (t: Tweet) => t.body.owner == owner);
    assert created in tweets + [created];
  }
}
