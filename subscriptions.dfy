/**
 * Subscribing to a channel and the two subscription lists
 * (src/controllers/subscription.controllers.js). A channel is a user; a
 * subscription records who subscribes to which channel.
 */
module Subscriptions {

  import opened Base
  import opened Api
  import opened Collection
  import opened Entities

  /** The subscription a toggle creates when the store's counter stands at `next`. */
  function NewSubscription(user: Id, channelId: Id, next: nat): (r: Subscription)
    ensures r.id == Id(next) && r.createdAt == next
    ensures r.body.subscriber == user && r.body.channel == channelId
  {
    Doc(Id(next), next, SubscriptionData(user, channelId))
  }

  /** The subscriptions after `toggleSubscription`: unchanged for oneself, toggled otherwise. */
  function AfterToggle(subs: seq<Subscription>, user: Id, channelId: Id, next: nat): seq<Subscription>
  {
    if IdString(user) == IdString(channelId) then subs
    else Toggled(subs, SubscriptionKey, (user, channelId), NewSubscription(user, channelId, next))
  }

  /** `toggleSubscription`: refuse oneself (400) before any lookup; delete the first existing
      record of the pair (200, `{}`) or create one and answer it (200). */
  method ToggleSubscription(db: Store, user: Id, channelId: Id) returns (r: Outcome<Option<Subscription>>)
    requires db.Valid()
    modifies db
    ensures db.Valid()
    ensures db.subscriptions == AfterToggle(old(db.subscriptions), user, channelId, old(db.next))
    ensures db.State() == old(db.State()).(subscriptions := db.subscriptions, next := db.next)
    ensures user == channelId ==> r == Throw(Fail(400, "You cannot subscribe to yourself")) && db.State() == old(db.State())
    ensures user != channelId && FindKey(old(db.subscriptions), SubscriptionKey, (user, channelId)).Some?
            ==> r == Ok(200, None, "Unsubscribed successfully") && db.next == old(db.next)
    ensures user != channelId && FindKey(old(db.subscriptions), SubscriptionKey, (user, channelId)).None?
            ==> r == Ok(200, Some(NewSubscription(user, channelId, old(db.next))), "Subscribed successfully")
                && db.next == old(db.next) + 1
  {
    IdStringInjective(user, channelId);
    if IdString(user) == IdString(channelId) {
      return Throw(Fail(400, "You cannot subscribe to yourself"));
    }
    ghost var before := db.subscriptions;
    var existing := FindKey(db.subscriptions, SubscriptionKey, (user, channelId));
    if existing.Some? {
      RemoveByIdMembers(db.subscriptions, db.subscriptions[existing.value].id);
      db.subscriptions := RemoveById(db.subscriptions, db.subscriptions[existing.value].id);
      ToggledKeepsIds(before, SubscriptionKey, (user, channelId), NewSubscription(user, channelId, db.next), db.next);
      return Ok(200, None, "Unsubscribed successfully");
    }
    var id, now := db.NewDoc();
    db.subscriptions := db.subscriptions + [Doc(id, now, SubscriptionData(user, channelId))];
    AppendFresh(before, Doc(id, now, SubscriptionData(user, channelId)), id.n);
    var created := FindById(db.subscriptions, id);
    if created.None? {
      return Throw(Fail(500, "Failed to subscribe"));
    }
    return Ok(200, created, "Subscribed successfully");
  }

  /** Nobody subscribes to themselves. */
  ghost predicate NoSelfSubscription(subs: seq<Subscription>)
  {
    forall d :: d in subs ==> d.body.subscriber != d.body.channel
  }

  /** The toggle never creates a self-subscription, and keeps at most one record per pair. */
  lemma ToggleSubscriptionKeepsInvariants(subs: seq<Subscription>, user: Id, channelId: Id, next: nat)
    requires UniqueIds(subs) && NoSelfSubscription(subs) && AtMostOnePerKey(subs, SubscriptionKey)
    ensures NoSelfSubscription(AfterToggle(subs, user, channelId, next))
    ensures AtMostOnePerKey(AfterToggle(subs, user, channelId, next), SubscriptionKey)
  {
    IdStringInjective(user, channelId);
    if user != channelId {
      ToggledKeepsAtMostOne(subs, SubscriptionKey, (user, channelId), NewSubscription(user, channelId, next));
    }
  }

  /** Subscribing and unsubscribing (or the reverse) restores the set of (subscriber, channel) pairs. */
  lemma SubscriptionToggleTwiceRestoresPairs(subs: seq<Subscription>, user: Id, channelId: Id, next: nat)
    requires UniqueIds(subs) && IdsBelow(subs, next) && AtMostOnePerKey(subs, SubscriptionKey)
    ensures KeySet(AfterToggle(AfterToggle(subs, user, channelId, next), user, channelId, next + 1), SubscriptionKey)
            == KeySet(subs, SubscriptionKey)
  {
    if IdString(user) != IdString(channelId) {
      ToggleTwiceRestores(subs, SubscriptionKey, (user, channelId),
        NewSubscription(user, channelId, next), NewSubscription(user, channelId, next + 1), next);
    }
  }

  /** Records of every other pair are kept, in their order. */
  lemma SubscriptionToggleKeepsOtherPairs(subs: seq<Subscription>, user: Id, channelId: Id, next: nat)
    requires UniqueIds(subs)
    ensures Without(AfterToggle(subs, user, channelId, next), SubscriptionKey, (user, channelId))
            == Without(subs, SubscriptionKey, (user, channelId))
  {
    if IdString(user) != IdString(channelId) {
      ToggledFramesOtherKeys(subs, SubscriptionKey, (user, channelId), NewSubscription(user, channelId, next));
    }
  }

  // ----- the two lists -----

  /** A subscriber of a channel, as listed: `subscriber` joined to its user, `_id` and `channel` dropped. */
  datatype SubscriberEntry = SubscriberEntry(subscriber: Option<UserSummary>, createdAt: nat)

  /** A channel somebody subscribes to, as listed: `channel` joined to its user, `_id` and `subscriber` dropped. */
  datatype ChannelEntry = ChannelEntry(channel: Option<UserSummary>, createdAt: nat)

  function SubscriberEntryOf(users: seq<User>, d: Subscription): (e: SubscriberEntry)
  {
    SubscriberEntry(SummaryOf(users, d.body.subscriber), d.createdAt)
  }

  function ChannelEntryOf(users: seq<User>, d: Subscription): (e: ChannelEntry)
  {
    ChannelEntry(SummaryOf(users, d.body.channel), d.createdAt)
  }

  /** The subscriptions to a channel, in natural order. */
  function SubscriptionsTo(subs: seq<Subscription>, channelId: Id): (r: seq<Subscription>)
    ensures forall d :: d in r <==> d in subs && d.body.channel == channelId
  {
    Where(subs, (d: Subscription) => d.body.channel == channelId)
  }

  /** The subscriptions of a subscriber, in natural order. */
  function SubscriptionsOf(subs: seq<Subscription>, user: Id): (r: seq<Subscription>)
    ensures forall d :: d in r <==> d in subs && d.body.subscriber == user
  {
    Where(subs, (d: Subscription) => d.body.subscriber == user)
  }

  /** `getUserChannelSubscribers`: one entry per subscription to the channel, newest first. */
  function GetUserChannelSubscribers(subs: seq<Subscription>, users: seq<User>, channelId: Id)
    : (r: Outcome<seq<SubscriberEntry>>)
    ensures r.Ok? && r.status == 200 && r.message == "Subscribers found successfully"
    ensures multiset(r.data) == multiset(Project(SubscriptionsTo(subs, channelId), d => SubscriberEntryOf(users, d)))
    ensures forall i, j :: 0 <= i < j < |r.data| ==> r.data[i].createdAt >= r.data[j].createdAt
  {
    var entries := Project(SubscriptionsTo(subs, channelId), d => SubscriberEntryOf(users, d));
    Ok(200, NewestFirst(entries, (e: SubscriberEntry) => e.createdAt), "Subscribers found successfully")
  }

  /** A channel id that no subscription names lists nobody. Through the router the handler's
      `channelId` is missing, and `new ObjectId(undefined)` is a freshly generated id, so the
      route as wired always answers an empty list. */
  lemma UnknownChannelListsNobody(subs: seq<Subscription>, users: seq<User>, channelId: Id)
    requires forall d :: d in subs ==> d.body.channel != channelId
    ensures GetUserChannelSubscribers(subs, users, channelId).data == []
  {
    SubscribersAreTheChannels(subs, users, channelId);
  }

  /** `getSubscribedChannels`: one entry per subscription of the requester, newest first. */
  function GetSubscribedChannels(subs: seq<Subscription>, users: seq<User>, user: Id)
    : (r: Outcome<seq<ChannelEntry>>)
    ensures r.Ok? && r.status == 200 && r.message == "Channels found successfully"
    ensures multiset(r.data) == multiset(Project(SubscriptionsOf(subs, user), d => ChannelEntryOf(users, d)))
    ensures forall i, j :: 0 <= i < j < |r.data| ==> r.data[i].createdAt >= r.data[j].createdAt
  {
    var entries := Project(SubscriptionsOf(subs, user), d => ChannelEntryOf(users, d));
    Ok(200, NewestFirst(entries, (e: ChannelEntry) => e.createdAt), "Channels found successfully")
  }

  /** The subscriber list holds an entry for a subscription exactly when it is to that channel,
      and as many entries as there are such subscriptions. */
  lemma SubscribersAreTheChannels(subs: seq<Subscription>, users: seq<User>, channelId: Id)
    ensures |GetUserChannelSubscribers(subs, users, channelId).data| == |SubscriptionsTo(subs, channelId)|
    ensures forall d :: d in subs && d.body.channel == channelId ==>
              SubscriberEntryOf(users, d) in GetUserChannelSubscribers(subs, users, channelId).data
    ensures forall e :: e in GetUserChannelSubscribers(subs, users, channelId).data ==>
              exists d :: d in subs && d.body.channel == channelId && e == SubscriberEntryOf(users, d)
  {
    var mine := SubscriptionsTo(subs, channelId);
    var entries := Project(mine, d => SubscriberEntryOf(users, d));
    var data := GetUserChannelSubscribers(subs, users, channelId).data;
    assert |data| == |multiset(data)| == |multiset(entries)| == |entries|;
    forall d | d in subs && d.body.channel == channelId
      ensures SubscriberEntryOf(users, d) in data
    {
      var k :| 0 <= k < |mine| && mine[k] == d;
      assert entries[k] in multiset(entries);
    }
    forall e | e in data
      ensures exists d :: d in subs && d.body.channel == channelId && e == SubscriberEntryOf(users, d)
    {
      assert e in multiset(entries);
      var k :| 0 <= k < |entries| && entries[k] == e;
      assert mine[k] in mine;
    }
  }

  /** The channel list holds an entry for a subscription exactly when it is the requester's. */
  lemma ChannelsAreTheRequesters(subs: seq<Subscription>, users: seq<User>, user: Id)
    ensures |GetSubscribedChannels(subs, users, user).data| == |SubscriptionsOf(subs, user)|
    ensures forall d :: d in subs && d.body.subscriber == user ==>
              ChannelEntryOf(users, d) in GetSubscribedChannels(subs, users, user).data
    ensures forall e :: e in GetSubscribedChannels(subs, users, user).data ==>
              exists d :: d in subs && d.body.subscriber == user && e == ChannelEntryOf(users, d)
  {
    var mine := SubscriptionsOf(subs, user);
    var entries := Project(mine, d => ChannelEntryOf(users, d));
    var data := GetSubscribedChannels(subs, users, user).data;
    assert |data| == |multiset(data)| == |multiset(entries)| == |entries|;
    forall d | d in subs && d.body.subscriber == user
      ensures ChannelEntryOf(users, d) in data
    {
      var k :| 0 <= k < |mine| && mine[k] == d;
      assert entries[k] in multiset(entries);
    }
    forall e | e in data
      ensures exists d :: d in subs && d.body.subscriber == user && e == ChannelEntryOf(users, d)
    {
      assert e in multiset(entries);
      var k :| 0 <= k < |entries| && entries[k] == e;
      assert mine[k] in mine;
    }
  }
}
