/** Subscriptions: the subscribe/unsubscribe toggle and the two lists. */
module SubscriptionController {
  import opened Common
  import opened Text
  import opened Rows
  import opened Store

  /** The (subscriber, channel) pairs that hold. */
  function SubscriptionKeys(subs: seq<Subscription>): set<(Id, Id)> {
    set i | 0 <= i < |subs| :: SubscriptionKey(subs[i])
  }

  /** `findFirst({ where: { channelId, subscriberId } })`. */
  function FindSubscription(subs: seq<Subscription>, subscriber: Id, channel: Id): (r: Option<nat>)
    ensures r.Some? <==> (subscriber, channel) in SubscriptionKeys(subs)
    ensures r.Some? ==> r.value < |subs| && SubscriptionKey(subs[r.value]) == (subscriber, channel)
  {
    FirstIndex(subs, (s: Subscription) => s.subscriberId == subscriber && s.channelId == channel)
  }

  /** The effect of `toggleSubscription` by `subscriber` on the route
      parameter `channelId`: the parse, self and existence checks in that
      order, then delete-if-present, create-if-absent. */
  ghost predicate Toggled(t0: Tables, t1: Tables, subscriber: Id, channelId: string, now: int, r: Reply<bool>) {
    match ParseId(channelId)
    case None => r == Failure(400, "Invalid channel ID") && t1 == t0
    case Some(channel) =>
      if channel == subscriber then
        r == Failure(400, "You cannot subscribe to your own channel") && t1 == t0
      else if UserAt(t0.users, channel).None? then
        r == Failure(404, "Channel not found") && t1 == t0
      else match FindSubscription(t0.subscriptions, subscriber, channel)
        case Some(i) =>
          r == Success(200, false) &&
          t1 == t0.(subscriptions := WithoutSubscription(t0.subscriptions, t0.subscriptions[i].id))
        case None =>
          r == Success(200, true) &&
          t1 == t0.(subscriptions := t0.subscriptions + [Subscription(t0.nextId, subscriber, channel, now)],
                    nextId := t0.nextId + 1)
  }

  lemma {:induction false} RemoveKey(subs: seq<Subscription>, i: nat)
    requires i < |subs| && UniqueBy(subs, SubscriptionId) && UniqueBy(subs, SubscriptionKey)
    ensures SubscriptionKeys(WithoutSubscription(subs, subs[i].id)) == SubscriptionKeys(subs) - {SubscriptionKey(subs[i])}
  {
    var r := WithoutSubscription(subs, subs[i].id);
    forall k | k in SubscriptionKeys(r) ensures k in SubscriptionKeys(subs) - {SubscriptionKey(subs[i])} {
      var j :| 0 <= j < |r| && SubscriptionKey(r[j]) == k;
      var m :| 0 <= m < |subs| && subs[m] == r[j];
      assert m != i;
    }
    forall k | k in SubscriptionKeys(subs) - {SubscriptionKey(subs[i])} ensures k in SubscriptionKeys(r) {
      var m :| 0 <= m < |subs| && SubscriptionKey(subs[m]) == k;
      assert m != i;
      assert subs[m] in r;
    }
  }

  lemma AddKey(subs: seq<Subscription>, x: Subscription)
    ensures SubscriptionKeys(subs + [x]) == SubscriptionKeys(subs) + {SubscriptionKey(x)}
  {
    var s := subs + [x];
    forall k | k in SubscriptionKeys(subs) ensures k in SubscriptionKeys(s) {
      var m :| 0 <= m < |subs| && SubscriptionKey(subs[m]) == k;
      assert s[m] == subs[m];
    }
    assert s[|subs|] == x;
  }

  /** The toggle keeps the store's constraints; in particular no
      self-subscription is ever created. */
  lemma ToggleKeepsWellFormed(t0: Tables, t1: Tables, subscriber: Id, channelId: string, now: int, r: Reply<bool>)
    requires WellFormed(t0) && Toggled(t0, t1, subscriber, channelId, now, r)
    ensures WellFormed(t1)
  {
    if r.Success? {
      var channel := ParseId(channelId).value;
      match FindSubscription(t0.subscriptions, subscriber, channel)
      case Some(i) =>
        var p := (x: Subscription) => x.id != t0.subscriptions[i].id;
        IssuedFilter(t0.subscriptions, p, SubscriptionId, t0.nextId);
        FilterUnique(t0.subscriptions, p, SubscriptionKey);
        var kept := Filter(t0.subscriptions, p);
        forall j | 0 <= j < |kept| ensures kept[j].subscriberId != kept[j].channelId {
          assert kept[j] in t0.subscriptions;
        }
      case None =>
        var x := Subscription(t0.nextId, subscriber, channel, now);
        BumpWellFormed(t0);
        IssuedAppend(t0.subscriptions, x, SubscriptionId, t0.nextId);
        AppendUnique(t0.subscriptions, x, SubscriptionKey);
        var s := t0.subscriptions + [x];
        forall j | 0 <= j < |s| ensures s[j].subscriberId != s[j].channelId {
          if j < |t0.subscriptions| { assert s[j] == t0.subscriptions[j]; }
        }
    }
  }

  /** A successful toggle flips exactly the (subscriber, channel) pair, and
      the reported flag is its presence afterwards; a refused one changes
      nothing. */
  lemma ToggleFlipsKey(t0: Tables, t1: Tables, subscriber: Id, channelId: string, now: int, r: Reply<bool>)
    requires WellFormed(t0) && Toggled(t0, t1, subscriber, channelId, now, r)
    ensures r.Failure? ==> t1 == t0
    ensures r.Success? ==> ParseId(channelId).Some? && ParseId(channelId).value != subscriber
    ensures r.Success? && r.data ==>
      && (subscriber, ParseId(channelId).value) !in SubscriptionKeys(t0.subscriptions)
      && SubscriptionKeys(t1.subscriptions) == SubscriptionKeys(t0.subscriptions) + {(subscriber, ParseId(channelId).value)}
    ensures r.Success? && !r.data ==>
      && (subscriber, ParseId(channelId).value) in SubscriptionKeys(t0.subscriptions)
      && SubscriptionKeys(t1.subscriptions) == SubscriptionKeys(t0.subscriptions) - {(subscriber, ParseId(channelId).value)}
  {
    if r.Success? {
      var channel := ParseId(channelId).value;
      match FindSubscription(t0.subscriptions, subscriber, channel)
      case Some(i) => RemoveKey(t0.subscriptions, i);
      case None => AddKey(t0.subscriptions, Subscription(t0.nextId, subscriber, channel, now));
    }
  }

  /** Toggling twice reports opposite flags and restores the subscriptions;
      subscribing and then unsubscribing leaves the table exactly as it was. */
  lemma ToggleTwiceRestores(t0: Tables, t1: Tables, t2: Tables, subscriber: Id, channelId: string,
                            now1: int, now2: int, r1: Reply<bool>, r2: Reply<bool>)
    requires WellFormed(t0)
    requires Toggled(t0, t1, subscriber, channelId, now1, r1) && Toggled(t1, t2, subscriber, channelId, now2, r2)
    requires r1.Success?
    ensures r2.Success? && r2.data == !r1.data
    ensures SubscriptionKeys(t2.subscriptions) == SubscriptionKeys(t0.subscriptions)
    ensures r1.data ==> t2.subscriptions == t0.subscriptions
  {
    ToggleKeepsWellFormed(t0, t1, subscriber, channelId, now1, r1);
    ToggleFlipsKey(t0, t1, subscriber, channelId, now1, r1);
    ToggleFlipsKey(t1, t2, subscriber, channelId, now2, r2);
    if r1.data {
      var x := Subscription(t0.nextId, subscriber, ParseId(channelId).value, now1);
      assert FindSubscription(t1.subscriptions, subscriber, x.channelId) == Some(|t0.subscriptions|);
      AddThenRemove(t0.subscriptions, x);
    }
  }

  /** Removing the subscription just appended gives back the table, when
      its identifier is new. */
  lemma AddThenRemove(subs: seq<Subscription>, x: Subscription)
    requires forall i :: 0 <= i < |subs| ==> subs[i].id != x.id
    ensures WithoutSubscription(subs + [x], x.id) == subs
  {
    var p := (s: Subscription) => s.id != x.id;
    FilterAppend(subs, [x], p);
    FilterAll(subs, p);
    assert Filter([x], p) == [];
  }

  /** `toggleSubscription`. */
  method ToggleSubscription(db: Db, subscriber: Id, channelId: string, now: int) returns (r: Reply<bool>)
    requires db.Valid()
    modifies db
    ensures db.Valid()
    ensures Toggled(old(db.Snapshot()), db.Snapshot(), subscriber, channelId, now, r)
  {
    var channel := ParseId(channelId);
    if channel.None? {
      return Failure(400, "Invalid channel ID");
    }
    if channel.value == subscriber {
      return Failure(400, "You cannot subscribe to your own channel");
    }
    if UserAt(db.users, channel.value).None? {
      return Failure(404, "Channel not found");
    }
    var existing := FindSubscription(db.subscriptions, subscriber, channel.value);
    if existing.Some? {
      db.subscriptions := WithoutSubscription(db.subscriptions, db.subscriptions[existing.value].id);
      r := Success(200, false);
    } else {
      db.subscriptions := db.subscriptions + [Subscription(db.nextId, subscriber, channel.value, now)];
      db.nextId := db.nextId + 1;
      r := Success(200, true);
    }
    ToggleKeepsWellFormed(old(db.Snapshot()), db.Snapshot(), subscriber, channelId, now, r);
  }

  /** The subscriber summaries of a channel's subscriptions, in store order. */
  function SubscribersOf(t: Tables, channel: Id): (r: seq<Option<OwnerSummary>>)
    ensures |r| == Count(t.subscriptions, (s: Subscription) => s.channelId == channel)
  {
    var rows := Filter(t.subscriptions, (s: Subscription) => s.channelId == channel);
    MapRows(rows, (s: Subscription) => SummaryOf(t.users, s.subscriberId))
  }

  /** `getUserChannelSubscribers`. */
  function GetUserChannelSubscribers(t: Tables, channelId: string): (r: Reply<seq<Option<OwnerSummary>>>)
    ensures ParseId(channelId).None? <==> r == Failure(400, "Invalid channel ID")
    ensures r.Success? ==> r == Success(200, SubscribersOf(t, ParseId(channelId).value))
  {
    match ParseId(channelId)
    case None => Failure(400, "Invalid channel ID")
    case Some(channel) => Success(200, SubscribersOf(t, channel))
  }

  /** Every listed subscriber holds a subscription to the channel. */
  lemma SubscribersSound(t: Tables, channel: Id, u: User)
    requires u in t.users && UniqueBy(t.users, UserName)
    requires Some(Summarize(u)) in SubscribersOf(t, channel)
    ensures (u.id, channel) in SubscriptionKeys(t.subscriptions)
  {
    var rows := Filter(t.subscriptions, (s: Subscription) => s.channelId == channel);
    var out := SubscribersOf(t, channel);
    var k :| 0 <= k < |out| && out[k] == Some(Summarize(u));
    var j := UserAt(t.users, rows[k].subscriberId).value;
    var ui :| 0 <= ui < |t.users| && t.users[ui] == u;
    SummaryIdentifies(t.users, j, ui);
    assert rows[k] in t.subscriptions;
    var m :| 0 <= m < |t.subscriptions| && t.subscriptions[m] == rows[k];
    assert SubscriptionKey(t.subscriptions[m]) == (u.id, channel);
  }

  /** Every subscriber of the channel is listed. */
  lemma SubscribersComplete(t: Tables, channel: Id, u: User)
    requires u in t.users && UniqueBy(t.users, UserId)
    requires (u.id, channel) in SubscriptionKeys(t.subscriptions)
    ensures Some(Summarize(u)) in SubscribersOf(t, channel)
  {
    var rows := Filter(t.subscriptions, (s: Subscription) => s.channelId == channel);
    var m :| 0 <= m < |t.subscriptions| && SubscriptionKey(t.subscriptions[m]) == (u.id, channel);
    assert t.subscriptions[m] in rows;
    var k :| 0 <= k < |rows| && rows[k] == t.subscriptions[m];
    var ui :| 0 <= ui < |t.users| && t.users[ui] == u;
    UserAtRow(t.users, ui);
    assert SubscribersOf(t, channel)[k] == Some(Summarize(u));
  }

  /** The channel summaries of a subscriber's subscriptions, in store order. */
  function ChannelsOf(t: Tables, subscriber: Id): (r: seq<Option<OwnerSummary>>)
    ensures |r| == Count(t.subscriptions, (s: Subscription) => s.subscriberId == subscriber)
  {
    var rows := Filter(t.subscriptions, (s: Subscription) => s.subscriberId == subscriber);
    MapRows(rows, (s: Subscription) => SummaryOf(t.users, s.channelId))
  }

  /** `getSubscribedChannels`. */
  function GetSubscribedChannels(t: Tables, subscriberId: string): (r: Reply<seq<Option<OwnerSummary>>>)
    ensures ParseId(subscriberId).None? <==> r == Failure(400, "Invalid subscriber ID")
    ensures r.Success? ==> r == Success(200, ChannelsOf(t, ParseId(subscriberId).value))
  {
    match ParseId(subscriberId)
    case None => Failure(400, "Invalid subscriber ID")
    case Some(subscriber) => Success(200, ChannelsOf(t, subscriber))
  }

  /** Every listed channel is one the subscriber subscribes to. */
  lemma ChannelsSound(t: Tables, subscriber: Id, u: User)
    requires u in t.users && UniqueBy(t.users, UserName)
    requires Some(Summarize(u)) in ChannelsOf(t, subscriber)
    ensures (subscriber, u.id) in SubscriptionKeys(t.subscriptions)
  {
    var rows := Filter(t.subscriptions, (s: Subscription) => s.subscriberId == subscriber);
    var out := ChannelsOf(t, subscriber);
    var k :| 0 <= k < |out| && out[k] == Some(Summarize(u));
    var j := UserAt(t.users, rows[k].channelId).value;
    var ui :| 0 <= ui < |t.users| && t.users[ui] == u;
    SummaryIdentifies(t.users, j, ui);
    assert rows[k] in t.subscriptions;
    var m :| 0 <= m < |t.subscriptions| && t.subscriptions[m] == rows[k];
    assert SubscriptionKey(t.subscriptions[m]) == (subscriber, u.id);
  }

  /** Every channel the subscriber subscribes to is listed. */
  lemma ChannelsComplete(t: Tables, subscriber: Id, u: User)
    requires u in t.users && UniqueBy(t.users, UserId)
    requires (subscriber, u.id) in SubscriptionKeys(t.subscriptions)
    ensures Some(Summarize(u)) in ChannelsOf(t, subscriber)
  {
    var rows := Filter(t.subscriptions, (s: Subscription) => s.subscriberId == subscriber);
    var m :| 0 <= m < |t.subscriptions| && SubscriptionKey(t.subscriptions[m]) == (subscriber, u.id);
    assert t.subscriptions[m] in rows;
    var k :| 0 <= k < |rows| && rows[k] == t.subscriptions[m];
    var ui :| 0 <= ui < |t.users| && t.users[ui] == u;
    UserAtRow(t.users, ui);
    assert ChannelsOf(t, subscriber)[k] == Some(Summarize(u));
  }
}
