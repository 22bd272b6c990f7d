/** Tweets (relational-store handlers): creating, listing a user's tweets
    with their like counts, and the owner-scoped update and delete. */
module TweetController {
  import opened Common
  import opened Text
  import opened Rows
  import opened Store

  const NotFoundOrUnauthorized: string := "Tweet not found or unauthorized"

  /** `createTweet`: blank content is refused, otherwise the tweet is stored
      under the requester. */
  method CreateTweet(db: Db, requester: Id, content: Option<string>, now: int) returns (r: Reply<Tweet>)
    requires db.Valid()
    modifies db
    ensures db.Valid()
    ensures MissingOrBlank(content) ==> r == Failure(400, "Tweet content cannot be empty.") && unchanged(db)
    ensures !MissingOrBlank(content) ==>
      && r == Success(201, Tweet(old(db.nextId), content.value, requester, now))
      && db.Snapshot() == old(db.Snapshot()).(tweets := old(db.tweets) + [r.data], nextId := old(db.nextId) + 1)
  {
    if MissingOrBlank(content) {
      return Failure(400, "Tweet content cannot be empty.");
    }
    var tw := Tweet(db.nextId, content.value, requester, now);
    ghost var after := db.Snapshot().(tweets := db.tweets + [tw], nextId := db.nextId + 1);
    AddTweet(db.Snapshot(), tw);
    db.tweets := db.tweets + [tw];
    db.nextId := db.nextId + 1;
    assert db.Snapshot() == after;
    r := Success(201, tw);
  }

  /** A listed tweet with `_count.likes`. */
  datatype TweetWithLikes = TweetWithLikes(tweet: Tweet, likes: nat)

  function TweetCreatedAt(tw: Tweet): int { tw.createdAt }

  function TweetLikeCount(likes: seq<Like>, tw: Tweet): nat {
    Count(likes, (l: Like) => l.target == OnTweet(tw.id))
  }

  function WithLikes(likes: seq<Like>, tw: Tweet): TweetWithLikes {
    TweetWithLikes(tw, TweetLikeCount(likes, tw))
  }

  /** The tweets of `user`, newest first. */
  function TweetsOf(tweets: seq<Tweet>, user: Id): (r: seq<Tweet>)
    ensures SortedBy(r, TweetCreatedAt, false)
    ensures forall k :: 0 <= k < |r| ==> r[k] in tweets && r[k].owner == user
    ensures forall i :: 0 <= i < |tweets| && tweets[i].owner == user ==> tweets[i] in r
  {
    var mine := Filter(tweets, (tw: Tweet) => tw.owner == user);
    SortByRows(mine, TweetCreatedAt, false);
    SortBy(mine, TweetCreatedAt, false)
  }

  /** Each tweet of the user is listed exactly as often as the table holds
      it, and no other tweet is listed. */
  lemma TweetsOfCounts(tweets: seq<Tweet>, user: Id)
    ensures forall x :: multiset(TweetsOf(tweets, user))[x] == if x.owner == user then multiset(tweets)[x] else 0
  {
    FilterCounts(tweets, (tw: Tweet) => tw.owner == user);
  }

  /** `getUserTweets`: 400 on an unparsable id; otherwise exactly that user's
      tweets, newest first, each with the number of likes pointing at it. */
  function GetUserTweets(t: Tables, userId: string): (r: Reply<seq<TweetWithLikes>>)
    ensures ParseId(userId).None? <==> r == Failure(400, "Invalid user ID")
    ensures r.Success? ==> r.status == 200 && |r.data| == |TweetsOf(t.tweets, ParseId(userId).value)|
    ensures r.Success? ==> forall k :: 0 <= k < |r.data| ==>
      && r.data[k].tweet in t.tweets && r.data[k].tweet.owner == ParseId(userId).value
      && r.data[k].likes == TweetLikeCount(t.likes, r.data[k].tweet)
    ensures r.Success? ==> forall i, j :: 0 <= i < j < |r.data| ==> r.data[j].tweet.createdAt <= r.data[i].tweet.createdAt
  {
    match ParseId(userId)
    case None => Failure(400, "Invalid user ID")
    case Some(user) =>
      var likes := t.likes;
      Success(200, MapRows(TweetsOf(t.tweets, user), (tw: Tweet) => WithLikes(likes, tw)))
  }

  /** Every tweet of the user is listed. */
  lemma UserTweetsComplete(t: Tables, user: Id, tw: Tweet)
    requires user >= 0 && tw in t.tweets && tw.owner == user
    ensures exists k :: 0 <= k < |GetUserTweets(t, ShowId(user)).data| && GetUserTweets(t, ShowId(user)).data[k].tweet == tw
  {
    ParseShowRoundTrip(user);
    var r := TweetsOf(t.tweets, user);
    var i :| 0 <= i < |t.tweets| && t.tweets[i] == tw;
    var k :| 0 <= k < |r| && r[k] == tw;
    assert GetUserTweets(t, ShowId(user)).data[k].tweet == tw;
  }

  /** `update` / `delete` where `{ id, userId }`: the tweet with that id, if it
      belongs to `owner`. */
  function OwnTweetAt(tweets: seq<Tweet>, id: Id, owner: Id): (r: Option<nat>)
    ensures r.Some? ==> r.value < |tweets| && tweets[r.value].id == id && tweets[r.value].owner == owner
    ensures r.None? <==> forall j :: 0 <= j < |tweets| ==> !(tweets[j].id == id && tweets[j].owner == owner)
  {
    FirstIndex(tweets, (tw: Tweet) => tw.id == id && tw.owner == owner)
  }

  /** `updateTweet`: id, then content; a tweet that is missing or belongs to
      someone else makes the update throw, which becomes a 403. */
  method UpdateTweet(db: Db, requester: Id, tweetId: string, content: Option<string>) returns (r: Reply<Tweet>)
    requires db.Valid()
    modifies db
    ensures db.Valid()
    ensures r.Failure? ==> unchanged(db)
    ensures ParseId(tweetId).None? ==> r == Failure(400, "Invalid tweet ID")
    ensures ParseId(tweetId).Some? && MissingOrBlank(content) ==> r == Failure(400, "Content cannot be empty")
    ensures ParseId(tweetId).Some? && !MissingOrBlank(content) ==>
      var found := OwnTweetAt(old(db.tweets), ParseId(tweetId).value, requester);
      && (found.None? ==> r == Failure(403, NotFoundOrUnauthorized))
      && (found.Some? ==>
            && r == Success(200, old(db.tweets)[found.value].(content := content.value))
            && db.Snapshot() == old(db.Snapshot()).(tweets := old(db.tweets)[found.value := r.data]))
  {
    var tid := ParseId(tweetId);
    if tid.None? {
      return Failure(400, "Invalid tweet ID");
    }
    if MissingOrBlank(content) {
      return Failure(400, "Content cannot be empty");
    }
    var found := OwnTweetAt(db.tweets, tid.value, requester);
    if found.None? {
      return Failure(403, NotFoundOrUnauthorized);
    }
    var tw := db.tweets[found.value].(content := content.value);
    ghost var after := db.Snapshot().(tweets := db.tweets[found.value := tw]);
    SetTweet(db.Snapshot(), found.value, tw);
    db.tweets := db.tweets[found.value := tw];
    assert db.Snapshot() == after;
    r := Success(200, tw);
  }

  /** `deleteTweet`: id, then the owner-scoped delete, whose failure becomes a 403. */
  method DeleteTweet(db: Db, requester: Id, tweetId: string) returns (r: Reply<()>)
    requires db.Valid()
    modifies db
    ensures db.Valid()
    ensures r.Failure? ==> unchanged(db)
    ensures ParseId(tweetId).None? ==> r == Failure(400, "Invalid tweet ID")
    ensures ParseId(tweetId).Some? ==>
      var found := OwnTweetAt(old(db.tweets), ParseId(tweetId).value, requester);
      && (found.None? ==> r == Failure(403, NotFoundOrUnauthorized))
      && (found.Some? ==>
            && r == Success(200, ())
            && db.Snapshot() == old(db.Snapshot()).(tweets := WithoutTweet(old(db.tweets), ParseId(tweetId).value)))
  {
    var tid := ParseId(tweetId);
    if tid.None? {
      return Failure(400, "Invalid tweet ID");
    }
    var found := OwnTweetAt(db.tweets, tid.value, requester);
    if found.None? {
      return Failure(403, NotFoundOrUnauthorized);
    }
    ghost var after := db.Snapshot().(tweets := WithoutTweet(db.tweets, tid.value));
    DropTweet(db.Snapshot(), tid.value);
    db.tweets := WithoutTweet(db.tweets, tid.value);
    assert db.Snapshot() == after;
    r := Success(200, ());
  }

  /** Every tweet not owned by `user` in `before` is still in `after`, unchanged,
      and `after` holds no tweet of another user that `before` lacked. */
  ghost predicate OthersKept(before: seq<Tweet>, after: seq<Tweet>, user: Id) {
    && (forall i :: 0 <= i < |before| && before[i].owner != user ==> before[i] in after)
    && (forall k :: 0 <= k < |after| && after[k].owner != user ==> after[k] in before)
  }

  /** An update by `user` touches none of another user's tweets. */
  lemma UpdateKeepsOthers(tweets: seq<Tweet>, id: Id, user: Id, content: string)
    requires UniqueBy(tweets, TweetId)
    requires OwnTweetAt(tweets, id, user).Some?
    ensures var i := OwnTweetAt(tweets, id, user).value;
      OthersKept(tweets, tweets[i := tweets[i].(content := content)], user)
    ensures var i := OwnTweetAt(tweets, id, user).value;
      |tweets[i := tweets[i].(content := content)]| == |tweets|
  {
    var i := OwnTweetAt(tweets, id, user).value;
    var after := tweets[i := tweets[i].(content := content)];
    forall j | 0 <= j < |tweets| && tweets[j].owner != user ensures tweets[j] in after {
      assert after[j] == tweets[j];
    }
    forall k | 0 <= k < |after| && after[k].owner != user ensures after[k] in tweets {
      assert after[k] == tweets[k];
    }
  }

  /** A delete by `user` removes none of another user's tweets. */
  lemma DeleteKeepsOthers(tweets: seq<Tweet>, id: Id, user: Id)
    requires UniqueBy(tweets, TweetId)
    requires OwnTweetAt(tweets, id, user).Some?
    ensures OthersKept(tweets, WithoutTweet(tweets, id), user)
    ensures |WithoutTweet(tweets, id)| == |tweets| - 1
  {
    var i := OwnTweetAt(tweets, id, user).value;
    FilterOne(tweets, i, (x: Tweet) => x.id != id);
    forall j | 0 <= j < |tweets| && tweets[j].owner != user ensures tweets[j] in WithoutTweet(tweets, id) {
      assert j != i;
    }
  }
}
