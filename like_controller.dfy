/** Likes: one toggle per kind of target and the list of liked videos. */
module LikeController {
  import opened Common
  import opened Text
  import opened Rows
  import opened Store

  /** The status and message the error handler produces for the ORM's
      foreign-key failure, which carries no status of its own. */
  const ForeignKeyFailure: string := "Foreign key constraint failed"

  /** The (user, target) pairs that are liked. */
  function LikeKeys(likes: seq<Like>): set<(Id, LikeTarget)> {
    set i | 0 <= i < |likes| :: LikeKey(likes[i])
  }

  /** `findFirst({ where: { <target>, userId } })`. */
  function FindLike(likes: seq<Like>, user: Id, target: LikeTarget): (r: Option<nat>)
    ensures r.Some? <==> (user, target) in LikeKeys(likes)
    ensures r.Some? ==> r.value < |likes| && LikeKey(likes[r.value]) == (user, target)
  {
    FirstIndex(likes, (l: Like) => l.userId == user && l.target == target)
  }

  /** The liked row exists: the ORM refuses a like pointing nowhere. */
  predicate TargetExists(t: Tables, target: LikeTarget) {
    match target
    case OnVideo(v) => VideoAt(t.videos, v).Some?
    case OnComment(c) => CommentAt(t.comments, c).Some?
    case OnTweet(w) => TweetAt(t.tweets, w).Some?
  }

  /** The effect of one toggle by `user` on `target` at time `now`: an
      existing like is deleted and `liked: false` reported; otherwise a like
      is created and `liked: true` reported. Nothing but the like table and
      the identifier counter changes. */
  ghost predicate Toggled(t0: Tables, t1: Tables, user: Id, target: LikeTarget, now: int, r: Reply<bool>) {
    match FindLike(t0.likes, user, target)
    case Some(i) =>
      r == Success(200, false) && t1 == t0.(likes := WithoutLike(t0.likes, t0.likes[i].id))
    case None =>
      if TargetExists(t0, target) then
        r == Success(200, true) &&
        t1 == t0.(likes := t0.likes + [Like(t0.nextId, user, target, now)], nextId := t0.nextId + 1)
      else
        r == Failure(500, ForeignKeyFailure) && t1 == t0
  }

  /** Deleting the like with a given key removes exactly that key. */
  lemma {:induction false} RemoveKey(likes: seq<Like>, i: nat)
    requires i < |likes| && UniqueBy(likes, LikeId) && UniqueBy(likes, LikeKey)
    ensures LikeKeys(WithoutLike(likes, likes[i].id)) == LikeKeys(likes) - {LikeKey(likes[i])}
  {
    var r := WithoutLike(likes, likes[i].id);
    forall k | k in LikeKeys(r) ensures k in LikeKeys(likes) - {LikeKey(likes[i])} {
      var j :| 0 <= j < |r| && LikeKey(r[j]) == k;
      var m :| 0 <= m < |likes| && likes[m] == r[j];
      assert m != i;
    }
    forall k | k in LikeKeys(likes) - {LikeKey(likes[i])} ensures k in LikeKeys(r) {
      var m :| 0 <= m < |likes| && LikeKey(likes[m]) == k;
      assert m != i;
      assert likes[m] in r;
    }
  }

  /** Appending a like adds exactly its key. */
  lemma AddKey(likes: seq<Like>, x: Like)
    ensures LikeKeys(likes + [x]) == LikeKeys(likes) + {LikeKey(x)}
  {
    var s := likes + [x];
    forall k | k in LikeKeys(likes) ensures k in LikeKeys(s) {
      var m :| 0 <= m < |likes| && LikeKey(likes[m]) == k;
      assert s[m] == likes[m];
    }
    assert s[|likes|] == x;
  }

  /** A toggle keeps the store's constraints. */
  lemma ToggleKeepsWellFormed(t0: Tables, t1: Tables, user: Id, target: LikeTarget, now: int, r: Reply<bool>)
    requires WellFormed(t0) && Toggled(t0, t1, user, target, now, r)
    ensures WellFormed(t1)
  {
    match FindLike(t0.likes, user, target)
    case Some(i) =>
      IssuedFilter(t0.likes, (x: Like) => x.id != t0.likes[i].id, LikeId, t0.nextId);
      FilterUnique(t0.likes, (x: Like) => x.id != t0.likes[i].id, LikeKey);
    case None =>
      if TargetExists(t0, target) {
        var x := Like(t0.nextId, user, target, now);
        BumpWellFormed(t0);
        IssuedAppend(t0.likes, x, LikeId, t0.nextId);
        AppendUnique(t0.likes, x, LikeKey);
      }
  }

  /** A successful toggle flips exactly the toggled key: `liked: true` means
      the key was absent and is now present, `liked: false` the reverse, and
      every other like key keeps its presence. */
  lemma ToggleFlipsKey(t0: Tables, t1: Tables, user: Id, target: LikeTarget, now: int, r: Reply<bool>)
    requires WellFormed(t0) && Toggled(t0, t1, user, target, now, r) && r.Success?
    ensures r.data ==> (user, target) !in LikeKeys(t0.likes) && LikeKeys(t1.likes) == LikeKeys(t0.likes) + {(user, target)}
    ensures !r.data ==> (user, target) in LikeKeys(t0.likes) && LikeKeys(t1.likes) == LikeKeys(t0.likes) - {(user, target)}
    ensures ((user, target) in LikeKeys(t1.likes)) == r.data
  {
    match FindLike(t0.likes, user, target)
    case Some(i) => RemoveKey(t0.likes, i);
    case None => AddKey(t0.likes, Like(t0.nextId, user, target, now));
  }

  /** Toggling twice reports opposite flags and restores the set of likes;
      a like that was added and then removed leaves the table exactly as it
      was. */
  lemma ToggleTwiceRestores(t0: Tables, t1: Tables, t2: Tables, user: Id, target: LikeTarget,
                            now1: int, now2: int, r1: Reply<bool>, r2: Reply<bool>)
    requires WellFormed(t0) && TargetExists(t0, target)
    requires Toggled(t0, t1, user, target, now1, r1) && Toggled(t1, t2, user, target, now2, r2)
    ensures r1.Success? && r2.Success? && r2.data == !r1.data
    ensures LikeKeys(t2.likes) == LikeKeys(t0.likes)
    ensures r1.data ==> t2.likes == t0.likes
  {
    ToggleKeepsWellFormed(t0, t1, user, target, now1, r1);
    assert TargetExists(t1, target);
    ToggleFlipsKey(t0, t1, user, target, now1, r1);
    ToggleFlipsKey(t1, t2, user, target, now2, r2);
    if r1.data {
      var x := Like(t0.nextId, user, target, now1);
      assert FindLike(t1.likes, user, target) == Some(|t0.likes|);
      AddThenRemove(t0.likes, x);
    }
  }

  /** Removing the like just appended gives back the table, when its
      identifier is new. */
  lemma AddThenRemove(likes: seq<Like>, x: Like)
    requires forall i :: 0 <= i < |likes| ==> likes[i].id != x.id
    ensures WithoutLike(likes + [x], x.id) == likes
  {
    var p := (l: Like) => l.id != x.id;
    FilterAppend(likes, [x], p);
    FilterAll(likes, p);
    assert Filter([x], p) == [];
  }

  /** The toggle every like handler shares, once the route id is parsed. */
  method ToggleLike(db: Db, user: Id, target: LikeTarget, now: int) returns (r: Reply<bool>)
    requires db.Valid()
    modifies db
    ensures db.Valid()
    ensures Toggled(old(db.Snapshot()), db.Snapshot(), user, target, now, r)
  {
    var existing := FindLike(db.likes, user, target);
    if existing.Some? {
      db.likes := WithoutLike(db.likes, db.likes[existing.value].id);
      r := Success(200, false);
    } else if !TargetExists(db.Snapshot(), target) {
      r := Failure(500, ForeignKeyFailure);
    } else {
      db.likes := db.likes + [Like(db.nextId, user, target, now)];
      db.nextId := db.nextId + 1;
      r := Success(200, true);
    }
    ToggleKeepsWellFormed(old(db.Snapshot()), db.Snapshot(), user, target, now, r);
  }

  /** `toggleVideoLike`: a non-numeric id is refused before the store is touched. */
  method ToggleVideoLike(db: Db, user: Id, videoId: string, now: int) returns (r: Reply<bool>)
    requires db.Valid()
    modifies db
    ensures db.Valid()
    ensures ParseId(videoId).None? ==> r == Failure(400, "Invalid video ID") && unchanged(db)
    ensures ParseId(videoId).Some? ==> Toggled(old(db.Snapshot()), db.Snapshot(), user, OnVideo(ParseId(videoId).value), now, r)
  {
    var id := ParseId(videoId);
    if id.None? {
      return Failure(400, "Invalid video ID");
    }
    r := ToggleLike(db, user, OnVideo(id.value), now);
  }

  /** `toggleCommentLike`: the same toggle keyed on the comment. */
  method ToggleCommentLike(db: Db, user: Id, commentId: string, now: int) returns (r: Reply<bool>)
    requires db.Valid()
    modifies db
    ensures db.Valid()
    ensures ParseId(commentId).None? ==> r == Failure(400, "Invalid comment ID") && unchanged(db)
    ensures ParseId(commentId).Some? ==> Toggled(old(db.Snapshot()), db.Snapshot(), user, OnComment(ParseId(commentId).value), now, r)
  {
    var id := ParseId(commentId);
    if id.None? {
      return Failure(400, "Invalid comment ID");
    }
    r := ToggleLike(db, user, OnComment(id.value), now);
  }

  /** `toggleTweetLike`: the same toggle keyed on the tweet. */
  method ToggleTweetLike(db: Db, user: Id, tweetId: string, now: int) returns (r: Reply<bool>)
    requires db.Valid()
    modifies db
    ensures db.Valid()
    ensures ParseId(tweetId).None? ==> r == Failure(400, "Invalid tweet ID") && unchanged(db)
    ensures ParseId(tweetId).Some? ==> Toggled(old(db.Snapshot()), db.Snapshot(), user, OnTweet(ParseId(tweetId).value), now, r)
  {
    var id := ParseId(tweetId);
    if id.None? {
      return Failure(400, "Invalid tweet ID");
    }
    r := ToggleLike(db, user, OnTweet(id.value), now);
  }

  function LikeCreatedAt(l: Like): int { l.createdAt }

  /** The video likes of `user` (`where: { userId, videoId: { not: null } }`). */
  function VideoLikesOf(likes: seq<Like>, user: Id): seq<Like> {
    Filter(likes, (l: Like) => l.userId == user && l.target.OnVideo?)
  }

  /** The video a like points at; only video likes reach the listing. */
  function LikedVideo(l: Like): Id {
    match l.target
    case OnVideo(v) => v
    case _ => 0
  }

  /** The user's video likes, newest first. */
  function OrderedVideoLikes(likes: seq<Like>, user: Id): (r: seq<Like>)
    ensures forall i :: 0 <= i < |r| ==> r[i].target.OnVideo? && r[i].userId == user
    ensures forall m :: 0 <= m < |likes| && likes[m].userId == user && likes[m].target.OnVideo? ==> likes[m] in r
    ensures forall i :: 0 <= i < |r| ==> r[i] in likes
    ensures SortedBy(r, LikeCreatedAt, false)
  {
    var liked := VideoLikesOf(likes, user);
    SortByRows(liked, LikeCreatedAt, false);
    SortBy(liked, LikeCreatedAt, false)
  }

  /** Each video like of the user is listed exactly as often as the table
      holds it, and no other like is listed. */
  lemma OrderedVideoLikesCounts(likes: seq<Like>, user: Id)
    ensures forall x :: multiset(OrderedVideoLikes(likes, user))[x] ==
                        if x.userId == user && x.target.OnVideo? then multiset(likes)[x] else 0
  {
    FilterCounts(likes, (l: Like) => l.userId == user && l.target.OnVideo?);
  }

  /** `getLikedVideos`: the user's video likes, newest like first, each
      replaced by its video and the video owner's summary. */
  function GetLikedVideos(t: Tables, user: Id): (r: Reply<seq<VideoCard>>)
    ensures r.Success? && r.status == 200
  {
    Success(200, VideoCards(OrderedVideoLikes(t.likes, user), LikedVideo, t.videos, t.users))
  }

  /** Every listed video is one the user liked. */
  lemma LikedVideosSound(t: Tables, user: Id, k: nat)
    requires k < |GetLikedVideos(t, user).data|
    ensures GetLikedVideos(t, user).data[k].video in t.videos
    ensures (user, OnVideo(GetLikedVideos(t, user).data[k].video.id)) in LikeKeys(t.likes)
  {
    var ordered := OrderedVideoLikes(t.likes, user);
    var v := GetLikedVideos(t, user).data[k].video;
    VideoCardsFromRows(ordered, LikedVideo, t.videos, t.users);
    var i :| 0 <= i < |ordered| && LikedVideo(ordered[i]) == v.id;
    assert ordered[i].target == OnVideo(v.id);
    var m :| 0 <= m < |t.likes| && t.likes[m] == ordered[i];
    assert LikeKey(t.likes[m]) == (user, OnVideo(v.id));
  }

  /** Every existing video the user liked is listed, with its owner summary. */
  lemma LikedVideosComplete(t: Tables, user: Id, v: Video)
    requires v in t.videos && UniqueBy(t.videos, VideoId)
    requires (user, OnVideo(v.id)) in LikeKeys(t.likes)
    ensures CardOf(t.users, v) in GetLikedVideos(t, user).data
  {
    var ordered := OrderedVideoLikes(t.likes, user);
    var m :| 0 <= m < |t.likes| && LikeKey(t.likes[m]) == (user, OnVideo(v.id));
    var i :| 0 <= i < |ordered| && ordered[i] == t.likes[m];
    var j :| 0 <= j < |t.videos| && t.videos[j] == v;
    VideoAtRow(t.videos, j);
    VideoCardsComplete(ordered, LikedVideo, t.videos, t.users, i);
  }

  /** With no liked video missing, the list has one entry per video like,
      newest like first: entry k is the video of the k-th most recent like. */
  lemma LikedVideosInOrder(t: Tables, user: Id)
    requires forall m :: 0 <= m < |t.likes| && t.likes[m].userId == user && t.likes[m].target.OnVideo? ==>
      VideoAt(t.videos, t.likes[m].target.videoId).Some?
    ensures |GetLikedVideos(t, user).data| == |OrderedVideoLikes(t.likes, user)|
    ensures forall k :: 0 <= k < |GetLikedVideos(t, user).data| ==>
      GetLikedVideos(t, user).data[k].video.id == OrderedVideoLikes(t.likes, user)[k].target.videoId
    ensures forall j, k :: 0 <= j < k < |GetLikedVideos(t, user).data| ==>
      OrderedVideoLikes(t.likes, user)[k].createdAt <= OrderedVideoLikes(t.likes, user)[j].createdAt
  {
    var ordered := OrderedVideoLikes(t.likes, user);
    forall i | 0 <= i < |ordered| ensures VideoAt(t.videos, LikedVideo(ordered[i])).Some? {
      var m :| 0 <= m < |t.likes| && t.likes[m] == ordered[i];
    }
    VideoCardsInOrder(ordered, LikedVideo, t.videos, t.users);
  }
}
