/** The persistent state the handlers read and write: one table per entity,
    rows kept in insertion order, identifiers handed out by the store.
    Both persistence back ends of the application are modelled by this one
    store. */
module Store {
  import opened Common
  import opened Rows

  datatype User = User(
    id: Id, username: string, email: string, fullname: string,
    password: string,              // the stored bcrypt hash, opaque here
    avatar: string, coverImage: string,
    refreshToken: Option<string>,  // null after logout
    createdAt: int)

  datatype Video = Video(
    id: Id, title: string, description: string, owner: Id,
    videoFileUrl: string, thumbnailUrl: string, duration: int,
    views: nat, isPublished: bool, createdAt: int)

  /** A like points at exactly one of a video, a comment or a tweet. */
  datatype LikeTarget = OnVideo(videoId: Id) | OnComment(commentId: Id) | OnTweet(tweetId: Id)

  datatype Like = Like(id: Id, userId: Id, target: LikeTarget, createdAt: int)

  datatype Subscription = Subscription(id: Id, subscriberId: Id, channelId: Id, createdAt: int)

  datatype Playlist = Playlist(id: Id, name: string, description: string, owner: Id, createdAt: int)

  /** Membership of a video in a playlist. */
  datatype PlaylistVideo = PlaylistVideo(id: Id, playlistId: Id, videoId: Id)

  datatype Comment = Comment(id: Id, content: string, owner: Id, videoId: Id, createdAt: int)

  datatype Tweet = Tweet(id: Id, content: string, owner: Id, createdAt: int)

  datatype WatchEntry = WatchEntry(id: Id, userId: Id, videoId: Id, watchedAt: int)

  /** The public summary selected with a user relation: username, fullname, avatar. */
  datatype OwnerSummary = OwnerSummary(username: string, fullname: string, avatar: string)

  /** A video together with the summary of its owner, as the handlers that
      `include` the owning user return it. */
  datatype VideoCard = VideoCard(video: Video, user: Option<OwnerSummary>)

  /** A value snapshot of every table, and the next identifier to hand out. */
  datatype Tables = Tables(
    users: seq<User>, videos: seq<Video>, likes: seq<Like>,
    subscriptions: seq<Subscription>, playlists: seq<Playlist>,
    playlistVideos: seq<PlaylistVideo>, comments: seq<Comment>,
    tweets: seq<Tweet>, watchHistory: seq<WatchEntry>, nextId: Id)

  function UserId(u: User): Id { u.id }
  function UserName(u: User): string { u.username }
  function UserEmail(u: User): string { u.email }
  function VideoId(v: Video): Id { v.id }
  function LikeId(l: Like): Id { l.id }
  function LikeKey(l: Like): (Id, LikeTarget) { (l.userId, l.target) }
  function SubscriptionId(s: Subscription): Id { s.id }
  function SubscriptionKey(s: Subscription): (Id, Id) { (s.subscriberId, s.channelId) }
  function PlaylistId(p: Playlist): Id { p.id }
  function MembershipId(m: PlaylistVideo): Id { m.id }
  function CommentId(c: Comment): Id { c.id }
  function TweetId(t: Tweet): Id { t.id }
  function WatchId(w: WatchEntry): Id { w.id }

  /** Identifiers of a table are distinct and were handed out before `next`. */
  ghost predicate IdsIssued<T>(s: seq<T>, id: T -> Id, next: Id) {
    UniqueBy(s, id) && KeysWithin(s, id, 1, next)
  }

  /** The store's key and uniqueness constraints: primary keys, unique
      username and email, at most one like per (user, target), at most one
      subscription per (subscriber, channel), and no self-subscription. */
  ghost predicate WellFormed(t: Tables) {
    && t.nextId >= 1
    && IdsIssued(t.users, UserId, t.nextId)
    && IdsIssued(t.videos, VideoId, t.nextId)
    && IdsIssued(t.likes, LikeId, t.nextId)
    && IdsIssued(t.subscriptions, SubscriptionId, t.nextId)
    && IdsIssued(t.playlists, PlaylistId, t.nextId)
    && IdsIssued(t.playlistVideos, MembershipId, t.nextId)
    && IdsIssued(t.comments, CommentId, t.nextId)
    && IdsIssued(t.tweets, TweetId, t.nextId)
    && IdsIssued(t.watchHistory, WatchId, t.nextId)
    && UniqueBy(t.users, UserName) && UniqueBy(t.users, UserEmail)
    && UniqueBy(t.likes, LikeKey)
    && UniqueBy(t.subscriptions, SubscriptionKey)
    && NoSelfSubscription(t.subscriptions)
  }

  ghost predicate NoSelfSubscription(subs: seq<Subscription>) {
    forall i :: 0 <= i < |subs| ==> subs[i].subscriberId != subs[i].channelId
  }

  lemma IssuedGrow<T>(s: seq<T>, id: T -> Id, next: Id)
    requires IdsIssued(s, id, next)
    ensures IdsIssued(s, id, next + 1)
  {
  }

  /** Appending a row carrying the next identifier keeps that table's keys issued. */
  lemma IssuedAppend<T>(s: seq<T>, x: T, id: T -> Id, next: Id)
    requires IdsIssued(s, id, next) && id(x) == next && next >= 1
    ensures IdsIssued(s + [x], id, next + 1)
  {
    AppendUnique(s, x, id);
    forall i | 0 <= i < |s + [x]| ensures 1 <= id((s + [x])[i]) < next + 1 {
      if i < |s| { assert (s + [x])[i] == s[i]; }
    }
  }

  /** Removing rows keeps a table's keys issued. */
  lemma IssuedFilter<T>(s: seq<T>, p: T -> bool, id: T -> Id, next: Id)
    requires IdsIssued(s, id, next)
    ensures IdsIssued(Filter(s, p), id, next)
  {
    FilterUnique(s, p, id);
    FilterWithin(s, p, id, 1, next);
  }

  /** Replacing a row by one with the same identifier keeps a table's keys issued. */
  lemma IssuedReplace<T>(s: seq<T>, i: nat, x: T, id: T -> Id, next: Id)
    requires i < |s| && IdsIssued(s, id, next) && id(x) == id(s[i])
    ensures IdsIssued(s[i := x], id, next)
  {
    ReplaceUnique(s, i, x, id);
  }

  /** Handing out one more identifier keeps the store well formed. */
  lemma BumpWellFormed(t: Tables)
    requires WellFormed(t)
    ensures WellFormed(t.(nextId := t.nextId + 1))
  {
    IssuedGrow(t.users, UserId, t.nextId);
    IssuedGrow(t.videos, VideoId, t.nextId);
    IssuedGrow(t.likes, LikeId, t.nextId);
    IssuedGrow(t.subscriptions, SubscriptionId, t.nextId);
    IssuedGrow(t.playlists, PlaylistId, t.nextId);
    IssuedGrow(t.playlistVideos, MembershipId, t.nextId);
    IssuedGrow(t.comments, CommentId, t.nextId);
    IssuedGrow(t.tweets, TweetId, t.nextId);
    IssuedGrow(t.watchHistory, WatchId, t.nextId);
  }

  // Whole-store forms of the lemmas above, one per table a handler changes.

  lemma AddUser(t: Tables, x: User)
    requires WellFormed(t) && x.id == t.nextId
    requires forall i :: 0 <= i < |t.users| ==> t.users[i].username != x.username && t.users[i].email != x.email
    ensures WellFormed(t.(users := t.users + [x], nextId := t.nextId + 1))
  {
    BumpWellFormed(t);
    IssuedAppend(t.users, x, UserId, t.nextId);
    AppendUnique(t.users, x, UserName);
    AppendUnique(t.users, x, UserEmail);
  }

  lemma AddVideo(t: Tables, x: Video)
    requires WellFormed(t) && x.id == t.nextId
    ensures WellFormed(t.(videos := t.videos + [x], nextId := t.nextId + 1))
  {
    BumpWellFormed(t);
    IssuedAppend(t.videos, x, VideoId, t.nextId);
  }

  lemma AddPlaylist(t: Tables, x: Playlist)
    requires WellFormed(t) && x.id == t.nextId
    ensures WellFormed(t.(playlists := t.playlists + [x], nextId := t.nextId + 1))
  {
    BumpWellFormed(t);
    IssuedAppend(t.playlists, x, PlaylistId, t.nextId);
  }

  lemma AddMembership(t: Tables, x: PlaylistVideo)
    requires WellFormed(t) && x.id == t.nextId
    ensures WellFormed(t.(playlistVideos := t.playlistVideos + [x], nextId := t.nextId + 1))
  {
    BumpWellFormed(t);
    IssuedAppend(t.playlistVideos, x, MembershipId, t.nextId);
  }

  lemma AddComment(t: Tables, x: Comment)
    requires WellFormed(t) && x.id == t.nextId
    ensures WellFormed(t.(comments := t.comments + [x], nextId := t.nextId + 1))
  {
    BumpWellFormed(t);
    IssuedAppend(t.comments, x, CommentId, t.nextId);
  }

  lemma AddTweet(t: Tables, x: Tweet)
    requires WellFormed(t) && x.id == t.nextId
    ensures WellFormed(t.(tweets := t.tweets + [x], nextId := t.nextId + 1))
  {
    BumpWellFormed(t);
    IssuedAppend(t.tweets, x, TweetId, t.nextId);
  }

  lemma SetUser(t: Tables, i: nat, x: User)
    requires WellFormed(t) && i < |t.users|
    requires x.id == t.users[i].id && x.username == t.users[i].username && x.email == t.users[i].email
    ensures WellFormed(t.(users := t.users[i := x]))
  {
    IssuedReplace(t.users, i, x, UserId, t.nextId);
    ReplaceUnique(t.users, i, x, UserName);
    ReplaceUnique(t.users, i, x, UserEmail);
  }

  lemma SetVideo(t: Tables, i: nat, x: Video)
    requires WellFormed(t) && i < |t.videos| && x.id == t.videos[i].id
    ensures WellFormed(t.(videos := t.videos[i := x]))
  {
    IssuedReplace(t.videos, i, x, VideoId, t.nextId);
  }

  lemma SetPlaylist(t: Tables, i: nat, x: Playlist)
    requires WellFormed(t) && i < |t.playlists| && x.id == t.playlists[i].id
    ensures WellFormed(t.(playlists := t.playlists[i := x]))
  {
    IssuedReplace(t.playlists, i, x, PlaylistId, t.nextId);
  }

  lemma SetComment(t: Tables, i: nat, x: Comment)
    requires WellFormed(t) && i < |t.comments| && x.id == t.comments[i].id
    ensures WellFormed(t.(comments := t.comments[i := x]))
  {
    IssuedReplace(t.comments, i, x, CommentId, t.nextId);
  }

  lemma SetTweet(t: Tables, i: nat, x: Tweet)
    requires WellFormed(t) && i < |t.tweets| && x.id == t.tweets[i].id
    ensures WellFormed(t.(tweets := t.tweets[i := x]))
  {
    IssuedReplace(t.tweets, i, x, TweetId, t.nextId);
  }

  lemma DropVideo(t: Tables, id: Id)
    requires WellFormed(t)
    ensures WellFormed(t.(videos := WithoutVideo(t.videos, id)))
  {
    IssuedFilter(t.videos, (x: Video) => x.id != id, VideoId, t.nextId);
  }

  lemma DropPlaylist(t: Tables, id: Id)
    requires WellFormed(t)
    ensures WellFormed(t.(playlists := WithoutPlaylist(t.playlists, id)))
  {
    IssuedFilter(t.playlists, (x: Playlist) => x.id != id, PlaylistId, t.nextId);
  }

  lemma DropMemberships(t: Tables, p: PlaylistVideo -> bool)
    requires WellFormed(t)
    ensures WellFormed(t.(playlistVideos := Filter(t.playlistVideos, p)))
  {
    IssuedFilter(t.playlistVideos, p, MembershipId, t.nextId);
  }

  lemma DropComment(t: Tables, id: Id)
    requires WellFormed(t)
    ensures WellFormed(t.(comments := WithoutComment(t.comments, id)))
  {
    IssuedFilter(t.comments, (x: Comment) => x.id != id, CommentId, t.nextId);
  }

  lemma DropTweet(t: Tables, id: Id)
    requires WellFormed(t)
    ensures WellFormed(t.(tweets := WithoutTweet(t.tweets, id)))
  {
    IssuedFilter(t.tweets, (x: Tweet) => x.id != id, TweetId, t.nextId);
  }

  /** Position of the row with identifier `id` (`findUnique` / `findById`). */
  function UserAt(users: seq<User>, id: Id): Option<nat> { FirstIndex(users, (u: User) => u.id == id) }
  function VideoAt(videos: seq<Video>, id: Id): Option<nat> { FirstIndex(videos, (v: Video) => v.id == id) }
  function PlaylistAt(playlists: seq<Playlist>, id: Id): Option<nat> { FirstIndex(playlists, (p: Playlist) => p.id == id) }
  function CommentAt(comments: seq<Comment>, id: Id): Option<nat> { FirstIndex(comments, (c: Comment) => c.id == id) }
  function TweetAt(tweets: seq<Tweet>, id: Id): Option<nat> { FirstIndex(tweets, (t: Tweet) => t.id == id) }

  /** With unique identifiers, looking up a row's identifier finds that row. */
  lemma VideoAtRow(videos: seq<Video>, j: nat)
    requires j < |videos| && UniqueBy(videos, VideoId)
    ensures VideoAt(videos, videos[j].id) == Some(j)
  {
    var r := VideoAt(videos, videos[j].id);
    assert r.Some? && r.value <= j;
    assert VideoId(videos[r.value]) == VideoId(videos[j]);
  }

  lemma UserAtRow(users: seq<User>, j: nat)
    requires j < |users| && UniqueBy(users, UserId)
    ensures UserAt(users, users[j].id) == Some(j)
  {
    var r := UserAt(users, users[j].id);
    assert r.Some? && r.value <= j;
    assert UserId(users[r.value]) == UserId(users[j]);
  }

  /** With unique usernames, a summary names exactly one user row. */
  lemma SummaryIdentifies(users: seq<User>, i: nat, j: nat)
    requires i < |users| && j < |users| && UniqueBy(users, UserName)
    requires Summarize(users[i]) == Summarize(users[j])
    ensures i == j
  {
    assert UserName(users[i]) == UserName(users[j]);
  }

  /** The rows of a table without the row whose identifier is `id` (`delete where id`). */
  function WithoutLike(s: seq<Like>, id: Id): seq<Like> { Filter(s, (x: Like) => x.id != id) }
  function WithoutSubscription(s: seq<Subscription>, id: Id): seq<Subscription> { Filter(s, (x: Subscription) => x.id != id) }
  function WithoutVideo(s: seq<Video>, id: Id): seq<Video> { Filter(s, (x: Video) => x.id != id) }
  function WithoutPlaylist(s: seq<Playlist>, id: Id): seq<Playlist> { Filter(s, (x: Playlist) => x.id != id) }
  function WithoutComment(s: seq<Comment>, id: Id): seq<Comment> { Filter(s, (x: Comment) => x.id != id) }
  function WithoutTweet(s: seq<Tweet>, id: Id): seq<Tweet> { Filter(s, (x: Tweet) => x.id != id) }

  function Summarize(u: User): OwnerSummary {
    OwnerSummary(u.username, u.fullname, u.avatar)
  }

  /** The summary of the user `id`; none only when that user row is missing,
      which the relational store's foreign keys rule out. */
  function SummaryOf(users: seq<User>, id: Id): (r: Option<OwnerSummary>)
    ensures r.Some? <==> exists i :: 0 <= i < |users| && users[i].id == id
  {
    match UserAt(users, id)
    case Some(i) => Some(Summarize(users[i]))
    case None => None
  }

  function CardOf(users: seq<User>, v: Video): VideoCard {
    VideoCard(v, SummaryOf(users, v.owner))
  }

  /** The video a row refers to, for the tables that link to videos. */
  function MembershipVideo(m: PlaylistVideo): Id { m.videoId }
  function EntryVideo(w: WatchEntry): Id { w.videoId }

  /** A relation `include` of the video and its owner: each row replaced by
      the card of its video, in the rows' order; a row whose video is
      missing contributes nothing. */
  function VideoCards<T>(rows: seq<T>, videoOf: T -> Id, videos: seq<Video>, users: seq<User>): (r: seq<VideoCard>)
    ensures |r| <= |rows|
    ensures forall k :: 0 <= k < |r| ==> r[k].video in videos && r[k] == CardOf(users, r[k].video)
  {
    if rows == [] then [] else
      var rest := VideoCards(rows[1..], videoOf, videos, users);
      match VideoAt(videos, videoOf(rows[0]))
      case None => rest
      case Some(j) => [CardOf(users, videos[j])] + rest
  }

  /** A list whose first row's video exists starts with that video's card. */
  lemma VideoCardsFront<T>(rows: seq<T>, videoOf: T -> Id, videos: seq<Video>, users: seq<User>)
    requires rows != [] && VideoAt(videos, videoOf(rows[0])).Some?
    ensures VideoCards(rows, videoOf, videos, users)
      == [CardOf(users, videos[VideoAt(videos, videoOf(rows[0])).value])] + VideoCards(rows[1..], videoOf, videos, users)
  {
  }

  /** Every listed video is the video of some row. */
  lemma {:induction false} VideoCardsFromRows<T>(rows: seq<T>, videoOf: T -> Id, videos: seq<Video>, users: seq<User>)
    ensures forall k :: 0 <= k < |VideoCards(rows, videoOf, videos, users)| ==>
      exists i :: 0 <= i < |rows| && videoOf(rows[i]) == VideoCards(rows, videoOf, videos, users)[k].video.id
  {
    if rows != [] {
      var tail := rows[1..];
      VideoCardsFromRows(tail, videoOf, videos, users);
      var rest := VideoCards(tail, videoOf, videos, users);
      var r := VideoCards(rows, videoOf, videos, users);
      forall k | 0 <= k < |r| ensures exists i :: 0 <= i < |rows| && videoOf(rows[i]) == r[k].video.id {
        match VideoAt(videos, videoOf(rows[0]))
        case None =>
          assert r == rest;
          var i :| 0 <= i < |tail| && videoOf(tail[i]) == rest[k].video.id;
          assert rows[i + 1] == tail[i];
        case Some(j) =>
          assert r == [CardOf(users, videos[j])] + rest;
          if k == 0 {
            assert videoOf(rows[0]) == r[0].video.id;
          } else {
            assert r[k] == rest[k - 1];
            var i :| 0 <= i < |tail| && videoOf(tail[i]) == rest[k - 1].video.id;
            assert rows[i + 1] == tail[i];
          }
      }
    } else {
      assert |VideoCards(rows, videoOf, videos, users)| == 0;
    }
  }

  /** Every row whose video exists contributes that video's card. */
  lemma {:induction false} VideoCardsComplete<T>(rows: seq<T>, videoOf: T -> Id, videos: seq<Video>, users: seq<User>, i: nat)
    requires i < |rows| && VideoAt(videos, videoOf(rows[i])).Some?
    ensures CardOf(users, videos[VideoAt(videos, videoOf(rows[i])).value]) in VideoCards(rows, videoOf, videos, users)
  {
    if i > 0 {
      assert rows[1..][i - 1] == rows[i];
      VideoCardsComplete(rows[1..], videoOf, videos, users, i - 1);
    }
  }

  /** With no missing video, every row yields its own video, in the rows' order. */
  lemma {:induction false} VideoCardsInOrder<T>(rows: seq<T>, videoOf: T -> Id, videos: seq<Video>, users: seq<User>)
    requires forall i :: 0 <= i < |rows| ==> VideoAt(videos, videoOf(rows[i])).Some?
    ensures |VideoCards(rows, videoOf, videos, users)| == |rows|
    ensures forall i :: 0 <= i < |rows| ==> VideoCards(rows, videoOf, videos, users)[i].video.id == videoOf(rows[i])
  {
    if rows != [] {
      var tail := rows[1..];
      forall i | 0 <= i < |tail| ensures VideoAt(videos, videoOf(tail[i])).Some? {
        assert tail[i] == rows[i + 1];
      }
      VideoCardsInOrder(tail, videoOf, videos, users);
      VideoCardsFront(rows, videoOf, videos, users);
    }
  }

  /** The store behind the handlers: one field per table, updated in place. */
  class Db {
    var users: seq<User>
    var videos: seq<Video>
    var likes: seq<Like>
    var subscriptions: seq<Subscription>
    var playlists: seq<Playlist>
    var playlistVideos: seq<PlaylistVideo>
    var comments: seq<Comment>
    var tweets: seq<Tweet>
    var watchHistory: seq<WatchEntry>
    var nextId: Id

    function Snapshot(): Tables
      reads this
    {
      Tables(users, videos, likes, subscriptions, playlists, playlistVideos,
             comments, tweets, watchHistory, nextId)
    }

    ghost predicate Valid()
      reads this
    {
      WellFormed(Snapshot())
    }

    /** An empty store; identifiers start at 1. */
    constructor ()
      ensures Valid()
      ensures Snapshot() == Tables([], [], [], [], [], [], [], [], [], 1)
    {
      users, videos, likes, subscriptions := [], [], [], [];
      playlists, playlistVideos, comments, tweets, watchHistory := [], [], [], [], [];
      nextId := 1;
    }
  }
}
