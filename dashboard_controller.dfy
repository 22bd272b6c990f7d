/** The channel dashboard: aggregate statistics and the paged list of the
    channel's own videos. Both handlers only read the store. */
module DashboardController {
  import opened Common
  import opened Text
  import opened Rows
  import opened Store

  /** `Number(s)` for a query value, restricted to decimal integers with an
      optional minus sign; anything else is NaN (nothing). */
  function QueryNumber(s: Option<string>): (r: Option<int>)
    ensures s.Some? && ParseId(s.value).Some? ==> r == ParseId(s.value)
    ensures s.None? ==> r.None?
  {
    if s.None? then None
    else if |s.value| > 0 && s.value[0] == '-' then
      match ParseId(s.value[1..])
      case None => None
      case Some(n) => Some(-n)
    else ParseId(s.value)
  }

  /** `Number(s) || fallback`: zero and NaN fall back. */
  function NumberOr(s: Option<string>, fallback: int): (n: int)
    ensures QueryNumber(s).Some? && QueryNumber(s).value != 0 ==> n == QueryNumber(s).value
    ensures QueryNumber(s).None? || QueryNumber(s).value == 0 ==> n == fallback
    ensures fallback != 0 ==> n != 0
  {
    match QueryNumber(s)
    case Some(v) => if v != 0 then v else fallback
    case None => fallback
  }

  function VideoCreatedAt(v: Video): int { v.createdAt }

  /** The channel's videos, newest first (`orderBy: { createdAt: 'desc' }`). */
  function OwnedNewestFirst(t: Tables, user: Id): (r: seq<Video>)
    ensures forall k :: 0 <= k < |r| ==> r[k].owner == user && r[k] in t.videos
    ensures forall i :: 0 <= i < |t.videos| && t.videos[i].owner == user ==> t.videos[i] in r
    ensures SortedBy(r, VideoCreatedAt, false)
    ensures |r| == Count(t.videos, (v: Video) => v.owner == user)
  {
    var owned := Filter(t.videos, (v: Video) => v.owner == user);
    SortByRows(owned, VideoCreatedAt, false);
    SortBy(owned, VideoCreatedAt, false)
  }

  /** The number of rows before page `page` of size `limit`: `(page - 1) * limit`. */
  function Offset(page: int, limit: int): int {
    (page - 1) * limit
  }

  /** The next page starts `limit` rows later. */
  lemma OffsetStep(page: int, limit: int)
    ensures Offset(page + 1, limit) == Offset(page, limit) + limit
  {
    assert (page + 1 - 1) * limit == (page - 1) * limit + limit by {
      assert (page + 1 - 1) * limit == page * limit;
    }
  }

  /** From page 1 on, with a non-negative limit, the offset is non-negative. */
  lemma OffsetNonNegative(page: int, limit: int)
    requires page >= 1 && limit >= 0
    ensures Offset(page, limit) >= 0
  {
  }

  /** A listed video with its like count (`_count.likes`). */
  datatype VideoWithLikes = VideoWithLikes(video: Video, likes: nat)

  function LikeCountOf(likes: seq<Like>, v: Video): nat {
    Count(likes, (l: Like) => l.target == OnVideo(v.id))
  }

  /** Each video of a page with its like count. */
  function WithLikes(vs: seq<Video>, likes: seq<Like>): (r: seq<VideoWithLikes>)
    ensures |r| == |vs|
    ensures forall k :: 0 <= k < |r| ==> r[k] == VideoWithLikes(vs[k], LikeCountOf(likes, vs[k]))
  {
    MapRows(vs, (v: Video) => VideoWithLikes(v, LikeCountOf(likes, v)))
  }

  /** The page of `getChannelVideos` and the total it reports. */
  datatype ChannelVideos = ChannelVideos(videos: seq<VideoWithLikes>, totalVideos: nat)

  /** `getChannelVideos`: page and limit default to 1 and 10, the offset is
      `(page - 1) * limit`, the page is that window of the owner's videos
      newest first, and the total ignores paging. A negative offset or limit
      is refused by the store. */
  function GetChannelVideos(t: Tables, user: Id, page: Option<string>, limit: Option<string>): (r: Reply<ChannelVideos>)
    ensures
      var p, l := NumberOr(page, 1), NumberOr(limit, 10);
      var owned := OwnedNewestFirst(t, user);
      && (r.Failure? <==> Offset(p, l) < 0 || l < 0)
      && (r.Success? ==>
            && r.status == 200
            && r.data.totalVideos == Count(t.videos, (v: Video) => v.owner == user)
            && |r.data.videos| == (if Offset(p, l) >= |owned| then 0 else Min(l, |owned| - Offset(p, l)))
            && forall k :: 0 <= k < |r.data.videos| ==>
                 r.data.videos[k] == VideoWithLikes(owned[Offset(p, l) + k], LikeCountOf(t.likes, owned[Offset(p, l) + k])))
  {
    ChannelPage(t, user, NumberOr(page, 1), NumberOr(limit, 10))
  }

  /** The handler once page and limit are numbers. */
  function ChannelPage(t: Tables, user: Id, p: int, l: int): (r: Reply<ChannelVideos>)
    ensures
      var owned := OwnedNewestFirst(t, user);
      && (r.Failure? <==> Offset(p, l) < 0 || l < 0)
      && (r.Success? ==>
            && r.status == 200
            && r.data.totalVideos == Count(t.videos, (v: Video) => v.owner == user)
            && |r.data.videos| == (if Offset(p, l) >= |owned| then 0 else Min(l, |owned| - Offset(p, l)))
            && forall k :: 0 <= k < |r.data.videos| ==>
                 r.data.videos[k] == VideoWithLikes(owned[Offset(p, l) + k], LikeCountOf(t.likes, owned[Offset(p, l) + k])))
  {
    var skip := Offset(p, l);
    if skip < 0 || l < 0 then Failure(500, "Invalid skip or take value")
    else
      var owned := OwnedNewestFirst(t, user);
      Success(200, ChannelVideos(WithLikes(Window(owned, skip, l), t.likes), |owned|))
  }

  /** The page of the owner's videos that a page number and limit select. */
  function PageOf(t: Tables, user: Id, page: nat, limit: nat): seq<Video>
    requires page >= 1
  {
    Window(OwnedNewestFirst(t, user), Offset(page, limit), limit)
  }

  /** From page 1 on with a non-negative limit the handler succeeds, and
      its videos are exactly `PageOf` that page, each with its like count. */
  lemma ChannelVideosArePages(t: Tables, user: Id, page: Option<string>, limit: Option<string>)
    requires NumberOr(page, 1) >= 1 && NumberOr(limit, 10) >= 0
    ensures GetChannelVideos(t, user, page, limit).Success?
    ensures |GetChannelVideos(t, user, page, limit).data.videos| == |PageOf(t, user, NumberOr(page, 1), NumberOr(limit, 10))|
    ensures forall k :: 0 <= k < |GetChannelVideos(t, user, page, limit).data.videos| ==>
      GetChannelVideos(t, user, page, limit).data.videos[k].video == PageOf(t, user, NumberOr(page, 1), NumberOr(limit, 10))[k]
  {
    OffsetNonNegative(NumberOr(page, 1), NumberOr(limit, 10));
  }

  /** A request without a usable page or limit (absent, zero or not a
      number) gets the first ten of the channel's videos, newest first. */
  lemma DefaultPageIsFirstTen(t: Tables, user: Id, page: Option<string>, limit: Option<string>)
    requires QueryNumber(page).None? || QueryNumber(page).value == 0
    requires QueryNumber(limit).None? || QueryNumber(limit).value == 0
    ensures GetChannelVideos(t, user, page, limit).Success?
    ensures |GetChannelVideos(t, user, page, limit).data.videos| == Min(10, |OwnedNewestFirst(t, user)|)
    ensures forall k :: 0 <= k < |GetChannelVideos(t, user, page, limit).data.videos| ==>
      GetChannelVideos(t, user, page, limit).data.videos[k].video == OwnedNewestFirst(t, user)[k]
  {
  }

  /** Consecutive pages neither overlap nor leave a gap: page p followed by
      page p + 1 is the window of twice the limit starting at page p. */
  lemma ConsecutivePagesTile(t: Tables, user: Id, page: nat, limit: nat)
    requires page >= 1
    ensures PageOf(t, user, page, limit) + PageOf(t, user, page + 1, limit)
         == Window(OwnedNewestFirst(t, user), Offset(page, limit), 2 * limit)
  {
    PagesTile(OwnedNewestFirst(t, user), page, limit);
  }

  /** The tiling of `ConsecutivePagesTile`, for any sequence of rows. */
  lemma PagesTile<T>(s: seq<T>, page: nat, limit: nat)
    requires page >= 1
    ensures Offset(page, limit) >= 0
    ensures Window(s, Offset(page, limit), limit) + Window(s, Offset(page + 1, limit), limit)
         == Window(s, Offset(page, limit), 2 * limit)
  {
    OffsetStep(page, limit);
    OffsetNonNegative(page, limit);
    var o: nat := Offset(page, limit);
    WindowsTile(s, o, limit, limit);
  }

  /** The aggregates of `getChannelStats`. */
  datatype ChannelStats = ChannelStats(totalViews: int, totalSubscribers: nat, totalVideos: nat, totalLikes: nat)

  function Views(v: Video): int { v.views }

  /** The like points at a video of `user`'s channel (`where: { video: { userId } }`). */
  predicate OnChannelVideo(t: Tables, l: Like, user: Id) {
    l.target.OnVideo? &&
    match VideoAt(t.videos, l.target.videoId)
    case Some(i) => t.videos[i].owner == user
    case None => false
  }

  /** `getChannelStats`: summed views (0 for a channel without videos),
      subscribers to the channel, the channel's videos, and the likes on
      them. */
  function GetChannelStats(t: Tables, user: Id): (r: Reply<ChannelStats>)
    ensures r.Success? && r.status == 200
    ensures r.data.totalSubscribers == Count(t.subscriptions, (s: Subscription) => s.channelId == user)
    ensures r.data.totalVideos == Count(t.videos, (v: Video) => v.owner == user)
    ensures r.data.totalLikes == Count(t.likes, (l: Like) => OnChannelVideo(t, l, user))
    ensures r.data.totalViews == Sum(Filter(t.videos, (v: Video) => v.owner == user), Views)
  {
    var owned := Filter(t.videos, (v: Video) => v.owner == user);
    Success(200, ChannelStats(
      Sum(owned, Views),
      Count(t.subscriptions, (s: Subscription) => s.channelId == user),
      |owned|,
      Count(t.likes, (l: Like) => OnChannelVideo(t, l, user))))
  }

  /** The view total is never negative, is at least the views of each of the
      channel's videos, and is 0 for a channel without videos. */
  lemma TotalViewsBounds(t: Tables, user: Id)
    ensures GetChannelStats(t, user).data.totalViews >= 0
    ensures forall i :: 0 <= i < |t.videos| && t.videos[i].owner == user ==>
      t.videos[i].views <= GetChannelStats(t, user).data.totalViews
    ensures (forall i :: 0 <= i < |t.videos| ==> t.videos[i].owner != user) ==> GetChannelStats(t, user).data.totalViews == 0
  {
    var owned := Filter(t.videos, (v: Video) => v.owner == user);
    SumBoundsEach(owned, Views);
    forall i | 0 <= i < |t.videos| && t.videos[i].owner == user
      ensures t.videos[i].views <= GetChannelStats(t, user).data.totalViews
    {
      var k :| 0 <= k < |owned| && owned[k] == t.videos[i];
      assert Views(owned[k]) <= Sum(owned, Views);
    }
    if forall i :: 0 <= i < |t.videos| ==> t.videos[i].owner != user {
      FilterNone(t.videos, (v: Video) => v.owner == user);
    }
  }
}
