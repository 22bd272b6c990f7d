/** Playlists: creation, the owner's list, the detail view with its
    rollups, and the owner-only mutators. */
module PlaylistController {
  import opened Common
  import opened Text
  import opened Rows
  import opened Store

  /** The request body of create and update: `name` and `description`,
      either of which may be absent. */
  datatype PlaylistBody = PlaylistBody(name: Option<string>, description: Option<string>)

  /** `findUnique` by id, then the ownership check: 404 before 403. */
  function OwnedPlaylist(playlists: seq<Playlist>, id: Id, requester: Id, denied: string): (r: Reply<nat>)
    ensures PlaylistAt(playlists, id).None? <==> r == Failure(404, "Playlist not found")
    ensures r.Success? <==> PlaylistAt(playlists, id).Some? && playlists[PlaylistAt(playlists, id).value].owner == requester
    ensures r.Success? ==> r.data == PlaylistAt(playlists, id).value
    ensures r.Failure? && r.status != 404 ==> r == Failure(403, denied)
  {
    match PlaylistAt(playlists, id)
    case None => Failure(404, "Playlist not found")
    case Some(i) => if playlists[i].owner != requester then Failure(403, denied) else Success(200, i)
  }

  /** A playlist's membership rows, in store order (`include: { videos }`). */
  function MembersOf(memberships: seq<PlaylistVideo>, playlist: Id): (r: seq<PlaylistVideo>)
    ensures forall i :: 0 <= i < |r| ==> r[i].playlistId == playlist && r[i] in memberships
    ensures forall j :: 0 <= j < |memberships| && memberships[j].playlistId == playlist ==> memberships[j] in r
  {
    Filter(memberships, (m: PlaylistVideo) => m.playlistId == playlist)
  }

  /** A playlist's memberships appear exactly as often as the table holds
      them, and no other row appears; so `totalVideos`, the length, is the
      playlist's number of memberships. */
  lemma MembersCounts(memberships: seq<PlaylistVideo>, playlist: Id)
    ensures forall x :: multiset(MembersOf(memberships, playlist))[x] ==
                        if x.playlistId == playlist then multiset(memberships)[x] else 0
  {
    FilterCounts(memberships, (m: PlaylistVideo) => m.playlistId == playlist);
  }

  /** The memberships keep the table's order. */
  lemma MembersInTableOrder(memberships: seq<PlaylistVideo>, playlist: Id, i: nat, j: nat)
    requires i < j < |MembersOf(memberships, playlist)|
    ensures exists a, b :: 0 <= a < b < |memberships| && memberships[a] == MembersOf(memberships, playlist)[i]
                                                     && memberships[b] == MembersOf(memberships, playlist)[j]
  {
    FilterKeepsOrder(memberships, (m: PlaylistVideo) => m.playlistId == playlist, i, j);
  }

  /** `createPlaylist`: a name that is missing or blank is refused; the
      playlist belongs to the requester and its description defaults to "". */
  method CreatePlaylist(db: Db, requester: Id, body: PlaylistBody, now: int) returns (r: Reply<Playlist>)
    requires db.Valid()
    modifies db
    ensures db.Valid()
    ensures MissingOrBlank(body.name) ==> r == Failure(400, "Playlist name is required") && unchanged(db)
    ensures !MissingOrBlank(body.name) ==>
      && r == Success(201, Playlist(old(db.nextId), body.name.value, OrElse(body.description, ""), requester, now))
      && db.Snapshot() == old(db.Snapshot()).(playlists := old(db.playlists) + [r.data], nextId := old(db.nextId) + 1)
  {
    if MissingOrBlank(body.name) {
      return Failure(400, "Playlist name is required");
    }
    var p := Playlist(db.nextId, body.name.value, OrElse(body.description, ""), requester, now);
    ghost var after := db.Snapshot().(playlists := db.playlists + [p], nextId := db.nextId + 1);
    AddPlaylist(db.Snapshot(), p);
    db.playlists := db.playlists + [p];
    db.nextId := db.nextId + 1;
    assert db.Snapshot() == after;
    r := Success(201, p);
  }

  /** One entry of the owner's list: the playlist's own fields, its member
      count and the first member's thumbnail (the included `videos` and
      `_count` are not part of it). */
  datatype PlaylistListing = PlaylistListing(playlist: Playlist, totalVideos: nat, thumbnail: Option<string>)

  /** `playlist.videos[0]?.video?.thumbnailUrl || null`. */
  function FirstThumbnail(t: Tables, playlist: Id): (r: Option<string>)
    ensures MembersOf(t.playlistVideos, playlist) == [] ==> r.None?
    ensures r.Some? ==>
      && r.value != ""
      && VideoAt(t.videos, MembersOf(t.playlistVideos, playlist)[0].videoId).Some?
      && r.value == t.videos[VideoAt(t.videos, MembersOf(t.playlistVideos, playlist)[0].videoId).value].thumbnailUrl
  {
    var ms := MembersOf(t.playlistVideos, playlist);
    if ms == [] then None
    else match VideoAt(t.videos, ms[0].videoId)
      case None => None
      case Some(j) => if t.videos[j].thumbnailUrl != "" then Some(t.videos[j].thumbnailUrl) else None
  }

  function ListingOf(t: Tables, p: Playlist): (r: PlaylistListing)
    ensures r.playlist == p
    ensures r.totalVideos == |MembersOf(t.playlistVideos, p.id)|
    ensures r.thumbnail == FirstThumbnail(t, p.id)
  {
    PlaylistListing(p, |MembersOf(t.playlistVideos, p.id)|, FirstThumbnail(t, p.id))
  }

  function PlaylistCreatedAt(p: Playlist): int { p.createdAt }

  /** The user's playlists, newest first. */
  function PlaylistsOf(playlists: seq<Playlist>, user: Id): (r: seq<Playlist>)
    ensures SortedBy(r, PlaylistCreatedAt, false)
    ensures forall k :: 0 <= k < |r| ==> r[k] in playlists && r[k].owner == user
    ensures forall i :: 0 <= i < |playlists| && playlists[i].owner == user ==> playlists[i] in r
  {
    var owned := Filter(playlists, (p: Playlist) => p.owner == user);
    SortByRows(owned, PlaylistCreatedAt, false);
    SortBy(owned, PlaylistCreatedAt, false)
  }

  /** Each of the user's playlists is taken exactly as often as the table
      holds it, and no other playlist is taken. */
  lemma PlaylistsOfCounts(playlists: seq<Playlist>, user: Id)
    ensures forall x :: multiset(PlaylistsOf(playlists, user))[x] == if x.owner == user then multiset(playlists)[x] else 0
  {
    FilterCounts(playlists, (p: Playlist) => p.owner == user);
  }

  /** The playlists behind a list of listings. */
  function ListedPlaylists(ls: seq<PlaylistListing>): (r: seq<Playlist>)
    ensures |r| == |ls|
    ensures forall k :: 0 <= k < |r| ==> r[k] == ls[k].playlist
  {
    MapRows(ls, (l: PlaylistListing) => l.playlist)
  }

  /** `getUserPlaylists`: the user's playlists, newest first, each with its rollups. */
  function GetUserPlaylists(t: Tables, userId: string): (r: Reply<seq<PlaylistListing>>)
    ensures ParseId(userId).None? <==> r == Failure(400, "Invalid user ID")
    ensures r.Success? ==> r.status == 200
    ensures r.Success? ==> forall k :: 0 <= k < |r.data| ==>
      && r.data[k].playlist.owner == ParseId(userId).value
      && r.data[k].playlist in t.playlists
      && r.data[k] == ListingOf(t, r.data[k].playlist)
    ensures r.Success? ==> forall i :: 0 <= i < |t.playlists| && t.playlists[i].owner == ParseId(userId).value ==>
      exists k :: 0 <= k < |r.data| && r.data[k].playlist == t.playlists[i]
    ensures r.Success? ==> forall j, k :: 0 <= j < k < |r.data| ==> r.data[j].playlist.createdAt >= r.data[k].playlist.createdAt
  {
    match ParseId(userId)
    case None => Failure(400, "Invalid user ID")
    case Some(u) =>
      var sorted := PlaylistsOf(t.playlists, u);
      var listed := MapRows(sorted, (p: Playlist) => ListingOf(t, p));
      assert forall k :: 0 <= k < |sorted| ==> listed[k].playlist == sorted[k];
      Success(200, listed)
  }

  /** Each of the user's playlists is listed exactly as often as the table
      holds it, and no other playlist is listed. */
  lemma UserPlaylistsCounts(t: Tables, userId: string)
    requires ParseId(userId).Some?
    ensures GetUserPlaylists(t, userId).Success?
    ensures forall x :: multiset(ListedPlaylists(GetUserPlaylists(t, userId).data))[x] ==
                        if x.owner == ParseId(userId).value then multiset(t.playlists)[x] else 0
  {
    var u := ParseId(userId).value;
    PlaylistsOfCounts(t.playlists, u);
    var sorted := PlaylistsOf(t.playlists, u);
    assert ListedPlaylists(GetUserPlaylists(t, userId).data) == sorted;
  }

  /** The detail view: the playlist, its owner's summary, its member videos
      with their owners' summaries, and the two rollups. */
  datatype PlaylistDetail = PlaylistDetail(
    playlist: Playlist, user: Option<OwnerSummary>, videos: seq<VideoCard>,
    totalVideos: nat, totalViews: int)

  function CardViews(c: VideoCard): int { c.video.views }

  /** `getPlaylistById`. */
  function GetPlaylistById(t: Tables, playlistId: string): (r: Reply<PlaylistDetail>)
    ensures ParseId(playlistId).None? <==> r == Failure(400, "Invalid playlist ID")
    ensures ParseId(playlistId).Some? && PlaylistAt(t.playlists, ParseId(playlistId).value).None? <==> r == Failure(404, "Playlist not found")
    ensures r.Success? ==>
      && r.status == 200
      && r.data.playlist.id == ParseId(playlistId).value && r.data.playlist in t.playlists
      && r.data.totalVideos == |MembersOf(t.playlistVideos, r.data.playlist.id)|
      && r.data.videos == VideoCards(MembersOf(t.playlistVideos, r.data.playlist.id), MembershipVideo, t.videos, t.users)
      && r.data.totalViews == Sum(r.data.videos, CardViews)
      && r.data.user == SummaryOf(t.users, r.data.playlist.owner)
  {
    match ParseId(playlistId)
    case None => Failure(400, "Invalid playlist ID")
    case Some(id) =>
      match PlaylistAt(t.playlists, id)
      case None => Failure(404, "Playlist not found")
      case Some(i) =>
        var p := t.playlists[i];
        var ms := MembersOf(t.playlistVideos, p.id);
        var cards := VideoCards(ms, MembershipVideo, t.videos, t.users);
        Success(200, PlaylistDetail(p, SummaryOf(t.users, p.owner), cards, |ms|, Sum(cards, CardViews)))
  }

  /** The view total is non-negative and at least the views of every member video. */
  lemma TotalViewsBoundsEach(t: Tables, playlistId: string)
    requires GetPlaylistById(t, playlistId).Success?
    ensures GetPlaylistById(t, playlistId).data.totalViews >= 0
    ensures forall k :: 0 <= k < |GetPlaylistById(t, playlistId).data.videos| ==>
      GetPlaylistById(t, playlistId).data.videos[k].video.views <= GetPlaylistById(t, playlistId).data.totalViews
  {
    var cards := GetPlaylistById(t, playlistId).data.videos;
    SumBoundsEach(cards, CardViews);
  }

  /** With no member video missing, the detail lists one video per membership,
      in membership order, so its video count agrees with `totalVideos`. */
  lemma PlaylistVideosInOrder(t: Tables, playlistId: string)
    requires forall i :: 0 <= i < |t.playlistVideos| ==> VideoAt(t.videos, t.playlistVideos[i].videoId).Some?
    requires GetPlaylistById(t, playlistId).Success?
    ensures var d := GetPlaylistById(t, playlistId).data;
      var ms := MembersOf(t.playlistVideos, d.playlist.id);
      && |d.videos| == d.totalVideos
      && forall k :: 0 <= k < |ms| ==> d.videos[k].video.id == ms[k].videoId
  {
    var d := GetPlaylistById(t, playlistId).data;
    var ms := MembersOf(t.playlistVideos, d.playlist.id);
    forall k | 0 <= k < |ms| ensures VideoAt(t.videos, MembershipVideo(ms[k])).Some? {
      var i :| 0 <= i < |t.playlistVideos| && t.playlistVideos[i] == ms[k];
    }
    VideoCardsInOrder(ms, MembershipVideo, t.videos, t.users);
  }

  /** `addVideoToPlaylist`: ids, then existence, then ownership; a video the
      store cannot link is reported as 404 by the handler's own catch. */
  method AddVideoToPlaylist(db: Db, requester: Id, playlistId: string, videoId: string) returns (r: Reply<Playlist>)
    requires db.Valid()
    modifies db
    ensures db.Valid()
    ensures r.Failure? ==> unchanged(db)
    ensures ParseId(playlistId).None? || ParseId(videoId).None? ==> r == Failure(400, "Invalid IDs")
    ensures ParseId(playlistId).Some? && ParseId(videoId).Some? ==>
      var gate := OwnedPlaylist(old(db.playlists), ParseId(playlistId).value, requester, "You are not authorized to edit this playlist");
      && (gate.Failure? ==> r == Failure(gate.status, gate.message))
      && (gate.Success? && VideoAt(old(db.videos), ParseId(videoId).value).None? ==> r == Failure(404, "Video not found or could not be added"))
      && (gate.Success? && VideoAt(old(db.videos), ParseId(videoId).value).Some? ==>
            && r == Success(200, old(db.playlists)[gate.data])
            && db.Snapshot() == old(db.Snapshot()).(
                 playlistVideos := old(db.playlistVideos) + [PlaylistVideo(old(db.nextId), ParseId(playlistId).value, ParseId(videoId).value)],
                 nextId := old(db.nextId) + 1))
  {
    var pid, vid := ParseId(playlistId), ParseId(videoId);
    if pid.None? || vid.None? {
      return Failure(400, "Invalid IDs");
    }
    var gate := OwnedPlaylist(db.playlists, pid.value, requester, "You are not authorized to edit this playlist");
    if gate.Failure? {
      return Failure(gate.status, gate.message);
    }
    if VideoAt(db.videos, vid.value).None? {
      return Failure(404, "Video not found or could not be added");
    }
    var m := PlaylistVideo(db.nextId, pid.value, vid.value);
    ghost var after := db.Snapshot().(playlistVideos := db.playlistVideos + [m], nextId := db.nextId + 1);
    AddMembership(db.Snapshot(), m);
    db.playlistVideos := db.playlistVideos + [m];
    db.nextId := db.nextId + 1;
    assert db.Snapshot() == after;
    r := Success(200, db.playlists[gate.data]);
  }

  /** `deleteMany({ where: { playlistId, videoId } })`. */
  function WithoutMembership(ms: seq<PlaylistVideo>, playlist: Id, video: Id): seq<PlaylistVideo> {
    Filter(ms, (m: PlaylistVideo) => !(m.playlistId == playlist && m.videoId == video))
  }

  /** Removal deletes every membership of the video in the playlist and keeps
      every other membership. */
  lemma RemovalExact(ms: seq<PlaylistVideo>, playlist: Id, video: Id)
    ensures forall i :: 0 <= i < |ms| ==>
      (ms[i] in WithoutMembership(ms, playlist, video) <==> !(ms[i].playlistId == playlist && ms[i].videoId == video))
    ensures forall k :: 0 <= k < |WithoutMembership(ms, playlist, video)| ==>
      WithoutMembership(ms, playlist, video)[k] in ms
  {
  }

  /** `removeVideoFromPlaylist`. */
  method RemoveVideoFromPlaylist(db: Db, requester: Id, playlistId: string, videoId: string) returns (r: Reply<()>)
    requires db.Valid()
    modifies db
    ensures db.Valid()
    ensures r.Failure? ==> unchanged(db)
    ensures ParseId(playlistId).None? || ParseId(videoId).None? ==> r == Failure(400, "Invalid IDs")
    ensures ParseId(playlistId).Some? && ParseId(videoId).Some? ==>
      var gate := OwnedPlaylist(old(db.playlists), ParseId(playlistId).value, requester, "You are not authorized to edit this playlist");
      && (gate.Failure? ==> r == Failure(gate.status, gate.message))
      && (gate.Success? ==>
            && r == Success(200, ())
            && db.Snapshot() == old(db.Snapshot()).(
                 playlistVideos := WithoutMembership(old(db.playlistVideos), ParseId(playlistId).value, ParseId(videoId).value)))
  {
    var pid, vid := ParseId(playlistId), ParseId(videoId);
    if pid.None? || vid.None? {
      return Failure(400, "Invalid IDs");
    }
    var gate := OwnedPlaylist(db.playlists, pid.value, requester, "You are not authorized to edit this playlist");
    if gate.Failure? {
      return Failure(gate.status, gate.message);
    }
    ghost var after := db.Snapshot().(playlistVideos := WithoutMembership(db.playlistVideos, pid.value, vid.value));
    DropMemberships(db.Snapshot(), (m: PlaylistVideo) => !(m.playlistId == pid.value && m.videoId == vid.value));
    db.playlistVideos := WithoutMembership(db.playlistVideos, pid.value, vid.value);
    assert db.Snapshot() == after;
    r := Success(200, ());
  }

  /** `deletePlaylist`. */
  method DeletePlaylist(db: Db, requester: Id, playlistId: string) returns (r: Reply<()>)
    requires db.Valid()
    modifies db
    ensures db.Valid()
    ensures r.Failure? ==> unchanged(db)
    ensures ParseId(playlistId).None? ==> r == Failure(400, "Invalid playlist ID")
    ensures ParseId(playlistId).Some? ==>
      var gate := OwnedPlaylist(old(db.playlists), ParseId(playlistId).value, requester, "You are not authorized to delete this playlist");
      && (gate.Failure? ==> r == Failure(gate.status, gate.message))
      && (gate.Success? ==>
            && r == Success(200, ())
            && db.Snapshot() == old(db.Snapshot()).(playlists := WithoutPlaylist(old(db.playlists), ParseId(playlistId).value)))
  {
    var pid := ParseId(playlistId);
    if pid.None? {
      return Failure(400, "Invalid playlist ID");
    }
    var gate := OwnedPlaylist(db.playlists, pid.value, requester, "You are not authorized to delete this playlist");
    if gate.Failure? {
      return Failure(gate.status, gate.message);
    }
    ghost var after := db.Snapshot().(playlists := WithoutPlaylist(db.playlists, pid.value));
    DropPlaylist(db.Snapshot(), pid.value);
    db.playlists := WithoutPlaylist(db.playlists, pid.value);
    assert db.Snapshot() == after;
    r := Success(200, ());
  }

  /** Deleting a playlist removes it and keeps every other playlist. */
  lemma DeleteRemovesOnlyTarget(playlists: seq<Playlist>, id: Id)
    ensures forall i :: 0 <= i < |WithoutPlaylist(playlists, id)| ==> WithoutPlaylist(playlists, id)[i].id != id
    ensures forall i :: 0 <= i < |playlists| && playlists[i].id != id ==> playlists[i] in WithoutPlaylist(playlists, id)
  {
  }

  /** `updatePlaylist`: the name check comes before the lookup; only the
      name and the description change, an omitted description becoming "". */
  method UpdatePlaylist(db: Db, requester: Id, playlistId: string, body: PlaylistBody) returns (r: Reply<Playlist>)
    requires db.Valid()
    modifies db
    ensures db.Valid()
    ensures r.Failure? ==> unchanged(db)
    ensures ParseId(playlistId).None? ==> r == Failure(400, "Invalid playlist ID")
    ensures ParseId(playlistId).Some? && MissingOrBlank(body.name) ==> r == Failure(400, "Name is required for update")
    ensures ParseId(playlistId).Some? && !MissingOrBlank(body.name) ==>
      var gate := OwnedPlaylist(old(db.playlists), ParseId(playlistId).value, requester, "You are not authorized to update this playlist");
      && (gate.Failure? ==> r == Failure(gate.status, gate.message))
      && (gate.Success? ==>
            && r == Success(200, old(db.playlists)[gate.data].(name := body.name.value, description := OrElse(body.description, "")))
            && db.Snapshot() == old(db.Snapshot()).(playlists := old(db.playlists)[gate.data := r.data]))
  {
    var pid := ParseId(playlistId);
    if pid.None? {
      return Failure(400, "Invalid playlist ID");
    }
    if MissingOrBlank(body.name) {
      return Failure(400, "Name is required for update");
    }
    var gate := OwnedPlaylist(db.playlists, pid.value, requester, "You are not authorized to update this playlist");
    if gate.Failure? {
      return Failure(gate.status, gate.message);
    }
    var updated := db.playlists[gate.data].(name := body.name.value, description := OrElse(body.description, ""));
    ghost var after := db.Snapshot().(playlists := db.playlists[gate.data := updated]);
    SetPlaylist(db.Snapshot(), gate.data, updated);
    db.playlists := db.playlists[gate.data := updated];
    assert db.Snapshot() == after;
    r := Success(200, updated);
  }
}
