/** Videos (the document-store handlers): the public feed, the view
    counter, and the owner-only publish, update, delete and publish-toggle. */
module VideoController {
  import opened Common
  import opened Text
  import opened Rows
  import opened Store
  import opened FileValidators

  /** What the error handler answers when a route id is not a valid
      document id: the cast error carries no status, so it becomes a 500. */
  const CastFailure: string := "Cast to ObjectId failed"

  /** The media fields of a multipart request. */
  datatype MediaFields = MediaFields(videoFile: Option<seq<UploadedFile>>, thumbnail: Option<seq<UploadedFile>>)

  /** The request body of publish and update. */
  datatype VideoBody = VideoBody(title: Option<string>, description: Option<string>)

  /** `findById` with the cast of the route id: an id that does not parse
      fails as the cast error (500); a missing document is 404. Then the
      ownership check (403). */
  function OwnedVideo(videos: seq<Video>, videoId: string, requester: Id, denied: string): (r: Reply<nat>)
    ensures ParseId(videoId).None? <==> r == Failure(500, CastFailure)
    ensures ParseId(videoId).Some? && VideoAt(videos, ParseId(videoId).value).None? <==> r == Failure(404, "Video not found")
    ensures r.Success? <==>
      && ParseId(videoId).Some? && VideoAt(videos, ParseId(videoId).value).Some?
      && videos[VideoAt(videos, ParseId(videoId).value).value].owner == requester
    ensures r.Success? ==> r.data == VideoAt(videos, ParseId(videoId).value).value
    ensures r.Failure? && r.status == 403 ==> r.message == denied
  {
    match ParseId(videoId)
    case None => Failure(500, CastFailure)
    case Some(id) =>
      match VideoAt(videos, id)
      case None => Failure(404, "Video not found")
      case Some(i) => if videos[i].owner != requester then Failure(403, denied) else Success(200, i)
  }

  /** `files?.field?.[0]?.path` is truthy. */
  predicate FirstHasPath(field: Option<seq<UploadedFile>>) {
    field.Some? && |field.value| > 0 && Truthy(field.value[0].path)
  }

  /** The checks of `publishAVideo` before any upload, in source order: the
      requester, destructuring `req.files`, the title, then `videoFile[0].path`
      and `thumbnail[0].path` (indexing a missing field is a TypeError). */
  function PublishChecks(requester: Option<Id>, body: VideoBody, files: Option<MediaFields>): (r: Outcome)
    ensures requester.None? ==> r == Reject(401, "Unauthorized")
    ensures requester.Some? && files.None? ==> r.Fault?
    ensures r.Next? <==>
      && requester.Some? && files.Some? && !MissingOrBlank(body.title)
      && FirstHasPath(files.value.videoFile) && FirstHasPath(files.value.thumbnail)
    ensures requester.Some? && files.Some? && MissingOrBlank(body.title) ==> r == Reject(400, "Title is required")
  {
    if requester.None? then Reject(401, "Unauthorized")
    else if files.None? then Fault
    else if MissingOrBlank(body.title) then Reject(400, "Title is required")
    else
      var fs := files.value;
      if fs.videoFile.None? || |fs.videoFile.value| == 0 then Fault
      else if !Truthy(fs.videoFile.value[0].path) then Reject(400, "Video is required")
      else if fs.thumbnail.None? || |fs.thumbnail.value| == 0 then Fault
      else if !Truthy(fs.thumbnail.value[0].path) then Reject(400, "Thumbnail is required")
      else Next
  }

  /** `publishAVideo`. The uploads are done by the media host; `uploaded`
      holds the two URLs it returned, or nothing when the upload step failed.
      A new video is published, with no views, duration 0 and description
      defaulting to "". */
  method PublishAVideo(db: Db, requester: Option<Id>, body: VideoBody, files: Option<MediaFields>,
                       uploaded: Option<(string, string)>, now: int) returns (r: Reply<Video>)
    requires db.Valid()
    modifies db
    ensures db.Valid()
    ensures r.Failure? ==> unchanged(db)
    ensures PublishChecks(requester, body, files).Reject? ==>
      r == Failure(PublishChecks(requester, body, files).status, PublishChecks(requester, body, files).message)
    ensures PublishChecks(requester, body, files).Fault? ==> r.Failure? && r.status == 500
    ensures PublishChecks(requester, body, files).Next? && uploaded.None? ==>
      r == Failure(500, "Something went wrong while uploading a video and media were deleted")
    ensures PublishChecks(requester, body, files).Next? && uploaded.Some? ==>
      && r == Success(201, Video(old(db.nextId), body.title.value, OrElse(body.description, ""), requester.value,
                                 uploaded.value.0, uploaded.value.1, 0, 0, true, now))
      && db.Snapshot() == old(db.Snapshot()).(videos := old(db.videos) + [r.data], nextId := old(db.nextId) + 1)
  {
    var checks := PublishChecks(requester, body, files);
    match checks {
      case Reject(status, message) => return Failure(status, message);
      case Fault => return Failure(500, "TypeError");
      case Next =>
    }
    if uploaded.None? {
      return Failure(500, "Something went wrong while uploading a video and media were deleted");
    }
    var v := Video(db.nextId, body.title.value, OrElse(body.description, ""), requester.value,
                   uploaded.value.0, uploaded.value.1, 0, 0, true, now);
    ghost var after := db.Snapshot().(videos := db.videos + [v], nextId := db.nextId + 1);
    AddVideo(db.Snapshot(), v);
    db.videos := db.videos + [v];
    db.nextId := db.nextId + 1;
    assert db.Snapshot() == after;
    r := Success(201, v);
  }

  /** `getVideoById`: the fetched video's view count goes up by exactly one
      and nothing else changes. */
  method GetVideoById(db: Db, videoId: string) returns (r: Reply<Video>)
    requires db.Valid()
    modifies db
    ensures db.Valid()
    ensures ParseId(videoId).None? ==> r == Failure(500, CastFailure) && unchanged(db)
    ensures ParseId(videoId).Some? && VideoAt(old(db.videos), ParseId(videoId).value).None? ==>
      r == Failure(404, "Video not found") && unchanged(db)
    ensures ParseId(videoId).Some? && VideoAt(old(db.videos), ParseId(videoId).value).Some? ==>
      var i := VideoAt(old(db.videos), ParseId(videoId).value).value;
      && r == Success(200, old(db.videos)[i].(views := old(db.videos)[i].views + 1))
      && db.Snapshot() == old(db.Snapshot()).(videos := old(db.videos)[i := r.data])
  {
    var id := ParseId(videoId);
    if id.None? {
      return Failure(500, CastFailure);
    }
    var found := VideoAt(db.videos, id.value);
    if found.None? {
      return Failure(404, "Video not found");
    }
    var i := found.value;
    var v := db.videos[i].(views := db.videos[i].views + 1);
    ghost var after := db.Snapshot().(videos := db.videos[i := v]);
    SetVideo(db.Snapshot(), i, v);
    db.videos := db.videos[i := v];
    assert db.Snapshot() == after;
    r := Success(200, v);
  }

  /** The `$set` of `updateVideo`: a truthy title or description replaces
      the old one, an uploaded thumbnail replaces the thumbnail URL, and
      every other field is kept. */
  function ApplyUpdate(v: Video, body: VideoBody, newThumbnail: Option<string>): (w: Video)
    ensures w.(title := v.title, description := v.description, thumbnailUrl := v.thumbnailUrl) == v
    ensures w.title == OrElse(body.title, v.title)
    ensures w.description == OrElse(body.description, v.description)
    ensures w.thumbnailUrl == newThumbnail.GetOr(v.thumbnailUrl)
  {
    v.(title := OrElse(body.title, v.title),
       description := OrElse(body.description, v.description),
       thumbnailUrl := newThumbnail.GetOr(v.thumbnailUrl))
  }

  /** An update that supplies nothing truthy leaves the video as it was. */
  lemma EmptyUpdateKeeps(v: Video, body: VideoBody)
    requires !Truthy(body.title) && !Truthy(body.description)
    ensures ApplyUpdate(v, body, None) == v
  {
  }

  /** The checks of `updateVideo` before the write, in source order: the
      failure it answers with, or the row to overwrite and what replaces
      it. `thumbnailUpload` is the URL the media host returned for a new
      thumbnail (nothing when that upload failed). */
  function UpdatePlan(videos: seq<Video>, requester: Option<Id>, videoId: string, body: VideoBody,
                      files: Option<MediaFields>, thumbnailUpload: Option<string>): (p: Reply<(nat, Video)>)
    ensures files.None? ==> p.Failure? && p.status == 500
    ensures files.Some? && requester.None? ==> p == Failure(401, "Unauthorized")
    ensures files.Some? && requester.Some? && !Truthy(body.title) && !Truthy(body.description) && files.value.thumbnail.None? ==>
      p == Failure(400, "At least one field (title, description, or thumbnail) is required to update")
    ensures files.Some? && requester.Some? && (Truthy(body.title) || Truthy(body.description) || files.value.thumbnail.Some?) ==>
      p == UpdateOwned(videos, requester.value, videoId, body, files.value.thumbnail.Some?, thumbnailUpload)
  {
    if files.None? then Failure(500, "TypeError")
    else if requester.None? then Failure(401, "Unauthorized")
    else if !Truthy(body.title) && !Truthy(body.description) && files.value.thumbnail.None? then
      Failure(400, "At least one field (title, description, or thumbnail) is required to update")
    else UpdateOwned(videos, requester.value, videoId, body, files.value.thumbnail.Some?, thumbnailUpload)
  }

  /** The part of `updateVideo` after the field check: the lookup and
      ownership check, then the thumbnail upload when one was sent. */
  function UpdateOwned(videos: seq<Video>, requester: Id, videoId: string, body: VideoBody,
                       thumbnailSent: bool, thumbnailUpload: Option<string>): (p: Reply<(nat, Video)>)
    ensures var gate := OwnedVideo(videos, videoId, requester, "You are not authorized to update this video");
      && (gate.Failure? ==> p == Failure(gate.status, gate.message))
      && (gate.Success? && thumbnailSent && thumbnailUpload.None? ==> p == Failure(500, "Error uploading new thumbnail"))
    ensures p.Success? ==>
      && p.data.0 < |videos|
      && videos[p.data.0].owner == requester
      && Some(videos[p.data.0].id) == ParseId(videoId)
      && p.data.1 == ApplyUpdate(videos[p.data.0], body, if thumbnailSent then thumbnailUpload else None)
  {
    var gate := OwnedVideo(videos, videoId, requester, "You are not authorized to update this video");
    if gate.Failure? then Failure(gate.status, gate.message)
    else if thumbnailSent && thumbnailUpload.None? then Failure(500, "Error uploading new thumbnail")
    else Success(200, (gate.data, ApplyUpdate(videos[gate.data], body, if thumbnailSent then thumbnailUpload else None)))
  }

  /** `updateVideo`: the checks of `UpdatePlan`, then the write. The old
      thumbnail is deleted only after the document is written, so when that
      deletion fails (`oldThumbnailDeleted` false) the handler reports 500
      over a committed update. */
  method UpdateVideo(db: Db, requester: Option<Id>, videoId: string, body: VideoBody, files: Option<MediaFields>,
                     thumbnailUpload: Option<string>, oldThumbnailDeleted: bool) returns (r: Reply<Video>)
    requires db.Valid()
    modifies db
    ensures db.Valid()
    ensures var p := UpdatePlan(old(db.videos), requester, videoId, body, files, thumbnailUpload);
      && (p.Failure? ==> r == Failure(p.status, p.message) && unchanged(db))
      && (p.Success? ==>
            && db.Snapshot() == old(db.Snapshot()).(videos := old(db.videos)[p.data.0 := p.data.1])
            && r == (if files.value.thumbnail.Some? && !oldThumbnailDeleted
                     then Failure(500, "Error deleting old thumbnail from cloud") else Success(200, p.data.1)))
  {
    var p := UpdatePlan(db.videos, requester, videoId, body, files, thumbnailUpload);
    if p.Failure? {
      return Failure(p.status, p.message);
    }
    var (i, w) := p.data;
    ghost var after := db.Snapshot().(videos := db.videos[i := w]);
    SetVideo(db.Snapshot(), i, w);
    db.videos := db.videos[i := w];
    assert db.Snapshot() == after;
    if files.value.thumbnail.Some? && !oldThumbnailDeleted {
      return Failure(500, "Error deleting old thumbnail from cloud");
    }
    r := Success(200, w);
  }

  /** `deleteVideo`: the owner's video is removed; the media clean-up that
      follows the response is not part of the state. */
  method DeleteVideo(db: Db, requester: Option<Id>, videoId: string) returns (r: Reply<()>)
    requires db.Valid()
    modifies db
    ensures db.Valid()
    ensures r.Failure? ==> unchanged(db)
    ensures requester.None? ==> r == Failure(401, "Unauthorized")
    ensures requester.Some? ==>
      var gate := OwnedVideo(old(db.videos), videoId, requester.value, "You are not authorized to delete this video");
      && (gate.Failure? ==> r == Failure(gate.status, gate.message))
      && (gate.Success? ==>
            && r == Success(200, ())
            && db.Snapshot() == old(db.Snapshot()).(videos := WithoutVideo(old(db.videos), ParseId(videoId).value)))
  {
    if requester.None? {
      return Failure(401, "Unauthorized");
    }
    var gate := OwnedVideo(db.videos, videoId, requester.value, "You are not authorized to delete this video");
    if gate.Failure? {
      return Failure(gate.status, gate.message);
    }
    var id := ParseId(videoId).value;
    ghost var after := db.Snapshot().(videos := WithoutVideo(db.videos, id));
    DropVideo(db.Snapshot(), id);
    db.videos := WithoutVideo(db.videos, id);
    assert db.Snapshot() == after;
    r := Success(200, ());
  }

  /** Deleting a video removes it and keeps every other video. */
  lemma DeleteRemovesOnlyTarget(videos: seq<Video>, id: Id)
    ensures forall i :: 0 <= i < |WithoutVideo(videos, id)| ==> WithoutVideo(videos, id)[i].id != id
    ensures forall i :: 0 <= i < |videos| && videos[i].id != id ==> videos[i] in WithoutVideo(videos, id)
  {
  }

  /** The state change of `togglePublishStatus` on the video at `i`. */
  function FlipPublished(videos: seq<Video>, i: nat): (r: seq<Video>)
    requires i < |videos|
    ensures |r| == |videos| && r[i].isPublished == !videos[i].isPublished
    ensures r[i].(isPublished := videos[i].isPublished) == videos[i]
    ensures forall j :: 0 <= j < |videos| && j != i ==> r[j] == videos[j]
  {
    videos[i := videos[i].(isPublished := !videos[i].isPublished)]
  }

  /** Toggling the publish status twice restores the table. */
  lemma FlipTwice(videos: seq<Video>, i: nat)
    requires i < |videos|
    ensures FlipPublished(FlipPublished(videos, i), i) == videos
  {
  }

  /** `togglePublishStatus` (its refusal reuses the delete message). */
  method TogglePublishStatus(db: Db, requester: Option<Id>, videoId: string) returns (r: Reply<Video>)
    requires db.Valid()
    modifies db
    ensures db.Valid()
    ensures r.Failure? ==> unchanged(db)
    ensures requester.None? ==> r == Failure(401, "Unauthorized")
    ensures requester.Some? ==>
      var gate := OwnedVideo(old(db.videos), videoId, requester.value, "You are not authorized to delete this video");
      && (gate.Failure? ==> r == Failure(gate.status, gate.message))
      && (gate.Success? ==>
            && db.Snapshot() == old(db.Snapshot()).(videos := FlipPublished(old(db.videos), gate.data))
            && r == Success(200, db.videos[gate.data]))
  {
    if requester.None? {
      return Failure(401, "Unauthorized");
    }
    var gate := OwnedVideo(db.videos, videoId, requester.value, "You are not authorized to delete this video");
    if gate.Failure? {
      return Failure(gate.status, gate.message);
    }
    var flipped := FlipPublished(db.videos, gate.data);
    SetVideo(db.Snapshot(), gate.data, flipped[gate.data]);
    assert db.videos[gate.data := flipped[gate.data]] == flipped;
    ghost var after := db.Snapshot().(videos := flipped);
    db.videos := flipped;
    assert db.Snapshot() == after;
    r := Success(200, db.videos[gate.data]);
  }

  /** The `$sort` stage: the requested field, ascending exactly when
      `sortType` is "asc"; with no `sortBy`, newest first. */
  datatype SortSpec = SortSpec(field: string, ascending: bool)

  function ResolveSort(sortBy: Option<string>, sortType: Option<string>): (s: SortSpec)
    ensures Truthy(sortBy) ==> s.field == sortBy.value && (s.ascending <==> sortType == Some("asc"))
    ensures !Truthy(sortBy) ==> s == SortSpec("createdAt", false)
  {
    if Truthy(sortBy) then SortSpec(sortBy.value, sortType == Some("asc"))
    else SortSpec("createdAt", false)
  }

  /** The numeric sort key of a video for a field name; fields that are not
      numeric give every video the same key. */
  function SortKey(field: string): Video -> int {
    if field == "createdAt" then (v: Video) => v.createdAt
    else if field == "views" then (v: Video) => v.views
    else if field == "duration" then (v: Video) => v.duration
    else (v: Video) => 0
  }

  /** The `$match` stage: published, owned by `owner` when one is given, and
      containing the query in the title or the description when one is given. */
  predicate InFeed(v: Video, owner: Option<Id>, query: Option<string>) {
    && v.isPublished
    && (owner.Some? ==> v.owner == owner.value)
    && (Truthy(query) ==> ContainsIgnoreCase(v.title, query.value) || ContainsIgnoreCase(v.description, query.value))
  }

  /** A query matches a video exactly when its lower-cased text occurs at
      some offset of the lower-cased title or description. */
  lemma QueryMatchIff(v: Video, q: string)
    ensures InFeed(v, None, Some(q)) <==>
      v.isPublished && (q == "" ||
        (exists i :: OccursAt(ToLower(v.title), ToLower(q), i)) ||
        (exists i :: OccursAt(ToLower(v.description), ToLower(q), i)))
  {
    ContainsAt(ToLower(v.title), ToLower(q));
    ContainsAt(ToLower(v.description), ToLower(q));
  }

  /** `getAllVideos`, before pagination: the feed rows in sort order. */
  function GetAllVideos(t: Tables, query: Option<string>, sortBy: Option<string>, sortType: Option<string>,
                        userId: Option<string>): (r: Reply<seq<Video>>)
    ensures Truthy(userId) && ParseId(userId.value).None? <==> r == Failure(400, "Invalid userId")
    ensures r.Success? ==>
      var owner := if Truthy(userId) then ParseId(userId.value) else None;
      var spec := ResolveSort(sortBy, sortType);
      && r.status == 200
      && (forall k :: 0 <= k < |r.data| ==> r.data[k] in t.videos && InFeed(r.data[k], owner, query))
      && (forall i :: 0 <= i < |t.videos| && InFeed(t.videos[i], owner, query) ==> t.videos[i] in r.data)
      && SortedBy(r.data, SortKey(spec.field), spec.ascending)
  {
    if Truthy(userId) && ParseId(userId.value).None? then Failure(400, "Invalid userId")
    else
      var owner := if Truthy(userId) then ParseId(userId.value) else None;
      var spec := ResolveSort(sortBy, sortType);
      var matched := Filter(t.videos, (v: Video) => InFeed(v, owner, query));
      SortByRows(matched, SortKey(spec.field), spec.ascending);
      Success(200, SortBy(matched, SortKey(spec.field), spec.ascending))
  }

  /** Each matching video is listed exactly as often as the table holds it,
      and no other video is listed. */
  lemma FeedCounts(t: Tables, query: Option<string>, sortBy: Option<string>, sortType: Option<string>,
                   userId: Option<string>)
    requires GetAllVideos(t, query, sortBy, sortType, userId).Success?
    ensures
      var owner := if Truthy(userId) then ParseId(userId.value) else None;
      forall x :: multiset(GetAllVideos(t, query, sortBy, sortType, userId).data)[x] ==
        if InFeed(x, owner, query) then multiset(t.videos)[x] else 0
  {
    var owner := if Truthy(userId) then ParseId(userId.value) else None;
    FilterCounts(t.videos, (v: Video) => InFeed(v, owner, query));
  }

  /** The feed never shows an unpublished video, whatever the filters. */
  lemma FeedOnlyPublished(t: Tables, query: Option<string>, sortBy: Option<string>, sortType: Option<string>,
                          userId: Option<string>, k: nat)
    requires GetAllVideos(t, query, sortBy, sortType, userId).Success?
    requires k < |GetAllVideos(t, query, sortBy, sortType, userId).data|
    ensures GetAllVideos(t, query, sortBy, sortType, userId).data[k].isPublished
  {
  }
}
