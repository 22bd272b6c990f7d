/** Comments on videos (document-store handlers): adding, the per-video
    listing, and the owner-scoped update and delete. */
module CommentController {
  import opened Common
  import opened Text
  import opened Rows
  import opened Store

  const Unauthorized: string := "Unauthorized - no user in request"
  const CastFailure: string := "Cast to ObjectId failed"

  /** `findOne({ _id: commentId, owner })`: the comment with that id, if it
      belongs to `owner`. */
  function OwnCommentAt(comments: seq<Comment>, id: Id, owner: Id): (r: Option<nat>)
    ensures r.Some? ==> r.value < |comments| && comments[r.value].id == id && comments[r.value].owner == owner
    ensures r.None? <==> forall j :: 0 <= j < |comments| ==> !(comments[j].id == id && comments[j].owner == owner)
  {
    FirstIndex(comments, (c: Comment) => c.id == id && c.owner == owner)
  }

  /** `addComment`: requester, then content, then the video. */
  method AddComment(db: Db, requester: Option<Id>, videoId: string, content: Option<string>, now: int)
    returns (r: Reply<Comment>)
    requires db.Valid()
    modifies db
    ensures db.Valid()
    ensures r.Failure? ==> unchanged(db)
    ensures requester.None? ==> r == Failure(401, Unauthorized)
    ensures requester.Some? && MissingOrBlank(content) ==> r == Failure(400, "Comment cannot be empty.")
    ensures requester.Some? && !MissingOrBlank(content) ==>
      && (ParseId(videoId).None? ==> r == Failure(500, CastFailure))
      && (ParseId(videoId).Some? && VideoAt(old(db.videos), ParseId(videoId).value).None? ==> r == Failure(404, "Video not found"))
      && (ParseId(videoId).Some? && VideoAt(old(db.videos), ParseId(videoId).value).Some? ==>
            && r == Success(201, Comment(old(db.nextId), content.value, requester.value, ParseId(videoId).value, now))
            && db.Snapshot() == old(db.Snapshot()).(comments := old(db.comments) + [r.data], nextId := old(db.nextId) + 1))
  {
    if requester.None? {
      return Failure(401, Unauthorized);
    }
    if MissingOrBlank(content) {
      return Failure(400, "Comment cannot be empty.");
    }
    var vid := ParseId(videoId);
    if vid.None? {
      return Failure(500, CastFailure);
    }
    if VideoAt(db.videos, vid.value).None? {
      return Failure(404, "Video not found");
    }
    var c := Comment(db.nextId, content.value, requester.value, vid.value, now);
    ghost var after := db.Snapshot().(comments := db.comments + [c], nextId := db.nextId + 1);
    Store.AddComment(db.Snapshot(), c);
    db.comments := db.comments + [c];
    db.nextId := db.nextId + 1;
    assert db.Snapshot() == after;
    r := Success(201, c);
  }

  /** The author as the listing projects it. */
  datatype CommentAuthor = CommentAuthor(id: Id, username: string, avatar: string)

  /** A listed comment: `_id`, `content`, `createdAt` and the author. */
  datatype CommentView = CommentView(id: Id, content: string, createdAt: int, owner: CommentAuthor)

  /** `v` is the projection of `c`. */
  predicate ViewOf(users: seq<User>, c: Comment, v: CommentView) {
    v.id == c.id && v.content == c.content && v.createdAt == c.createdAt && AuthorOf(users, c.owner) == Some(v.owner)
  }

  /** `$lookup` of the author: its id, username and avatar, if the user exists. */
  function AuthorOf(users: seq<User>, id: Id): (a: Option<CommentAuthor>)
    ensures a.Some? <==> UserAt(users, id).Some?
    ensures a.Some? ==> a.value.id == id
  {
    match UserAt(users, id)
    case None => None
    case Some(j) => Some(CommentAuthor(users[j].id, users[j].username, users[j].avatar))
  }

  /** Every comment's author is in the users table. */
  ghost predicate AuthorsPresent(cs: seq<Comment>, users: seq<User>) {
    forall i :: 0 <= i < |cs| ==> UserAt(users, cs[i].owner).Some?
  }

  /** Authors present for a table stay present for any selection of its rows. */
  lemma AuthorsPresentWithin(cs: seq<Comment>, ds: seq<Comment>, users: seq<User>)
    requires AuthorsPresent(cs, users)
    requires forall k :: 0 <= k < |ds| ==> ds[k] in cs
    ensures AuthorsPresent(ds, users)
  {
    forall k | 0 <= k < |ds| ensures UserAt(users, ds[k].owner).Some? {
      var i :| 0 <= i < |cs| && cs[i] == ds[k];
    }
  }

  /** `$lookup` of the author then `$unwind`: a comment whose author is
      missing is dropped. */
  function ProjectComments(cs: seq<Comment>, users: seq<User>): (r: seq<CommentView>)
    ensures |r| <= |cs|
  {
    if cs == [] then [] else
      var rest := ProjectComments(cs[1..], users);
      match AuthorOf(users, cs[0].owner)
      case None => rest
      case Some(a) => [CommentView(cs[0].id, cs[0].content, cs[0].createdAt, a)] + rest
  }

  /** Every view projects one of the comments, with its author's details. */
  lemma {:induction false} ProjectFromComments(cs: seq<Comment>, users: seq<User>)
    ensures forall k :: 0 <= k < |ProjectComments(cs, users)| ==>
      exists i :: 0 <= i < |cs| && ViewOf(users, cs[i], ProjectComments(cs, users)[k])
  {
    if cs != [] {
      var tail := cs[1..];
      ProjectFromComments(tail, users);
      var r, rest := ProjectComments(cs, users), ProjectComments(tail, users);
      forall k | 0 <= k < |r| ensures exists i :: 0 <= i < |cs| && ViewOf(users, cs[i], r[k]) {
        if AuthorOf(users, cs[0].owner).Some? && k == 0 {
          assert ViewOf(users, cs[0], r[0]);
        } else {
          var m := if AuthorOf(users, cs[0].owner).Some? then k - 1 else k;
          assert r[k] == rest[m];
          var i :| 0 <= i < |tail| && ViewOf(users, tail[i], rest[m]);
          assert cs[i + 1] == tail[i];
        }
      }
    } else {
      assert ProjectComments(cs, users) == [];
    }
  }

  /** A comment whose author exists is projected. */
  lemma {:induction false} ProjectKeepsPresent(cs: seq<Comment>, users: seq<User>, i: nat)
    requires i < |cs| && UserAt(users, cs[i].owner).Some?
    ensures exists k :: 0 <= k < |ProjectComments(cs, users)| && ViewOf(users, cs[i], ProjectComments(cs, users)[k])
  {
    var r := ProjectComments(cs, users);
    if i == 0 {
      assert ViewOf(users, cs[0], r[0]);
    } else {
      assert cs[1..][i - 1] == cs[i];
      ProjectKeepsPresent(cs[1..], users, i - 1);
      var rest := ProjectComments(cs[1..], users);
      var k :| 0 <= k < |rest| && ViewOf(users, cs[i], rest[k]);
      if AuthorOf(users, cs[0].owner).Some? {
        assert r[k + 1] == rest[k];
      }
    }
  }

  /** A comment whose author is missing is never projected: `$unwind` drops
      it, so no listed view even carries that author. */
  lemma {:induction false} ProjectDropsOrphans(cs: seq<Comment>, users: seq<User>, c: Comment)
    requires UserAt(users, c.owner).None?
    ensures forall k :: 0 <= k < |ProjectComments(cs, users)| ==>
      !ViewOf(users, c, ProjectComments(cs, users)[k]) && ProjectComments(cs, users)[k].owner.id != c.owner
  {
    if cs != [] {
      ProjectDropsOrphans(cs[1..], users, c);
      var rest := ProjectComments(cs[1..], users);
      var r := ProjectComments(cs, users);
      match AuthorOf(users, cs[0].owner)
      case None =>
      case Some(a) =>
        assert r == [r[0]] + rest;
        forall k | 0 <= k < |r| ensures r[k].owner.id != c.owner {
          if k == 0 {
            assert r[0].owner.id == cs[0].owner;
          } else {
            assert r[k] == rest[k - 1];
          }
        }
    }
  }

  /** With every author present, no comment is dropped and each keeps its place. */
  lemma {:induction false} ProjectKeepsAll(cs: seq<Comment>, users: seq<User>)
    requires AuthorsPresent(cs, users)
    ensures |ProjectComments(cs, users)| == |cs|
    ensures forall i :: 0 <= i < |cs| ==> ViewOf(users, cs[i], ProjectComments(cs, users)[i])
  {
    if cs != [] {
      assert UserAt(users, cs[0].owner).Some?;
      assert AuthorsPresent(cs[1..], users) by {
        forall i | 0 <= i < |cs[1..]| ensures UserAt(users, cs[1..][i].owner).Some? {
          assert cs[1..][i] == cs[i + 1];
        }
      }
      ProjectKeepsAll(cs[1..], users);
      var rest := ProjectComments(cs[1..], users);
      var r := ProjectComments(cs, users);
      assert r == [r[0]] + rest;
      forall i | 1 <= i < |cs| ensures ViewOf(users, cs[i], r[i]) {
        assert cs[i] == cs[1..][i - 1];
        assert r[i] == rest[i - 1];
      }
    }
  }

  function CommentCreatedAt(c: Comment): int { c.createdAt }
  function ViewCreatedAt(c: CommentView): int { c.createdAt }

  /** Projection keeps an upper bound on the creation times. */
  lemma {:induction false} ProjectBounded(cs: seq<Comment>, users: seq<User>, bound: int)
    requires forall i :: 0 <= i < |cs| ==> cs[i].createdAt <= bound
    ensures forall k :: 0 <= k < |ProjectComments(cs, users)| ==> ProjectComments(cs, users)[k].createdAt <= bound
  {
    if cs != [] {
      var tail := cs[1..];
      assert forall i :: 0 <= i < |tail| ==> tail[i] == cs[i + 1];
      ProjectBounded(tail, users, bound);
      var r, rest := ProjectComments(cs, users), ProjectComments(tail, users);
      if AuthorOf(users, cs[0].owner).Some? {
        assert r == [r[0]] + rest;
        forall k | 1 <= k < |r| ensures r[k].createdAt <= bound {
          assert r[k] == rest[k - 1];
        }
      }
    }
  }

  /** Projection keeps the relative order of the comments it keeps. */
  lemma {:induction false} ProjectKeepsOrder(cs: seq<Comment>, users: seq<User>)
    requires SortedBy(cs, CommentCreatedAt, false)
    ensures SortedBy(ProjectComments(cs, users), ViewCreatedAt, false)
  {
    if cs != [] {
      var tail := cs[1..];
      assert forall i :: 0 <= i < |tail| ==> tail[i] == cs[i + 1];
      assert SortedBy(tail, CommentCreatedAt, false) by {
        forall i, j | 0 <= i < j < |tail|
          ensures Precedes(CommentCreatedAt(tail[i]), CommentCreatedAt(tail[j]), false)
        {
          assert Precedes(CommentCreatedAt(cs[i + 1]), CommentCreatedAt(cs[j + 1]), false);
        }
      }
      ProjectKeepsOrder(tail, users);
      forall i | 0 <= i < |tail| ensures tail[i].createdAt <= cs[0].createdAt {
        assert Precedes(CommentCreatedAt(cs[0]), CommentCreatedAt(cs[i + 1]), false);
      }
      ProjectBounded(tail, users, cs[0].createdAt);
      var r, rest := ProjectComments(cs, users), ProjectComments(tail, users);
      if AuthorOf(users, cs[0].owner).Some? {
        assert r == [r[0]] + rest && r[0].createdAt == cs[0].createdAt;
        forall a, b | 0 <= a < b < |r|
          ensures Precedes(ViewCreatedAt(r[a]), ViewCreatedAt(r[b]), false)
        {
          assert r[b] == rest[b - 1];
          if a > 0 {
            assert r[a] == rest[a - 1];
            assert Precedes(ViewCreatedAt(rest[a - 1]), ViewCreatedAt(rest[b - 1]), false);
          }
        }
      }
    }
  }

  /** The `$match` on the video followed by the `$sort`: the video's
      comments, newest first. */
  function VideoCommentsNewestFirst(comments: seq<Comment>, video: Id): (r: seq<Comment>)
    ensures SortedBy(r, CommentCreatedAt, false)
    ensures forall k :: 0 <= k < |r| ==> r[k] in comments && r[k].videoId == video
    ensures forall i :: 0 <= i < |comments| && comments[i].videoId == video ==> comments[i] in r
  {
    var mine := Filter(comments, (c: Comment) => c.videoId == video);
    SortByRows(mine, CommentCreatedAt, false);
    SortBy(mine, CommentCreatedAt, false)
  }

  /** Each comment on the video is taken exactly as often as the table holds
      it, and no other comment is taken. */
  lemma VideoCommentsCounts(comments: seq<Comment>, video: Id)
    ensures forall x :: multiset(VideoCommentsNewestFirst(comments, video))[x] ==
                        if x.videoId == video then multiset(comments)[x] else 0
  {
    FilterCounts(comments, (c: Comment) => c.videoId == video);
  }

  /** `getVideoComments`, before pagination: the video's comments, newest
      first, projected. The sort is applied to the comments before
      projecting, which yields the same order. */
  function GetVideoComments(t: Tables, videoId: string): (r: Reply<seq<CommentView>>)
    ensures ParseId(videoId).None? <==> r == Failure(500, CastFailure)
    ensures ParseId(videoId).Some? && VideoAt(t.videos, ParseId(videoId).value).None? <==> r == Failure(404, "Video not found")
    ensures r.Success? ==> r.status == 200 && SortedBy(r.data, ViewCreatedAt, false)
    ensures r.Success? ==> forall k :: 0 <= k < |r.data| ==>
      exists c :: c in t.comments && c.videoId == ParseId(videoId).value && ViewOf(t.users, c, r.data[k])
  {
    match ParseId(videoId)
    case None => Failure(500, CastFailure)
    case Some(vid) =>
      if VideoAt(t.videos, vid).None? then Failure(404, "Video not found")
      else
        var sorted := VideoCommentsNewestFirst(t.comments, vid);
        ProjectKeepsOrder(sorted, t.users);
        var views := ProjectComments(sorted, t.users);
        ProjectFromComments(sorted, t.users);
        assert forall k :: 0 <= k < |views| ==> exists i :: 0 <= i < |sorted| && ViewOf(t.users, sorted[i], views[k]);
        Success(200, views)
  }

  /** A comment on the video whose author exists is listed; one whose
      author is missing is not. */
  lemma VideoCommentsComplete(t: Tables, videoId: string, c: Comment)
    requires c in t.comments && ParseId(videoId) == Some(c.videoId)
    requires VideoAt(t.videos, c.videoId).Some?
    ensures GetVideoComments(t, videoId).Success?
    ensures (exists k :: 0 <= k < |GetVideoComments(t, videoId).data| && ViewOf(t.users, c, GetVideoComments(t, videoId).data[k]))
        <==> UserAt(t.users, c.owner).Some?
  {
    var sorted := VideoCommentsNewestFirst(t.comments, c.videoId);
    assert GetVideoComments(t, videoId).data == ProjectComments(sorted, t.users);
    if UserAt(t.users, c.owner).Some? {
      var k :| 0 <= k < |sorted| && sorted[k] == c;
      ProjectKeepsPresent(sorted, t.users, k);
    } else {
      ProjectDropsOrphans(sorted, t.users, c);
    }
  }

  /** `updateComment`: only a comment matching both id and owner is changed,
      and only its content. */
  method UpdateComment(db: Db, requester: Option<Id>, commentId: string, content: Option<string>)
    returns (r: Reply<Comment>)
    requires db.Valid()
    modifies db
    ensures db.Valid()
    ensures r.Failure? ==> unchanged(db)
    ensures requester.None? ==> r == Failure(401, Unauthorized)
    ensures requester.Some? && MissingOrBlank(content) ==> r == Failure(400, "Comment cannot be empty.")
    ensures requester.Some? && !MissingOrBlank(content) ==>
      && (ParseId(commentId).None? ==> r == Failure(500, CastFailure))
      && (ParseId(commentId).Some? ==>
            var found := OwnCommentAt(old(db.comments), ParseId(commentId).value, requester.value);
            && (found.None? ==> r == Failure(404, "Comment not found or you are not authorized"))
            && (found.Some? ==>
                  && r == Success(200, old(db.comments)[found.value].(content := content.value))
                  && db.Snapshot() == old(db.Snapshot()).(comments := old(db.comments)[found.value := r.data])))
  {
    if requester.None? {
      return Failure(401, Unauthorized);
    }
    if MissingOrBlank(content) {
      return Failure(400, "Comment cannot be empty.");
    }
    var cid := ParseId(commentId);
    if cid.None? {
      return Failure(500, CastFailure);
    }
    var found := OwnCommentAt(db.comments, cid.value, requester.value);
    if found.None? {
      return Failure(404, "Comment not found or you are not authorized");
    }
    var c := db.comments[found.value].(content := content.value);
    ghost var after := db.Snapshot().(comments := db.comments[found.value := c]);
    SetComment(db.Snapshot(), found.value, c);
    db.comments := db.comments[found.value := c];
    assert db.Snapshot() == after;
    r := Success(200, c);
  }

  /** `deleteComment`: only a comment matching both id and owner is removed. */
  method DeleteComment(db: Db, requester: Option<Id>, commentId: string) returns (r: Reply<()>)
    requires db.Valid()
    modifies db
    ensures db.Valid()
    ensures r.Failure? ==> unchanged(db)
    ensures requester.None? ==> r == Failure(401, Unauthorized)
    ensures requester.Some? ==>
      && (ParseId(commentId).None? ==> r == Failure(500, CastFailure))
      && (ParseId(commentId).Some? ==>
            var found := OwnCommentAt(old(db.comments), ParseId(commentId).value, requester.value);
            && (found.None? ==> r == Failure(404, "Comment not found or you are not authorized"))
            && (found.Some? ==>
                  && r == Success(200, ())
                  && db.Snapshot() == old(db.Snapshot()).(comments := WithoutComment(old(db.comments), ParseId(commentId).value))))
  {
    if requester.None? {
      return Failure(401, Unauthorized);
    }
    var cid := ParseId(commentId);
    if cid.None? {
      return Failure(500, CastFailure);
    }
    var found := OwnCommentAt(db.comments, cid.value, requester.value);
    if found.None? {
      return Failure(404, "Comment not found or you are not authorized");
    }
    ghost var after := db.Snapshot().(comments := WithoutComment(db.comments, cid.value));
    DropComment(db.Snapshot(), cid.value);
    db.comments := WithoutComment(db.comments, cid.value);
    assert db.Snapshot() == after;
    r := Success(200, ());
  }

  /** Another user's comments survive a delete by the owner of comment `i`. */
  lemma DeleteKeepsOthers(comments: seq<Comment>, i: nat)
    requires i < |comments| && UniqueBy(comments, CommentId)
    ensures forall j :: 0 <= j < |comments| && comments[j].owner != comments[i].owner ==>
      comments[j] in WithoutComment(comments, comments[i].id)
    ensures comments[i] !in WithoutComment(comments, comments[i].id)
  {
    forall j | 0 <= j < |comments| && comments[j].owner != comments[i].owner
      ensures comments[j] in WithoutComment(comments, comments[i].id)
    {
      assert j != i;
    }
  }
}
