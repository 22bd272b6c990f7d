# VizTube backend core, modelled in Dafny

VizTube is a video-sharing backend: users register and log in, publish
videos, like videos, comments and tweets, subscribe to channels, gather
videos into playlists, comment, tweet, and read a channel dashboard. Its
HTTP handlers are Express controllers over a relational store (users,
videos, likes, subscriptions, playlists and their memberships, tweets,
watch history) and a document store (videos and comments). Three
middlewares guard them: the upload validators, the username normaliser,
and the error handler that turns every thrown error into a JSON reply.

This project models that core:

- `Common`, `Text`, `Rows`: optional values and the handler reply
  (status and payload, or status and message); JavaScript's `trim`,
  ASCII `toLowerCase`, `parseInt` on decimal digits and the
  case-insensitive search; and the query operations of the store. These
  are `where` filtering, `findFirst`, counting, summing, `orderBy` as a
  sorted permutation, and `skip`/`take` windows.
- `Store`: one record type per table, the key and uniqueness constraints
  (`WellFormed`), and the lemmas each insert, update and delete needs to
  keep them. It also defines the class `Db`, with one sequence field per
  table (rows in insertion order) and the identifier counter.
- `FileValidators`, `NormalizeParams`, `ErrorHandler`: the three
  middlewares. Express's `next()` and a thrown error become the
  `Outcome` value.
- One module per controller. Read-only handlers are functions of the
  tables. Handlers that write are methods on `Db` that state the whole
  new store in terms of the old one. Lemmas say what the writes mean:
  toggling twice restores the likes, a delete removes exactly its
  target, a refresh token is dead after logout or rotation, and listings
  are sound and complete, in their documented order.

Identifiers are integers from one shared counter. A route parameter that
is not a string of decimal digits is `NaN` to `parseInt`. The relational
handlers answer it with their 400. The document-store handlers (videos,
comments) let it fail as a cast error, which the error handler turns
into a 500.

## Model

| member | source | states |
|---|---|---|
| Common.OrElse | src/controllers/video.controller.ts:150-165 | `x \|\| fallback`: the value itself when it is a non-empty string, the fallback when it is absent or empty |
| Text.Lead | src/middlewares/normalizeParams.middleware.ts:14 | the length of the leading run of whitespace that `trim` removes; the character after it is not whitespace |
| Text.Trail | src/middlewares/normalizeParams.middleware.ts:14 | the length of the trailing run of whitespace that `trim` removes; the character before it is not whitespace |
| Text.Trim | src/middlewares/normalizeParams.middleware.ts:14 | `trim()` returns a contiguous slice of its input that neither starts nor ends with whitespace; everything cut from either end is whitespace |
| Text.TrimFixed | src/middlewares/normalizeParams.middleware.ts:14 | a string without whitespace at its ends is its own trim |
| Text.TrimEmptyIffBlank | src/controllers/user.controller.ts:52-56 | `s.trim() === ''` holds exactly when every character of `s` is whitespace |
| Text.LowerChar | src/middlewares/normalizeParams.middleware.ts:14 | ASCII lower-casing of one character: A-Z go to a-z, every other character is kept, and no A-Z letter comes out |
| Text.ToLower | src/controllers/user.controller.ts:97 | ASCII `toLowerCase()`: each character is lower-cased in place by `LowerChar`, so the length is kept |
| Text.LowerKeepsSpace | src/middlewares/normalizeParams.middleware.ts:14 | lower-casing neither creates nor removes whitespace |
| Text.ParseId | src/controllers/like.controller.ts:10-11 | `parseInt` followed by the `isNaN` test accepts exactly the non-empty strings of decimal digits |
| Text.ShowId | src/controllers/like.controller.ts:10 | every identifier renders as a non-empty digit string, which is what `ParseId` accepts |
| Text.ParseShowRoundTrip | src/controllers/like.controller.ts:10-11 | parsing the decimal rendering of an identifier gives that identifier back |
| Text.ContainsAt | src/controllers/video.controller.ts:266-271 | the substring test holds exactly when some offset of the text starts a copy of the search term |
| Rows.Filter | src/controllers/dashboard.controller.ts:57-73 | a `where` filter keeps exactly the rows that satisfy the predicate, all taken from the table |
| Rows.FilterCounts | src/controllers/dashboard.controller.ts:57-73 | a filter keeps each passing row exactly as often as the table holds it and drops every other row |
| Rows.FilterKeepsOrder | src/controllers/dashboard.controller.ts:57-73 | two kept rows appear in the order of two distinct table positions, earlier before later |
| Rows.FilterAppend | src/controllers/dashboard.controller.ts:57-73 | filtering distributes over concatenation of tables |
| Rows.FilterAll | src/controllers/video.controller.ts:201 | a filter every row passes leaves the table unchanged |
| Rows.FilterNone | src/controllers/dashboard.controller.ts:39 | a filter no row passes leaves nothing |
| Rows.MapRows | src/controllers/tweet.controller.ts:31-43 | a projection keeps the length and maps each row in place |
| Rows.FirstIndex | src/controllers/like.controller.ts:13-18 | `findFirst`: the first satisfying row, and no result exactly when no row satisfies the predicate |
| Rows.SumBoundsEach | src/controllers/dashboard.controller.ts:39 | a sum of non-negative terms is non-negative and bounds each term |
| Rows.Insert | src/controllers/comment.controller.ts:80-84 | insertion adds exactly one row, as a multiset |
| Rows.InsertSorted | src/controllers/comment.controller.ts:80-84 | inserting into a sorted sequence keeps it sorted |
| Rows.SortBy | src/controllers/dashboard.controller.ts:68-70 | `orderBy` / `$sort` returns a permutation of its rows ordered by the key in the requested direction |
| Rows.SortByMembers | src/controllers/tweet.controller.ts:35-37 | a row is in the sorted result exactly when it is in the input |
| Rows.SortByRows | src/controllers/tweet.controller.ts:35-37 | the membership of `SortByMembers`, stated for every position of the input and of the result |
| Rows.Window | src/controllers/dashboard.controller.ts:71-72 | `skip`/`take`: at most `take` rows, which are the rows from position `skip` on, in order |
| Rows.WindowsTile | src/controllers/dashboard.controller.ts:55 | two adjacent windows concatenate to the window spanning both: pages neither overlap nor leave a gap |
| Rows.AppendUnique | src/controllers/user.controller.ts:59-66 | appending a row whose key is new keeps that key unique |
| Rows.FilterOne | src/controllers/tweet.controller.ts:89-94 | removing the single row that fails the filter shortens the table by exactly one |
| Rows.FilterUnique | src/controllers/playlist.controller.ts:216-218 | removing rows keeps a key unique |
| Rows.FilterWithin | src/controllers/playlist.controller.ts:216-218 | removing rows keeps every key in its range |
| Rows.ReplaceUnique | src/controllers/tweet.controller.ts:63-71 | replacing a row by one with the same key keeps that key unique |
| Store.IssuedGrow | src/controllers/playlist.controller.ts:13-19 | identifiers issued below a bound are issued below any larger bound |
| Store.IssuedAppend | src/controllers/playlist.controller.ts:13-19 | creating a row with the next identifier keeps identifiers distinct and issued |
| Store.IssuedFilter | src/controllers/playlist.controller.ts:216-218 | deleting rows keeps identifiers distinct and issued |
| Store.IssuedReplace | src/controllers/playlist.controller.ts:246-252 | updating a row without changing its identifier keeps identifiers distinct and issued |
| Store.BumpWellFormed | src/controllers/playlist.controller.ts:13-19 | consuming an identifier keeps every table constraint |
| Store.AddUser | src/controllers/user.controller.ts:88-115 | creating a user with a fresh id, username and email keeps every constraint, including unique username and email |
| Store.AddVideo | src/controllers/video.controller.ts:47-61 | creating a video with the next identifier keeps every constraint |
| Store.AddPlaylist | src/controllers/playlist.controller.ts:13-19 | creating a playlist with the next identifier keeps every constraint |
| Store.AddMembership | src/controllers/playlist.controller.ts:151-158 | adding a video to a playlist with the next identifier keeps every constraint |
| Store.AddComment | src/controllers/comment.controller.ts:27-31 | creating a comment with the next identifier keeps every constraint |
| Store.AddTweet | src/controllers/tweet.controller.ts:14-19 | creating a tweet with the next identifier keeps every constraint |
| Store.SetUser | src/controllers/user.controller.ts:153-156 | updating a user's other fields, with id, username and email fixed, keeps every constraint |
| Store.SetVideo | src/controllers/video.controller.ts:150-165 | updating a video in place keeps every constraint |
| Store.SetPlaylist | src/controllers/playlist.controller.ts:246-252 | updating a playlist in place keeps every constraint |
| Store.SetComment | src/controllers/comment.controller.ts:110-121 | updating a comment in place keeps every constraint |
| Store.SetTweet | src/controllers/tweet.controller.ts:63-71 | updating a tweet in place keeps every constraint |
| Store.DropVideo | src/controllers/video.controller.ts:201 | deleting a video keeps every constraint |
| Store.DropPlaylist | src/controllers/playlist.controller.ts:216-218 | deleting a playlist keeps every constraint |
| Store.DropMemberships | src/controllers/playlist.controller.ts:188-193 | deleting memberships keeps every constraint |
| Store.DropComment | src/controllers/comment.controller.ts:138-141 | deleting a comment keeps every constraint |
| Store.DropTweet | src/controllers/tweet.controller.ts:89-94 | deleting a tweet keeps every constraint |
| Store.VideoAtRow | src/controllers/video.controller.ts:93-96 | with unique identifiers, a lookup by a row's identifier finds that very row |
| Store.UserAtRow | src/controllers/user.controller.ts:25-26 | with unique identifiers, a lookup by a row's identifier finds that very row |
| Store.SummaryIdentifies | src/controllers/subscription.controller.ts:65-80 | with unique usernames, an owner summary names exactly one user |
| Store.SummaryOf | src/controllers/like.controller.ts:138-147 | the owner summary exists exactly when the owner's row exists |
| Store.VideoCards | src/controllers/user.controller.ts:347-360 | an `include` of the video and its owner: each card is a stored video with its owner summary, at most one per row |
| Store.VideoCardsFront | src/controllers/user.controller.ts:347-360 | a list whose first row's video exists starts with that video's card |
| Store.VideoCardsFromRows | src/controllers/user.controller.ts:347-360 | every listed video is the video of some row |
| Store.VideoCardsInOrder | src/controllers/playlist.controller.ts:114-121 | with no missing video, row `i` yields its own video at position `i` |
| Store.VideoCardsComplete | src/controllers/like.controller.ts:137-156 | every row whose video exists contributes that video's card |
| Store.Db.constructor | src/controllers/video.controller.ts:47-61 | a fresh store is empty, well formed, and hands out identifiers from 1 |
| ErrorHandler.DuplicateField | src/middlewares/error.middleware.ts:12 | the field named in a unique-constraint error: its first target when present and non-empty, never the empty string |
| ErrorHandler.MapOrmError | src/middlewares/error.middleware.ts:11-16 | a unique-constraint error becomes 409 "`field` already exists", a missing-record error becomes 404 "Record not found", any other error is left unchanged |
| ErrorHandler.Normalise | src/middlewares/error.middleware.ts:19-23 | every error becomes an ApiError. An ApiError is kept; otherwise status 500 is used exactly when no non-zero status is carried, and the default message exactly when none is carried |
| ErrorHandler.NormaliseIdempotent | src/middlewares/error.middleware.ts:19-23 | normalising an already normalised error changes nothing |
| ErrorHandler.Handle | src/middlewares/error.middleware.ts:4-32 | the response status equals the body's `statusCode`, `success` is false, the stack is included exactly in development; the ORM codes and ApiErrors give the statuses and messages above, and any other error its own truthy status or 500, its own non-empty message or "Something went wrong", and its own `errors` list |
| ErrorHandler.OnlyStackDependsOnMode | src/middlewares/error.middleware.ts:28 | two environments give the same status and the same body apart from the stack |
| FileValidators.ValidateFile | src/validators/file.validators.ts:14-24 | a file passes exactly when it is JPEG, PNG or WEBP and at most 5 MiB; the type is checked before the size, each with its own 400 message |
| FileValidators.SizeBoundary | src/validators/file.validators.ts:10-11 | exactly 5 242 880 bytes passes and one byte more is rejected |
| FileValidators.TypeCheckedFirst | src/validators/file.validators.ts:15-17 | a file of the wrong type that is also too large is reported for its type |
| FileValidators.FirstFile | src/validators/file.validators.ts:55 | the first file of a field exists exactly when the field holds at least one file |
| FileValidators.ValidateRegistrationFiles | src/validators/file.validators.ts:27-46 | with no files object the access faults; otherwise the upload passes exactly when every image sent is acceptable; an unacceptable avatar gets the avatar's rejection, and otherwise a rejection is the cover image's |
| FileValidators.RegistrationImagesOptional | src/validators/file.validators.ts:37-45 | a registration with neither image passes this validator |
| FileValidators.ValidateAvatarFile | src/validators/file.validators.ts:49-65 | an avatar update passes exactly when an avatar was sent and is acceptable; a missing avatar is a 400 |
| FileValidators.ValidateCoverImageFile | src/validators/file.validators.ts:68-83 | a cover update passes exactly when a cover was sent and is acceptable; a missing cover is a 400 |
| NormalizeParams.NormalizeName | src/middlewares/normalizeParams.middleware.ts:14 | `trim().toLowerCase()` contains no A-Z letter, has no whitespace at its ends, and is the lower-cased core of the input once the whitespace at both ends is cut |
| NormalizeParams.LowerNoEdgeSpace | src/middlewares/normalizeParams.middleware.ts:14 | lower-casing a trimmed string leaves it trimmed |
| NormalizeParams.LowerTrimmed | src/middlewares/normalizeParams.middleware.ts:14 | lower-casing a slice lower-cases the corresponding characters of the whole |
| NormalizeParams.LowerFixed | src/middlewares/normalizeParams.middleware.ts:14 | a string without upper-case letters is its own lower-casing |
| NormalizeParams.NormalizeIdempotent | src/middlewares/normalizeParams.middleware.ts:14 | normalising a username twice gives the same as normalising it once |
| NormalizeParams.Rewritten | src/middlewares/normalizeParams.middleware.ts:12-16 | a non-empty `username` parameter is replaced by its normal form, an empty one is kept, and every other parameter is untouched |
| NormalizeParams.Request.constructor | src/middlewares/normalizeParams.middleware.ts:5-9 | a request starts with the route parameters it was given |
| NormalizeParams.Request.NormalizeUsername | src/middlewares/normalizeParams.middleware.ts:5-23 | the middleware always calls `next()` and leaves the parameters rewritten as above |
| LikeController.FindLike | src/controllers/like.controller.ts:13-18 | finds a like exactly when the user already likes that target, and then one with that user and target |
| LikeController.RemoveKey | src/controllers/like.controller.ts:20-25 | deleting a like by its identifier removes exactly its (user, target) pair from the set of likes |
| LikeController.AddKey | src/controllers/like.controller.ts:32-38 | creating a like adds exactly its (user, target) pair |
| LikeController.ToggleKeepsWellFormed | src/controllers/like.controller.ts:20-43 | a toggle keeps every store constraint, including one like per user and target |
| LikeController.ToggleFlipsKey | src/controllers/like.controller.ts:20-43 | a successful toggle adds the pair when it was absent and answers `true`, removes it when present and answers `false`; afterwards the pair is present exactly when the answer is `true` |
| LikeController.ToggleTwiceRestores | src/controllers/like.controller.ts:6-44 | two toggles on an existing target give opposite answers and restore the set of likes; starting from "not liked" they restore the likes table itself |
| LikeController.AddThenRemove | src/controllers/like.controller.ts:20-43 | deleting the like just created gives back the table before it |
| LikeController.ToggleLike | src/controllers/like.controller.ts:13-43 | the store keeps its constraints and moves from the old state to the new one as a toggle does: removed like, created like, or a 500 with nothing changed when the target is missing |
| LikeController.ToggleVideoLike | src/controllers/like.controller.ts:6-44 | an unparsable video id is a 400 with no change; otherwise a toggle on that video |
| LikeController.ToggleCommentLike | src/controllers/like.controller.ts:46-84 | an unparsable comment id is a 400 with no change; otherwise a toggle on that comment |
| LikeController.ToggleTweetLike | src/controllers/like.controller.ts:86-124 | an unparsable tweet id is a 400 with no change; otherwise a toggle on that tweet |
| LikeController.OrderedVideoLikes | src/controllers/like.controller.ts:129-154 | only the user's video likes and all of them, newest first |
| LikeController.OrderedVideoLikesCounts | src/controllers/like.controller.ts:129-154 | each video like of the user is listed exactly as often as the table holds it, no other like at all |
| LikeController.GetLikedVideos | src/controllers/like.controller.ts:126-163 | the listing always succeeds with 200; its entries are the cards `Store.VideoCards` makes from the user's video likes, newest like first |
| LikeController.LikedVideosSound | src/controllers/like.controller.ts:126-163 | every listed video is stored and liked by the user |
| LikeController.LikedVideosComplete | src/controllers/like.controller.ts:126-163 | every stored video the user likes is listed |
| LikeController.LikedVideosInOrder | src/controllers/like.controller.ts:151-156 | with no liked video missing, one entry per video like, entry `k` being the video of the `k`-th like in newest-first order, where each video like of the user appears exactly as often as the table holds it (OrderedVideoLikesCounts) |
| SubscriptionController.FindSubscription | src/controllers/subscription.controller.ts:24-29 | finds a subscription exactly when the subscriber already follows the channel, and then that one |
| SubscriptionController.RemoveKey | src/controllers/subscription.controller.ts:31-36 | deleting a subscription removes exactly its (subscriber, channel) pair |
| SubscriptionController.AddKey | src/controllers/subscription.controller.ts:43-49 | creating a subscription adds exactly its pair |
| SubscriptionController.ToggleKeepsWellFormed | src/controllers/subscription.controller.ts:6-57 | a toggle keeps every store constraint, including one subscription per pair and no self-subscription |
| SubscriptionController.ToggleFlipsKey | src/controllers/subscription.controller.ts:10-56 | a failure changes nothing; a success means a parsable channel other than the requester, and adds or removes the pair as its answer says |
| SubscriptionController.ToggleTwiceRestores | src/controllers/subscription.controller.ts:6-57 | two successful toggles give opposite answers and restore the set of subscriptions; starting unsubscribed they restore the table itself |
| SubscriptionController.AddThenRemove | src/controllers/subscription.controller.ts:24-56 | deleting the subscription just created gives back the table before it |
| SubscriptionController.ToggleSubscription | src/controllers/subscription.controller.ts:6-57 | the store keeps its constraints and moves as a toggle does: 400 for a bad or own channel id, 404 for a missing channel, otherwise subscribed or unsubscribed |
| SubscriptionController.SubscribersOf | src/controllers/subscription.controller.ts:65-80 | one entry per subscription to the channel |
| SubscriptionController.GetUserChannelSubscribers | src/controllers/subscription.controller.ts:59-91 | 400 exactly for an unparsable channel id, otherwise 200 with the channel's subscribers |
| SubscriptionController.SubscribersSound | src/controllers/subscription.controller.ts:59-91 | a user listed as a subscriber does subscribe to the channel |
| SubscriptionController.SubscribersComplete | src/controllers/subscription.controller.ts:59-91 | every subscribing user is listed |
| SubscriptionController.ChannelsOf | src/controllers/subscription.controller.ts:99-114 | one entry per subscription of the subscriber |
| SubscriptionController.GetSubscribedChannels | src/controllers/subscription.controller.ts:93-125 | 400 exactly for an unparsable subscriber id, otherwise 200 with the subscribed channels |
| SubscriptionController.ChannelsSound | src/controllers/subscription.controller.ts:93-125 | a listed channel is one the user subscribes to |
| SubscriptionController.ChannelsComplete | src/controllers/subscription.controller.ts:93-125 | every subscribed channel is listed |
| PlaylistController.OwnedPlaylist | src/controllers/playlist.controller.ts:140-148 | 404 exactly when the playlist is missing, 403 with the handler's message when it belongs to someone else, otherwise its position |
| PlaylistController.MembersOf | src/controllers/playlist.controller.ts:37-49 | only the membership rows of the given playlist and all of them |
| PlaylistController.MembersCounts | src/controllers/playlist.controller.ts:37-49 | each membership row of the playlist appears exactly as often as the table holds it, so the length is its number of memberships |
| PlaylistController.MembersInTableOrder | src/controllers/playlist.controller.ts:37-49 | the memberships keep the table's order: two listed rows come from two table positions in the same order |
| PlaylistController.CreatePlaylist | src/controllers/playlist.controller.ts:6-24 | a blank or missing name is a 400 with no change; otherwise 201 with a playlist owned by the requester, appended with the next identifier and an empty description when none was sent |
| PlaylistController.FirstThumbnail | src/controllers/playlist.controller.ts:60 | an empty playlist has no thumbnail; a thumbnail comes from one of its member videos |
| PlaylistController.ListingOf | src/controllers/playlist.controller.ts:57-63 | a listed playlist carries its own row, its first thumbnail and as member count the length of its membership listing, which by MembersCounts is the number of its membership rows |
| PlaylistController.PlaylistsOf | src/controllers/playlist.controller.ts:32-55 | only the user's playlists and all of them, newest first |
| PlaylistController.PlaylistsOfCounts | src/controllers/playlist.controller.ts:32-55 | each playlist of the user is taken exactly as often as the table holds it, no other playlist at all |
| PlaylistController.GetUserPlaylists | src/controllers/playlist.controller.ts:26-74 | 400 exactly for an unparsable user id; otherwise every playlist of the user is listed, only those, newest first, each with its rollups |
| PlaylistController.UserPlaylistsCounts | src/controllers/playlist.controller.ts:26-74 | for a parsable user id the listing holds each of the user's playlists exactly as often as the table does, and no other |
| PlaylistController.GetPlaylistById | src/controllers/playlist.controller.ts:76-128 | 400 exactly for an unparsable id, 404 exactly for a missing playlist; otherwise the playlist, its owner's summary, the cards of its memberships (each membership as often as the table holds it, in table order, by MembersCounts and MembersInTableOrder), their count and total views |
| PlaylistController.TotalViewsBoundsEach | src/controllers/playlist.controller.ts:116 | the total views are non-negative and at least the views of each listed video |
| PlaylistController.PlaylistVideosInOrder | src/controllers/playlist.controller.ts:114-121 | with no member video missing, the detail lists one video per membership in membership order, so its length equals `totalVideos` |
| PlaylistController.AddVideoToPlaylist | src/controllers/playlist.controller.ts:130-166 | failures change nothing: 400 for bad ids, 404 for a missing playlist, 403 for another user's playlist, 404 when the video does not exist; otherwise exactly one membership is appended |
| PlaylistController.RemovalExact | src/controllers/playlist.controller.ts:188-193 | removal keeps every membership except those pairing this playlist with this video |
| PlaylistController.RemoveVideoFromPlaylist | src/controllers/playlist.controller.ts:168-198 | failures change nothing; the owner's request removes exactly that video's memberships of the playlist |
| PlaylistController.DeletePlaylist | src/controllers/playlist.controller.ts:200-223 | failures change nothing; the owner's request removes exactly that playlist |
| PlaylistController.DeleteRemovesOnlyTarget | src/controllers/playlist.controller.ts:216-218 | after the delete no row has that identifier and every other row remains |
| PlaylistController.UpdatePlaylist | src/controllers/playlist.controller.ts:225-259 | 400 for a bad id or a blank name, 404 or 403 from the ownership check, with no change; the owner's request replaces the name and description of that row only |
| VideoController.OwnedVideo | src/controllers/video.controller.ts:130-137 | a cast failure (500) exactly for an unparsable id, 404 exactly for a missing video, the handler's 403 for another owner's video, otherwise its position |
| VideoController.PublishChecks | src/controllers/video.controller.ts:15-37 | 401 without a requester, a fault without files, 400 for a missing title; passes exactly when the title, the video file and the thumbnail are all present |
| VideoController.PublishAVideo | src/controllers/video.controller.ts:14-84 | failures change nothing; a failed upload is a 500; otherwise one published video owned by the requester is appended with the uploaded urls |
| VideoController.GetVideoById | src/controllers/video.controller.ts:86-110 | a cast failure for a bad id, 404 for a missing video; otherwise the video, with its view count raised by one in the store |
| VideoController.ApplyUpdate | src/controllers/video.controller.ts:150-165 | only title, description and thumbnail change; each keeps its old value unless a truthy replacement was sent |
| VideoController.EmptyUpdateKeeps | src/controllers/video.controller.ts:150-165 | an update that sends nothing leaves the video as it was |
| VideoController.UpdatePlan | src/controllers/video.controller.ts:113-148 | a fault without files, 401 without a requester, 400 when nothing is sent; otherwise the ownership check decides |
| VideoController.UpdateOwned | src/controllers/video.controller.ts:130-148 | the owner's update yields the video's position and its updated row; other outcomes are the ownership failures |
| VideoController.UpdateVideo | src/controllers/video.controller.ts:112-177 | a failed plan changes nothing; otherwise only the owned row is replaced by its update, and a failed removal of the old thumbnail then answers 500 although the row was already updated |
| VideoController.DeleteVideo | src/controllers/video.controller.ts:179-223 | failures change nothing; the owner's request removes exactly that video |
| VideoController.DeleteRemovesOnlyTarget | src/controllers/video.controller.ts:201 | after the delete no row has that identifier and every other row remains |
| VideoController.FlipPublished | src/controllers/video.controller.ts:244 | negates the publish flag of one video and changes nothing else |
| VideoController.FlipTwice | src/controllers/video.controller.ts:225-251 | toggling the publish status twice restores the videos |
| VideoController.TogglePublishStatus | src/controllers/video.controller.ts:225-251 | failures change nothing; the owner's request flips the flag of that video only and returns the new row |
| VideoController.ResolveSort | src/controllers/video.controller.ts:276-284 | the requested field is used when given, and ascending exactly for `asc`; without one, newest first |
| VideoController.QueryMatchIff | src/controllers/video.controller.ts:266-271 | a published video matches a search exactly when its title or description contains the term, ignoring case |
| VideoController.GetAllVideos | src/controllers/video.controller.ts:253-295 | 400 exactly for a supplied unparsable `userId`; otherwise the feed lists only matching videos and all of them, ordered by the resolved sort |
| VideoController.FeedCounts | src/controllers/video.controller.ts:253-295 | a successful feed holds each matching video exactly as often as the table does, and no other video |
| VideoController.FeedOnlyPublished | src/controllers/video.controller.ts:273 | every video in the feed is published |
| DashboardController.QueryNumber | src/controllers/dashboard.controller.ts:53-54 | `Number()` of a digit string is its value; an absent parameter gives nothing |
| DashboardController.NumberOr | src/controllers/dashboard.controller.ts:53-54 | `Number(x) \|\| fallback`: the parsed number unless it is missing, not a number or zero |
| DashboardController.OwnedNewestFirst | src/controllers/dashboard.controller.ts:57-73 | exactly the channel's videos, newest first |
| DashboardController.OffsetStep | src/controllers/dashboard.controller.ts:55 | the next page starts exactly `limit` rows later |
| DashboardController.OffsetNonNegative | src/controllers/dashboard.controller.ts:55 | pages from 1 with a non-negative limit never skip a negative count |
| DashboardController.GetChannelVideos | src/controllers/dashboard.controller.ts:50-80 | a negative skip or limit is a 500; otherwise `totalVideos` counts the channel's videos and the page holds exactly min(limit, total - skip) of them (none past the end), the channel's videos from position skip on, newest first, each with its like count |
| DashboardController.WithLikes | src/controllers/dashboard.controller.ts:61-67 | every video of the page keeps its place and is paired with the number of likes on it |
| DashboardController.ChannelPage | src/controllers/dashboard.controller.ts:55-80 | the same answer for a page and limit that are already numbers: a 500 exactly for a negative skip or limit, otherwise the exact window and the total |
| DashboardController.ChannelVideosArePages | src/controllers/dashboard.controller.ts:53-72 | from page 1 on with a non-negative limit the handler succeeds and its videos are exactly `PageOf` that page and limit |
| DashboardController.DefaultPageIsFirstTen | src/controllers/dashboard.controller.ts:53-54 | a page and limit that are absent, zero or not numbers give the first ten of the channel's videos, newest first |
| DashboardController.ConsecutivePagesTile | src/controllers/dashboard.controller.ts:71-72 | page `n` followed by page `n+1` is the window of twice the limit: no video is shown twice or skipped |
| DashboardController.PagesTile | src/controllers/dashboard.controller.ts:55 | for any rows, the window of page `n` followed by that of page `n+1` is the window of twice the limit, starting at a non-negative offset |
| DashboardController.GetChannelStats | src/controllers/dashboard.controller.ts:6-48 | subscribers, videos and likes on the channel's videos are counted, views summed over the channel's videos |
| DashboardController.TotalViewsBounds | src/controllers/dashboard.controller.ts:39 | the total views are non-negative, bound each video's views, and are zero for a channel without videos |
| CommentController.OwnCommentAt | src/controllers/comment.controller.ts:110-114 | the comment with that identifier and owner, and none exactly when there is no such comment |
| CommentController.AddComment | src/controllers/comment.controller.ts:9-40 | 401 without a requester, 400 for blank content, a cast failure or 404 for the video; failures change nothing; otherwise one comment is appended |
| CommentController.AuthorsPresentWithin | src/controllers/comment.controller.ts:58-68 | every selection of comments whose authors exist has its authors present |
| CommentController.AuthorOf | src/controllers/comment.controller.ts:59-66 | the `$lookup` finds an author exactly when a user row has the comment's owner id, and that author carries the id |
| CommentController.ProjectComments | src/controllers/comment.controller.ts:58-79 | never more views than comments |
| CommentController.ProjectFromComments | src/controllers/comment.controller.ts:58-79 | every view is one comment's id, content and date with its owner's id, username and avatar from the user table |
| CommentController.ProjectKeepsAll | src/controllers/comment.controller.ts:58-79 | with all authors present, every comment is projected in its own place |
| CommentController.ProjectKeepsPresent | src/controllers/comment.controller.ts:58-67 | a comment whose author exists is projected |
| CommentController.ProjectDropsOrphans | src/controllers/comment.controller.ts:58-67 | `$unwind` drops a comment whose author is missing: no view projects it and no view carries its owner id |
| CommentController.ProjectKeepsOrder | src/controllers/comment.controller.ts:69-84 | projection keeps the newest-first order |
| CommentController.VideoCommentsNewestFirst | src/controllers/comment.controller.ts:52-84 | only the video's comments and all of them, newest first |
| CommentController.VideoCommentsCounts | src/controllers/comment.controller.ts:54-58 | each comment on the video is taken exactly as often as the table holds it, no other comment at all |
| CommentController.GetVideoComments | src/controllers/comment.controller.ts:42-96 | a cast failure for a bad id, 404 exactly for a missing video; otherwise 200 with views of the video's comments, each with its author's id, username and avatar, newest first |
| CommentController.VideoCommentsComplete | src/controllers/comment.controller.ts:52-85 | a comment on an existing video is listed exactly when its author exists |
| CommentController.UpdateComment | src/controllers/comment.controller.ts:98-130 | 401, 400 for blank content and 404 unless the requester owns that comment; otherwise only its content changes |
| CommentController.DeleteComment | src/controllers/comment.controller.ts:132-149 | 401, or 404 unless the requester owns that comment; otherwise only it is removed |
| CommentController.DeleteKeepsOthers | src/controllers/comment.controller.ts:138-141 | a delete keeps every comment of other users and removes the target |
| TweetController.CreateTweet | src/controllers/tweet.controller.ts:6-24 | blank content is a 400 with no change; otherwise a tweet by the requester is appended with the next identifier |
| TweetController.TweetsOf | src/controllers/tweet.controller.ts:31-43 | only the user's tweets and all of them, newest first |
| TweetController.TweetsOfCounts | src/controllers/tweet.controller.ts:31-43 | each tweet of the user is listed exactly as often as the table holds it, no other tweet at all |
| TweetController.GetUserTweets | src/controllers/tweet.controller.ts:26-48 | 400 exactly for an unparsable user id; otherwise one entry per listed tweet, as many as TweetsOf gives (each tweet of the user exactly as often as the table holds it, by TweetsOfCounts), each with its like count, newest first |
| TweetController.UserTweetsComplete | src/controllers/tweet.controller.ts:26-48 | every tweet of the user is listed |
| TweetController.OwnTweetAt | src/controllers/tweet.controller.ts:63-71 | the tweet with that identifier and owner, and none exactly when there is no such tweet |
| TweetController.UpdateTweet | src/controllers/tweet.controller.ts:50-79 | 400 for a bad id or blank content, 403 unless the requester owns that tweet, with no change; otherwise only its content changes |
| TweetController.DeleteTweet | src/controllers/tweet.controller.ts:81-102 | 400 for a bad id, 403 unless the requester owns that tweet, with no change; otherwise only it is removed |
| TweetController.UpdateKeepsOthers | src/controllers/tweet.controller.ts:63-71 | an update keeps every other user's tweets and the length of the table |
| TweetController.DeleteKeepsOthers | src/controllers/tweet.controller.ts:89-94 | a delete keeps every other user's tweets and removes exactly one row |
| UserController.GetSafeUser | src/controllers/user.controller.ts:18-21 | the safe view drops exactly the password and the refresh token |
| UserController.SafeUserIgnoresSecrets | src/controllers/user.controller.ts:18-21 | two users have the same safe view exactly when they differ at most in their secrets |
| UserController.AnyBlank | src/controllers/user.controller.ts:52-56 | true exactly when some supplied field is blank |
| UserController.FirstByNameOrEmail | src/controllers/user.controller.ts:59-61 | the first user with that username or that email, and none exactly when no user has either |
| UserController.StoredName | src/controllers/user.controller.ts:97 | the stored username is the lower-cased request username |
| UserController.NewUser | src/controllers/user.controller.ts:88-115 | the created row: lower-cased username, email and full name as sent, the hashed password, no refresh token, and the uploaded image urls |
| UserController.RegisterAsWritten | src/controllers/user.controller.ts:48-116 | the handler as written: "All fields are required" exactly for a blank field, and a success only when a cover image was sent |
| UserController.Register | src/controllers/user.controller.ts:48-116 | the intended handler: 400 exactly for a blank field, 409 for a username or email taken after lower-casing, otherwise 201 with the new user |
| UserController.RegisterKeepsWellFormed | src/controllers/user.controller.ts:88-115 | a successful registration keeps every store constraint, including unique usernames and emails |
| UserController.NoCoverFailsAsWritten | src/controllers/user.controller.ts:83 | as written, a complete registration without a cover image fails with a 500 |
| UserController.CoverImageOptional | src/controllers/user.controller.ts:80-86 | as intended, the same registration succeeds with an empty cover |
| UserController.AliceAgainNotBlank | src/controllers/user.controller.ts:52-56 | the request in the mixed-case finding passes the blank-field check |
| UserController.LowerAlice | src/controllers/user.controller.ts:97 | "Alice" is stored as "alice" |
| UserController.MixedCaseDuplicateAsWritten | src/controllers/user.controller.ts:59-66 | as written, registering "Alice" beside a stored "alice" ends in a 500 |
| UserController.MixedCaseDuplicateConflicts | src/controllers/user.controller.ts:59-66 | as intended, the same request is the 409 conflict |
| UserController.RegisterUser | src/controllers/user.controller.ts:48-116 | the corrected registration (see Findings), not the handler as written: the store keeps its constraints and grows by exactly the user that `Register` decides on success; failures change nothing |
| UserController.LoginUser | src/controllers/user.controller.ts:118-148 | 400 without a username or email, 404 when no user has either, 401 for a wrong password, with no change; otherwise the safe user and the token pair, and only that user's refresh token is replaced |
| UserController.LogoutUser | src/controllers/user.controller.ts:150-163 | 401 without a requester, 404 for an unknown one; otherwise only that user's refresh token is cleared |
| UserController.PresentedToken | src/controllers/user.controller.ts:166-167 | the cookie token when truthy, else the body token |
| UserController.RefreshTarget | src/controllers/user.controller.ts:165-203 | the user a refresh is granted to stores the presented token and is the one the verified token names; none exactly when no such user exists |
| UserController.LogoutRevokes | src/controllers/user.controller.ts:150-163 | after a logout no presented token refreshes that user |
| UserController.RotationRevokesOld | src/controllers/user.controller.ts:182-184 | after a rotation the old token no longer refreshes that user and the new one does |
| UserController.RefreshAccessToken | src/controllers/user.controller.ts:165-203 | 401 without a token, or for one that fails to verify or is not the stored one, with no change; otherwise the new pair, and only that user's refresh token is replaced by the new one |
| UserController.UserNamed | src/controllers/user.controller.ts:302-311 | the user with that username, and none exactly when there is none |
| UserController.GetUserChannelProfile | src/controllers/user.controller.ts:298-339 | 404 exactly when no user has that name; otherwise the safe user with its subscriber and subscription counts and whether the viewer subscribes |
| UserController.SubscribeCounts | src/controllers/user.controller.ts:313-334 | a viewer's new subscription raises the subscriber count by one and turns `isSubscribed` on |
| UserController.HistoryOf | src/controllers/user.controller.ts:344-346 | only the user's history entries and all of them, most recent first |
| UserController.HistoryCounts | src/controllers/user.controller.ts:344-346 | each history entry of the user is taken exactly as often as the table holds it, no other entry at all |
| UserController.GetWatchHistory | src/controllers/user.controller.ts:341-364 | 401 without a requester, 404 exactly when the requester has no history; otherwise 200 with stored videos, each from one of the requester's entries |
| UserController.WatchHistoryOrdered | src/controllers/user.controller.ts:341-364 | with no missing video, the listed videos follow the history, most recent first |

## Left out

- Password hashing (bcrypt), token signing and verification (JWT) and
  cookie options are parameters: a password check, a decoded identifier
  and the tokens are given to the handlers.
- The media host is a parameter. Upload results are given as urls or as
  nothing, and deleting remote media and local temporary files is not
  modelled.
- ParseId (Text): identifiers are unbounded integers and any digit string is taken at its exact value. The database's 32-bit Int id column, which makes the source answer an id above 2^31−1 with a 500, and `parseInt`'s loss of precision above 2^53 are not modelled.
- QueryNumber (DashboardController): `Number()` is taken at its exact value; rounding above 2^53 and a `skip` or `take` beyond the 32-bit range, which the database rejects, are not modelled.
- Pagination through the aggregate plugin's options is not modelled;
  the page-size defaults are not part of this model.
- GetAllVideos (VideoController): the feed is the complete ordered list, not one page of it.
- GetVideoComments (CommentController): the listing is the complete ordered list, not one page of it.
- GetVideoById (VideoController): the watch-history write of the same request is not modelled; only the view count increase is.
- A search term is matched as a case-insensitive substring. The
  regular-expression syntax of `$regex` is not modelled.
- An absent field inside a Prisma `OR` filter is modelled as matching
  no row.
- Prisma with a negative `take` reads backwards. The model answers a
  negative limit or skip with a 500 instead.
- Cascading deletes of dependent rows are not modelled: a delete
  removes its target only, and dangling references are skipped when a
  listing resolves them.
- Sorting by a field that is not numeric gives every video the same
  key, so the order of such a feed is left unconstrained.
- LowerChar (Text): lower-casing is ASCII only. JavaScript's `toLowerCase` also maps non-ASCII letters ("Ä" to "ä"); the model keeps them.
- ToLower (Text): ASCII only and length-preserving, while JavaScript's `toLowerCase` maps non-ASCII letters and can lengthen a string ("İ").
- NormalizeName (NormalizeParams): "no upper-case letter" holds for A-Z only, through the ASCII `ToLower`.
- StoredName (UserController): the stored username is the ASCII lower-casing of the one sent.
- NewUser (UserController): the created row's username is the ASCII lower-casing of the one sent.
- The relational videos table and the document store's videos are one
  `videos` table here. So a video published through the document-store
  handler can be liked, put in a playlist and counted by the dashboard,
  which the two separate stores of the source do not allow.
- `parseInt` is modelled on plain decimal digit strings. Signs, leading
  whitespace and trailing garbage are treated as not a number.
- `Number()` is modelled on decimal digit strings with an optional
  leading minus sign. Other numeric spellings (decimals, exponents,
  whitespace, a plus sign) fall back to the default.
- The texts of the ORM's foreign-key and cast errors are placeholders.
  Their status, 500, is modelled.
- The response envelope's `data`/`message` wrapper is not modelled; a
  handler returns its status and payload.
- The authenticated requester is taken to exist where the
  authentication middleware guarantees it (relational handlers).
- Relation counts (`_count`) are modelled as counts over the tables.
- `findFirst` returns the first match in insertion order.
- `changeCurrentPassword`, `getCurrentUser`, `updateAccountDetails`,
  `updateUserAvatar` and `updateUserCoverImage`
  (src/controllers/user.controller.ts:205-296) are not part of this
  model.
- The `catch` in the username normaliser cannot be reached for a string
  parameter and is not modelled.
- The document-store handlers read `req.user._id` while the
  authentication middleware sets `req.user.id`. The model passes the
  requester as given.
- The asynchronous media cleanup after deleting a video is not modelled.
- `updatedAt` timestamps are not modelled.
- The ORM client, the models' schema files, `ApiError`, `ApiResponse`,
  `asyncHandler` and the pagination options are not part of this model.

## Findings

| source | as written | input that shows it | evidently intended | confidence | as-written member | corrected member |
|---|---|---|---|---|---|---|
| src/controllers/user.controller.ts:83 | the local cover-image file is removed unconditionally, so a registration without a cover calls `unlinkSync(undefined)` and ends in a 500 | a complete registration with an avatar and no cover image | the cover image is optional, and the user is created with an empty cover | not executed | UserController.NoCoverFailsAsWritten | UserController.CoverImageOptional |
| src/controllers/user.controller.ts:59-66 | the conflict check looks up the raw username, but the user is stored with the lower-cased one (line 97), so the create hits the unique constraint and the handler answers 500 | username "Alice" when "alice" is stored, with a new email | the conflict check uses the stored form, and the answer is 409 | not executed | UserController.MixedCaseDuplicateAsWritten | UserController.MixedCaseDuplicateConflicts |
