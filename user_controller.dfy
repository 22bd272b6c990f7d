/** Accounts (relational-store handlers): the public view of a user,
    registration, login, logout, refresh-token rotation, the channel profile
    and the watch history. Password hashing, token signing and the media
    host are outside the model: their results arrive as parameters. */
module UserController {
  import opened Common
  import opened Text
  import opened Rows
  import opened Store
  import opened FileValidators

  /** A user without its two secrets, the password hash and the refresh token. */
  datatype SafeUser = SafeUser(id: Id, username: string, email: string, fullname: string,
                               avatar: string, coverImage: string, createdAt: int)

  /** Puts the two secrets back. */
  function WithSecrets(s: SafeUser, password: string, refreshToken: Option<string>): User {
    User(s.id, s.username, s.email, s.fullname, password, s.avatar, s.coverImage, refreshToken, s.createdAt)
  }

  /** `getSafeUser`: drops exactly the password and the refresh token; adding
      them back gives the user again, so every other field is kept. */
  function GetSafeUser(u: User): (s: SafeUser)
    ensures WithSecrets(s, u.password, u.refreshToken) == u
  {
    SafeUser(u.id, u.username, u.email, u.fullname, u.avatar, u.coverImage, u.createdAt)
  }

  /** Two users have the same public view exactly when they differ at most in their secrets. */
  lemma SafeUserIgnoresSecrets(u: User, v: User)
    ensures GetSafeUser(u) == GetSafeUser(v) <==> u.(password := v.password, refreshToken := v.refreshToken) == v
  {
    if GetSafeUser(u) == GetSafeUser(v) {
      assert WithSecrets(GetSafeUser(u), v.password, v.refreshToken) == v;
    }
  }

  // ----- registerUser -----

  /** The text fields of a registration body; a field the client left out is absent. */
  datatype Registration = Registration(fullname: Option<string>, email: Option<string>,
                                       username: Option<string>, password: Option<string>)

  function Fields(b: Registration): seq<Option<string>> {
    [b.fullname, b.email, b.username, b.password]
  }

  /** `field?.trim() === ''`: present and blank (see `TrimEmptyIffBlank`);
      an absent field is not blank. */
  predicate SuppliedBlank(f: Option<string>) {
    f.Some? && Blank(f.value)
  }

  /** `fields.some(field => field?.trim() === '')`. */
  function AnyBlank(fields: seq<Option<string>>): (r: bool)
    ensures r <==> exists i :: 0 <= i < |fields| && SuppliedBlank(fields[i])
  {
    if fields == [] then false
    else if SuppliedBlank(fields[0]) then true
    else
      assert forall i :: 1 <= i < |fields| ==> fields[i] == fields[1..][i - 1];
      AnyBlank(fields[1..])
  }

  /** Every field of the body was sent. */
  predicate Complete(b: Registration) {
    b.fullname.Some? && b.email.Some? && b.username.Some? && b.password.Some?
  }

  /** `{ field: value }` inside an `OR` filter: an absent value matches no row. */
  predicate FieldIs(value: Option<string>, actual: string) {
    value.Some? && actual == value.value
  }

  /** `findFirst({ where: { OR: [{ username }, { email }] } })`. */
  function FirstByNameOrEmail(users: seq<User>, username: Option<string>, email: Option<string>): (r: Option<nat>)
    ensures r.Some? ==> r.value < |users| && (FieldIs(username, users[r.value].username) || FieldIs(email, users[r.value].email))
    ensures r.None? <==> forall i :: 0 <= i < |users| ==> !FieldIs(username, users[i].username) && !FieldIs(email, users[i].email)
  {
    FirstIndex(users, (u: User) => FieldIs(username, u.username) || FieldIs(email, u.email))
  }

  /** The username as it is stored: lower-cased. */
  function StoredName(username: Option<string>): (r: Option<string>)
    ensures r.Some? <==> username.Some?
    ensures r.Some? ==> r.value == ToLower(username.value)
  {
    if username.Some? then Some(ToLower(username.value)) else None
  }

  /** `files?.avatar?.[0]?.path` is truthy. */
  predicate AvatarSent(files: Option<ImageFields>) {
    files.Some? && HasPath(files.value.avatar)
  }

  /** `files?.coverImage?.[0]?.path` is truthy. */
  predicate CoverSent(files: Option<ImageFields>) {
    files.Some? && HasPath(files.value.coverImage)
  }

  /** What the media host returned for each upload: its url, or nothing when
      the upload yielded no result. */
  datatype Uploads = Uploads(avatarUrl: Option<string>, coverUrl: Option<string>)

  const RegistrationFailed: string := "User registration failed, cleanup performed"

  /** The row `prisma.user.create` receives: the username lower-cased, the
      password hash, and each image url or ''. */
  function NewUser(id: Id, b: Registration, files: Option<ImageFields>, up: Uploads, hashed: string, now: int): (u: User)
    requires Complete(b)
    ensures u.id == id && u.username == ToLower(b.username.value) && u.email == b.email.value
    ensures u.fullname == b.fullname.value && u.password == hashed && u.refreshToken.None?
    ensures u.avatar == OrElse(up.avatarUrl, "")
    ensures u.coverImage == (if CoverSent(files) then OrElse(up.coverUrl, "") else "")
  {
    User(id, ToLower(b.username.value), b.email.value, b.fullname.value, hashed,
         OrElse(up.avatarUrl, ""), if CoverSent(files) then OrElse(up.coverUrl, "") else "", None, now)
  }

  /** `registerUser` as written. Two steps differ from what is evidently
      intended: the file cleanup unlinks the cover path even when no cover
      was sent, which throws and ends in a 500; and the conflict check looks
      up the username as sent, while the row stores it lower-cased, so a
      case-only clash passes the check and fails at the unique constraint. */
  function RegisterAsWritten(users: seq<User>, next: Id, b: Registration, files: Option<ImageFields>,
                             up: Uploads, hashed: string, now: int): (r: Reply<User>)
    ensures r.Failure? && r.message == "All fields are required" <==> AnyBlank(Fields(b))
    ensures r.Success? ==> CoverSent(files) && Complete(b) && r.data == NewUser(next, b, files, up, hashed, now)
  {
    if AnyBlank(Fields(b)) then Failure(400, "All fields are required")
    else if FirstByNameOrEmail(users, b.username, b.email).Some? then Failure(409, "User with email or username already exists")
    else if !AvatarSent(files) then Failure(400, "Avatar file is required")
    else if !CoverSent(files) then Failure(500, "Failed to upload images")
    else if !Complete(b) then Failure(500, RegistrationFailed)
    else
      var u := NewUser(next, b, files, up, hashed, now);
      if FirstByNameOrEmail(users, Some(u.username), Some(u.email)).Some? then Failure(500, RegistrationFailed)
      else Success(201, u)
  }

  /** Registration as evidently intended: the conflict check looks up the
      username that will be stored, and a missing cover image is simply not
      uploaded. A field left out of the body makes the create step throw. */
  function Register(users: seq<User>, next: Id, b: Registration, files: Option<ImageFields>,
                    up: Uploads, hashed: string, now: int): (r: Reply<User>)
    ensures r == Failure(400, "All fields are required") <==> AnyBlank(Fields(b))
    ensures !AnyBlank(Fields(b)) ==>
      (r == Failure(409, "User with email or username already exists") <==>
         exists i :: 0 <= i < |users| && (FieldIs(StoredName(b.username), users[i].username) || FieldIs(b.email, users[i].email)))
    ensures r.Success? <==>
      && !AnyBlank(Fields(b)) && AvatarSent(files) && Complete(b)
      && forall i :: 0 <= i < |users| ==> users[i].username != ToLower(b.username.value) && users[i].email != b.email.value
    ensures r.Success? ==> r.status == 201 && r.data == NewUser(next, b, files, up, hashed, now)
  {
    if AnyBlank(Fields(b)) then Failure(400, "All fields are required")
    else if FirstByNameOrEmail(users, StoredName(b.username), b.email).Some? then Failure(409, "User with email or username already exists")
    else if !AvatarSent(files) then Failure(400, "Avatar file is required")
    else if !Complete(b) then Failure(500, RegistrationFailed)
    else Success(201, NewUser(next, b, files, up, hashed, now))
  }

  /** A registration that succeeds never breaks a key or uniqueness constraint:
      the insert cannot fail at the store. */
  lemma RegisterKeepsWellFormed(t: Tables, b: Registration, files: Option<ImageFields>, up: Uploads, hashed: string, now: int)
    requires WellFormed(t)
    requires Register(t.users, t.nextId, b, files, up, hashed, now).Success?
    ensures WellFormed(t.(users := t.users + [Register(t.users, t.nextId, b, files, up, hashed, now).data], nextId := t.nextId + 1))
  {
    var u := Register(t.users, t.nextId, b, files, up, hashed, now).data;
    AddUser(t, u);
  }

  /** As written, a registration without a cover image fails with a 500 even
      when everything else is in order. */
  lemma NoCoverFailsAsWritten(users: seq<User>, next: Id, b: Registration, files: Option<ImageFields>,
                              up: Uploads, hashed: string, now: int)
    requires !AnyBlank(Fields(b)) && FirstByNameOrEmail(users, b.username, b.email).None?
    requires AvatarSent(files) && !CoverSent(files)
    ensures RegisterAsWritten(users, next, b, files, up, hashed, now) == Failure(500, "Failed to upload images")
  {
  }

  /** Intended: the cover image is optional; without one the user is created
      with an empty cover image. */
  lemma CoverImageOptional(users: seq<User>, next: Id, b: Registration, files: Option<ImageFields>,
                           up: Uploads, hashed: string, now: int)
    requires !AnyBlank(Fields(b)) && Complete(b) && AvatarSent(files) && !CoverSent(files)
    requires FirstByNameOrEmail(users, StoredName(b.username), b.email).None?
    ensures Register(users, next, b, files, up, hashed, now).Success?
    ensures Register(users, next, b, files, up, hashed, now).data.coverImage == ""
  {
  }

  const ExistingAlice: User := User(1, "alice", "alice@example.com", "Alice", "h", "", "", None, 0)
  const AliceAgain: Registration := Registration(Some("Alice B"), Some("other@example.com"), Some("Alice"), Some("pw"))
  const AliceFiles: Option<ImageFields> :=
    Some(ImageFields(Some([UploadedFile("image/png", 10, Some("a.png"))]), Some([UploadedFile("image/png", 10, Some("c.png"))])))

  lemma AliceAgainNotBlank()
    ensures !AnyBlank(Fields(AliceAgain))
  {
    assert !IsJsSpace("Alice B"[0]) && !IsJsSpace("other@example.com"[0]);
    assert !IsJsSpace("Alice"[0]) && !IsJsSpace("pw"[0]);
  }

  lemma LowerAlice()
    ensures ToLower("Alice") == "alice"
  {
    var r := ToLower("Alice");
    assert r[0] == LowerChar('A') == 'a';
    assert r[1] == 'l' && r[2] == 'i' && r[3] == 'c' && r[4] == 'e';
  }

  /** As written, registering "Alice" next to a stored "alice" passes the
      conflict check and fails at the unique constraint with a 500 instead
      of the 409 conflict. */
  lemma MixedCaseDuplicateAsWritten(up: Uploads, hashed: string, now: int)
    ensures RegisterAsWritten([ExistingAlice], 2, AliceAgain, AliceFiles, up, hashed, now) == Failure(500, RegistrationFailed)
  {
    AliceAgainNotBlank();
    LowerAlice();
    assert "Alice"[0] != "alice"[0];
    assert "other@example.com"[0] != "alice@example.com"[0];
    assert FirstByNameOrEmail([ExistingAlice], AliceAgain.username, AliceAgain.email).None?;
    assert AvatarSent(AliceFiles) && CoverSent(AliceFiles);
    assert FirstByNameOrEmail([ExistingAlice], Some("alice"), Some("other@example.com")) == Some(0);
  }

  /** Intended: the same request is answered with the 409 conflict. */
  lemma MixedCaseDuplicateConflicts(up: Uploads, hashed: string, now: int)
    ensures Register([ExistingAlice], 2, AliceAgain, AliceFiles, up, hashed, now) == Failure(409, "User with email or username already exists")
  {
    AliceAgainNotBlank();
    LowerAlice();
    assert FirstByNameOrEmail([ExistingAlice], StoredName(AliceAgain.username), AliceAgain.email) == Some(0);
  }

  /** `registerUser`, with the intended conflict check and cover handling:
      the new row is appended and its public view returned. */
  method RegisterUser(db: Db, b: Registration, files: Option<ImageFields>, up: Uploads, hashed: string, now: int)
    returns (r: Reply<SafeUser>)
    requires db.Valid()
    modifies db
    ensures db.Valid()
    ensures var d := Register(old(db.users), old(db.nextId), b, files, up, hashed, now);
      && (d.Failure? ==> r == Failure(d.status, d.message) && unchanged(db))
      && (d.Success? ==>
            && r == Success(201, GetSafeUser(d.data))
            && db.Snapshot() == old(db.Snapshot()).(users := old(db.users) + [d.data], nextId := old(db.nextId) + 1))
  {
    var d := Register(db.users, db.nextId, b, files, up, hashed, now);
    if d.Failure? {
      return Failure(d.status, d.message);
    }
    ghost var after := db.Snapshot().(users := db.users + [d.data], nextId := db.nextId + 1);
    RegisterKeepsWellFormed(db.Snapshot(), b, files, up, hashed, now);
    db.users := db.users + [d.data];
    db.nextId := db.nextId + 1;
    assert db.Snapshot() == after;
    r := Success(201, GetSafeUser(d.data));
  }

  // ----- loginUser, logoutUser, refreshAccessToken -----

  /** The login response body. */
  datatype LoginData = LoginData(user: SafeUser, accessToken: string, refreshToken: string)

  /** `loginUser`: a username or an email is required; the first user
      matching either is checked against the password (`passwordMatches`
      stands for comparing the sent password with a stored hash), and on
      success receives the new refresh token. */
  method LoginUser(db: Db, email: Option<string>, username: Option<string>, passwordMatches: string -> bool,
                   accessToken: string, refreshToken: string) returns (r: Reply<LoginData>)
    requires db.Valid()
    modifies db
    ensures db.Valid()
    ensures r.Failure? ==> unchanged(db)
    ensures !Truthy(username) && !Truthy(email) ==> r == Failure(400, "Username or email required")
    ensures Truthy(username) || Truthy(email) ==>
      var found := FirstByNameOrEmail(old(db.users), username, email);
      && (found.None? ==> r == Failure(404, "User not Found!"))
      && (found.Some? && !passwordMatches(old(db.users)[found.value].password) ==> r == Failure(401, "Invalid credentials"))
      && (found.Some? && passwordMatches(old(db.users)[found.value].password) ==>
            && r == Success(200, LoginData(GetSafeUser(old(db.users)[found.value]), accessToken, refreshToken))
            && db.Snapshot() == old(db.Snapshot()).(users := old(db.users)[found.value := old(db.users)[found.value].(refreshToken := Some(refreshToken))]))
  {
    if !Truthy(username) && !Truthy(email) {
      return Failure(400, "Username or email required");
    }
    var found := FirstByNameOrEmail(db.users, username, email);
    if found.None? {
      return Failure(404, "User not Found!");
    }
    var user := db.users[found.value];
    if !passwordMatches(user.password) {
      return Failure(401, "Invalid credentials");
    }
    ghost var after := db.Snapshot().(users := db.users[found.value := user.(refreshToken := Some(refreshToken))]);
    SetUser(db.Snapshot(), found.value, user.(refreshToken := Some(refreshToken)));
    db.users := db.users[found.value := user.(refreshToken := Some(refreshToken))];
    assert db.Snapshot() == after;
    r := Success(200, LoginData(GetSafeUser(user), accessToken, refreshToken));
  }

  /** `logoutUser`: the requester's refresh token is cleared; a requester
      whose row is gone makes the update fail with the store's not-found
      error, which the error handler answers with 404. */
  method LogoutUser(db: Db, requester: Option<Id>) returns (r: Reply<()>)
    requires db.Valid()
    modifies db
    ensures db.Valid()
    ensures r.Failure? ==> unchanged(db)
    ensures requester.None? ==> r == Failure(401, "Unauthorized")
    ensures requester.Some? && UserAt(old(db.users), requester.value).None? ==> r == Failure(404, "Record not found")
    ensures requester.Some? && UserAt(old(db.users), requester.value).Some? ==>
      var i := UserAt(old(db.users), requester.value).value;
      && r == Success(200, ())
      && db.Snapshot() == old(db.Snapshot()).(users := old(db.users)[i := old(db.users)[i].(refreshToken := None)])
  {
    if requester.None? {
      return Failure(401, "Unauthorized");
    }
    var i := UserAt(db.users, requester.value);
    if i.None? {
      return Failure(404, "Record not found");
    }
    var cleared := db.users[i.value].(refreshToken := None);
    ghost var after := db.Snapshot().(users := db.users[i.value := cleared]);
    SetUser(db.Snapshot(), i.value, cleared);
    db.users := db.users[i.value := cleared];
    assert db.Snapshot() == after;
    r := Success(200, ());
  }

  /** `req.cookies.refreshToken || req.body.refreshToken`. */
  function PresentedToken(cookie: Option<string>, body: Option<string>): (r: Option<string>)
    ensures Truthy(cookie) ==> r == cookie
    ensures !Truthy(cookie) ==> r == body
  {
    if Truthy(cookie) then cookie else body
  }

  /** The user a refresh is granted to: the one the verified token names,
      provided the token it holds is exactly the one presented. `decodedId`
      is the identifier the token's signature check yields, or nothing when
      the check throws. */
  function RefreshTarget(users: seq<User>, incoming: string, decodedId: Option<Id>): (r: Option<nat>)
    ensures r.Some? ==> r.value < |users| && users[r.value].refreshToken == Some(incoming)
    ensures r.Some? ==> decodedId == Some(users[r.value].id)
    ensures r.None? <==>
      decodedId.None? || UserAt(users, decodedId.value).None? || users[UserAt(users, decodedId.value).value].refreshToken != Some(incoming)
  {
    if decodedId.None? then None
    else match UserAt(users, decodedId.value)
      case None => None
      case Some(i) => if users[i].refreshToken == Some(incoming) then Some(i) else None
  }

  /** After a logout no presented token refreshes that user's session. */
  lemma LogoutRevokes(users: seq<User>, i: nat, incoming: string, decodedId: Option<Id>)
    requires i < |users| && UniqueBy(users, UserId)
    ensures RefreshTarget(users[i := users[i].(refreshToken := None)], incoming, decodedId) != Some(i)
  {
  }

  /** After a rotation only the new token is honoured for that user. */
  lemma RotationRevokesOld(users: seq<User>, i: nat, old_: string, new_: string, decodedId: Option<Id>)
    requires i < |users| && old_ != new_
    ensures RefreshTarget(users[i := users[i].(refreshToken := Some(new_))], old_, decodedId) != Some(i)
    ensures decodedId == Some(users[i].id) && UniqueBy(users, UserId) ==>
      RefreshTarget(users[i := users[i].(refreshToken := Some(new_))], new_, decodedId) == Some(i)
  {
    var after := users[i := users[i].(refreshToken := Some(new_))];
    if decodedId == Some(users[i].id) && UniqueBy(users, UserId) {
      assert UserAt(after, users[i].id) == Some(i) by {
        assert after[i].id == users[i].id;
        forall j | 0 <= j < i ensures after[j].id != users[i].id {
          assert after[j] == users[j];
        }
      }
    }
  }

  /** The token pair sent back by a refresh. */
  datatype TokenPair = TokenPair(accessToken: string, refreshToken: string)

  /** `refreshAccessToken`: a token is required, it must verify, and it must
      be the one the named user holds; the user then holds the new one. */
  method RefreshAccessToken(db: Db, cookie: Option<string>, body: Option<string>, decodedId: Option<Id>,
                            accessToken: string, newRefreshToken: string) returns (r: Reply<TokenPair>)
    requires db.Valid()
    modifies db
    ensures db.Valid()
    ensures r.Failure? ==> unchanged(db)
    ensures !Truthy(PresentedToken(cookie, body)) ==> r == Failure(401, "Refresh token is required")
    ensures Truthy(PresentedToken(cookie, body)) ==>
      var target := RefreshTarget(old(db.users), PresentedToken(cookie, body).value, decodedId);
      && (target.None? ==> r == Failure(401, "Invalid refresh token"))
      && (target.Some? ==>
            && r == Success(200, TokenPair(accessToken, newRefreshToken))
            && db.Snapshot() == old(db.Snapshot()).(users := old(db.users)[target.value := old(db.users)[target.value].(refreshToken := Some(newRefreshToken))]))
  {
    var incoming := PresentedToken(cookie, body);
    if !Truthy(incoming) {
      return Failure(401, "Refresh token is required");
    }
    var target := RefreshTarget(db.users, incoming.value, decodedId);
    if target.None? {
      return Failure(401, "Invalid refresh token");
    }
    var rotated := db.users[target.value].(refreshToken := Some(newRefreshToken));
    ghost var after := db.Snapshot().(users := db.users[target.value := rotated]);
    SetUser(db.Snapshot(), target.value, rotated);
    db.users := db.users[target.value := rotated];
    assert db.Snapshot() == after;
    r := Success(200, TokenPair(accessToken, newRefreshToken));
  }

  // ----- getUserChannelProfile -----

  /** The profile: the channel's public view, its two counts flattened out
      of `_count`, and whether the viewer subscribes to it. */
  datatype ChannelProfile = ChannelProfile(user: SafeUser, subscriberCount: nat,
                                           channelsSubscribedToCount: nat, isSubscribed: bool)

  function UserNamed(users: seq<User>, username: string): (r: Option<nat>)
    ensures r.Some? ==> r.value < |users| && users[r.value].username == username
    ensures r.None? <==> forall i :: 0 <= i < |users| ==> users[i].username != username
  {
    FirstIndex(users, (u: User) => u.username == username)
  }

  /** `getUserChannelProfile`. The viewer's identifier is checked for
      truthiness, so a viewer with identifier 0 counts as no viewer. */
  function GetUserChannelProfile(t: Tables, username: string, viewer: Option<Id>): (r: Reply<ChannelProfile>)
    ensures r.Failure? <==> forall i :: 0 <= i < |t.users| ==> t.users[i].username != username
    ensures r.Failure? ==> r == Failure(404, "Channel not found")
    ensures r.Success? ==> r.status == 200 && exists i :: 0 <= i < |t.users| && t.users[i].username == username && r.data.user == GetSafeUser(t.users[i])
    ensures r.Success? ==>
      && r.data.subscriberCount == Count(t.subscriptions, (s: Subscription) => s.channelId == r.data.user.id)
      && r.data.channelsSubscribedToCount == Count(t.subscriptions, (s: Subscription) => s.subscriberId == r.data.user.id)
    ensures r.Success? ==>
      (r.data.isSubscribed <==>
         viewer.Some? && viewer.value != 0 &&
         exists j :: 0 <= j < |t.subscriptions| && SubscriptionKey(t.subscriptions[j]) == (viewer.value, r.data.user.id))
  {
    match UserNamed(t.users, username)
    case None => Failure(404, "Channel not found")
    case Some(i) =>
      var channel := t.users[i];
      var subscribed := viewer.Some? && viewer.value != 0 &&
        FirstIndex(t.subscriptions, (s: Subscription) => s.subscriberId == viewer.value && s.channelId == channel.id).Some?;
      Success(200, ChannelProfile(GetSafeUser(channel),
                                  Count(t.subscriptions, (s: Subscription) => s.channelId == channel.id),
                                  Count(t.subscriptions, (s: Subscription) => s.subscriberId == channel.id),
                                  subscribed))
  }

  /** Subscribing a viewer adds one to the channel's subscriber count and flips `isSubscribed`. */
  lemma SubscribeCounts(t: Tables, username: string, viewer: Id, x: Subscription)
    requires viewer != 0 && GetUserChannelProfile(t, username, Some(viewer)).Success?
    requires x.subscriberId == viewer && x.channelId == GetUserChannelProfile(t, username, Some(viewer)).data.user.id
    ensures var before := GetUserChannelProfile(t, username, Some(viewer)).data;
      var after := GetUserChannelProfile(t.(subscriptions := t.subscriptions + [x]), username, Some(viewer)).data;
      after.subscriberCount == before.subscriberCount + 1 && after.isSubscribed
  {
    var before := GetUserChannelProfile(t, username, Some(viewer)).data;
    var id := before.user.id;
    FilterAppend(t.subscriptions, [x], (s: Subscription) => s.channelId == id);
    var after := GetUserChannelProfile(t.(subscriptions := t.subscriptions + [x]), username, Some(viewer)).data;
    assert after.user.id == id;
    assert (t.subscriptions + [x])[|t.subscriptions|] == x;
  }

  // ----- getWatchHistory -----

  function WatchedAt(w: WatchEntry): int { w.watchedAt }

  /** The user's history entries, most recently watched first. */
  function HistoryOf(entries: seq<WatchEntry>, user: Id): (r: seq<WatchEntry>)
    ensures SortedBy(r, WatchedAt, false)
    ensures forall k :: 0 <= k < |r| ==> r[k] in entries && r[k].userId == user
    ensures forall i :: 0 <= i < |entries| && entries[i].userId == user ==> entries[i] in r
  {
    var mine := Filter(entries, (w: WatchEntry) => w.userId == user);
    SortByRows(mine, WatchedAt, false);
    SortBy(mine, WatchedAt, false)
  }

  /** Each history entry of the user is taken exactly as often as the table
      holds it, and no other entry is taken. */
  lemma HistoryCounts(entries: seq<WatchEntry>, user: Id)
    ensures forall x :: multiset(HistoryOf(entries, user))[x] == if x.userId == user then multiset(entries)[x] else 0
  {
    FilterCounts(entries, (w: WatchEntry) => w.userId == user);
  }

  /** `getWatchHistory`: the requester's history, most recent first, as video
      cards; an empty history is answered with 404. */
  function GetWatchHistory(t: Tables, requester: Option<Id>): (r: Reply<seq<VideoCard>>)
    ensures requester.None? ==> r == Failure(401, "Unauthorized")
    ensures requester.Some? ==>
      (r == Failure(404, "No watch history found") <==>
         forall i :: 0 <= i < |t.watchHistory| ==> t.watchHistory[i].userId != requester.value)
    ensures r.Success? ==> r.status == 200 && forall k :: 0 <= k < |r.data| ==>
      r.data[k].video in t.videos &&
      exists i :: 0 <= i < |t.watchHistory| && t.watchHistory[i].userId == requester.value && t.watchHistory[i].videoId == r.data[k].video.id
  {
    match requester
    case None => Failure(401, "Unauthorized")
    case Some(user) =>
      var history := HistoryOf(t.watchHistory, user);
      if history == [] then
        Failure(404, "No watch history found")
      else
        var r := VideoCards(history, EntryVideo, t.videos, t.users);
        VideoCardsFromRows(history, EntryVideo, t.videos, t.users);
        Success(200, r)
  }

  /** With no missing video, the listed videos follow the history, most recent first. */
  lemma WatchHistoryOrdered(t: Tables, user: Id)
    requires forall i :: 0 <= i < |t.watchHistory| ==> VideoAt(t.videos, t.watchHistory[i].videoId).Some?
    requires GetWatchHistory(t, Some(user)).Success?
    ensures var h := HistoryOf(t.watchHistory, user);
      && |GetWatchHistory(t, Some(user)).data| == |h|
      && (forall k :: 0 <= k < |h| ==> GetWatchHistory(t, Some(user)).data[k].video.id == h[k].videoId)
      && SortedBy(h, WatchedAt, false)
  {
    var h := HistoryOf(t.watchHistory, user);
    forall k | 0 <= k < |h| ensures VideoAt(t.videos, h[k].videoId).Some? {
      var i :| 0 <= i < |t.watchHistory| && t.watchHistory[i] == h[k];
    }
    VideoCardsInOrder(h, EntryVideo, t.videos, t.users);
  }
}
