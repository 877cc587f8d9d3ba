/**
 * The record logic of the REST backend's route handlers, over an
 * in-memory store standing in for the two document collections (users
 * and playlists, each in natural order). Password hashing is abstract:
 * a registration is handed the digest to store, and a login the
 * predicate that compares a password with a stored digest.
 */
module Server {
  import opened Records

  /** A stored user document; `password` holds the digest, never the plain password. */
  datatype Account = Account(
    id: UserId,
    username: string,
    email: string,
    password: string,
    likedSongs: seq<SongId>,
    playlists: seq<PlaylistId>)

  /** The `user` object the login and register routes send back. */
  function SessionOf(a: Account): (u: User)
    ensures u.id == a.id && u.username == a.username && u.email == a.email
    ensures u.likedSongs == a.likedSongs
  {
    User(a.id, a.username, a.email, a.likedSongs)
  }

  /** `User.findById(id)`: the position of the account with that id, or -1. */
  function AccountIndex(users: seq<Account>, id: UserId): (r: int)
    ensures -1 <= r < |users|
    ensures r != -1 ==> users[r].id == id
    ensures forall j :: 0 <= j < |users| && (r == -1 || j < r) ==> users[j].id != id
  {
    FirstIndex(users, (a: Account) => a.id == id)
  }

  /** `User.findOne({ email })`: the first account with that email, or -1. */
  function EmailIndex(users: seq<Account>, email: string): (r: int)
    ensures -1 <= r < |users|
    ensures r != -1 ==> users[r].email == email
    ensures forall j :: 0 <= j < |users| && (r == -1 || j < r) ==> users[j].email != email
  {
    FirstIndex(users, (a: Account) => a.email == email)
  }

  // ---------------------------------------------------------------------
  // Login
  // ---------------------------------------------------------------------

  const UnknownUserMessage := "用户不存在"
  const WrongPasswordMessage := "密码错误"
  const EmailTakenMessage := "该邮箱已被注册"

  datatype LoginOutcome = LoggedIn(user: User) | Refused(message: string)

  /**
   * The login route: an unknown email and a wrong password are refused
   * with different messages; otherwise the account's session is returned.
   */
  function Login(users: seq<Account>, email: string, password: string,
                 matches: (string, string) -> bool): (r: LoginOutcome)
    ensures EmailIndex(users, email) == -1 <==> r == Refused(UnknownUserMessage)
    ensures r == Refused(WrongPasswordMessage) <==>
              EmailIndex(users, email) != -1 && !matches(password, users[EmailIndex(users, email)].password)
    ensures r.LoggedIn? <==>
              EmailIndex(users, email) != -1 && matches(password, users[EmailIndex(users, email)].password)
    ensures r.LoggedIn? ==> r.user == SessionOf(users[EmailIndex(users, email)]) && r.user.email == email
  {
    var i := EmailIndex(users, email);
    if i == -1 then Refused(UnknownUserMessage)
    else if !matches(password, users[i].password) then Refused(WrongPasswordMessage)
    else LoggedIn(SessionOf(users[i]))
  }

  /** The store invariant: account ids and emails are unique, and so are playlist ids. */
  predicate WellKept(users: seq<Account>, playlists: seq<Playlist>) {
    (forall i, j :: 0 <= i < j < |users| ==> users[i].id != users[j].id && users[i].email != users[j].email)
    && UniqueIds(playlists)
  }

  /** The account a successful registration appends. */
  function NewAccount(id: UserId, username: string, email: string, digest: string): (a: Account)
    ensures a.likedSongs == [] && a.playlists == [] && a.password == digest
  {
    Account(id, username, email, digest, [], [])
  }

  /** Registering and then logging in with the same password (as the hash predicate confirms) succeeds. */
  lemma LoginAfterRegister(users: seq<Account>, a: Account, password: string,
                           matches: (string, string) -> bool)
    requires EmailIndex(users, a.email) == -1
    requires matches(password, a.password)
    ensures Login(users + [a], a.email, password, matches) == LoggedIn(SessionOf(a))
  {
    var all := users + [a];
    assert all[|users|] == a;
    forall j | 0 <= j < |users| ensures all[j].email != a.email {
      assert all[j] == users[j];
    }
    assert EmailIndex(all, a.email) == |users|;
  }

  // ---------------------------------------------------------------------
  // Likes
  // ---------------------------------------------------------------------

  /** `likedSongs.indexOf(id)`. */
  function IndexOf(likes: seq<SongId>, id: SongId): (r: int)
    ensures -1 <= r < |likes|
    ensures r != -1 ==> likes[r] == id
    ensures forall j :: 0 <= j < |likes| && (r == -1 || j < r) ==> likes[j] != id
  {
    FirstIndex(likes, (x: SongId) => x == id)
  }

  /** The like toggle: append an absent id, else splice out its first occurrence. */
  function ToggledLikes(likes: seq<SongId>, id: SongId): (r: seq<SongId>)
    ensures id !in likes ==> r == likes + [id]
    ensures id in likes ==> exists i :: 0 <= i < |likes| && likes[i] == id && id !in likes[..i]
                                        && r == likes[..i] + likes[i + 1..]
  {
    var i := IndexOf(likes, id);
    if i == -1 then likes + [id]
    else
      assert id !in likes[..i] by {
        forall k | 0 <= k < i ensures likes[..i][k] != id { }
      }
      likes[..i] + likes[i + 1..]
  }

  /** Liking a song that was not liked and toggling again gives the original list back. */
  lemma LikeTwiceRestores(likes: seq<SongId>, id: SongId)
    requires id !in likes
    ensures ToggledLikes(ToggledLikes(likes, id), id) == likes
  {
    var once := likes + [id];
    assert once[|likes|] == id;
    forall j | 0 <= j < |likes| ensures once[j] != id {
      assert once[j] == likes[j];
    }
    assert IndexOf(once, id) == |likes|;
    assert once[..|likes|] == likes;
  }

  /** Each toggle changes the count of that id by one and leaves every other id's count alone. */
  lemma LikeToggleCounts(likes: seq<SongId>, id: SongId)
    ensures var r := ToggledLikes(likes, id);
            multiset(r)[id] == (if id in likes then multiset(likes)[id] - 1 else 1)
            && forall x :: x != id ==> multiset(r)[x] == multiset(likes)[x]
  {
    var i := IndexOf(likes, id);
    if i != -1 {
      assert likes == likes[..i] + [id] + likes[i + 1..];
      assert multiset(likes) == multiset(likes[..i]) + multiset{id} + multiset(likes[i + 1..]);
    }
  }

  // ---------------------------------------------------------------------
  // Playlists
  // ---------------------------------------------------------------------

  const DefaultServerCover := "https://images.unsplash.com/photo-1614613535308-eb5fbd3d2c17?w=500&auto=format&fit=crop&q=60"
  const DefaultDescription := "新建歌单"

  /** The fields of a create request; an empty string stands for a missing or empty field. */
  datatype Draft = Draft(name: string, cover: string, description: string, userId: UserId, isPublic: bool)

  /** The playlist document the create route builds from a request. */
  function DraftRecord(d: Draft, id: PlaylistId): (p: Playlist)
    ensures p.id == id && p.name == d.name && p.owner == Some(d.userId)
    ensures p.cover == (if d.cover == "" then DefaultServerCover else d.cover)
    ensures p.description == (if d.description == "" then DefaultDescription else d.description)
    ensures p.isPublic == d.isPublic && p.songs == []
  {
    Playlist(id, d.name,
      if d.cover == "" then DefaultServerCover else d.cover,
      if d.description == "" then DefaultDescription else d.description,
      Some(d.userId), d.isPublic, [])
  }

  /** The visibility rule of the list route: public, or owned by the viewer when one is given. */
  predicate Visible(p: Playlist, viewer: string) {
    p.isPublic || (viewer != "" && p.owner == Some(viewer))
  }

  /** The list route: the visible playlists, in store order. */
  function ListPlaylists(ps: seq<Playlist>, viewer: string): (r: seq<Playlist>)
    ensures |r| <= |ps|
    ensures forall p :: p in r <==> p in ps && Visible(p, viewer)
    ensures Selects(r, ps, (p: Playlist) => Visible(p, viewer))
  {
    FilterSelects(ps, (p: Playlist) => Visible(p, viewer));
    Filter(ps, (p: Playlist) => Visible(p, viewer))
  }

  /** The list of a store with unique ids has unique ids. */
  lemma ListKeepsIdsUnique(ps: seq<Playlist>, viewer: string)
    requires UniqueIds(ps)
    ensures UniqueIds(ListPlaylists(ps, viewer))
  {
    FilterKeepsIdsUnique(ps, (p: Playlist) => Visible(p, viewer));
  }

  /** Without a viewer id the list holds exactly the public playlists. */
  lemma AnonymousSeesPublic(ps: seq<Playlist>)
    ensures forall p :: p in ListPlaylists(ps, "") <==> p in ps && p.isPublic
  {
  }

  /** A viewer sees exactly the public playlists and the ones they own. */
  lemma ViewerSeesOwnAndPublic(ps: seq<Playlist>, viewer: string)
    requires viewer != ""
    ensures forall p :: p in ListPlaylists(ps, viewer) <==> p in ps && (p.isPublic || p.owner == Some(viewer))
  {
  }

  /** The fields of an update request: songs when sent, cover and name when non-empty. */
  datatype Patch = Patch(songs: Option<seq<Song>>, cover: string, name: string)

  /** The update route's changes: only supplied, truthy fields are applied. */
  function Patched(p: Playlist, patch: Patch): (q: Playlist)
    ensures q.id == p.id && q.owner == p.owner && q.isPublic == p.isPublic && q.description == p.description
    ensures q.songs == (if patch.songs.Some? then patch.songs.value else p.songs)
    ensures q.cover == (if patch.cover != "" then patch.cover else p.cover)
    ensures q.name == (if patch.name != "" then patch.name else p.name)
  {
    var withSongs := if patch.songs.Some? then p.(songs := patch.songs.value) else p;
    var withCover := if patch.cover != "" then withSongs.(cover := patch.cover) else withSongs;
    if patch.name != "" then withCover.(name := patch.name) else withCover
  }

  /** A rename never empties a name: an empty name in the request is not applied. */
  lemma PatchKeepsName(p: Playlist, patch: Patch)
    requires p.name != ""
    ensures Patched(p, patch).name != ""
  {
  }

  datatype RegisterOutcome = Registered(user: User) | EmailTaken | RegisterFailed

  datatype CreateOutcome = Created(playlist: Playlist) | MissingUser | Invalid

  /** The store behind the routes. */
  class Store {
    var users: seq<Account>
    var playlists: seq<Playlist>

    predicate Valid()
      reads this
    {
      WellKept(users, playlists)
    }

    constructor()
      ensures users == [] && playlists == [] && Valid()
    {
      users := [];
      playlists := [];
    }

    /**
     * The register route: a taken email is refused and nothing is stored;
     * a missing username or email fails validation (a server error);
     * otherwise the account is stored with the digest and empty lists.
     * `id` is the identifier the database assigns.
     */
    method Register(username: string, email: string, digest: string, id: UserId)
        returns (r: RegisterOutcome)
      requires Valid() && AccountIndex(users, id) == -1
      modifies this
      ensures Valid() && playlists == old(playlists)
      ensures EmailIndex(old(users), email) != -1 ==> r == EmailTaken && users == old(users)
      ensures EmailIndex(old(users), email) == -1 && (username == "" || email == "") ==>
                r == RegisterFailed && users == old(users)
      ensures EmailIndex(old(users), email) == -1 && username != "" && email != "" ==>
                users == old(users) + [NewAccount(id, username, email, digest)]
                && r == Registered(SessionOf(NewAccount(id, username, email, digest)))
    {
      if EmailIndex(users, email) != -1 {
        return EmailTaken;
      }
      if username == "" || email == "" {
        return RegisterFailed;
      }
      var account := NewAccount(id, username, email, digest);
      ghost var before := users;
      users := users + [account];
      forall i, j | 0 <= i < j < |users| ensures users[i].id != users[j].id && users[i].email != users[j].email {
        if j == |before| {
          assert users[i] == before[i];
        } else {
          assert users[i] == before[i] && users[j] == before[j];
        }
      }
      r := Registered(SessionOf(account));
    }

    /**
     * The like route: 404 for an unknown user; otherwise the song id is
     * toggled in that user's list and the new state is reported.
     */
    method ToggleLike(userId: UserId, songId: SongId) returns (status: nat, isLiked: bool, likes: seq<SongId>)
      requires Valid()
      modifies this
      ensures Valid() && playlists == old(playlists)
      ensures AccountIndex(old(users), userId) == -1 ==> status == 404 && users == old(users)
      ensures AccountIndex(old(users), userId) != -1 ==>
                var i := AccountIndex(old(users), userId);
                var before := old(users)[i].likedSongs;
                status == 200 && likes == ToggledLikes(before, songId)
                && isLiked == (songId !in before)
                && users == old(users)[i := old(users)[i].(likedSongs := likes)]
    {
      var i := AccountIndex(users, userId);
      if i == -1 {
        return 404, false, [];
      }
      var account := users[i];
      isLiked := IndexOf(account.likedSongs, songId) == -1;
      likes := ToggledLikes(account.likedSongs, songId);
      users := users[i := account.(likedSongs := likes)];
      status := 200;
    }

    /**
     * The create route: no user id is a 400 and nothing is stored; an
     * empty name fails validation (also a 400); otherwise the new
     * playlist, with its defaults and no songs, is appended.
     */
    method CreatePlaylist(d: Draft, id: PlaylistId) returns (r: CreateOutcome)
      requires Valid() && PlaylistIndex(playlists, id) == -1
      modifies this
      ensures Valid() && users == old(users)
      ensures d.userId == "" ==> r == MissingUser && playlists == old(playlists)
      ensures d.userId != "" && d.name == "" ==> r == Invalid && playlists == old(playlists)
      ensures d.userId != "" && d.name != "" ==>
                r == Created(DraftRecord(d, id)) && playlists == old(playlists) + [DraftRecord(d, id)]
    {
      if d.userId == "" {
        return MissingUser;
      }
      if d.name == "" {
        return Invalid;
      }
      var p := DraftRecord(d, id);
      ghost var before := playlists;
      playlists := playlists + [p];
      forall i, j | 0 <= i < j < |playlists| ensures playlists[i].id != playlists[j].id {
        if j == |before| {
          assert playlists[i] == before[i];
        } else {
          assert playlists[i] == before[i] && playlists[j] == before[j];
        }
      }
      r := Created(p);
    }

    /**
     * The update route: 404 for an unknown playlist; otherwise the patch
     * is applied to it. The requester is not compared with the owner.
     */
    method UpdatePlaylist(id: PlaylistId, patch: Patch, requester: Option<UserId>)
        returns (status: nat, updated: Option<Playlist>)
      requires Valid()
      modifies this
      ensures Valid() && users == old(users)
      ensures PlaylistIndex(old(playlists), id) == -1 ==>
                status == 404 && updated.None? && playlists == old(playlists)
      ensures PlaylistIndex(old(playlists), id) != -1 ==>
                var i := PlaylistIndex(old(playlists), id);
                status == 200 && updated == Some(Patched(old(playlists)[i], patch))
                && playlists == old(playlists)[i := Patched(old(playlists)[i], patch)]
    {
      var i := PlaylistIndex(playlists, id);
      if i == -1 {
        return 404, None;
      }
      var p := Patched(playlists[i], patch);
      playlists := playlists[i := p];
      status, updated := 200, Some(p);
    }

    /**
     * The delete route: 404 for an unknown playlist, 403 when the stored
     * owner differs from the requester (both may be absent), otherwise
     * exactly that playlist is removed.
     */
    method DeletePlaylist(id: PlaylistId, requester: Option<UserId>) returns (status: nat)
      requires Valid()
      modifies this
      ensures Valid() && users == old(users)
      ensures PlaylistIndex(old(playlists), id) == -1 ==> status == 404 && playlists == old(playlists)
      ensures PlaylistIndex(old(playlists), id) != -1 &&
              old(playlists)[PlaylistIndex(old(playlists), id)].owner != requester ==>
                status == 403 && playlists == old(playlists)
      ensures PlaylistIndex(old(playlists), id) != -1 &&
              old(playlists)[PlaylistIndex(old(playlists), id)].owner == requester ==>
                var i := PlaylistIndex(old(playlists), id);
                status == 200 && playlists == old(playlists)[..i] + old(playlists)[i + 1..]
      ensures status == 200 ==> forall p :: p in playlists <==> p in old(playlists) && p.id != id
    {
      var i := PlaylistIndex(playlists, id);
      if i == -1 {
        return 404;
      }
      if playlists[i].owner != requester {
        return 403;
      }
      RemovedIsGone(playlists, i);
      playlists := playlists[..i] + playlists[i + 1..];
      status := 200;
    }
  }

  /**
   * Removing one playlist from a list with unique ids leaves no playlist
   * with that id, keeps every other one, and keeps the ids unique.
   */
  lemma RemovedIsGone(ps: seq<Playlist>, i: nat)
    requires i < |ps| && UniqueIds(ps)
    ensures forall p :: p in ps[..i] + ps[i + 1..] <==> p in ps && p.id != ps[i].id
    ensures UniqueIds(ps[..i] + ps[i + 1..])
  {
    var r := ps[..i] + ps[i + 1..];
    forall a, b | 0 <= a < b < |r| ensures r[a].id != r[b].id {
      var a', b' := if a < i then a else a + 1, if b < i then b else b + 1;
      assert r[a] == ps[a'] && r[b] == ps[b'];
    }
    forall p | p in ps && p.id != ps[i].id ensures p in r {
      var k :| 0 <= k < |ps| && ps[k] == p;
      if k < i {
        assert r[k] == p;
      } else {
        assert r[k - 1] == p;
      }
    }
    forall p | p in r ensures p in ps && p.id != ps[i].id {
      var k :| 0 <= k < |r| && r[k] == p;
      if k < i {
        assert ps[k] == p;
      } else {
        assert ps[k + 1] == p;
      }
    }
  }
}
