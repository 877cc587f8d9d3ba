/**
 * The player provider: the client state every page reads and the
 * handlers that change it. Each handler is a method on the provider
 * object whose contract gives the whole new state, through the
 * `Snapshot` function, in terms of the old state and the outcomes of
 * the outside world (the media element starting, the server's reply),
 * which are parameters. The last message shown is `toast`.
 */
module Provider {
  import opened Records
  import opened Queue
  import opened Library
  import Lrc
  import Server

  /** A toast: its text and whether it is shown as an error. */
  datatype Notice = Notice(message: string, isError: bool)

  /** What a request came back with; a failure's message is "" when the server sent none. */
  datatype Reply<T> = Delivered(value: T) | Failed(message: string)

  /** Whether a request that returns nothing of use succeeded. */
  datatype Sync = Synced | Unsynced(message: string)

  const HomeTab := "home"

  const SignInFirst := "请先登录以使用此功能"
  const ConnectionFailed := "服务器连接失败"
  const RegisterRefusedMessage := "注册失败"
  const SignedOut := "已安全退出登录"
  const Unliked := "已取消喜欢"
  const LikedNotice := "已添加到喜欢的歌曲"
  const LikeNotSaved := "网络错误，操作未保存"
  const NoCurrentUser := "创建失败：无法获取当前用户信息"
  const ClientDefaultCover := "https://i.ibb.co/6cGhCCj6/Meteor-1-MIFEN.jpg"
  const PublicDescription := "公共歌单"
  const PrivateDescription := "新建歌单"
  const CreateFailed := "创建失败，请检查网络"
  const Deleted := "✨ 歌单已成功删除！"
  const DeleteFailed := "删除失败，请稍后再试"
  const NoCoverRight := "你没有权限修改此歌单封面"
  const NoNameRight := "你没有权限修改此歌单名称"
  const CoverUpdated := "封面更新成功"
  const NameUpdated := "名称修改成功"
  const UpdateNotSynced := "同步失败，请检查网络"
  const OnlyOwnPlaylists := "你只能修改自己的歌单"
  const AlreadyInPlaylist := "歌曲已存在于该歌单"
  const AddedToPlaylist := "已添加到歌单"
  const AddNotSynced := "同步失败"

  /** The words the repeat toast uses for a mode. */
  function ModeLabel(m: RepeatMode): string {
    match m
    case Off => "关闭"
    case All => "列表循环"
    case One => "单曲循环"
  }

  /** The repeat toast, worked out from the mode before the toggle; it names the mode switched to. */
  function RepeatNotice(previous: RepeatMode): (message: string)
    ensures message == "循环模式: " + ModeLabel(NextRepeat(previous))
  {
    "循环模式: " + match previous
      case Off => "列表循环"
      case All => "单曲循环"
      case One => "关闭"
  }

  /** `new Set(list)`. */
  function AsSet(list: seq<SongId>): (r: set<SongId>)
    ensures forall x :: x in r <==> x in list
  {
    set x | x in list
  }

  /** The toast of a follow toggle, worked out before the set changes. */
  function FollowNotice(followed: set<string>, name: string): (message: string)
    ensures name in followed ==> message == "已取消关注 " + name
    ensures name !in followed ==> message == "已关注 " + name
  {
    if name in followed then "已取消关注 " + name else "已关注 " + name
  }

  /** The body of the create request the client sends. */
  function CreateRequest(name: string, coverUrl: string, isPublic: bool, userId: UserId): (d: Server.Draft)
    ensures d.name == name && d.userId == userId && d.isPublic == isPublic
    ensures d.cover != "" && (coverUrl != "" ==> d.cover == coverUrl)
    ensures d.description == (if isPublic then PublicDescription else PrivateDescription)
  {
    Server.Draft(name, if coverUrl != "" then coverUrl else ClientDefaultCover,
                 if isPublic then PublicDescription else PrivateDescription, userId, isPublic)
  }

  /**
   * What the server stores for a client's create request: the client's
   * cover (or its own default) and description, never the server's
   * defaults, owned by the signed-in user, with no songs.
   */
  lemma CreatedFromClient(name: string, coverUrl: string, isPublic: bool, userId: UserId, id: PlaylistId)
    ensures var p := Server.DraftRecord(CreateRequest(name, coverUrl, isPublic, userId), id);
            p.cover == (if coverUrl != "" then coverUrl else ClientDefaultCover)
            && p.description == (if isPublic then PublicDescription else PrivateDescription)
            && p.owner == Some(userId) && p.name == name && p.isPublic == isPublic && p.songs == []
  {
  }

  /** The prefix of the register route's message when saving the account fails. */
  const ServerErrorPrefix := "服务器错误: "

  /**
   * What the client's register request receives for a route outcome: a
   * new account or a taken email comes back as a 200 body, while a failed
   * save is a 500, which axios throws, carrying the server's message with
   * the error's `detail`.
   */
  function RegisterReply(o: Server.RegisterOutcome, detail: string): (r: Reply<Server.RegisterOutcome>)
    ensures r.Delivered? <==> !o.RegisterFailed?
    ensures r.Delivered? ==> r.value == o
    ensures r.Failed? ==> r.message == ServerErrorPrefix + detail && r.message != ""
  {
    if o.RegisterFailed? then Failed(ServerErrorPrefix + detail) else Delivered(o)
  }

  /** The ownership guard of rename and re-cover: refused only when the playlist is listed and owned by someone else. */
  predicate NotOwned(ps: seq<Playlist>, id: PlaylistId, viewer: Option<UserId>) {
    FindPlaylist(ps, id).Some? && FindPlaylist(ps, id).value.owner != viewer
  }

  /** The open playlist after an in-place edit: edited too when it is the one with that id. */
  function Retargeted(open: Option<Playlist>, id: PlaylistId, e: Edit): (r: Option<Playlist>)
    ensures open.None? ==> r.None?
    ensures open.Some? && open.value.id == id ==> r == Some(Edited(open.value, e))
    ensures open.Some? && open.value.id != id ==> r == open
  {
    if open.Some? && open.value.id == id then Some(Edited(open.value, e)) else open
  }

  /** The provider state as one value. */
  datatype State = State(
    allSongs: seq<Song>,
    playlists: seq<Playlist>,
    playback: Playback,
    activeTab: string,
    showCreateModal: bool,
    showAuthModal: bool,
    addDialog: Option<Song>,
    currentPlaylist: Option<Playlist>,
    user: Option<User>,
    likedSongs: set<SongId>,
    followedArtists: set<string>,
    toast: Option<Notice>)

  class PlayerProvider {
    var allSongs: seq<Song>
    var playlists: seq<Playlist>
    var currentSong: Option<Song>
    var isPlaying: bool
    var progress: int
    var queue: seq<Song>
    var repeatMode: RepeatMode
    var activeTab: string
    var showCreateModal: bool
    var showAuthModal: bool
    /** The add-to-playlist dialog: open on a song, or closed. */
    var addDialog: Option<Song>
    var currentPlaylist: Option<Playlist>
    var user: Option<User>
    var likedSongs: set<SongId>
    var followedArtists: set<string>
    var toast: Option<Notice>

    function PlaybackState(): Playback
      reads this
    {
      Playback(currentSong, queue, repeatMode, isPlaying, progress)
    }

    function Snapshot(): State
      reads this
    {
      State(allSongs, playlists, PlaybackState(), activeTab, showCreateModal, showAuthModal,
            addDialog, currentPlaylist, user, likedSongs, followedArtists, toast)
    }

    /** Listed playlists have distinct ids, and nobody signed out has liked songs. */
    predicate Valid()
      reads this
    {
      UniqueIds(playlists) && (user.None? ==> likedSongs == {})
    }

    /** `user?.id || user?._id`: the signed-in user's id, when there is one. */
    function ViewerId(): (r: Option<UserId>)
      reads this
      ensures r.Some? <==> user.Some? && user.value.id != ""
      ensures r.Some? ==> r.value == user.value.id
    {
      if user.Some? && user.value.id != "" then Some(user.value.id) else None
    }

    /** The state the provider starts in: nothing loaded, nobody signed in. */
    constructor()
      ensures Valid()
      ensures Snapshot() == State([], [], Playback(None, [], Off, false, 0), HomeTab, false, false,
                                  None, None, None, {}, {}, None)
    {
      allSongs, playlists := [], [];
      currentSong, isPlaying, progress, queue, repeatMode := None, false, 0, [], Off;
      activeTab, showCreateModal, showAuthModal := HomeTab, false, false;
      addDialog, currentPlaylist, user := None, None, None;
      likedSongs, followedArtists, toast := {}, {}, None;
    }

    /** `showToast`: the message shown next (its timed dismissal is not modelled). */
    method ShowToast(message: string, isError: bool)
      modifies this
      ensures Snapshot() == old(Snapshot()).(toast := Some(Notice(message, isError)))
    {
      toast := Some(Notice(message, isError));
    }

    method SetTrack(current: Option<Song>, playing: bool, position: int)
      modifies this
      ensures Snapshot() == old(Snapshot()).(playback := old(PlaybackState()).(current := current,
                                             playing := playing, position := position))
    {
      currentSong, isPlaying, progress := current, playing, position;
    }

    method SetQueue(q: seq<Song>, mode: RepeatMode)
      modifies this
      ensures Snapshot() == old(Snapshot()).(playback := old(PlaybackState()).(queue := q, mode := mode))
    {
      queue, repeatMode := q, mode;
    }

    method SetPlayback(p: Playback)
      modifies this
      ensures Snapshot() == old(Snapshot()).(playback := p)
    {
      SetQueue(p.queue, p.mode);
      SetTrack(p.current, p.playing, p.position);
    }

    /** The page change of logout and of deleting the open playlist. */
    method GoHome()
      modifies this
      ensures Snapshot() == old(Snapshot()).(activeTab := HomeTab, currentPlaylist := None)
    {
      activeTab, currentPlaylist := HomeTab, None;
    }

    /** `checkAuth`: signed out, the sign-in dialog opens with an error toast and the caller stops. */
    method CheckAuth() returns (ok: bool)
      requires Valid()
      modifies this
      ensures Valid()
      ensures ok <==> old(user).Some?
      ensures ok ==> Snapshot() == old(Snapshot())
      ensures !ok ==> Snapshot() == old(Snapshot()).(showAuthModal := true, toast := Some(Notice(SignInFirst, true)))
    {
      if user.None? {
        showAuthModal := true;
        ShowToast(SignInFirst, true);
        return false;
      }
      return true;
    }

    // -------------------------------------------------------------------
    // Loading
    // -------------------------------------------------------------------

    /**
     * The catalogue load at start-up: the songs become the catalogue and
     * the queue, and the first one is loaded (the check for a loaded
     * track sees the state of the first render, where there is none).
     */
    method LoadCatalogue(reply: Reply<seq<Song>>)
      requires Valid()
      modifies this
      ensures Valid()
      ensures reply.Failed? ==> Snapshot() == old(Snapshot())
      ensures reply.Delivered? ==>
                var songs := reply.value;
                Snapshot() == old(Snapshot()).(allSongs := songs,
                  playback := old(PlaybackState()).(queue := songs,
                    current := if |songs| > 0 then Some(songs[0]) else old(currentSong)))
    {
      if reply.Delivered? {
        var songs := reply.value;
        allSongs := songs;
        queue := songs;
        if |songs| > 0 {
          currentSong := Some(songs[0]);
        }
      }
    }

    /**
     * The playlist load run whenever the signed-in user changes: the list
     * route's answer for the viewer's id (none when signed out).
     * `stored` is the server's collection, whose ids are unique.
     */
    method LoadPlaylists(stored: seq<Playlist>, reachable: bool)
      requires Valid() && UniqueIds(stored)
      modifies this
      ensures Valid()
      ensures !reachable ==> Snapshot() == old(Snapshot())
      ensures reachable ==>
                var viewer := if old(ViewerId()).Some? then old(ViewerId()).value else "";
                Snapshot() == old(Snapshot()).(playlists := Server.ListPlaylists(stored, viewer))
    {
      if reachable {
        var viewer := if ViewerId().Some? then ViewerId().value else "";
        Server.ListKeepsIdsUnique(stored, viewer);
        playlists := Server.ListPlaylists(stored, viewer);
      }
    }

    // -------------------------------------------------------------------
    // Session
    // -------------------------------------------------------------------

    /** The session kept in local storage at start-up (None: nothing stored, or unreadable). */
    method RestoreSession(stored: Option<User>)
      requires Valid()
      modifies this
      ensures Valid()
      ensures stored.None? ==> Snapshot() == old(Snapshot())
      ensures stored.Some? ==>
                Snapshot() == old(Snapshot()).(user := stored, likedSongs := AsSet(stored.value.likedSongs))
    {
      if stored.Some? {
        user := stored;
        likedSongs := AsSet(stored.value.likedSongs);
      }
    }

    /**
     * `login`: a session reply signs the user in with their liked songs;
     * a refusal passes the server's message on; a failed request reports
     * the connection.
     */
    method Login(reply: Reply<Server.LoginOutcome>) returns (ok: bool, message: string)
      requires Valid()
      modifies this
      ensures Valid()
      ensures ok <==> reply.Delivered? && reply.value.LoggedIn?
      ensures ok ==> Snapshot() == old(Snapshot()).(user := Some(reply.value.user),
                                                   likedSongs := AsSet(reply.value.user.likedSongs))
      ensures !ok ==> Snapshot() == old(Snapshot())
      ensures reply.Delivered? && reply.value.Refused? ==> message == reply.value.message
      ensures reply.Failed? ==> message == ConnectionFailed
    {
      match reply
      case Failed(_) =>
        return false, ConnectionFailed;
      case Delivered(Refused(m)) =>
        return false, m;
      case Delivered(LoggedIn(u)) =>
        user := Some(u);
        likedSongs := AsSet(u.likedSongs);
        return true, "";
    }

    /**
     * `register`: a new account signs in with no liked songs; a refusal
     * (a taken email) shows the generic message, not the server's; a
     * failed request shows the server's message when it sent one.
     */
    method Register(reply: Reply<Server.RegisterOutcome>) returns (ok: bool, message: string)
      requires Valid()
      modifies this
      ensures Valid()
      ensures ok <==> reply.Delivered? && reply.value.Registered?
      ensures ok ==> Snapshot() == old(Snapshot()).(user := Some(reply.value.user), likedSongs := {})
      ensures !ok ==> Snapshot() == old(Snapshot())
      ensures reply.Delivered? && !reply.value.Registered? ==> message == RegisterRefusedMessage
      ensures reply.Failed? ==> message == (if reply.message != "" then reply.message else RegisterRefusedMessage)
    {
      match reply
      case Failed(m) =>
        return false, if m != "" then m else RegisterRefusedMessage;
      case Delivered(Registered(u)) =>
        user := Some(u);
        likedSongs := {};
        return true, "";
      case Delivered(_) =>
        return false, RegisterRefusedMessage;
    }

    /**
     * `logout`: the session, its likes and the listed playlists are
     * dropped and the home page is shown; followed artists are kept.
     */
    method Logout()
      requires Valid()
      modifies this
      ensures Valid()
      ensures Snapshot() == old(Snapshot()).(user := None, likedSongs := {}, playlists := [],
                activeTab := HomeTab, currentPlaylist := None, toast := Some(Notice(SignedOut, false)))
    {
      user, likedSongs, playlists := None, {}, [];
      GoHome();
      ShowToast(SignedOut, false);
    }

    // -------------------------------------------------------------------
    // Playback
    // -------------------------------------------------------------------

    /** `playSong(song, newQueue)`; `playOk` says whether the media element starts. */
    method PlaySong(song: Song, newQueue: Option<seq<Song>>, playOk: bool)
      requires Valid()
      modifies this
      ensures Valid()
      ensures Snapshot() == old(Snapshot()).(playback := PlayTrack(old(PlaybackState()), song, newQueue, playOk))
    {
      SetPlayback(PlayTrack(PlaybackState(), song, newQueue, playOk));
    }

    /** `togglePlay`. */
    method TogglePlay(playOk: bool)
      requires Valid()
      modifies this
      ensures Valid()
      ensures Snapshot() == old(Snapshot()).(playback := TogglePlaying(old(PlaybackState()), playOk))
    {
      SetPlayback(TogglePlaying(PlaybackState(), playOk));
    }

    /** `toggleRepeat`: the next mode, announced by name. */
    method ToggleRepeat()
      requires Valid()
      modifies this
      ensures Valid()
      ensures repeatMode == NextRepeat(old(repeatMode))
      ensures Snapshot() == old(Snapshot()).(playback := old(PlaybackState()).(mode := repeatMode),
                                             toast := Some(Notice("循环模式: " + ModeLabel(repeatMode), false)))
    {
      var message := RepeatNotice(repeatMode);
      repeatMode := NextRepeat(repeatMode);
      toast := Some(Notice(message, false));
    }

    /** `nextSong(isAuto)`. */
    method NextSong(isAuto: bool, playOk: bool)
      requires Valid()
      modifies this
      ensures Valid()
      ensures Snapshot() == old(Snapshot()).(playback := Next(old(PlaybackState()), isAuto, playOk))
    {
      SetPlayback(Next(PlaybackState(), isAuto, playOk));
    }

    /** `prevSong()`. */
    method PrevSong(playOk: bool)
      requires Valid()
      modifies this
      ensures Valid()
      ensures Snapshot() == old(Snapshot()).(playback := Prev(old(PlaybackState()), playOk))
    {
      SetPlayback(Prev(PlaybackState(), playOk));
    }

    // -------------------------------------------------------------------
    // Likes and follows
    // -------------------------------------------------------------------

    /**
     * `toggleLike`: signed in, the song's like flips at once; when the
     * server call fails the flip is undone, so the set is what it was.
     */
    method ToggleLike(songId: SongId, remoteOk: bool)
      requires Valid()
      modifies this
      ensures Valid()
      ensures old(user).None? ==>
                Snapshot() == old(Snapshot()).(showAuthModal := true, toast := Some(Notice(SignInFirst, true)))
      ensures old(user).Some? && remoteOk ==>
                Snapshot() == old(Snapshot()).(likedSongs := Toggled(old(likedSongs), songId),
                  toast := Some(Notice(if songId in old(likedSongs) then Unliked else LikedNotice, false)))
      ensures old(user).Some? && !remoteOk ==>
                Snapshot() == old(Snapshot()).(toast := Some(Notice(LikeNotSaved, true)))
    {
      var ok := CheckAuth();
      if !ok {
        return;
      }
      var likedBefore := songId in likedSongs;
      likedSongs := Toggled(likedSongs, songId);
      toast := Some(Notice(if likedBefore then Unliked else LikedNotice, false));
      if !remoteOk {
        toast := Some(Notice(LikeNotSaved, true));
        likedSongs := if likedBefore then likedSongs + {songId} else likedSongs - {songId};
        assert likedSongs == old(likedSongs);
      }
    }

    /** `toggleFollowArtist`: signed in, the artist's follow flips and the toast says which way. */
    method ToggleFollowArtist(name: string)
      requires Valid()
      modifies this
      ensures Valid()
      ensures old(user).None? ==>
                Snapshot() == old(Snapshot()).(showAuthModal := true, toast := Some(Notice(SignInFirst, true)))
      ensures old(user).Some? ==>
                Snapshot() == old(Snapshot()).(followedArtists := Toggled(old(followedArtists), name),
                  toast := Some(Notice(FollowNotice(old(followedArtists), name), false)))
    {
      var ok := CheckAuth();
      if ok {
        toast := Some(Notice(FollowNotice(followedArtists, name), false));
        followedArtists := Toggled(followedArtists, name);
      }
    }

    // -------------------------------------------------------------------
    // Playlists
    // -------------------------------------------------------------------

    /**
     * `createPlaylist`: signed in with an id, the request of
     * `CreateRequest` is sent; the created playlist is listed unless its
     * id already is, and the create dialog closes.
     */
    method CreatePlaylist(name: string, coverUrl: string, isPublic: bool, reply: Reply<Playlist>)
      requires Valid()
      modifies this
      ensures Valid()
      ensures old(user).None? ==>
                Snapshot() == old(Snapshot()).(showAuthModal := true, toast := Some(Notice(SignInFirst, true)))
      ensures old(user).Some? && old(ViewerId()).None? ==>
                Snapshot() == old(Snapshot()).(toast := Some(Notice(NoCurrentUser, true)))
      ensures old(ViewerId()).Some? && reply.Delivered? ==>
                Snapshot() == old(Snapshot()).(playlists := WithNew(old(playlists), reply.value),
                  showCreateModal := false,
                  toast := Some(Notice("歌单 \"" + name + "\" 创建成功！", false)))
      ensures old(ViewerId()).Some? && reply.Failed? ==>
                Snapshot() == old(Snapshot()).(
                  toast := Some(Notice(if reply.message != "" then reply.message else CreateFailed, true)))
    {
      var ok := CheckAuth();
      if !ok {
        return;
      }
      if ViewerId().None? {
        toast := Some(Notice(NoCurrentUser, true));
        return;
      }
      match reply
      case Delivered(p) =>
        ListCreated(p, name);
      case Failed(m) =>
        ShowToast(if m != "" then m else CreateFailed, true);
    }

    /** The success path of `createPlaylist`. */
    method ListCreated(p: Playlist, name: string)
      requires Valid()
      modifies this
      ensures Valid()
      ensures Snapshot() == old(Snapshot()).(playlists := WithNew(old(playlists), p), showCreateModal := false,
                toast := Some(Notice("歌单 \"" + name + "\" 创建成功！", false)))
    {
      WithNewKeepsIdsUnique(playlists, p);
      playlists := WithNew(playlists, p);
      ShowToast("歌单 \"" + name + "\" 创建成功！", false);
      showCreateModal := false;
    }

    /**
     * `deletePlaylist`: once confirmed, a successful request drops the
     * playlist from the list and, when it is the open one, closes it and
     * goes home. There is no sign-in check.
     */
    method DeletePlaylist(id: PlaylistId, confirmed: bool, reply: Sync)
      requires Valid()
      modifies this
      ensures Valid()
      ensures !confirmed ==> Snapshot() == old(Snapshot())
      ensures confirmed && reply.Synced? ==>
                var closing := old(currentPlaylist).Some? && old(currentPlaylist).value.id == id;
                Snapshot() == old(Snapshot()).(playlists := WithoutPlaylist(old(playlists), id),
                  activeTab := if closing then HomeTab else old(activeTab),
                  currentPlaylist := if closing then None else old(currentPlaylist),
                  toast := Some(Notice(Deleted, false)))
      ensures confirmed && reply.Unsynced? ==>
                Snapshot() == old(Snapshot()).(
                  toast := Some(Notice(if reply.message != "" then reply.message else DeleteFailed, true)))
    {
      if !confirmed {
        return;
      }
      match reply
      case Synced =>
        WithoutKeepsIdsUnique(playlists, id);
        playlists := WithoutPlaylist(playlists, id);
        if currentPlaylist.Some? && currentPlaylist.value.id == id {
          GoHome();
        }
        ShowToast(Deleted, false);
      case Unsynced(m) =>
        ShowToast(if m != "" then m else DeleteFailed, true);
    }

    /**
     * The shared shape of re-cover and rename: refused when the listed
     * playlist belongs to someone else; otherwise the edit is applied to
     * every listed playlist with that id and to the open one, and the
     * toast reports the server call. A failed call is not undone.
     */
    method EditOwned(id: PlaylistId, e: Edit, denied: string, done: string, remoteOk: bool)
      requires Valid() && user.Some?
      modifies this
      ensures Valid()
      ensures NotOwned(old(playlists), id, old(ViewerId())) ==>
                Snapshot() == old(Snapshot()).(toast := Some(Notice(denied, true)))
      ensures !NotOwned(old(playlists), id, old(ViewerId())) ==>
                Snapshot() == old(Snapshot()).(playlists := EditAll(old(playlists), id, e),
                  currentPlaylist := Retargeted(old(currentPlaylist), id, e),
                  toast := Some(Notice(if remoteOk then done else UpdateNotSynced, !remoteOk)))
    {
      if NotOwned(playlists, id, ViewerId()) {
        ShowToast(denied, true);
        return;
      }
      EditKeepsIdsUnique(playlists, id, e);
      playlists := EditAll(playlists, id, e);
      currentPlaylist := Retargeted(currentPlaylist, id, e);
      ShowToast(if remoteOk then done else UpdateNotSynced, !remoteOk);
    }

    /** `updatePlaylistCover`: an empty cover is ignored. */
    method UpdatePlaylistCover(id: PlaylistId, cover: string, remoteOk: bool)
      requires Valid()
      modifies this
      ensures Valid()
      ensures old(user).None? ==>
                Snapshot() == old(Snapshot()).(showAuthModal := true, toast := Some(Notice(SignInFirst, true)))
      ensures old(user).Some? && cover == "" ==> Snapshot() == old(Snapshot())
      ensures old(user).Some? && cover != "" && NotOwned(old(playlists), id, old(ViewerId())) ==>
                Snapshot() == old(Snapshot()).(toast := Some(Notice(NoCoverRight, true)))
      ensures old(user).Some? && cover != "" && !NotOwned(old(playlists), id, old(ViewerId())) ==>
                Snapshot() == old(Snapshot()).(playlists := EditAll(old(playlists), id, Recover(cover)),
                  currentPlaylist := Retargeted(old(currentPlaylist), id, Recover(cover)),
                  toast := Some(Notice(if remoteOk then CoverUpdated else UpdateNotSynced, !remoteOk)))
    {
      var ok := CheckAuth();
      if !ok || cover == "" {
        return;
      }
      EditOwned(id, Recover(cover), NoCoverRight, CoverUpdated, remoteOk);
    }

    /** `updatePlaylistName`: a blank name is ignored; a name with spaces around it is stored as typed. */
    method UpdatePlaylistName(id: PlaylistId, name: string, remoteOk: bool)
      requires Valid()
      modifies this
      ensures Valid()
      ensures old(user).None? ==>
                Snapshot() == old(Snapshot()).(showAuthModal := true, toast := Some(Notice(SignInFirst, true)))
      ensures old(user).Some? && Lrc.Trim(name) == "" ==> Snapshot() == old(Snapshot())
      ensures old(user).Some? && Lrc.Trim(name) != "" && NotOwned(old(playlists), id, old(ViewerId())) ==>
                Snapshot() == old(Snapshot()).(toast := Some(Notice(NoNameRight, true)))
      ensures old(user).Some? && Lrc.Trim(name) != "" && !NotOwned(old(playlists), id, old(ViewerId())) ==>
                Snapshot() == old(Snapshot()).(playlists := EditAll(old(playlists), id, Rename(name)),
                  currentPlaylist := Retargeted(old(currentPlaylist), id, Rename(name)),
                  toast := Some(Notice(if remoteOk then NameUpdated else UpdateNotSynced, !remoteOk)))
    {
      var ok := CheckAuth();
      if !ok || Lrc.Trim(name) == "" {
        return;
      }
      EditOwned(id, Rename(name), NoNameRight, NameUpdated, remoteOk);
    }

    /**
     * `addSongToPlaylist`: the checks of `AddSongPlan` in order; an
     * unknown playlist is ignored without a message. On success the
     * listed playlist gets the new songs and cover and the dialog closes;
     * the open playlist is left as it was.
     */
    method AddSongToPlaylist(id: PlaylistId, song: Song, remoteOk: bool)
      requires Valid()
      modifies this
      ensures Valid()
      ensures old(user).None? ==>
                Snapshot() == old(Snapshot()).(showAuthModal := true, toast := Some(Notice(SignInFirst, true)))
      ensures old(user).Some? ==>
                match AddSongPlan(old(playlists), id, song, old(ViewerId()))
                case Refused(NoSuchPlaylist) => Snapshot() == old(Snapshot())
                case Refused(NotOwner) => Snapshot() == old(Snapshot()).(toast := Some(Notice(OnlyOwnPlaylists, true)))
                case Refused(AlreadyThere) => Snapshot() == old(Snapshot()).(toast := Some(Notice(AlreadyInPlaylist, true)))
                case Append(songs, cover) =>
                  Snapshot() == old(Snapshot()).(playlists := EditAll(old(playlists), id, Extend(songs, cover)),
                    addDialog := None,
                    toast := Some(Notice(if remoteOk then AddedToPlaylist else AddNotSynced, !remoteOk)))
    {
      var ok := CheckAuth();
      if !ok {
        return;
      }
      match AddSongPlan(playlists, id, song, ViewerId())
      case Refused(NoSuchPlaylist) =>
      case Refused(NotOwner) =>
        ShowToast(OnlyOwnPlaylists, true);
      case Refused(AlreadyThere) =>
        ShowToast(AlreadyInPlaylist, true);
      case Append(songs, cover) =>
        AppendToPlaylist(id, songs, cover, remoteOk);
    }

    /** The accepted path of `addSongToPlaylist`: the list is updated, the dialog closes, the toast reports the server call. */
    method AppendToPlaylist(id: PlaylistId, songs: seq<Song>, cover: string, remoteOk: bool)
      requires Valid()
      modifies this
      ensures Valid()
      ensures Snapshot() == old(Snapshot()).(playlists := EditAll(old(playlists), id, Extend(songs, cover)),
                addDialog := None,
                toast := Some(Notice(if remoteOk then AddedToPlaylist else AddNotSynced, !remoteOk)))
    {
      EditKeepsIdsUnique(playlists, id, Extend(songs, cover));
      playlists := EditAll(playlists, id, Extend(songs, cover));
      CloseAddDialog();
      ShowToast(if remoteOk then AddedToPlaylist else AddNotSynced, !remoteOk);
    }

    /** `openAddToPlaylistModal`: signed in, the dialog opens on the song. */
    method OpenAddDialog(song: Song)
      requires Valid()
      modifies this
      ensures Valid()
      ensures old(user).None? ==>
                Snapshot() == old(Snapshot()).(showAuthModal := true, toast := Some(Notice(SignInFirst, true)))
      ensures old(user).Some? ==> Snapshot() == old(Snapshot()).(addDialog := Some(song))
    {
      var ok := CheckAuth();
      if ok {
        addDialog := Some(song);
      }
    }

    /** `closeAddToPlaylistModal`. */
    method CloseAddDialog()
      requires Valid()
      modifies this
      ensures Valid()
      ensures Snapshot() == old(Snapshot()).(addDialog := None)
    {
      addDialog := None;
    }
  }
}
