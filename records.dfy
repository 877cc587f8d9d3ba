/**
 * The records shared by the player client and the REST backend (songs,
 * playlists and the signed-in user, with one canonical identifier each),
 * and the list operations both sides use on them.
 */
module Records {

  datatype Option<+T> = None | Some(value: T)

  type SongId = string
  type PlaylistId = string
  type UserId = string

  /** A track of the catalogue, as far as the playback and library logic looks at it. */
  datatype Song = Song(id: SongId, title: string, artist: string, cover: string)

  /**
   * A playlist record. `owner` is the stored `userId` field, which may be
   * absent (None); comparisons against a missing viewer id then behave as
   * `undefined === undefined` does.
   */
  datatype Playlist = Playlist(
    id: PlaylistId,
    name: string,
    cover: string,
    description: string,
    owner: Option<UserId>,
    isPublic: bool,
    songs: seq<Song>)

  /** The session user the client holds after login or registration. */
  datatype User = User(id: UserId, username: string, email: string, likedSongs: seq<SongId>)

  /** `Array.prototype.findIndex`: the first position whose element passes `test`, or -1. */
  function FirstIndex<T>(s: seq<T>, test: T -> bool): (r: int)
    ensures -1 <= r < |s|
    ensures r != -1 ==> test(s[r])
    ensures forall j :: 0 <= j < |s| && (r == -1 || j < r) ==> !test(s[j])
  {
    if s == [] then -1
    else if test(s[0]) then 0
    else
      var k := FirstIndex(s[1..], test);
      if k == -1 then -1 else k + 1
  }

  /** `playlists.findIndex(pl => pl.id === id)`: the first position with that id, or -1. */
  function PlaylistIndex(ps: seq<Playlist>, id: PlaylistId): (r: int)
    ensures -1 <= r < |ps|
    ensures r != -1 ==> ps[r].id == id
    ensures forall j :: 0 <= j < |ps| && (r == -1 || j < r) ==> ps[j].id != id
  {
    FirstIndex(ps, (p: Playlist) => p.id == id)
  }

  /** `playlists.find(pl => pl.id === id)`. */
  function FindPlaylist(ps: seq<Playlist>, id: PlaylistId): (r: Option<Playlist>)
    ensures r.None? <==> forall j :: 0 <= j < |ps| ==> ps[j].id != id
    ensures r.Some? ==> r.value.id == id && r.value == ps[PlaylistIndex(ps, id)]
  {
    var i := PlaylistIndex(ps, id);
    if i == -1 then None else Some(ps[i])
  }

  /** No two playlists of the list share an id. */
  predicate UniqueIds(ps: seq<Playlist>) {
    forall i, j :: 0 <= i < j < |ps| ==> ps[i].id != ps[j].id
  }

  /**
   * The positions of `s` whose element passes `keep`, in increasing order:
   * every listed position passes, and every passing position is listed.
   */
  function Kept<T>(s: seq<T>, keep: T -> bool): (idx: seq<nat>)
    ensures forall k :: 0 <= k < |idx| ==> idx[k] < |s| && keep(s[idx[k]])
    ensures forall k, l :: 0 <= k < l < |idx| ==> idx[k] < idx[l]
    ensures forall i :: 0 <= i < |s| && keep(s[i]) ==> i in idx
  {
    if s == [] then []
    else
      var n := |s| - 1;
      var front := Kept(s[..n], keep);
      assert forall k :: 0 <= k < |front| ==> s[front[k]] == s[..n][front[k]];
      assert forall i :: 0 <= i < n ==> s[i] == s[..n][i];
      front + (if keep(s[n]) then [n] else [])
  }

  /** `r` lists the elements of `s` at the passing positions, in order and with repeats. */
  ghost predicate Selects<T>(r: seq<T>, s: seq<T>, keep: T -> bool) {
    var idx := Kept(s, keep);
    |r| == |idx| && forall k :: 0 <= k < |r| ==> r[k] == s[idx[k]]
  }

  /** `Array.prototype.filter`: the elements that pass, in their order. */
  function Filter<T(!new)>(s: seq<T>, keep: T -> bool): (r: seq<T>)
    ensures |r| <= |s|
    ensures forall x :: x in r <==> x in s && keep(x)
  {
    if s == [] then []
    else
      var n := |s| - 1;
      assert forall x :: x in s <==> x in s[..n] || x == s[n] by {
        assert s == s[..n] + [s[n]];
      }
      Filter(s[..n], keep) + (if keep(s[n]) then [s[n]] else [])
  }

  /** The filter keeps exactly the passing positions, in order and with their repeats. */
  lemma {:induction false} FilterSelects<T(!new)>(s: seq<T>, keep: T -> bool)
    ensures Selects(Filter(s, keep), s, keep)
  {
    if s != [] {
      var n := |s| - 1;
      FilterSelects(s[..n], keep);
      var front := Filter(s[..n], keep);
      var r := Filter(s, keep);
      var idx := Kept(s, keep);
      assert idx == Kept(s[..n], keep) + (if keep(s[n]) then [n] else []);
      forall k | 0 <= k < |front| ensures r[k] == s[idx[k]] {
        assert s[..n][idx[k]] == s[idx[k]];
      }
    }
  }

  /** A filter that keeps everything returns the list itself. */
  lemma {:induction false} FilterKeepAll<T(!new)>(s: seq<T>, keep: T -> bool)
    requires forall x :: x in s ==> keep(x)
    ensures Filter(s, keep) == s
  {
    if s != [] {
      var n := |s| - 1;
      var front := s[..n];
      assert forall x :: x in front ==> keep(x) by {
        forall x | x in front ensures keep(x) { assert x in s; }
      }
      FilterKeepAll(front, keep);
      assert keep(s[n]);
      assert Filter(s, keep) == front + [s[n]];
      assert s == front + [s[n]];
    }
  }

  /** Filters with the same verdict on every element give the same list. */
  lemma {:induction false} FilterAgree<T(!new)>(s: seq<T>, keep: T -> bool, keep': T -> bool)
    requires forall x :: x in s ==> keep(x) == keep'(x)
    ensures Filter(s, keep) == Filter(s, keep')
  {
    if s != [] {
      var n := |s| - 1;
      assert forall x :: x in s[..n] ==> x in s;
      FilterAgree(s[..n], keep, keep');
    }
  }

  /** Filtering a list of playlists with unique ids keeps them unique. */
  lemma FilterKeepsIdsUnique(ps: seq<Playlist>, keep: Playlist -> bool)
    requires UniqueIds(ps)
    ensures UniqueIds(Filter(ps, keep))
  {
    var r := Filter(ps, keep);
    var idx := Kept(ps, keep);
    FilterSelects(ps, keep);
    forall i, j | 0 <= i < j < |r| ensures r[i].id != r[j].id {
      assert r[i] == ps[idx[i]] && r[j] == ps[idx[j]];
    }
  }
}
