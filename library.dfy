/**
 * The library side of the player provider as pure functions: set toggles
 * for likes and follows, playlist lookups and in-list edits, the decision
 * of `addSongToPlaylist`, the list filters of the pages, the artist
 * recommendations of the home page and the sign-in form check.
 */
module Library {
  import opened Records

  // ---------------------------------------------------------------------
  // Set toggles (`likedSongs`, `followedArtists`)
  // ---------------------------------------------------------------------

  /** `has(x) ? delete(x) : add(x)` on a copy of the set. */
  function Toggled<T(!new)>(s: set<T>, x: T): (r: set<T>)
    ensures x in r <==> x !in s
    ensures forall y :: y != x ==> (y in r <==> y in s)
  {
    if x in s then s - {x} else s + {x}
  }

  /** Toggling the same element twice gives the set back; this is what the like rollback relies on. */
  lemma ToggledTwice<T(!new)>(s: set<T>, x: T)
    ensures Toggled(Toggled(s, x), x) == s
  {
    var r := Toggled(Toggled(s, x), x);
    assert forall y :: y in r <==> y in s;
  }

  // ---------------------------------------------------------------------
  // Playlist lookups and edits
  // ---------------------------------------------------------------------

  /** The field changes the client applies to a playlist in place. */
  datatype Edit = Recover(cover: string) | Rename(name: string) | Extend(songs: seq<Song>, cover: string)

  function Edited(p: Playlist, e: Edit): (q: Playlist)
    ensures q.id == p.id && q.owner == p.owner && q.isPublic == p.isPublic && q.description == p.description
    ensures e.Recover? ==> q == p.(cover := e.cover)
    ensures e.Rename? ==> q == p.(name := e.name)
    ensures e.Extend? ==> q == p.(songs := e.songs, cover := e.cover)
  {
    match e
    case Recover(c) => p.(cover := c)
    case Rename(n) => p.(name := n)
    case Extend(songs, c) => p.(songs := songs, cover := c)
  }

  /** `prev.map(pl => pl.id === id ? {...pl, <edit>} : pl)`. */
  function EditAll(ps: seq<Playlist>, id: PlaylistId, e: Edit): (r: seq<Playlist>)
    ensures |r| == |ps|
    ensures forall k :: 0 <= k < |ps| ==> r[k] == if ps[k].id == id then Edited(ps[k], e) else ps[k]
  {
    if ps == [] then []
    else [if ps[0].id == id then Edited(ps[0], e) else ps[0]] + EditAll(ps[1..], id, e)
  }

  /** An edit aimed at an id no playlist has leaves the list as it is. */
  lemma EditAbsentIsNoOp(ps: seq<Playlist>, id: PlaylistId, e: Edit)
    requires forall k :: 0 <= k < |ps| ==> ps[k].id != id
    ensures EditAll(ps, id, e) == ps
  {
    assert forall k :: 0 <= k < |ps| ==> EditAll(ps, id, e)[k] == ps[k];
  }

  /** `prev.filter(p => p.id !== id)`. */
  function WithoutPlaylist(ps: seq<Playlist>, id: PlaylistId): (r: seq<Playlist>)
    ensures |r| <= |ps|
    ensures forall p :: p in r <==> p in ps && p.id != id
    ensures Selects(r, ps, (p: Playlist) => p.id != id)
  {
    FilterSelects(ps, (p: Playlist) => p.id != id);
    Filter(ps, (p: Playlist) => p.id != id)
  }

  /** Removing an id no playlist has leaves the list as it is. */
  lemma WithoutAbsentIsNoOp(ps: seq<Playlist>, id: PlaylistId)
    requires forall k :: 0 <= k < |ps| ==> ps[k].id != id
    ensures WithoutPlaylist(ps, id) == ps
  {
    FilterKeepAll(ps, (p: Playlist) => p.id != id);
  }

  /** Removing playlists keeps the remaining ids unique. */
  lemma WithoutKeepsIdsUnique(ps: seq<Playlist>, id: PlaylistId)
    requires UniqueIds(ps)
    ensures UniqueIds(WithoutPlaylist(ps, id))
  {
    FilterKeepsIdsUnique(ps, (p: Playlist) => p.id != id);
  }

  /** Editing in place keeps every id where it was. */
  lemma EditKeepsIdsUnique(ps: seq<Playlist>, id: PlaylistId, e: Edit)
    requires UniqueIds(ps)
    ensures UniqueIds(EditAll(ps, id, e))
  {
    var r := EditAll(ps, id, e);
    assert forall k :: 0 <= k < |ps| ==> r[k].id == ps[k].id;
  }

  /** The create handler's merge: append the new playlist unless its id is already listed. */
  function WithNew(ps: seq<Playlist>, p: Playlist): (r: seq<Playlist>)
    ensures FindPlaylist(ps, p.id).Some? ==> r == ps
    ensures FindPlaylist(ps, p.id).None? ==> r == ps + [p]
  {
    if FindPlaylist(ps, p.id).Some? then ps else ps + [p]
  }

  /** Merging in a playlist keeps the ids unique when they were. */
  lemma WithNewKeepsIdsUnique(ps: seq<Playlist>, p: Playlist)
    requires UniqueIds(ps)
    ensures UniqueIds(WithNew(ps, p))
  {
    if FindPlaylist(ps, p.id).None? {
      var r := ps + [p];
      forall i, j | 0 <= i < j < |r| ensures r[i].id != r[j].id {
        if j == |ps| {
          assert r[i] == ps[i];
        } else {
          assert r[i] == ps[i] && r[j] == ps[j];
        }
      }
    }
  }

  // ---------------------------------------------------------------------
  // addSongToPlaylist
  // ---------------------------------------------------------------------

  /** Why a song is not added (besides a missing sign-in, which the provider checks first). */
  datatype AddRefusal = NoSuchPlaylist | NotOwner | AlreadyThere

  datatype AddPlan = Refused(why: AddRefusal) | Append(songs: seq<Song>, cover: string)

  /** Whether a song with that id is already on the list. */
  predicate HasSong(songs: seq<Song>, id: SongId) {
    exists k :: 0 <= k < |songs| && songs[k].id == id
  }

  /**
   * The checks and the new contents of `addSongToPlaylist`: an unknown
   * playlist, another owner's playlist or a song id already present is
   * refused, in that order; otherwise the song is appended and the
   * playlist takes the song's cover exactly when it was empty.
   */
  function AddSongPlan(ps: seq<Playlist>, id: PlaylistId, song: Song, viewer: Option<UserId>): (r: AddPlan)
    ensures FindPlaylist(ps, id).None? <==> r == Refused(NoSuchPlaylist)
    ensures r == Refused(NotOwner) <==> FindPlaylist(ps, id).Some? && FindPlaylist(ps, id).value.owner != viewer
    ensures r == Refused(AlreadyThere) <==>
              FindPlaylist(ps, id).Some? && FindPlaylist(ps, id).value.owner == viewer
              && HasSong(FindPlaylist(ps, id).value.songs, song.id)
    ensures r.Append? ==> var target := FindPlaylist(ps, id).value;
              r.songs == target.songs + [song] && !HasSong(target.songs, song.id)
              && r.cover == (if target.songs == [] then song.cover else target.cover)
  {
    match FindPlaylist(ps, id)
    case None => Refused(NoSuchPlaylist)
    case Some(target) =>
      if target.owner != viewer then Refused(NotOwner)
      else if HasSong(target.songs, song.id) then Refused(AlreadyThere)
      else
        var songs := target.songs + [song];
        Append(songs, if |songs| == 1 then song.cover else target.cover)
  }

  // ---------------------------------------------------------------------
  // List filters of the pages
  // ---------------------------------------------------------------------

  /** The liked-songs page: the catalogue songs whose id is liked, in catalogue order. */
  function LikedSongs(all: seq<Song>, liked: set<SongId>): (r: seq<Song>)
    ensures forall s :: s in r <==> s in all && s.id in liked
    ensures Selects(r, all, (s: Song) => s.id in liked)
  {
    FilterSelects(all, (s: Song) => s.id in liked);
    Filter(all, (s: Song) => s.id in liked)
  }

  /** The add-to-playlist dialog lists the playlists whose owner field equals the viewer's id. */
  function MyPlaylists(ps: seq<Playlist>, viewer: Option<UserId>): (r: seq<Playlist>)
    ensures forall p :: p in r <==> p in ps && p.owner == viewer
    ensures Selects(r, ps, (p: Playlist) => p.owner == viewer)
  {
    FilterSelects(ps, (p: Playlist) => p.owner == viewer);
    Filter(ps, (p: Playlist) => p.owner == viewer)
  }

  /** `toLowerCase` on the ASCII letters. */
  function LowerChar(c: char): (d: char)
    ensures 'A' <= c <= 'Z' ==> 'a' <= d <= 'z' && d as int - c as int == 32
    ensures !('A' <= c <= 'Z') ==> d == c
  {
    if 'A' <= c <= 'Z' then (c as int + 32) as char else c
  }

  function Lower(s: string): (r: string)
    ensures |r| == |s|
    ensures forall i :: 0 <= i < |s| ==> r[i] == LowerChar(s[i])
  {
    if s == [] then [] else [LowerChar(s[0])] + Lower(s[1..])
  }

  /** Lower-casing twice is lower-casing once. */
  lemma LowerIdempotent(s: string)
    ensures Lower(Lower(s)) == Lower(s)
  {
    assert forall i :: 0 <= i < |s| ==> Lower(Lower(s))[i] == Lower(s)[i];
  }

  /** `text.includes(query)`: the query occurs at some position of the text. */
  predicate Includes(text: string, query: string)
    decreases |text|
  {
    if |query| > |text| then false
    else text[..|query|] == query || (text != [] && Includes(text[1..], query))
  }

  /** `Includes` holds exactly when the query sits at some offset of the text. */
  lemma {:induction false} IncludesAt(text: string, query: string)
    ensures Includes(text, query) <==>
            exists i :: 0 <= i <= |text| - |query| && text[i..][..|query|] == query
    decreases |text|
  {
    if |query| <= |text| {
      assert text[0..] == text;
      if text != [] {
        IncludesAt(text[1..], query);
        forall i | 1 <= i <= |text| - |query|
          ensures text[i..] == text[1..][i - 1..]
        {
        }
        if Includes(text[1..], query) {
          var i :| 0 <= i <= |text| - 1 - |query| && text[1..][i..][..|query|] == query;
          assert text[i + 1..][..|query|] == query;
        }
      }
    }
  }

  /** The search page: title or artist contains the query, ignoring ASCII case. */
  predicate Matches(song: Song, query: string) {
    Includes(Lower(song.title), Lower(query)) || Includes(Lower(song.artist), Lower(query))
  }

  function SearchSongs(all: seq<Song>, query: string): (r: seq<Song>)
    ensures forall s :: s in r <==> s in all && Matches(s, query)
    ensures Selects(r, all, (s: Song) => Matches(s, query))
  {
    FilterSelects(all, (s: Song) => Matches(s, query));
    Filter(all, (s: Song) => Matches(s, query))
  }

  /** An empty query lists the whole catalogue. */
  lemma EmptySearchListsAll(all: seq<Song>)
    ensures SearchSongs(all, "") == all
  {
    forall s: Song ensures Matches(s, "") {
      assert Lower(s.title)[..0] == Lower("");
    }
    FilterKeepAll(all, (s: Song) => Matches(s, ""));
  }

  /** Searching is blind to the ASCII case of the query. */
  lemma SearchIgnoresQueryCase(all: seq<Song>, query: string)
    ensures SearchSongs(all, query) == SearchSongs(all, Lower(query))
  {
    LowerIdempotent(query);
    FilterAgree(all, (s: Song) => Matches(s, query), (s: Song) => Matches(s, Lower(query)));
  }

  // ---------------------------------------------------------------------
  // Recommended artists of the home page
  // ---------------------------------------------------------------------

  datatype Artist = Artist(name: string, cover: string)

  /** The picture table of the known artists; others fall back to a song cover. */
  const ArtistPictures: map<string, string> := map[
    "Charli xcx" := "/images/artist_charli.jpg",
    "XG" := "/images/artist_xg.jpg",
    "椎名林檎" := "/images/artist_ringo.jpg",
    "Tyla" := "/images/artist_tyla.jpg",
    "NewJeans" := "/images/artist_newjeans.jpg",
    "ano" := "/images/artist_ano.jpg",
    "米津玄師" := "/images/artist_kenshi.jpg",
    "Lil Hero" := "/images/artist_hero.jpg",
    "KATSEYE" := "/images/artist_katseye.jpg"]

  /** At most this many artists are shown. */
  const MaxRecommended := 5

  /** The card for the first song of an artist: the table picture, else that song's cover. */
  function ArtistCard(song: Song): (a: Artist)
    ensures a.name == song.artist
    ensures song.artist in ArtistPictures ==> a.cover == ArtistPictures[song.artist]
    ensures song.artist !in ArtistPictures ==> a.cover == song.cover
  {
    Artist(song.artist, if song.artist in ArtistPictures then ArtistPictures[song.artist] else song.cover)
  }

  /** The names on a list of cards, in order. */
  function Names(list: seq<Artist>): (r: seq<string>)
    ensures |r| == |list|
    ensures forall i :: 0 <= i < |list| ==> r[i] == list[i].name
  {
    if list == [] then [] else [list[0].name] + Names(list[1..])
  }

  /**
   * The cards the `forEach` adds to `list` from `songs` on, given the names
   * already in `seen`: one per new artist, taken from its first song.
   */
  function Unseen(songs: seq<Song>, seen: set<string>): seq<Artist>
  {
    if songs == [] then []
    else if songs[0].artist in seen then Unseen(songs[1..], seen)
    else [ArtistCard(songs[0])] + Unseen(songs[1..], seen + {songs[0].artist})
  }

  /** One card per artist, in the order the artists first appear among the songs. */
  function FirstSeen(songs: seq<Song>): seq<Artist> {
    Unseen(songs, {})
  }

  /** The new cards name exactly the artists of the songs not seen before. */
  lemma {:induction false} UnseenNames(songs: seq<Song>, seen: set<string>, a: string)
    ensures a in Names(Unseen(songs, seen)) <==>
            a !in seen && exists k :: 0 <= k < |songs| && songs[k].artist == a
  {
    if songs != [] {
      var rest := songs[1..];
      var first := songs[0].artist;
      var seen' := if first in seen then seen else seen + {first};
      UnseenNames(rest, seen', a);
      var r := Unseen(songs, seen);
      if first !in seen {
        assert Names(r) == [first] + Names(Unseen(rest, seen'));
      }
      if exists k :: 0 <= k < |songs| && songs[k].artist == a {
        var k :| 0 <= k < |songs| && songs[k].artist == a;
        if k > 0 {
          assert rest[k - 1].artist == a;
        }
      }
      if exists k :: 0 <= k < |rest| && rest[k].artist == a {
        var k :| 0 <= k < |rest| && rest[k].artist == a;
        assert songs[k + 1].artist == a;
      }
    }
  }

  /** No artist gets two cards, and none that was already seen gets one. */
  lemma {:induction false} UnseenDistinct(songs: seq<Song>, seen: set<string>)
    ensures forall i :: 0 <= i < |Unseen(songs, seen)| ==> Unseen(songs, seen)[i].name !in seen
    ensures forall i, j :: 0 <= i < j < |Unseen(songs, seen)| ==>
              Unseen(songs, seen)[i].name != Unseen(songs, seen)[j].name
  {
    if songs != [] {
      var rest := songs[1..];
      var first := songs[0].artist;
      if first in seen {
        UnseenDistinct(rest, seen);
      } else {
        var seen' := seen + {first};
        UnseenDistinct(rest, seen');
        var tail := Unseen(rest, seen');
        var r := Unseen(songs, seen);
        assert r == [ArtistCard(songs[0])] + tail;
        forall i, j | 0 <= i < j < |r| ensures r[i].name != r[j].name {
          assert r[j] == tail[j - 1];
        }
      }
    }
  }

  /** No song before position `k` is by the artist of song `k`. */
  predicate FirstOfArtist(songs: seq<Song>, k: nat)
    requires k < |songs|
  {
    forall j :: 0 <= j < k ==> songs[j].artist != songs[k].artist
  }

  /** A first song of the tail whose artist differs from the head's is a first song of the whole. */
  lemma FirstOfArtistShift(songs: seq<Song>, k: nat)
    requires k + 1 < |songs| && FirstOfArtist(songs[1..], k)
    requires songs[0].artist != songs[k + 1].artist
    ensures FirstOfArtist(songs, k + 1)
  {
    forall j | 0 <= j < k + 1 ensures songs[j].artist != songs[k + 1].artist {
      if j > 0 {
        assert songs[j] == songs[1..][j - 1];
      }
    }
  }

  /** Every card is the card of the first song of its artist. */
  lemma {:induction false} UnseenFromFirstSong(songs: seq<Song>, seen: set<string>, i: nat)
    requires i < |Unseen(songs, seen)|
    ensures exists k :: 0 <= k < |songs| && Unseen(songs, seen)[i] == ArtistCard(songs[k])
                        && FirstOfArtist(songs, k)
  {
    var rest := songs[1..];
    var first := songs[0].artist;
    if first in seen {
      UnseenFromFirstSong(rest, seen, i);
      var k :| 0 <= k < |rest| && Unseen(rest, seen)[i] == ArtistCard(rest[k]) && FirstOfArtist(rest, k);
      UnseenDistinct(rest, seen);
      assert Unseen(rest, seen)[i].name !in seen;
      assert songs[k + 1] == rest[k];
      FirstOfArtistShift(songs, k);
      assert Unseen(songs, seen)[i] == ArtistCard(songs[k + 1]);
    } else if i == 0 {
      assert Unseen(songs, seen)[0] == ArtistCard(songs[0]);
      assert FirstOfArtist(songs, 0);
    } else {
      var seen' := seen + {first};
      UnseenFromFirstSong(rest, seen', i - 1);
      var k :| 0 <= k < |rest| && Unseen(rest, seen')[i - 1] == ArtistCard(rest[k]) && FirstOfArtist(rest, k);
      UnseenDistinct(rest, seen');
      assert Unseen(rest, seen')[i - 1].name !in seen';
      assert songs[k + 1] == rest[k];
      FirstOfArtistShift(songs, k);
      assert Unseen(songs, seen)[i] == ArtistCard(songs[k + 1]);
    }
  }

  /** The position of the first song by `artist`, or -1 when none is. */
  function ArtistIndex(songs: seq<Song>, artist: string): (r: int)
    ensures -1 <= r < |songs|
    ensures r != -1 ==> songs[r].artist == artist
    ensures forall j :: 0 <= j < |songs| && (r == -1 || j < r) ==> songs[j].artist != artist
  {
    FirstIndex(songs, (s: Song) => s.artist == artist)
  }

  /** Past a first song by someone else, the position is one more than in the rest. */
  lemma ArtistIndexTail(songs: seq<Song>, artist: string)
    requires songs != [] && songs[0].artist != artist
    ensures ArtistIndex(songs, artist) ==
            (var k := ArtistIndex(songs[1..], artist); if k == -1 then -1 else k + 1)
  {
    var rest := songs[1..];
    assert forall j :: 0 <= j < |rest| ==> rest[j] == songs[j + 1];
  }

  /** Every card names an artist of `songs`, and the cards follow their artists' first songs. */
  predicate InFirstOrder(songs: seq<Song>, cards: seq<Artist>) {
    && (forall i :: 0 <= i < |cards| ==> ArtistIndex(songs, cards[i].name) >= 0)
    && (forall i, j :: 0 <= i < j < |cards| ==>
          ArtistIndex(songs, cards[i].name) < ArtistIndex(songs, cards[j].name))
  }

  /** Cards ordered within the rest stay ordered past a head song none of them names. */
  lemma OrderPastHead(songs: seq<Song>, cards: seq<Artist>)
    requires songs != [] && InFirstOrder(songs[1..], cards)
    requires forall i :: 0 <= i < |cards| ==> cards[i].name != songs[0].artist
    ensures InFirstOrder(songs, cards)
    ensures forall i :: 0 <= i < |cards| ==> ArtistIndex(songs, cards[i].name) >= 1
  {
    forall i | 0 <= i < |cards|
      ensures ArtistIndex(songs, cards[i].name) == ArtistIndex(songs[1..], cards[i].name) + 1
    {
      ArtistIndexTail(songs, cards[i].name);
    }
  }

  /** The head song's card goes in front of cards whose artists first appear later. */
  lemma OrderWithHead(songs: seq<Song>, cards: seq<Artist>)
    requires songs != [] && InFirstOrder(songs, cards)
    requires forall i :: 0 <= i < |cards| ==> ArtistIndex(songs, cards[i].name) >= 1
    ensures InFirstOrder(songs, [ArtistCard(songs[0])] + cards)
  {
    var u := [ArtistCard(songs[0])] + cards;
    assert ArtistIndex(songs, u[0].name) == 0;
    assert forall i :: 1 <= i < |u| ==> u[i] == cards[i - 1];
  }

  /** The cards come in the order their artists first appear, each from a song of the list. */
  lemma {:induction false} UnseenInOrder(songs: seq<Song>, seen: set<string>)
    ensures InFirstOrder(songs, Unseen(songs, seen))
  {
    if songs != [] {
      var rest := songs[1..];
      var first := songs[0].artist;
      var seen' := if first in seen then seen else seen + {first};
      UnseenInOrder(rest, seen');
      UnseenDistinct(rest, seen');
      var tail := Unseen(rest, seen');
      OrderPastHead(songs, tail);
      if first !in seen {
        OrderWithHead(songs, tail);
      }
    }
  }

  /** `list.slice(0, 5)` of the first-seen cards. */
  function Recommended(songs: seq<Song>): seq<Artist>
  {
    var all := FirstSeen(songs);
    if |all| <= MaxRecommended then all else all[..MaxRecommended]
  }

  /**
   * At most five artists, no artist twice, each one an artist of the
   * catalogue shown with the card of its first song; and when there are
   * at most five artists, every one of them is shown.
   */
  lemma RecommendedMeaning(songs: seq<Song>)
    ensures |Recommended(songs)| <= MaxRecommended
    ensures forall i, j :: 0 <= i < j < |Recommended(songs)| ==> Recommended(songs)[i].name != Recommended(songs)[j].name
    ensures forall i :: 0 <= i < |Recommended(songs)| ==>
              exists k :: 0 <= k < |songs| && Recommended(songs)[i] == ArtistCard(songs[k])
                          && FirstOfArtist(songs, k)
    ensures |FirstSeen(songs)| <= MaxRecommended ==>
              forall k :: 0 <= k < |songs| ==> songs[k].artist in Names(Recommended(songs))
  {
    var all := FirstSeen(songs);
    UnseenDistinct(songs, {});
    forall i | 0 <= i < |Recommended(songs)|
      ensures exists k :: 0 <= k < |songs| && Recommended(songs)[i] == ArtistCard(songs[k])
                          && FirstOfArtist(songs, k)
    {
      assert Recommended(songs)[i] == all[i];
      UnseenFromFirstSong(songs, {}, i);
    }
    forall k | 0 <= k < |songs| ensures |all| <= MaxRecommended ==> songs[k].artist in Names(Recommended(songs)) {
      UnseenNames(songs, {}, songs[k].artist);
    }
  }

  /** A prefix of ordered cards is ordered. */
  lemma InFirstOrderPrefix(songs: seq<Song>, cards: seq<Artist>, n: nat)
    requires n <= |cards| && InFirstOrder(songs, cards)
    ensures InFirstOrder(songs, cards[..n])
  {
    assert forall i :: 0 <= i < n ==> cards[..n][i] == cards[i];
  }

  /** In ordered cards, a name past position `n` first appears after every card before `n`. */
  lemma BeyondPrefixComesLater(songs: seq<Song>, all: seq<Artist>, n: nat, a: string, i: nat)
    requires InFirstOrder(songs, all) && i < n <= |all|
    requires a in Names(all[n..])
    ensures ArtistIndex(songs, all[i].name) < ArtistIndex(songs, a)
  {
    var m :| 0 <= m < |all| - n && Names(all[n..])[m] == a;
    assert all[n..][m] == all[n + m];
  }

  /** An artist of the catalogue that is not shown first appears after every artist shown. */
  lemma LeftOutComesLater(songs: seq<Song>, k: nat, i: nat)
    requires k < |songs| && songs[k].artist !in Names(Recommended(songs)) && i < |Recommended(songs)|
    ensures ArtistIndex(songs, Recommended(songs)[i].name) < ArtistIndex(songs, songs[k].artist)
  {
    var all := FirstSeen(songs);
    var rec := Recommended(songs);
    var a := songs[k].artist;
    var n := |rec|;
    UnseenInOrder(songs, {});
    UnseenNames(songs, {}, a);
    assert songs[k].artist == a;
    assert a in Names(all);
    assert rec == all[..n];
    NamesSplit(all, n);
    BeyondPrefixComesLater(songs, all, n, a, i);
  }

  lemma NamesSplit(list: seq<Artist>, n: nat)
    requires n <= |list|
    ensures Names(list) == Names(list[..n]) + Names(list[n..])
  {
    var r := Names(list[..n]) + Names(list[n..]);
    forall j | 0 <= j < |list| ensures Names(list)[j] == r[j] {
      if j < n {
        assert list[..n][j] == list[j];
      } else {
        assert list[n..][j - n] == list[j];
      }
    }
  }

  /**
   * The cards shown follow the order of first appearance; with more than
   * five artists exactly five are shown, and every artist left out first
   * appears after every artist shown.
   */
  lemma RecommendedFirstFive(songs: seq<Song>)
    ensures InFirstOrder(songs, Recommended(songs))
    ensures |FirstSeen(songs)| > MaxRecommended ==> |Recommended(songs)| == MaxRecommended
    ensures forall k, i :: 0 <= k < |songs| && songs[k].artist !in Names(Recommended(songs))
                           && 0 <= i < |Recommended(songs)| ==>
              ArtistIndex(songs, Recommended(songs)[i].name) < ArtistIndex(songs, songs[k].artist)
  {
    var all := FirstSeen(songs);
    UnseenInOrder(songs, {});
    if |all| > MaxRecommended {
      InFirstOrderPrefix(songs, all, MaxRecommended);
    }
    forall k, i | 0 <= k < |songs| && songs[k].artist !in Names(Recommended(songs)) && 0 <= i < |Recommended(songs)|
      ensures ArtistIndex(songs, Recommended(songs)[i].name) < ArtistIndex(songs, songs[k].artist)
    {
      LeftOutComesLater(songs, k, i);
    }
  }

  /**
   * `recommendedArtists`: the `forEach` with a `Set` of seen names and a
   * list of cards, then the first five.
   */
  method RecommendedArtists(songs: seq<Song>) returns (list: seq<Artist>)
    ensures list == Recommended(songs)
  {
    if |songs| == 0 {
      return [];
    }
    var unique: set<string> := {};
    var cards: seq<Artist> := [];
    var i := 0;
    while i < |songs|
      invariant 0 <= i <= |songs|
      invariant cards + Unseen(songs[i..], unique) == FirstSeen(songs)
    {
      assert songs[i..][1..] == songs[i + 1..];
      var song := songs[i];
      if song.artist !in unique {
        unique := unique + {song.artist};
        cards := cards + [ArtistCard(song)];
      }
      i := i + 1;
    }
    assert songs[i..] == [];
    list := if |cards| <= MaxRecommended then cards else cards[..MaxRecommended];
  }

  // ---------------------------------------------------------------------
  // The sign-in / sign-up form
  // ---------------------------------------------------------------------

  const IncompleteForm := "请填写完整信息"
  const MissingUsername := "请输入用户名"

  /** The form check before any request: email and password always, a username when registering. */
  function FormError(isLogin: bool, email: string, password: string, username: string): (r: Option<string>)
    ensures r.None? <==> email != "" && password != "" && (isLogin || username != "")
    ensures (email == "" || password == "") ==> r == Some(IncompleteForm)
    ensures email != "" && password != "" && !isLogin && username == "" ==> r == Some(MissingUsername)
  {
    if email == "" || password == "" then Some(IncompleteForm)
    else if !isLogin && username == "" then Some(MissingUsername)
    else None
  }
}
