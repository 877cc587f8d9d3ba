# my-spotify1: the player state and the playlist backend, modelled in Dafny

The music app keeps all of its client state in one React context provider,
`PlayerProvider` (src/App.tsx). That state covers:
- the catalogue, the queue, the loaded track and the repeat mode;
- the signed-in user with their liked songs and followed artists;
- the listed playlists, the open playlist and the dialogs;
- the last toast.

The handlers of the provider change that state step by step. Most of them then call the REST backend (api/index.js), which keeps users and playlists.

The project models:
- the LRC lyric parser, `parseLRC`, and the highlighted lyric line;
- the queue and repeat state machine;
- every library handler: likes, follows, and creating, deleting, renaming, re-covering and adding to a playlist;
- the auth gate, login, registration and logout;
- the page filters and the artist recommendations;
- the record logic of the backend routes: register, login, like, list, create, update and delete.

Files:
- `records.dfy` holds the shared records (`Song`, `Playlist`, `User`) and `Filter`.
- `lrc.dfy` holds the parser and `active_line.dfy` the highlighted line. `lrc_examples.dfy` has worked tag examples.
- `queue.dfy` holds playback as transitions on a `Playback` value.
- `library.dfy` holds the pure library helpers.
- `server.dfy` holds the route logic and a `Store` class over the two collections.
- `provider.dfy` holds the `PlayerProvider` class. Each handler is a method, and its contract gives the whole new state through `Snapshot()`.

Modelling choices:
- **Time.** Times and the playback position are integer milliseconds. A 3-digit fraction is already milliseconds; a 2-digit fraction is multiplied by 10.
- **Outside outcomes are parameters.** This covers:
  - whether the media element starts (`playOk`);
  - whether a request reached the server (`remoteOk`, `reachable`);
  - the server's reply (`Reply`, `Sync`);
  - the user's confirmation (`confirmed`);
  - the database's fresh ids;
  - the password digest.
- **Hashing.** bcrypt is left abstract. Registration receives the digest to store. Login receives the predicate that compares a password with a digest.
- **Owner ids are `Option<UserId>`.** A missing owner compared with a signed-out viewer behaves like `undefined === undefined`, so they match.
- **Stale closures.** Where the source reads a value from a stale React closure, the model keeps that behaviour:
  - `nextSong` hands the pre-skip state to `playSong`.
  - The catalogue load always loads the first song, because it sees the state of the first render.

The model keeps these behaviours of the code, which a reader might not expect:
- The lyric tag is not anchored, so it may sit anywhere in the line.
- The client's `deletePlaylist` has no sign-in check.
- The server's update route has no ownership check.
- `logout` keeps the followed artists.
- `addSongToPlaylist` does not update the open playlist.
- A refused registration shows the client's generic message, not the server's.

## Model

| member | source | states |
|---|---|---|
| Records.FirstIndex | src/App.tsx:333 | `findIndex`: -1 or a position whose element passes, with no earlier position passing; -1 only when none passes |
| Records.PlaylistIndex | src/App.tsx:440 | -1 or a position holding the id, with no earlier position holding it |
| Records.FindPlaylist | src/App.tsx:440 | None exactly when no listed playlist has the id; otherwise the first one that has it |
| Records.Filter | src/App.tsx:426 | no longer than the input; an element is kept exactly when it is in the input and passes |
| Records.Kept | src/App.tsx:426 | the positions whose element passes, strictly increasing, every passing position listed |
| Records.FilterSelects | src/App.tsx:426 | the filter holds the elements at the passing positions, in their order and with their repeats |
| Records.FilterKeepAll | src/App.tsx:783 | a filter that passes everything returns the list unchanged |
| Records.FilterAgree | src/App.tsx:783 | filters that agree on every element return the same list |
| Records.FilterKeepsIdsUnique | api/index.js:243-253 | filtering a list whose ids are unique keeps them unique |
| Lrc.TrimStart | src/App.tsx:149 | a suffix of the input; everything cut is whitespace; the result does not start with whitespace |
| Lrc.TrimEnd | src/App.tsx:149 | a prefix of the input; everything cut is whitespace; the result does not end with whitespace |
| Lrc.Trim | src/App.tsx:149 | the result neither starts nor ends with an ECMAScript whitespace or line terminator |
| Lrc.TrimIsSlice | src/App.tsx:149 | the trimmed text is one slice of the input, with only whitespace on either side |
| Lrc.FirstNewline | src/App.tsx:138 | the position of the first '\n', or the length when there is none |
| Lrc.FirstNewlineIs | src/App.tsx:138 | any position with no '\n' before it and a '\n' (or the end) at it is the first newline |
| Lrc.Lines | src/App.tsx:138 | splitting on `\r?\n` gives at least one line, and no line holds a '\n' |
| Lrc.LinesOfCrlfJoin | src/App.tsx:138 | a line, a CRLF break, then the rest splits into that line, with the break's '\r' removed, followed by the rest's lines |
| Lrc.LinesOfJoinCrlf | src/App.tsx:138 | lines without '\n' joined with CRLF breaks split back into exactly those lines, even when they hold '\r' themselves |
| Lrc.LinesOfLine | src/App.tsx:138 | a text without '\n' is one line |
| Lrc.LinesOfJoin | src/App.tsx:138 | a line not ending in '\r', then '\n', then the rest splits into that line followed by the rest's lines |
| Lrc.LinesJoinBack | src/App.tsx:138 | for text without '\r', joining the lines with '\n' gives the text back |
| Lrc.DecimalValueOfTwo | src/App.tsx:144-145 | `parseInt` of two digits is ten times the first digit plus the second |
| Lrc.DecimalValueOfThree | src/App.tsx:147 | `parseInt` of three digits is their decimal value |
| Lrc.TagAt | src/App.tsx:140 | a match starting at that position spans 10 or 11 characters inside the text |
| Lrc.TagAtMeaning | src/App.tsx:140-148 | a match has the bracket, colon and separator layout of the regular expression with digits elsewhere; its time is minutes·60000 + seconds·1000 + a 3-digit fraction, or a 2-digit fraction ·10 |
| Lrc.FirstTag | src/App.tsx:142 | a match found lies inside the text, at or after the starting point |
| Lrc.TagAtComplete | src/App.tsx:140-148 | the converse of `TagAtMeaning`: the layout matches, three fraction digits winning when a `]` follows them; a broken layout does not match |
| Lrc.FirstTagIsLeftmost | src/App.tsx:142 | the found match is a match, and no match starts earlier; when none is found, none exists |
| Lrc.ParseLine | src/App.tsx:142-150 | a line without a tag yields nothing; a lyric has non-empty trimmed text and the time of the line's first tag |
| Lrc.FirstTagAt | src/App.tsx:142 | the leftmost position where the tag matches is the match `exec` returns |
| Lrc.ParseLineMeaning | src/App.tsx:142-150 | with the leftmost match at p, the line yields a lyric exactly when the text around that one match, trimmed, is not empty; the lyric is that text at the match's time |
| Lrc.ParseLineWithoutTag | src/App.tsx:143 | a line where the tag matches nowhere yields nothing |
| Lrc.ParsedLines | src/App.tsx:141 | one outcome per line |
| Lrc.ParsedLinesAt | src/App.tsx:141-150 | the i-th outcome is the parse of the i-th line |
| Lrc.PushedBounded | src/App.tsx:150 | no more lyrics are pushed than there are lines |
| Lrc.PushedMembers | src/App.tsx:150 | a lyric is pushed exactly when some line produced it |
| Lrc.InsertPermutation | src/App.tsx:153 | insertion adds exactly the one element |
| Lrc.InsertSorted | src/App.tsx:153 | inserting into a time-ordered list keeps it ordered |
| Lrc.InsertAtTime | src/App.tsx:153 | an insertion into a time-ordered list places the element before the other elements with its time |
| Lrc.SortByTimeSorted | src/App.tsx:153 | the sort yields a list ordered by time |
| Lrc.SortByTimePermutation | src/App.tsx:153 | the sort's output is a permutation of its input |
| Lrc.SortByTimeStable | src/App.tsx:153 | lyrics with equal times keep their input order (a stable sort) |
| Lrc.ParseBounded | src/App.tsx:137-150 | a missing, non-string or empty text gives no lyrics; otherwise at most one lyric per line |
| Lrc.ParseSorted | src/App.tsx:153 | the lyrics come out ordered by time |
| Lrc.ParseStable | src/App.tsx:153 | equal times keep the order of the lines they came from |
| Lrc.SortedHarvestMembers | src/App.tsx:141-153 | a lyric is in the sorted harvest exactly when some line yielded it |
| Lrc.EmptyTextHasNoLyric | src/App.tsx:137-138 | the empty text is one empty line that yields nothing |
| Lrc.NonEmptyParseMembers | src/App.tsx:138-153 | for non-empty text, a lyric is in the result exactly when some line yields it |
| Lrc.ParseMembers | src/App.tsx:136-154 | a lyric is in the result exactly when some line of the text yields it |
| Lrc.HarvestLines | src/App.tsx:139-152 | the `forEach` loop pushes exactly the lyrics the lines yield, in line order |
| Lrc.ParseLrc | src/App.tsx:136-154 | `parseLRC`: equals the specification `Parse`, is ordered by time and has at most one lyric per line |
| LrcExamples.TwoDigitFraction | src/App.tsx:140-148 | `[00:01.50]` is read as 1500 ms |
| LrcExamples.ThreeDigitFraction | src/App.tsx:140-148 | `[01:02.345]` is read as 62345 ms |
| LrcExamples.TagInsideLine | src/App.tsx:140-148 | a tag after other text is still found, with ':' as the separator |
| ActiveLine.ActiveFrom | src/App.tsx:823-826 | `findIndex` from a position: the first active index from there on, or -1 when there is none |
| ActiveLine.ActiveIndex | src/App.tsx:823-826 | -1 or an in-range index whose line has started while the next has not, with no earlier such index |
| ActiveLine.ActiveAtOrAfter | src/App.tsx:823-826 | on sorted lyrics, a line that has started is followed by an active line |
| ActiveLine.LastStarted | src/App.tsx:823-826 | on sorted lyrics the highlighted line has started and every later line has not |
| ActiveLine.NoneActive | src/App.tsx:823-826 | on sorted lyrics nothing is highlighted exactly when there are no lines or the first has not started |
| ActiveLine.Monotone | src/App.tsx:823-826 | on sorted lyrics the highlight never moves back as playback advances |
| ActiveLine.TwoLineExample | src/App.tsx:823-826 | lines at 0.2 s and 1.5 s: none before 0.2 s, the first until 1.5 s, then the second |
| ActiveLine.EqualTimesExample | src/App.tsx:823-826 | with two equal times the later line is highlighted |
| Queue.NextRepeat | src/App.tsx:321-322 | off goes to all, all to one, one to off; the mode always changes |
| Queue.RepeatCycle | src/App.tsx:321-322 | three toggles restore every mode, and two never do |
| Queue.FindIndex | src/App.tsx:333 | -1 or the first queue position holding the id |
| Queue.JsRem | src/App.tsx:348 | JavaScript `%`: the sign of the dividend, magnitude below the divisor, dividend = divisor·quotient + remainder |
| Queue.PrevIndex | src/App.tsx:347-348 | the previous index is always a valid queue position |
| Queue.PrevIndexSteps | src/App.tsx:347-348 | from the first track to the last, otherwise one back |
| Queue.PrevIndexFromNowhere | src/App.tsx:347-348 | from a track not in the queue (-1): two before the end, or 0 in a one-track queue |
| Queue.TogglePlaying | src/App.tsx:315-319 | a playing track pauses; a paused one plays exactly when the media element starts; nothing else changes |
| Queue.PlayTrack | src/App.tsx:299-313 | a given queue replaces the old one; the loaded track toggles pause; another track loads at 0 and plays exactly when the media element starts |
| Queue.NextStep | src/App.tsx:326-343 | a decided play index is inside the queue |
| Queue.PrevStep | src/App.tsx:345-350 | a decided play index is inside the queue |
| Queue.Apply | src/App.tsx:326-350 | carrying out a skip keeps the queue and the mode |
| Queue.Next | src/App.tsx:326-343 | `nextSong` keeps the queue and the mode |
| Queue.Prev | src/App.tsx:345-350 | `prevSong` keeps the queue and the mode |
| Queue.SkipWithoutTrackIsNoOp | src/App.tsx:326-350 | with no loaded track or an empty queue, both skips change nothing |
| Queue.RepeatOneReplays | src/App.tsx:328-332 | when a track ends under repeat-one, it restarts from 0 |
| Queue.EndOfQueueStops | src/App.tsx:334-338 | when the last track ends with repeat off, that track stays loaded and stops |
| Queue.EndOfQueueWraps | src/App.tsx:334-342 | past the end, on a manual skip or under repeat-all, the first track plays |
| Queue.NextPlaysFollowing | src/App.tsx:333-342 | otherwise the following track plays |
| Queue.UnqueuedSkipsToFirst | src/App.tsx:333-342 | a loaded track that is not queued skips to the first queued track |
| Queue.SingleTrackSkipToggles | src/App.tsx:299-343 | in a one-track queue a manual or repeat-all skip toggles pause instead of restarting |
| Queue.PrevSteps | src/App.tsx:345-350 | going back plays the previous track, wrapping from the first to the last |
| Queue.UnqueuedPrev | src/App.tsx:345-350 | going back from an unqueued track plays the track two before the end |
| Queue.PrevIgnoresMode | src/App.tsx:345-350 | the repeat mode plays no part in going back |
| Queue.PlayLandsInQueue | src/App.tsx:341-349 | a skip that plays a track leaves a queued track loaded |
| Queue.SkipsKeepCursorQueued | src/App.tsx:326-350 | both skips keep the loaded track among the queued ones |
| Queue.PlayFromQueueKeepsCursorQueued | src/App.tsx:299-310 | playing a track picked from a list, with that list as the new queue, leaves a queued track loaded, whatever was loaded before |
| Queue.ThreeTrackWrap | src/App.tsx:334-342 | repeat-all over three tracks: the end of the third plays the first |
| Queue.ThreeTrackStop | src/App.tsx:334-338 | repeat off: the end of the third keeps it loaded and stops |
| Queue.ThreeTrackRepeatOne | src/App.tsx:328-332 | repeat-one: the third stays loaded and restarts from 0 |
| Queue.ThreeTrackBack | src/App.tsx:345-350 | going back from the third plays the second from 0 |
| Library.Toggled | src/App.tsx:359-364 | the element's membership flips and every other element's membership is kept |
| Library.ToggledTwice | src/App.tsx:371-376 | toggling twice gives the set back, which is what the like rollback relies on |
| Library.Edited | src/App.tsx:444-499 | each edit changes only its fields; id, owner, visibility and description are kept |
| Library.EditAll | src/App.tsx:444-447 | the list keeps its length; playlists with the id are edited and all others are untouched |
| Library.EditAbsentIsNoOp | src/App.tsx:444-447 | an edit for an unlisted id changes nothing |
| Library.WithoutPlaylist | src/App.tsx:426 | exactly the playlists without that id remain, in their order and with their repeats |
| Library.WithoutAbsentIsNoOp | src/App.tsx:426 | removing an unlisted id changes nothing |
| Library.WithoutKeepsIdsUnique | src/App.tsx:426 | removal keeps listed ids unique |
| Library.EditKeepsIdsUnique | src/App.tsx:444-447 | in-place edits keep listed ids unique |
| Library.WithNew | src/App.tsx:409-412 | the created playlist is appended unless its id is already listed |
| Library.WithNewKeepsIdsUnique | src/App.tsx:409-412 | the merge keeps listed ids unique |
| Library.AddSongPlan | src/App.tsx:488-495 | refused exactly when the playlist is unknown, owned by someone else, or already holds the song id, in that order; otherwise the songs gain the song and the cover becomes the song's cover exactly when the playlist was empty |
| Library.LikedSongs | src/App.tsx:659 | exactly the catalogue songs whose id is liked, in catalogue order |
| Library.MyPlaylists | src/App.tsx:898-901 | exactly the listed playlists whose owner equals the viewer's id, which may be missing on both sides, in list order |
| Library.LowerChar | src/App.tsx:783 | ASCII capitals map to small letters; every other character is kept |
| Library.Lower | src/App.tsx:783 | lower-cases character by character, keeping the length |
| Library.LowerIdempotent | src/App.tsx:783 | lower-casing twice equals lower-casing once |
| Library.IncludesAt | src/App.tsx:783 | `includes` holds exactly when the query occurs at some offset |
| Library.SearchSongs | src/App.tsx:783 | exactly the songs whose title or artist contains the query, ignoring ASCII case, in catalogue order |
| Library.EmptySearchListsAll | src/App.tsx:783 | an empty query lists the whole catalogue |
| Library.SearchIgnoresQueryCase | src/App.tsx:783 | the search gives the same list for a query and its lower-cased form |
| Library.ArtistCard | src/App.tsx:935-936 | the card names the artist and shows the artist picture, or the song's cover for an unknown artist |
| Library.Names | src/App.tsx:929-941 | the names of the cards, in order |
| Library.UnseenNames | src/App.tsx:931-939 | an artist has a card exactly when some song is by them and they were not seen before |
| Library.UnseenDistinct | src/App.tsx:931-939 | no artist gets two cards |
| Library.UnseenFromFirstSong | src/App.tsx:931-939 | each card is the card of the artist's first song |
| Library.ArtistIndex | src/App.tsx:932 | -1 or the position of the first song by the artist |
| Library.ArtistIndexTail | src/App.tsx:932 | past a head song by another artist, the position is one more than in the rest |
| Library.UnseenInOrder | src/App.tsx:931-939 | every card names an artist of the songs, and the cards follow the order of their artists' first songs |
| Library.LeftOutComesLater | src/App.tsx:929-941 | an artist of the catalogue that is not shown first appears after every shown artist |
| Library.RecommendedFirstFive | src/App.tsx:929-941 | the cards shown follow first appearance; with more than five artists exactly five are shown; every artist left out first appears after all shown |
| Library.RecommendedMeaning | src/App.tsx:929-941 | at most five cards with distinct artists, each from the artist's first song; with at most five artists, all are shown |
| Library.RecommendedArtists | src/App.tsx:929-941 | the loop with a seen-set and `slice(0, 5)` computes `Recommended` |
| Library.FormError | src/App.tsx:751-752 | no error exactly when email and password are given, plus a username when registering; the message for each failure |
| Server.SessionOf | api/index.js:101-109 | the returned user carries the account's id, name, email and liked songs |
| Server.AccountIndex | api/index.js:158 | -1 or the first account with the id |
| Server.EmailIndex | api/index.js:84 | -1 or the first account with the email |
| Server.Login | api/index.js:119-147 | an unknown email, a wrong password and a success each happen exactly in their case, with distinct messages; a success returns that account's session |
| Server.NewAccount | api/index.js:89-96 | a new account stores the digest and has no likes or playlists |
| Server.LoginAfterRegister | api/index.js:84-147 | after registering a new email, logging in with a matching password returns the new session |
| Server.IndexOf | api/index.js:161 | -1 or the first position holding the id |
| Server.ToggledLikes | api/index.js:161-170 | an absent id is appended; otherwise its first occurrence is spliced out, keeping the rest in order |
| Server.LikeTwiceRestores | api/index.js:161-170 | liking and then unliking a song not yet liked restores the list |
| Server.LikeToggleCounts | api/index.js:161-170 | the toggle changes the count of that id by one and no other id's count |
| Server.DraftRecord | api/index.js:266-273 | the stored playlist takes the defaults for a missing cover or description, has no songs and is owned by the requester |
| Server.ListPlaylists | api/index.js:236-253 | exactly the stored playlists that are public or, when a viewer id is given, owned by the viewer, in stored order |
| Server.ListKeepsIdsUnique | api/index.js:236-253 | the listed ids are unique when the stored ones are |
| Server.AnonymousSeesPublic | api/index.js:247-249 | without a viewer id, exactly the public playlists |
| Server.ViewerSeesOwnAndPublic | api/index.js:243-246 | with a viewer id, exactly the public ones and the viewer's own |
| Server.Patched | api/index.js:290-292 | songs are replaced when sent, cover and name only when non-empty; every other field is kept |
| Server.PatchKeepsName | api/index.js:292 | an update never empties a playlist name |
| Server.Store.Register | api/index.js:81-116 | a taken email is refused and stores nothing; a missing username or email fails and stores nothing; otherwise exactly the new account is appended |
| Server.Store.ToggleLike | api/index.js:154-183 | an unknown user gives 404 and no change; otherwise 200, the toggled list, whether the song is now liked, and only that account changes |
| Server.Store.CreatePlaylist | api/index.js:260-281 | a missing user id gives 400 and stores nothing; an empty name is rejected; otherwise exactly the defaulted playlist is appended |
| Server.Store.UpdatePlaylist | api/index.js:284-299 | an unknown playlist gives 404; otherwise only that playlist is patched, whoever asks |
| Server.Store.DeletePlaylist | api/index.js:302-323 | 404 for an unknown playlist; 403 and no change when the owner differs from the requester; otherwise exactly that playlist is removed, so no playlist with the id remains and every other one does |
| Server.RemovedIsGone | api/index.js:318 | after the removal no playlist with that id remains, all the others do, and the ids stay unique |
| Provider.RepeatNotice | src/App.tsx:323 | the repeat toast, worked out from the old mode, names the new mode |
| Provider.AsSet | src/App.tsx:248 | `new Set(list)` holds exactly the list's ids |
| Provider.FollowNotice | src/App.tsx:384-390 | unfollowing and following each give their own message with the artist's name |
| Provider.CreateRequest | src/App.tsx:401-407 | the request always carries a non-empty cover, the description chosen by visibility, and the user id |
| Provider.RegisterReply | api/index.js:80-116 | a new account or a taken email reaches the client as a 200 body; a failed save is a 500 the client receives as a thrown error carrying the server's non-empty message |
| Provider.CreatedFromClient | src/App.tsx:401-407 | a client request never gets the server's defaults: the client's cover or default, its description, the user as owner, and no songs |
| Provider.Retargeted | src/App.tsx:448-450 | the open playlist is edited only when it has that id |
| Provider.PlayerProvider.ViewerId | src/App.tsx:439 | the viewer id is present exactly when someone signed in has a non-empty id |
| Provider.PlayerProvider.constructor | src/App.tsx:93-113 | the initial state: nothing loaded, repeat off, the home page, nobody signed in |
| Provider.PlayerProvider.ShowToast | src/App.tsx:122-125 | only the toast changes |
| Provider.PlayerProvider.CheckAuth | src/App.tsx:127-134 | passes exactly when someone is signed in; otherwise the sign-in dialog opens with an error toast, and nothing else changes |
| Provider.PlayerProvider.LoadCatalogue | src/App.tsx:163-175 | the songs become the catalogue and the queue, and the first song is loaded; a failed request changes nothing |
| Provider.PlayerProvider.LoadPlaylists | src/App.tsx:184-200 | the playlists become the list route's answer for the viewer's id, and the ids stay unique |
| Provider.PlayerProvider.RestoreSession | src/App.tsx:226-238 | a stored session signs the user in with its liked songs |
| Provider.PlayerProvider.Login | src/App.tsx:240-255 | a session reply signs in with that user's likes; a refusal passes the server message on; a failed request reports the connection; only a success changes state |
| Provider.PlayerProvider.Register | src/App.tsx:257-272 | a new account signs in with no likes; a refusal gives the generic message; a failed request gives the server's message or the generic one |
| Provider.PlayerProvider.Logout | src/App.tsx:274-282 | the session, likes, playlists and open playlist are dropped and the home page is shown; everything else, including follows, is kept |
| Provider.PlayerProvider.PlaySong | src/App.tsx:299-313 | playback becomes `PlayTrack` of the old playback; the rest of the state is kept |
| Provider.PlayerProvider.TogglePlay | src/App.tsx:315-319 | playback becomes `TogglePlaying` of the old playback |
| Provider.PlayerProvider.ToggleRepeat | src/App.tsx:321-324 | the mode moves to the next one and the toast names it |
| Provider.PlayerProvider.NextSong | src/App.tsx:326-343 | playback becomes `Next` of the old playback |
| Provider.PlayerProvider.PrevSong | src/App.tsx:345-350 | playback becomes `Prev` of the old playback |
| Provider.PlayerProvider.ToggleLike | src/App.tsx:356-379 | signed out: only the sign-in prompt; with a successful request the song's like flips; with a failed request the likes are exactly what they were |
| Provider.PlayerProvider.ToggleFollowArtist | src/App.tsx:381-394 | signed in, the artist's follow flips with its toast; signed out, only the prompt |
| Provider.PlayerProvider.CreatePlaylist | src/App.tsx:396-419 | the sign-in gate, then the missing-id error; on success the new playlist is merged and the dialog closes; on failure the server's message or the default one |
| Provider.PlayerProvider.DeletePlaylist | src/App.tsx:421-435 | unconfirmed does nothing; a success removes every playlist with the id and closes it when it is open; a failure only reports |
| Provider.PlayerProvider.EditOwned | src/App.tsx:440-458 | refused when the listed playlist has another owner; otherwise the edit applies to the list and the open playlist, and a failed request is not undone |
| Provider.PlayerProvider.UpdatePlaylistCover | src/App.tsx:437-459 | the sign-in gate; an empty cover does nothing; otherwise the ownership check and the cover edit |
| Provider.PlayerProvider.UpdatePlaylistName | src/App.tsx:461-483 | the sign-in gate; a blank name after trimming does nothing; otherwise the ownership check and the rename with the untrimmed name |
| Provider.PlayerProvider.AddSongToPlaylist | src/App.tsx:485-508 | the sign-in gate, then the checks of `AddSongPlan`: an unknown playlist changes nothing, the other refusals only toast, and an accepted song updates exactly that listed playlist |
| Provider.PlayerProvider.AppendToPlaylist | src/App.tsx:494-507 | the listed playlist gets the new songs and cover, the dialog closes and the toast reports the request |
| Provider.PlayerProvider.OpenAddDialog | src/App.tsx:511 | signed in, the dialog opens on the song; otherwise only the prompt |
| Provider.PlayerProvider.CloseAddDialog | src/App.tsx:512 | only the dialog closes |

## Left out

- Rendering, styling, `SparkleBackground` (random particles), the canvas colour extraction and the theme colour with its local-storage persistence: these are UI and pixel work.
- The lyric download and selection effect (src/App.tsx:203-224): it is network I/O. Catalogue songs are loaded with empty lyrics. The parser itself is modelled.
- The `<audio>` element, `setTimeout(…, 0)`, volume, `handleTimeUpdate` and float `currentTime`: the start of playback is the `playOk` input, and positions are integer milliseconds.
- Toast dismissal after three seconds: `toast` holds the last message shown.
  - Where a handler shows a progress toast before the final one, only the final one is kept.
- `goToArtist`, `currentArtist` and `showLyrics`: they are page navigation only.
- Local storage: the stored session is the `stored` parameter of `RestoreSession`.
- React's batching of state updates: each handler's updates are applied in order, as one step.
  - Functional updaters that would see updates from concurrent handlers are not modelled.
- The `_id`/`id` aliasing of records: every record has one canonical id.
- bcrypt: the digest and the comparison are abstract.
- Mongoose schemas and validation beyond required names, Express wiring, CORS and the song routes: they are plumbing.
- A missing field and an empty string are not distinguished.
  - A missing `userId`, cover or description is `""`.
  - A missing `isPublic` is `false`, as `isPublic || false` makes it.
- Server.SessionOf: the user object the register and login routes return also carries the account's `playlists`; the client never reads it, so the session leaves it out.
- Server.Store.Register: a failed save is modelled only for an empty username or email, not for other database errors.
- Library.Lower, Library.LowerChar: `toLowerCase` is modelled on ASCII letters only; other Unicode case mappings are not.
- Lrc.Parse: a text that is present but not a string is folded into `None`.
- Lrc.ParseLine: times are exact integer milliseconds, whereas the source adds floats (`minutes * 60 + seconds + msValue`); float rounding is not modelled.
- Concrete whole-text parse examples are not included; worked examples are given at the tag level.
