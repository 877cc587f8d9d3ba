/**
 * The LRC lyric parser of the player client (`parseLRC`, src/App.tsx:136-154).
 *
 * Raw lyric text is split into lines on `\r?\n`; in every line the first
 * `[mm:ss.xx]`, `[mm:ss:xx]`, `[mm:ss.xxx]` or `[mm:ss:xxx]` tag found
 * anywhere in the line gives the time, that one tag is cut out, the rest is
 * trimmed and kept when non-empty. The result is sorted stably by time.
 * Times are integer milliseconds: a 3-digit fraction is already in
 * milliseconds, a 2-digit one is in hundredths and is multiplied by 10.
 */
module Lrc {
  import opened Records

  /** One timed lyric line; `time` is in milliseconds. */
  datatype LyricLine = LyricLine(time: int, text: string)

  // ---------------------------------------------------------------------
  // Whitespace and trim
  // ---------------------------------------------------------------------

  /** The characters `String.prototype.trim` strips: ECMAScript WhiteSpace and LineTerminator. */
  predicate IsSpace(c: char) {
    c == '\t' || c == '\n' || c == '\U{B}' || c == '\U{C}' || c == '\r' || c == ' '
    || c == '\U{A0}' || c == '\U{1680}' || ('\U{2000}' <= c <= '\U{200A}')
    || c == '\U{2028}' || c == '\U{2029}' || c == '\U{202F}' || c == '\U{205F}'
    || c == '\U{3000}' || c == '\U{FEFF}'
  }

  /** `s` with its leading whitespace removed. */
  function TrimStart(s: string): (r: string)
    ensures |r| <= |s| && r == s[|s| - |r|..]
    ensures forall k :: 0 <= k < |s| - |r| ==> IsSpace(s[k])
    ensures r != [] ==> !IsSpace(r[0])
  {
    if s != [] && IsSpace(s[0]) then TrimStart(s[1..]) else s
  }

  /** `s` with its trailing whitespace removed. */
  function TrimEnd(s: string): (r: string)
    ensures |r| <= |s| && r == s[..|r|]
    ensures forall k :: |r| <= k < |s| ==> IsSpace(s[k])
    ensures r != [] ==> !IsSpace(r[|r| - 1])
  {
    if s != [] && IsSpace(s[|s| - 1]) then TrimEnd(s[..|s| - 1]) else s
  }

  /** `String.prototype.trim`: a slice of `s` that neither starts nor ends with whitespace. */
  function Trim(s: string): (r: string)
    ensures r != [] ==> !IsSpace(r[0]) && !IsSpace(r[|r| - 1])
  {
    TrimEnd(TrimStart(s))
  }

  /** Every character of `s[lo..hi]` is whitespace. */
  predicate SpaceOnly(s: string, lo: nat, hi: nat)
    requires lo <= hi <= |s|
  {
    forall k :: lo <= k < hi ==> IsSpace(s[k])
  }

  /** What trim cuts off on either side is whitespace only; what it keeps is one slice of `s`. */
  lemma TrimIsSlice(s: string)
    ensures exists i: nat, j: nat ::
      i <= j <= |s| && Trim(s) == s[i..j] && SpaceOnly(s, 0, i) && SpaceOnly(s, j, |s|)
  {
    var a := TrimStart(s);
    var t := TrimEnd(a);
    var i := |s| - |a|;
    assert SpaceOnly(s, 0, i);
    assert SpaceOnly(a, |t|, |a|);
    PrefixOfSuffix(s, a, t);
    assert Trim(s) == t;
  }

  /** A prefix `t` of the suffix `a` of `s` is a slice of `s`, and what follows `t` in `a` ends `s`. */
  lemma PrefixOfSuffix(s: string, a: string, t: string)
    requires |t| <= |a| <= |s| && a == s[|s| - |a|..] && t == a[..|t|]
    requires SpaceOnly(a, |t|, |a|)
    ensures t == s[|s| - |a|..|s| - |a| + |t|]
    ensures SpaceOnly(s, |s| - |a| + |t|, |s|)
  {
    var i := |s| - |a|;
    forall k | i + |t| <= k < |s| ensures IsSpace(s[k]) {
      assert s[k] == a[k - i];
    }
  }

  // ---------------------------------------------------------------------
  // Splitting on /\r?\n/
  // ---------------------------------------------------------------------

  /** The index of the first '\n' in `s`, or `|s|` when there is none. */
  function FirstNewline(s: string): (i: nat)
    ensures i <= |s|
    ensures forall k :: 0 <= k < i ==> s[k] != '\n'
    ensures i < |s| ==> s[i] == '\n'
  {
    if s == [] then 0 else if s[0] == '\n' then 0 else 1 + FirstNewline(s[1..])
  }

  /** The first '\n' is at `i` exactly when nothing before `i` is one and `i` is one or the end. */
  lemma {:induction false} FirstNewlineIs(s: string, i: nat)
    requires i <= |s|
    requires forall k :: 0 <= k < i ==> s[k] != '\n'
    requires i < |s| ==> s[i] == '\n'
    ensures FirstNewline(s) == i
  {
    if s != [] && s[0] != '\n' {
      FirstNewlineIs(s[1..], i - 1);
    }
  }

  /** A piece before a '\n' loses the one '\r' that the separator `\r?\n` swallows. */
  function DropCarriageReturn(piece: string): string {
    if piece != [] && piece[|piece| - 1] == '\r' then piece[..|piece| - 1] else piece
  }

  /** `text.split(/\r?\n/)`: always at least one line, none holding a '\n'. */
  function Lines(s: string): (ls: seq<string>)
    ensures |ls| >= 1
    ensures forall k :: 0 <= k < |ls| ==> '\n' !in ls[k]
    decreases |s|
  {
    var i := FirstNewline(s);
    if i == |s| then [s]
    else
      assert '\n' !in s[..i] by {
        forall k | 0 <= k < i ensures s[..i][k] != '\n' { }
      }
      [DropCarriageReturn(s[..i])] + Lines(s[i + 1..])
  }

  /** A text without '\n' is a single line. */
  lemma LinesOfLine(a: string)
    requires '\n' !in a
    ensures Lines(a) == [a]
  {
    FirstNewlineIs(a, |a|);
  }

  /** A line not ending in '\r', a '\n', then the rest: the line comes first, unchanged. */
  lemma LinesOfJoin(a: string, b: string)
    requires '\n' !in a && (a == [] || a[|a| - 1] != '\r')
    ensures Lines(a + "\n" + b) == [a] + Lines(b)
  {
    var t := a + "\n" + b;
    FirstNewlineIs(t, |a|);
    assert t[..|a|] == a;
    assert t[|a| + 1..] == b;
  }

  /** A CRLF break: the '\r' in front of the '\n' goes with the separator, whatever the line ends in. */
  lemma LinesOfCrlfJoin(a: string, b: string)
    requires '\n' !in a
    ensures Lines(a + "\r\n" + b) == [a] + Lines(b)
  {
    var t := a + "\r\n" + b;
    FirstNewlineIs(t, |a| + 1);
    assert t[..|a| + 1] == a + "\r";
    assert (a + "\r")[..|a|] == a;
    assert t[|a| + 2..] == b;
  }

  /** Lines glued with CRLF breaks. */
  function JoinCrlf(ls: seq<string>): string
    requires |ls| >= 1
  {
    if |ls| == 1 then ls[0] else ls[0] + "\r\n" + JoinCrlf(ls[1..])
  }

  /** Splitting a CRLF text gives back its lines, whatever '\r' they hold themselves. */
  lemma {:induction false} LinesOfJoinCrlf(ls: seq<string>)
    requires |ls| >= 1 && forall k :: 0 <= k < |ls| ==> '\n' !in ls[k]
    ensures Lines(JoinCrlf(ls)) == ls
    decreases |ls|
  {
    if |ls| == 1 {
      LinesOfLine(ls[0]);
    } else {
      var rest := ls[1..];
      assert forall k :: 0 <= k < |rest| ==> '\n' !in rest[k] by {
        forall k | 0 <= k < |rest| ensures '\n' !in rest[k] { assert rest[k] == ls[k + 1]; }
      }
      LinesOfJoinCrlf(rest);
      LinesOfCrlfJoin(ls[0], JoinCrlf(rest));
      assert ls == [ls[0]] + rest;
    }
  }

  /** The inverse of splitting on '\n': the lines glued back with '\n'. */
  function JoinLines(ls: seq<string>): string
    requires |ls| >= 1
  {
    if |ls| == 1 then ls[0] else ls[0] + "\n" + JoinLines(ls[1..])
  }

  /** Text without '\r' splits into lines that join back to the very same text. */
  lemma {:induction false} LinesJoinBack(s: string)
    requires '\r' !in s
    ensures JoinLines(Lines(s)) == s
    decreases |s|
  {
    var i := FirstNewline(s);
    if i < |s| {
      var rest := s[i + 1..];
      LinesSplitAt(s, i);
      LinesJoinBack(rest);
      JoinLinesCons(s[..i], Lines(rest));
      assert s == s[..i] + "\n" + rest;
    } else {
      assert Lines(s) == [s];
    }
  }

  /** One step of the split of a text without '\r': the first line, then the lines of the rest. */
  lemma LinesSplitAt(s: string, i: nat)
    requires '\r' !in s && i == FirstNewline(s) < |s|
    ensures '\r' !in s[i + 1..]
    ensures Lines(s) == [s[..i]] + Lines(s[i + 1..])
  {
    var rest := s[i + 1..];
    forall k | 0 <= k < |rest| ensures rest[k] != '\r' { assert rest[k] == s[i + 1 + k]; }
    var line := s[..i];
    if i > 0 {
      assert line[i - 1] == s[i - 1];
    }
  }

  lemma JoinLinesCons(line: string, ls: seq<string>)
    requires |ls| >= 1
    ensures JoinLines([line] + ls) == line + "\n" + JoinLines(ls)
  {
    assert ([line] + ls)[1..] == ls;
  }

  // ---------------------------------------------------------------------
  // The time tag /\[(\d{2}):(\d{2})[.:](\d{2,3})\]/
  // ---------------------------------------------------------------------

  predicate IsDigit(c: char) { '0' <= c <= '9' }

  function DigitValue(c: char): nat
    requires IsDigit(c)
  {
    c as int - '0' as int
  }

  /** `parseInt(digits, 10)` of a string of decimal digits. */
  function DecimalValue(digits: string): nat
    requires forall k :: 0 <= k < |digits| ==> IsDigit(digits[k])
  {
    if digits == [] then 0
    else 10 * DecimalValue(digits[..|digits| - 1]) + DigitValue(digits[|digits| - 1])
  }

  lemma DecimalValueOfTwo(d: string)
    requires |d| == 2 && IsDigit(d[0]) && IsDigit(d[1])
    ensures DecimalValue(d) == 10 * DigitValue(d[0]) + DigitValue(d[1])
  {
    var one := d[..1];
    assert one[..0] == [] && one[0] == d[0];
    assert DecimalValue(one) == DigitValue(d[0]);
    assert DecimalValue(d) == 10 * DecimalValue(one) + DigitValue(d[1]);
  }

  lemma DecimalValueOfThree(d: string)
    requires |d| == 3 && IsDigit(d[0]) && IsDigit(d[1]) && IsDigit(d[2])
    ensures DecimalValue(d) == 100 * DigitValue(d[0]) + 10 * DigitValue(d[1]) + DigitValue(d[2])
  {
    var two := d[..|d| - 1];
    assert two[0] == d[0] && two[1] == d[1];
    DecimalValueOfTwo(two);
    assert DecimalValue(d) == 10 * DecimalValue(two) + DigitValue(d[2]);
  }

  /** A match of the tag: where it starts, how many characters it spans, and its time in ms. */
  datatype Tag = Tag(start: nat, len: nat, ms: nat)

  /**
   * The tag that the regular expression matches when it is tried at position
   * `p`. `\d{2,3}` is greedy, so three fraction digits win when a ']'
   * follows them; otherwise two fraction digits must be followed by ']'.
   */
  function TagAt(s: string, p: nat): (r: Option<Tag>)
    ensures r.Some? ==> r.value.start == p && (r.value.len == 10 || r.value.len == 11)
    ensures r.Some? ==> p + r.value.len <= |s|
  {
    if p + 10 <= |s| && s[p] == '[' && IsDigit(s[p + 1]) && IsDigit(s[p + 2]) && s[p + 3] == ':'
       && IsDigit(s[p + 4]) && IsDigit(s[p + 5]) && (s[p + 6] == '.' || s[p + 6] == ':')
       && IsDigit(s[p + 7]) && IsDigit(s[p + 8])
    then
      var minutes := 10 * DigitValue(s[p + 1]) + DigitValue(s[p + 2]);
      var seconds := 10 * DigitValue(s[p + 4]) + DigitValue(s[p + 5]);
      var hundredths := 10 * DigitValue(s[p + 7]) + DigitValue(s[p + 8]);
      if p + 11 <= |s| && IsDigit(s[p + 9]) && s[p + 10] == ']' then
        Some(Tag(p, 11, minutes * 60000 + seconds * 1000 + 10 * hundredths + DigitValue(s[p + 9])))
      else if s[p + 9] == ']' then
        Some(Tag(p, 10, minutes * 60000 + seconds * 1000 + 10 * hundredths))
      else
        None
    else
      None
  }

  /**
   * A match is `[`, two minute digits, `:`, two second digits, `.` or `:`,
   * two or three fraction digits and `]`; its time is minutes * 60 s plus
   * seconds plus the fraction, read as thousandths when it has three digits
   * and as hundredths when it has two.
   */
  lemma TagAtMeaning(s: string, p: nat)
    requires TagAt(s, p).Some?
    ensures var t := TagAt(s, p).value;
      && s[p] == '[' && s[p + 3] == ':' && (s[p + 6] == '.' || s[p + 6] == ':')
      && s[p + t.len - 1] == ']'
      && (forall k :: p + 1 <= k < p + t.len - 1 && k != p + 3 && k != p + 6 ==> IsDigit(s[k]))
    ensures var t := TagAt(s, p).value; t.len == 11 ==>
      t.ms == DecimalValue(s[p + 1..p + 3]) * 60000 + DecimalValue(s[p + 4..p + 6]) * 1000
              + DecimalValue(s[p + 7..p + 10])
    ensures var t := TagAt(s, p).value; t.len == 10 ==>
      t.ms == DecimalValue(s[p + 1..p + 3]) * 60000 + DecimalValue(s[p + 4..p + 6]) * 1000
              + DecimalValue(s[p + 7..p + 9]) * 10
  {
    DecimalValueOfTwo(s[p + 1..p + 3]);
    DecimalValueOfTwo(s[p + 4..p + 6]);
    DecimalValueOfTwo(s[p + 7..p + 9]);
    if TagAt(s, p).value.len == 11 {
      DecimalValueOfThree(s[p + 7..p + 10]);
    }
  }

  /**
   * The part of the tag's layout shared by both lengths at `p`: `[`, two
   * digits, `:`, two digits, `.` or `:`, two digits.
   */
  predicate TagHead(s: string, p: nat) {
    && p + 10 <= |s| && s[p] == '[' && IsDigit(s[p + 1]) && IsDigit(s[p + 2]) && s[p + 3] == ':'
    && IsDigit(s[p + 4]) && IsDigit(s[p + 5]) && (s[p + 6] == '.' || s[p + 6] == ':')
    && IsDigit(s[p + 7]) && IsDigit(s[p + 8])
  }

  /**
   * The converse of `TagAtMeaning`: the layout at `p` is matched. A third
   * fraction digit followed by `]` gives the 11-character tag; otherwise a
   * `]` after two fraction digits gives the 10-character one; anything else,
   * or a broken head, gives no match.
   */
  lemma TagAtComplete(s: string, p: nat)
    ensures !TagHead(s, p) ==> TagAt(s, p).None?
    ensures TagHead(s, p) && p + 11 <= |s| && IsDigit(s[p + 9]) && s[p + 10] == ']' ==>
      TagAt(s, p) == Some(Tag(p, 11, DecimalValue(s[p + 1..p + 3]) * 60000 + DecimalValue(s[p + 4..p + 6]) * 1000
                                     + DecimalValue(s[p + 7..p + 10])))
    ensures TagHead(s, p) && s[p + 9] == ']' ==>
      TagAt(s, p) == Some(Tag(p, 10, DecimalValue(s[p + 1..p + 3]) * 60000 + DecimalValue(s[p + 4..p + 6]) * 1000
                                     + DecimalValue(s[p + 7..p + 9]) * 10))
    ensures TagHead(s, p) && s[p + 9] != ']' && !(p + 11 <= |s| && IsDigit(s[p + 9]) && s[p + 10] == ']') ==>
      TagAt(s, p).None?
  {
    if TagHead(s, p) {
      DecimalValueOfTwo(s[p + 1..p + 3]);
      DecimalValueOfTwo(s[p + 4..p + 6]);
      DecimalValueOfTwo(s[p + 7..p + 9]);
      if p + 11 <= |s| && IsDigit(s[p + 9]) && s[p + 10] == ']' {
        DecimalValueOfThree(s[p + 7..p + 10]);
      }
    }
  }

  /** `timeReg.exec(line)`: the leftmost position, from `from` on, where the tag matches. */
  function FirstTag(s: string, from: nat): (r: Option<Tag>)
    ensures r.Some? ==> from <= r.value.start && r.value.start + r.value.len <= |s|
    decreases |s| - from
  {
    if from >= |s| then None
    else match TagAt(s, from)
      case Some(t) => Some(t)
      case None => FirstTag(s, from + 1)
  }

  /** The tag found is a match, and no match starts any earlier. */
  lemma {:induction false} FirstTagIsLeftmost(s: string, from: nat)
    ensures FirstTag(s, from).Some? ==> TagAt(s, FirstTag(s, from).value.start) == FirstTag(s, from)
    ensures FirstTag(s, from).Some? ==> forall p :: from <= p < FirstTag(s, from).value.start ==> TagAt(s, p).None?
    ensures FirstTag(s, from).None? ==> forall p :: from <= p ==> TagAt(s, p).None?
    decreases |s| - from
  {
    if from < |s| && TagAt(s, from).None? {
      FirstTagIsLeftmost(s, from + 1);
    }
  }

  /**
   * One line of the `forEach`: the lyric it contributes, if any. The first
   * tag is removed (a non-global `replace`), the rest trimmed, and an empty
   * remainder dropped.
   */
  function ParseLine(line: string): (r: Option<LyricLine>)
    ensures FirstTag(line, 0).None? ==> r.None?
    ensures r.Some? ==> r.value.text != [] && !IsSpace(r.value.text[0])
                        && !IsSpace(r.value.text[|r.value.text| - 1])
    ensures r.Some? ==> r.value.time == FirstTag(line, 0).value.ms
  {
    match FirstTag(line, 0)
    case None => None
    case Some(t) =>
      assert t.start + t.len <= |line|;
      var text := Trim(line[..t.start] + line[t.start + t.len..]);
      if text == [] then None else Some(LyricLine(t.ms, text))
  }

  /**
   * A line whose leftmost match is at `p` yields the text around that one
   * match, trimmed, timed by the match, exactly when that text is not
   * blank; a line with no match anywhere yields nothing.
   */
  lemma ParseLineMeaning(line: string, p: nat)
    requires TagAt(line, p).Some? && forall q :: 0 <= q < p ==> TagAt(line, q).None?
    ensures var t := TagAt(line, p).value;
            var text := Trim(line[..p] + line[p + t.len..]);
            ParseLine(line) == if text == [] then None else Some(LyricLine(t.ms, text))
  {
    FirstTagAt(line, p);
  }

  /** The leftmost match is the one `exec` finds. */
  lemma FirstTagAt(line: string, p: nat)
    requires TagAt(line, p).Some? && forall q :: 0 <= q < p ==> TagAt(line, q).None?
    ensures FirstTag(line, 0) == TagAt(line, p)
  {
    FirstTagIsLeftmost(line, 0);
    assert FirstTag(line, 0).Some?;
    var q := FirstTag(line, 0).value.start;
    assert TagAt(line, q).Some?;
    assert q == p;
  }

  /** A line with no match anywhere yields nothing. */
  lemma ParseLineWithoutTag(line: string)
    requires forall q :: TagAt(line, q).None?
    ensures ParseLine(line).None?
  {
    FirstTagIsLeftmost(line, 0);
  }

  /** The line-by-line outcome of the `forEach`: what each line would push, if anything. */
  function ParsedLines(lines: seq<string>): (r: seq<Option<LyricLine>>)
    ensures |r| == |lines|
  {
    if lines == [] then [] else [ParseLine(lines[0])] + ParsedLines(lines[1..])
  }

  lemma {:induction false} ParsedLinesAt(lines: seq<string>, i: nat)
    requires i < |lines|
    ensures ParsedLines(lines)[i] == ParseLine(lines[i])
  {
    if i > 0 {
      ParsedLinesAt(lines[1..], i - 1);
    }
  }

  /** The lyrics actually pushed, in line order. */
  function Pushed(parsed: seq<Option<LyricLine>>): seq<LyricLine> {
    if parsed == [] then []
    else (if parsed[0].Some? then [parsed[0].value] else []) + Pushed(parsed[1..])
  }

  /** The array `lyrics` holds after the `forEach` over `lines`. */
  function Harvest(lines: seq<string>): seq<LyricLine> {
    Pushed(ParsedLines(lines))
  }

  /** Every line contributes at most one lyric, so there are never more lyrics than lines. */
  lemma {:induction false} PushedBounded(parsed: seq<Option<LyricLine>>)
    ensures |Pushed(parsed)| <= |parsed|
  {
    if parsed != [] {
      PushedBounded(parsed[1..]);
    }
  }

  /** A lyric is pushed exactly when some line produced it. */
  lemma {:induction false} PushedMembers(parsed: seq<Option<LyricLine>>, l: LyricLine)
    ensures l in Pushed(parsed) <==> exists i :: 0 <= i < |parsed| && parsed[i] == Some(l)
  {
    if parsed != [] {
      var rest := parsed[1..];
      PushedMembers(rest, l);
      if l in Pushed(parsed) {
        if l in Pushed(rest) {
          var i :| 0 <= i < |rest| && rest[i] == Some(l);
          assert parsed[i + 1] == rest[i];
        }
      } else {
        forall i | 0 <= i < |parsed| ensures parsed[i] != Some(l) {
          if i > 0 {
            assert parsed[i] == rest[i - 1];
          }
        }
      }
    }
  }

  // ---------------------------------------------------------------------
  // Stable sort by time (`lyrics.sort((a, b) => a.time - b.time)`)
  // ---------------------------------------------------------------------

  predicate SortedByTime(s: seq<LyricLine>) {
    forall i, j :: 0 <= i < j < |s| ==> s[i].time <= s[j].time
  }

  /** The lyrics of `s` with time `t`, in their order in `s`. */
  function AtTime(s: seq<LyricLine>, t: int): seq<LyricLine> {
    if s == [] then [] else (if s[0].time == t then [s[0]] else []) + AtTime(s[1..], t)
  }

  /** Places `x` in front of the first element of `s` that is not earlier than it. */
  function Insert(x: LyricLine, s: seq<LyricLine>): seq<LyricLine> {
    if s == [] || x.time <= s[0].time then [x] + s
    else [s[0]] + Insert(x, s[1..])
  }

  /** A stable sort by time, as ECMAScript 2019 requires of `Array.prototype.sort`. */
  function SortByTime(s: seq<LyricLine>): seq<LyricLine> {
    if s == [] then [] else Insert(s[0], SortByTime(s[1..]))
  }

  lemma {:induction false} InsertPermutation(x: LyricLine, s: seq<LyricLine>)
    ensures multiset(Insert(x, s)) == multiset{x} + multiset(s)
  {
    if s != [] && x.time > s[0].time {
      InsertPermutation(x, s[1..]);
      assert s == [s[0]] + s[1..];
    }
  }

  lemma {:induction false} InsertMembers(x: LyricLine, s: seq<LyricLine>)
    ensures forall e :: e in Insert(x, s) <==> e == x || e in s
  {
    if s != [] && x.time > s[0].time {
      InsertMembers(x, s[1..]);
      assert Insert(x, s) == [s[0]] + Insert(x, s[1..]);
      assert s == [s[0]] + s[1..];
    }
  }

  lemma {:induction false} InsertSorted(x: LyricLine, s: seq<LyricLine>)
    requires SortedByTime(s)
    ensures SortedByTime(Insert(x, s))
  {
    if s != [] && x.time > s[0].time {
      var ins := Insert(x, s[1..]);
      InsertSorted(x, s[1..]);
      InsertMembers(x, s[1..]);
      var r := [s[0]] + ins;
      assert Insert(x, s) == r;
      forall i, j | 0 <= i < j < |r| ensures r[i].time <= r[j].time {
        if i == 0 {
          assert r[j] == ins[j - 1] && r[j] in ins;
          if r[j] != x {
            var k :| 0 <= k < |s[1..]| && s[1..][k] == r[j];
            assert s[k + 1] == r[j];
          }
        } else {
          assert r[i] == ins[i - 1] && r[j] == ins[j - 1];
        }
      }
    }
  }

  lemma {:induction false} InsertAtTime(x: LyricLine, s: seq<LyricLine>, t: int)
    requires SortedByTime(s)
    ensures AtTime(Insert(x, s), t) == (if x.time == t then [x] else []) + AtTime(s, t)
  {
    if s != [] && x.time > s[0].time {
      var rest := Insert(x, s[1..]);
      InsertAtTime(x, s[1..], t);
      var ins := [s[0]] + rest;
      assert Insert(x, s) == ins;
      assert ins[0] == s[0] && ins[1..] == rest;
      assert AtTime(ins, t) == (if s[0].time == t then [s[0]] else []) + AtTime(rest, t);
      assert AtTime(s, t) == (if s[0].time == t then [s[0]] else []) + AtTime(s[1..], t);
    } else {
      var ins := [x] + s;
      assert Insert(x, s) == ins;
      assert ins[0] == x && ins[1..] == s;
      assert AtTime(ins, t) == (if x.time == t then [x] else []) + AtTime(s, t);
    }
  }

  /** The sort yields an ordering by time. */
  lemma {:induction false} SortByTimeSorted(s: seq<LyricLine>)
    ensures SortedByTime(SortByTime(s))
  {
    if s != [] {
      SortByTimeSorted(s[1..]);
      InsertSorted(s[0], SortByTime(s[1..]));
    }
  }

  /** The sort only reorders: its output is a permutation of its input. */
  lemma {:induction false} SortByTimePermutation(s: seq<LyricLine>)
    ensures multiset(SortByTime(s)) == multiset(s)
  {
    if s != [] {
      SortByTimePermutation(s[1..]);
      InsertPermutation(s[0], SortByTime(s[1..]));
      assert s == [s[0]] + s[1..];
    }
  }

  /** Stability: the lyrics sharing one time keep the order they had in the input. */
  lemma {:induction false} SortByTimeStable(s: seq<LyricLine>, t: int)
    ensures AtTime(SortByTime(s), t) == AtTime(s, t)
  {
    if s != [] {
      SortByTimeStable(s[1..], t);
      SortByTimeSorted(s[1..]);
      InsertAtTime(s[0], SortByTime(s[1..]), t);
    }
  }

  // ---------------------------------------------------------------------
  // parseLRC
  // ---------------------------------------------------------------------

  /**
   * What `parseLRC` returns: nothing for a missing, non-string or empty
   * input, else the stably sorted harvest of the text's lines. `None`
   * stands for any value that is not a string.
   */
  function Parse(raw: Option<string>): seq<LyricLine> {
    if raw.None? || raw.value == "" then [] else SortByTime(Harvest(Lines(raw.value)))
  }

  /** A missing, non-string or empty input yields no lyrics; otherwise at most one per line. */
  lemma ParseBounded(raw: Option<string>)
    ensures raw.None? || raw == Some("") ==> Parse(raw) == []
    ensures raw.Some? ==> |Parse(raw)| <= |Lines(raw.value)|
  {
    if raw.Some? && raw.value != "" {
      var h := Harvest(Lines(raw.value));
      SortByTimePermutation(h);
      PushedBounded(ParsedLines(Lines(raw.value)));
      assert |Parse(raw)| == |multiset(Parse(raw))| == |multiset(h)| == |h|;
    }
  }

  /** The lyrics come out ordered by time. */
  lemma ParseSorted(raw: Option<string>)
    ensures SortedByTime(Parse(raw))
  {
    if raw.Some? && raw.value != "" {
      SortByTimeSorted(Harvest(Lines(raw.value)));
    }
  }

  /** Lyrics with equal times keep the order of the lines they came from. */
  lemma ParseStable(s: string, t: int)
    requires s != ""
    ensures AtTime(Parse(Some(s)), t) == AtTime(Harvest(Lines(s)), t)
  {
    SortByTimeStable(Harvest(Lines(s)), t);
  }

  /** Sorting a harvest neither adds nor loses lyrics: membership is decided line by line. */
  lemma SortedHarvestMembers(parsed: seq<Option<LyricLine>>, l: LyricLine)
    ensures l in SortByTime(Pushed(parsed)) <==> exists i :: 0 <= i < |parsed| && parsed[i] == Some(l)
  {
    var h := Pushed(parsed);
    SortByTimePermutation(h);
    assert l in SortByTime(h) <==> l in multiset(SortByTime(h));
    PushedMembers(parsed, l);
  }

  /** The empty text is the single empty line, which carries no tag. */
  lemma EmptyTextHasNoLyric()
    ensures ParsedLines(Lines("")) == [None]
  {
    assert Lines("") == [""];
    assert FirstTag("", 0).None?;
  }

  lemma NonEmptyParseMembers(s: string, l: LyricLine)
    requires s != ""
    ensures l in Parse(Some(s)) <==> exists i :: 0 <= i < |Lines(s)| && ParsedLines(Lines(s))[i] == Some(l)
  {
    var parsed := ParsedLines(Lines(s));
    assert Parse(Some(s)) == SortByTime(Pushed(parsed));
    SortedHarvestMembers(parsed, l);
    if l in Parse(Some(s)) {
      var i :| 0 <= i < |parsed| && parsed[i] == Some(l);
      assert 0 <= i < |Lines(s)| && ParsedLines(Lines(s))[i] == Some(l);
    }
    if exists i :: 0 <= i < |Lines(s)| && ParsedLines(Lines(s))[i] == Some(l) {
      var i :| 0 <= i < |Lines(s)| && ParsedLines(Lines(s))[i] == Some(l);
      assert 0 <= i < |parsed| && parsed[i] == Some(l);
    }
  }

  /**
   * A lyric is in the result exactly when some line of the text yields it
   * (`ParsedLinesAt` says the i-th outcome is `ParseLine` of the i-th line).
   */
  lemma ParseMembers(s: string, l: LyricLine)
    ensures l in Parse(Some(s)) <==> exists i :: 0 <= i < |Lines(s)| && ParsedLines(Lines(s))[i] == Some(l)
  {
    if s == "" {
      EmptyTextHasNoLyric();
    } else {
      NonEmptyParseMembers(s, l);
    }
  }

  /** The `forEach` of `parseLRC`: every line that yields a lyric pushes it, in line order. */
  method HarvestLines(lines: seq<string>) returns (pushed: seq<LyricLine>)
    ensures pushed == Harvest(lines)
  {
    ghost var outcomes := ParsedLines(lines);
    pushed := [];
    var i := 0;
    while i < |lines|
      invariant 0 <= i <= |lines|
      invariant pushed + Pushed(outcomes[i..]) == Harvest(lines)
    {
      assert outcomes[i..][1..] == outcomes[i + 1..];
      var parsed := ParseLine(lines[i]);
      ParsedLinesAt(lines, i);
      if parsed.Some? {
        pushed := pushed + [parsed.value];
      }
      i := i + 1;
    }
    assert outcomes[i..] == [];
  }

  /**
   * `parseLRC` as the source writes it: nothing for a missing or empty
   * text, else split, harvest, then the stable sort by time.
   */
  method ParseLrc(raw: Option<string>) returns (lyrics: seq<LyricLine>)
    ensures lyrics == Parse(raw)
    ensures SortedByTime(lyrics)
    ensures raw.Some? ==> |lyrics| <= |Lines(raw.value)|
  {
    ParseSorted(raw);
    ParseBounded(raw);
    if raw.None? || raw.value == "" {
      return [];
    }
    var pushed := HarvestLines(Lines(raw.value));
    lyrics := SortByTime(pushed);
  }
}
