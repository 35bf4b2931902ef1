/** The client's LRC lyrics: the time-tag parser and the search for the line
    that is playing. Times are whole milliseconds. */
module Lyrics {

  import opened Wrappers
  import opened JsText

  datatype Lyric = Lyric(time: nat, text: string)

  /** One match of `\[(\d{2,3}):(\d{2})(?:\.(\d{2,3}))?\]`: where it starts,
      how long it is, and the three captured digit strings ("" when the
      fraction is absent). */
  datatype Match = Match(at: nat, length: nat, minutes: string, seconds: string, fraction: string)

  /** `msStr.padEnd(3, '0').substring(0, 3)`, parsed, with `match[3] || '0'`. */
  function Millis(fraction: string): (ms: nat)
    ensures ms < 1000
  {
    var padded := PadEnd(if fraction == "" then "0" else fraction, 3, '0');
    ParseThreeDigits(padded[..3]);
    ParseDigits(padded[..3])
  }

  lemma ParseThreeDigits(s: string)
    requires |s| == 3
    ensures ParseDigits(s) == 100 * DigitValue(s[0]) + 10 * DigitValue(s[1]) + DigitValue(s[2])
  {
    assert s[..2][..1] == s[..1];
    assert s[..1][..0] == [];
    assert ParseDigits(s[..1]) == DigitValue(s[0]);
    assert ParseDigits(s[..2]) == 10 * DigitValue(s[0]) + DigitValue(s[1]);
  }

  /** `minutes * 60 + seconds + milliseconds / 1000`, in milliseconds. */
  function TimeOf(m: Match): nat {
    ParseDigits(m.minutes) * 60000 + ParseDigits(m.seconds) * 1000 + Millis(m.fraction)
  }

  predicate DigitsAt(s: string, k: nat, n: nat) {
    k + n <= |s| && AllDigits(s[k..k + n])
  }

  /** The optional fraction and the closing bracket at `q`: ".ddd]", ".dd]"
      or "]", in the order the greedy quantifiers try them. The result is
      the length taken and the fraction digits. */
  function FractionAt(s: string, q: nat): (r: Option<(nat, string)>)
    ensures r.Some? ==> var (n, f) := r.value;
      && q + n <= |s| && n >= 1 && s[q + n - 1] == ']'
      && AllDigits(f) && |f| <= 3 && (f == "" <==> n == 1)
  {
    if q + 5 <= |s| && s[q] == '.' && DigitsAt(s, q + 1, 3) && s[q + 4] == ']' then Some((5, s[q + 1..q + 4]))
    else if q + 4 <= |s| && s[q] == '.' && DigitsAt(s, q + 1, 2) && s[q + 3] == ']' then Some((4, s[q + 1..q + 3]))
    else if q < |s| && s[q] == ']' then Some((1, ""))
    else None
  }

  /** The tag starting at `k` with `width` minute digits, if there is one. */
  function TagWith(s: string, k: nat, width: nat): (r: Option<Match>)
    requires 2 <= width <= 3
    ensures r.Some? ==> r.value.at == k && Spans(s, r.value)
  {
    var colon := k + 1 + width;
    if k < |s| && s[k] == '[' && DigitsAt(s, k + 1, width) && colon < |s| && s[colon] == ':'
       && DigitsAt(s, colon + 1, 2) then
      match FractionAt(s, colon + 3)
      case None => None
      case Some((n, f)) => Some(Match(k, 1 + width + 3 + n, s[k + 1..colon], s[colon + 1..colon + 3], f))
    else None
  }

  /** A match lies inside the line, opens with '[' and closes with ']', and
      its captures are digit strings of the regex's widths. */
  predicate ValidMatch(s: string, m: Match) {
    && m.at + m.length <= |s| && m.length >= 6
    && s[m.at] == '[' && s[m.at + m.length - 1] == ']'
    && AllDigits(m.minutes) && 2 <= |m.minutes| <= 3
    && AllDigits(m.seconds) && |m.seconds| == 2
    && AllDigits(m.fraction) && |m.fraction| <= 3 && |m.fraction| != 1
  }

  /** A match of at least the shortest tag's length lying inside the line. */
  predicate Spans(s: string, m: Match) {
    m.length >= 6 && m.at + m.length <= |s|
  }

  /** A tag found at `k` is a well-formed match. */
  lemma TagWithValid(s: string, k: nat, width: nat)
    requires 2 <= width <= 3
    ensures TagWith(s, k, width).Some? ==> ValidMatch(s, TagWith(s, k, width).value)
  {
    var colon := k + 1 + width;
    if TagWith(s, k, width).Some? {
      var m := TagWith(s, k, width).value;
      assert m.minutes == s[k + 1..k + 1 + width];
      assert m.seconds == s[colon + 1..colon + 1 + 2];
    }
  }

  /** The regex anchored at `k`: three minute digits are tried before two. */
  function TagAt(s: string, k: nat): (r: Option<Match>)
    ensures r.Some? ==> r.value.at == k && Spans(s, r.value)
  {
    var three := TagWith(s, k, 3);
    if three.Some? then three else TagWith(s, k, 2)
  }

  /** `timeRegex.exec(line)` with `lastIndex == from`: the leftmost match at
      or after `from`. */
  function NextMatch(s: string, from: nat): (r: Option<Match>)
    ensures r.Some? ==> from <= r.value.at && Spans(s, r.value)
    decreases |s| - from
  {
    if from >= |s| then None
    else if TagAt(s, from).Some? then TagAt(s, from)
    else NextMatch(s, from + 1)
  }

  /** Every match `exec` finds is a well-formed tag. */
  lemma {:induction false} NextMatchValid(s: string, from: nat)
    ensures NextMatch(s, from).Some? ==> ValidMatch(s, NextMatch(s, from).value)
    decreases |s| - from
  {
    if from < |s| {
      if TagAt(s, from).Some? {
        TagWithValid(s, from, 3);
        TagWithValid(s, from, 2);
      } else {
        NextMatchValid(s, from + 1);
      }
    }
  }

  /** The match found is the leftmost one, and none is found only when no
      position at or after `from` starts a tag. */
  lemma NextMatchLeftmost(s: string, from: nat)
    ensures var r := NextMatch(s, from);
      && (r.Some? ==> r == TagAt(s, r.value.at) && forall k :: from <= k < r.value.at ==> TagAt(s, k).None?)
      && (r.None? ==> forall k :: from <= k ==> TagAt(s, k).None?)
  {
    NextMatchFirst(s, from);
    NextMatchNone(s, from);
  }

  lemma {:induction false} NextMatchFirst(s: string, from: nat)
    ensures var r := NextMatch(s, from);
      r.Some? ==> r == TagAt(s, r.value.at) && forall k :: from <= k < r.value.at ==> TagAt(s, k).None?
    decreases |s| - from
  {
    if from < |s| && TagAt(s, from).None? {
      NextMatchFirst(s, from + 1);
    }
  }

  lemma {:induction false} NextMatchNone(s: string, from: nat)
    ensures NextMatch(s, from).None? ==> forall k :: from <= k ==> TagAt(s, k).None?
    decreases |s| - from
  {
    if from >= |s| {
      forall k | from <= k
        ensures TagAt(s, k).None?
      {
        assert !(k < |s|);
      }
    } else if TagAt(s, from).None? {
      NextMatchNone(s, from + 1);
    }
  }

  /** Every match the `while (exec)` loop sees, starting at `from`. */
  function Matches(s: string, from: nat): seq<Match>
    decreases |s| - from
  {
    match NextMatch(s, from)
    case None => []
    case Some(m) => [m] + Matches(s, m.at + m.length)
  }

  /** Every match lies inside the line at or after the search start, in
      increasing positions that do not overlap. */
  lemma {:induction false} MatchesValid(s: string, from: nat)
    ensures forall i :: 0 <= i < |Matches(s, from)| ==> InsideFrom(s, from, Matches(s, from)[i])
    ensures forall i :: 0 <= i < |Matches(s, from)| - 1 ==> Before(Matches(s, from)[i], Matches(s, from)[i + 1])
    decreases |s| - from
  {
    var r := NextMatch(s, from);
    if r.Some? {
      var m := r.value;
      NextMatchValid(s, from);
      var next := m.at + m.length;
      MatchesValid(s, next);
      var ms, rest := Matches(s, from), Matches(s, next);
      assert ms == [m] + rest;
      forall i | 0 <= i < |ms|
        ensures InsideFrom(s, from, ms[i])
      {
        if i > 0 {
          assert ms[i] == rest[i - 1];
        }
      }
      forall i | 0 <= i < |ms| - 1
        ensures Before(ms[i], ms[i + 1])
      {
        assert ms[i + 1] == rest[i];
        if i > 0 {
          assert ms[i] == rest[i - 1];
        }
      }
    }
  }

  predicate InsideFrom(s: string, from: nat, m: Match) {
    ValidMatch(s, m) && from <= m.at
  }

  /** `m` ends before `n` starts. */
  predicate Before(m: Match, n: Match) {
    m.at + m.length <= n.at
  }

  lemma MatchesStep(s: string, from: nat)
    requires NextMatch(s, from).Some?
    ensures var m := NextMatch(s, from).value;
      Matches(s, from) == [m] + Matches(s, m.at + m.length)
  {
  }

  /** The matched text. */
  function Raw(s: string, m: Match): string {
    if m.at + m.length <= |s| then s[m.at..m.at + m.length] else ""
  }

  /** `text = text.replace(match[0], '')` for each match in turn. */
  function Stripped(s: string, ms: seq<Match>): string {
    if ms == [] then s else RemoveFirst(Stripped(s, ms[..|ms| - 1]), Raw(s, ms[|ms| - 1]))
  }

  lemma StrippedStep(s: string, ms: seq<Match>, m: Match)
    ensures Stripped(s, ms + [m]) == RemoveFirst(Stripped(s, ms), Raw(s, m))
  {
    assert (ms + [m])[..|ms|] == ms;
  }

  function Times(ms: seq<Match>): (ts: seq<nat>)
    ensures |ts| == |ms| && forall i :: 0 <= i < |ms| ==> ts[i] == TimeOf(ms[i])
  {
    seq(|ms|, i requires 0 <= i < |ms| => TimeOf(ms[i]))
  }

  /** What one line contributes: one entry per tag, all with the line's text
      once the tags are removed and it is trimmed, or nothing when there is
      no tag or no text. */
  function LineEntries(line: string): seq<Lyric> {
    var ms := Matches(line, 0);
    Entries(Times(ms), Trim(Stripped(line, ms)))
  }

  /** One entry per time, all with `text`, or none when there is no time
      or no text. */
  function Entries(times: seq<nat>, text: string): (es: seq<Lyric>)
    ensures es == [] <==> times == [] || text == ""
    ensures es != [] ==> |es| == |times| && forall i :: 0 <= i < |es| ==> es[i] == Lyric(times[i], text)
  {
    if |times| > 0 && text != "" then
      seq(|times|, i requires 0 <= i < |times| => Lyric(times[i], text))
    else []
  }

  /** The entries of all lines, in line order. */
  function Collected(lines: seq<string>): seq<Lyric> {
    if lines == [] then [] else Collected(lines[..|lines| - 1]) + LineEntries(lines[|lines| - 1])
  }

  /** `lyrics.sort((a, b) => a.time - b.time)`; `Array.prototype.sort` is stable. */
  function SortByTime(s: seq<Lyric>): seq<Lyric> {
    if s == [] then [] else Insert(SortByTime(s[..|s| - 1]), s[|s| - 1])
  }

  /** `x` placed after every entry whose time is not later than its own. */
  function Insert(s: seq<Lyric>, x: Lyric): seq<Lyric> {
    if s == [] then [x]
    else if s[|s| - 1].time <= x.time then s + [x]
    else Insert(s[..|s| - 1], x) + [s[|s| - 1]]
  }

  /** What `parseLRC` returns. */
  function Parsed(lrcText: string): seq<Lyric> {
    if lrcText == "" then [] else SortByTime(Collected(Split(lrcText, '\n')))
  }

  predicate Sorted(s: seq<Lyric>) {
    forall i, j :: 0 <= i < j < |s| ==> s[i].time <= s[j].time
  }

  /** The entries with time `t`, in order. */
  function WithTime(s: seq<Lyric>, t: nat): seq<Lyric> {
    if s == [] then []
    else WithTime(s[..|s| - 1], t) + (if s[|s| - 1].time == t then [s[|s| - 1]] else [])
  }

  // ----- the parser as the client runs it -----

  /** `parseLRC(lrcText)`: split into lines, collect, sort. */
  method ParseLrc(lrcText: string) returns (lyrics: seq<Lyric>)
    ensures lyrics == Parsed(lrcText)
  {
    if lrcText == "" {
      return [];
    }
    var acc := CollectLines(Split(lrcText, '\n'));
    lyrics := SortByTime(acc);
  }

  /** `lines.forEach(...)`: the entries of each line in turn. */
  method CollectLines(lines: seq<string>) returns (acc: seq<Lyric>)
    ensures acc == Collected(lines)
  {
    acc := [];
    for i := 0 to |lines|
      invariant acc == Collected(lines[..i])
    {
      var lineTimes, text := ScanLine(lines[i]);
      acc := PushEntries(acc, lineTimes, text);
      CollectedStep(lines, i, lineTimes, text);
    }
    assert lines[..|lines|] == lines;
  }

  /** One more line adds exactly what scanning that line yields. */
  lemma CollectedStep(lines: seq<string>, i: nat, lineTimes: seq<nat>, text: string)
    requires i < |lines|
    requires lineTimes == Times(Matches(lines[i], 0)) && text == Trim(Stripped(lines[i], Matches(lines[i], 0)))
    ensures Collected(lines[..i + 1]) == Collected(lines[..i]) + Entries(lineTimes, text)
  {
    CollectedLast(lines, i);
  }

  lemma CollectedLast(lines: seq<string>, i: nat)
    requires i < |lines|
    ensures Collected(lines[..i + 1]) == Collected(lines[..i]) + LineEntries(lines[i])
  {
    var pre := lines[..i + 1];
    assert pre[..|pre| - 1] == lines[..i];
  }

  /** `lineTimes.forEach(time => lyrics.push({ time, text }))` when the
      line has tags and text. */
  method PushEntries(lyrics: seq<Lyric>, lineTimes: seq<nat>, text: string) returns (r: seq<Lyric>)
    ensures r == lyrics + Entries(lineTimes, text)
  {
    r := lyrics;
    if |lineTimes| > 0 && text != "" {
      for j := 0 to |lineTimes|
        invariant r == lyrics + seq(j, k requires 0 <= k < j => Lyric(lineTimes[k], text))
      {
        r := r + [Lyric(lineTimes[j], text)];
      }
    }
  }

  /** The body of the `forEach`: the `exec` loop pushing each tag's time
      and removing the tag from the text, then the trim. */
  method ScanLine(line: string) returns (lineTimes: seq<nat>, text: string)
    ensures lineTimes == Times(Matches(line, 0))
    ensures text == Trim(Stripped(line, Matches(line, 0)))
  {
    ghost var found: seq<Match> := [];
    lineTimes := [];
    text := line;
    var lastIndex: nat := 0;
    var m := NextMatch(line, lastIndex);
    while m.Some?
      invariant Consumed(line, found, lastIndex)
      invariant text == Stripped(line, found) && lineTimes == Times(found)
      invariant m == NextMatch(line, lastIndex)
      decreases |line| - lastIndex
    {
      var hit := m.value;
      var next := hit.at + hit.length;
      ConsumedStep(line, found, lastIndex, hit, next);
      StrippedNext(line, found, hit, next);
      TimesStep(found, hit);
      lineTimes := lineTimes + [TimeOf(hit)];
      text := RemoveFirst(text, line[hit.at..next]);
      found := found + [hit];
      lastIndex := next;
      m := NextMatch(line, lastIndex);
    }
    ConsumedAll(line, found, lastIndex);
    text := Trim(text);
  }

  /** The matches seen so far, followed by those still ahead of `lastIndex`,
      are all the matches of the line. */
  predicate Consumed(line: string, found: seq<Match>, lastIndex: nat) {
    found + Matches(line, lastIndex) == Matches(line, 0)
  }

  /** Once `exec` finds nothing more, every match has been seen. */
  lemma ConsumedAll(line: string, found: seq<Match>, lastIndex: nat)
    requires Consumed(line, found, lastIndex) && NextMatch(line, lastIndex).None?
    ensures found == Matches(line, 0)
  {
    assert Matches(line, lastIndex) == [];
    assert found + [] == found;
  }

  /** One turn of the `exec` loop moves one match from ahead to seen. */
  lemma ConsumedStep(line: string, found: seq<Match>, lastIndex: nat, hit: Match, next: nat)
    requires Consumed(line, found, lastIndex)
    requires NextMatch(line, lastIndex) == Some(hit) && next == hit.at + hit.length
    ensures Consumed(line, found + [hit], next)
  {
    MatchesStep(line, lastIndex);
    var rest := Matches(line, next);
    assert found + [hit] + rest == found + ([hit] + rest);
  }

  /** Removing the matched text is one more step of `Stripped`. */
  lemma StrippedNext(line: string, found: seq<Match>, hit: Match, next: nat)
    requires next == hit.at + hit.length && next <= |line|
    ensures RemoveFirst(Stripped(line, found), line[hit.at..next]) == Stripped(line, found + [hit])
  {
    assert Raw(line, hit) == line[hit.at..next];
    StrippedStep(line, found, hit);
  }

  lemma TimesStep(ms: seq<Match>, m: Match)
    ensures Times(ms + [m]) == Times(ms) + [TimeOf(m)]
  {
    assert forall i :: 0 <= i < |ms| ==> (ms + [m])[i] == ms[i];
  }

  /** The highlight search: the last index whose time has been reached,
      stopping at the first one that has not. */
  method ActiveIndex(lyrics: seq<Lyric>, currentTime: int) returns (activeIndex: int)
    ensures -1 <= activeIndex < |lyrics|
    ensures forall k :: 0 <= k <= activeIndex ==> lyrics[k].time <= currentTime
    ensures activeIndex + 1 < |lyrics| ==> lyrics[activeIndex + 1].time > currentTime
    ensures Sorted(lyrics) ==> forall k :: activeIndex < k < |lyrics| ==> lyrics[k].time > currentTime
  {
    activeIndex := -1;
    var i := 0;
    while i < |lyrics|
      invariant 0 <= i <= |lyrics| && activeIndex == i - 1
      invariant forall k :: 0 <= k < i ==> lyrics[k].time <= currentTime
    {
      if currentTime >= lyrics[i].time {
        activeIndex := i;
      } else {
        break;
      }
      i := i + 1;
    }
  }

  // ----- properties -----

  lemma {:induction false} InsertMultiset(s: seq<Lyric>, x: Lyric)
    ensures multiset(Insert(s, x)) == multiset(s) + multiset{x}
    decreases |s|
  {
    if s != [] && s[|s| - 1].time > x.time {
      InsertMultiset(s[..|s| - 1], x);
      assert s == s[..|s| - 1] + [s[|s| - 1]];
    }
  }

  lemma {:induction false} InsertSorted(s: seq<Lyric>, x: Lyric)
    requires Sorted(s)
    ensures Sorted(Insert(s, x))
    decreases |s|
  {
    if s != [] && s[|s| - 1].time > x.time {
      var init, last := s[..|s| - 1], s[|s| - 1];
      InsertSorted(init, x);
      InsertMultiset(init, x);
      var r := Insert(init, x);
      forall k | 0 <= k < |r|
        ensures r[k].time <= last.time
      {
        assert r[k] in multiset(init) + multiset{x};
      }
    }
  }

  /** Inserting keeps the order of the entries of each time, with the new
      entry after the old ones of its time. */
  lemma {:induction false} InsertWithTime(s: seq<Lyric>, x: Lyric, t: nat)
    ensures WithTime(Insert(s, x), t) == WithTime(s, t) + (if x.time == t then [x] else [])
    decreases |s|
  {
    if s == [] {
      assert [x][..0] == [];
    } else if s[|s| - 1].time <= x.time {
      assert (s + [x])[..|s|] == s;
    } else {
      var init, last := s[..|s| - 1], s[|s| - 1];
      InsertWithTime(init, x, t);
      var r := Insert(init, x);
      assert (r + [last])[..|r|] == r;
    }
  }

  /** The sort orders by time, keeps every entry, and is stable: the
      entries of each time keep their order. */
  lemma {:induction false} SortByTimeSpec(s: seq<Lyric>)
    ensures Sorted(SortByTime(s))
    ensures multiset(SortByTime(s)) == multiset(s)
    ensures forall t: nat :: WithTime(SortByTime(s), t) == WithTime(s, t)
    decreases |s|
  {
    if s != [] {
      var init, last := s[..|s| - 1], s[|s| - 1];
      SortByTimeSpec(init);
      InsertSorted(SortByTime(init), last);
      InsertMultiset(SortByTime(init), last);
      assert s == init + [last];
      forall t: nat
        ensures WithTime(SortByTime(s), t) == WithTime(s, t)
      {
        InsertWithTime(SortByTime(init), last, t);
      }
    }
  }

  /** Empty input gives no entries; otherwise the result is the lines'
      entries sorted by time, stably. */
  lemma ParsedSpec(lrcText: string)
    ensures Parsed("") == []
    ensures var r, all := Parsed(lrcText), Collected(Split(lrcText, '\n'));
      && Sorted(r)
      && (lrcText != "" ==> multiset(r) == multiset(all))
      && (lrcText != "" ==> forall t: nat :: WithTime(r, t) == WithTime(all, t))
  {
    SortByTimeSpec(Collected(Split(lrcText, '\n')));
  }

  /** A line gives nothing when it has no tag or its text is empty, and
      otherwise exactly one entry per tag, in tag order, each carrying the
      tag's time and the line's trimmed text without its tags. */
  lemma LineEntriesSpec(line: string)
    ensures var ms, text, es := Matches(line, 0), Trim(Stripped(line, Matches(line, 0))), LineEntries(line);
      && (es == [] <==> ms == [] || text == "")
      && (es != [] ==> |es| == |ms| && forall i :: 0 <= i < |es| ==> es[i] == Lyric(TimeOf(ms[i]), text))
  {
  }

  /** Every entry of the whole text comes from a tag of one of its lines. */
  lemma {:induction false} CollectedFrom(lines: seq<string>, e: Lyric)
    requires e in Collected(lines)
    ensures exists i :: 0 <= i < |lines| && e in LineEntries(lines[i])
    decreases |lines|
  {
    var init := lines[..|lines| - 1];
    if e in Collected(init) {
      CollectedFrom(init, e);
      var i :| 0 <= i < |init| && e in LineEntries(init[i]);
      assert lines[i] == init[i];
    } else {
      assert e in LineEntries(lines[|lines| - 1]);
    }
  }

  /** Every parsed entry carries non-empty, trimmed text. */
  lemma ParsedTexts(lrcText: string, e: Lyric)
    requires e in Parsed(lrcText)
    ensures e.text != "" && IsTrimmed(e.text)
  {
    var lines := Split(lrcText, '\n');
    SortByTimeSpec(Collected(lines));
    assert e in multiset(Parsed(lrcText));
    CollectedFrom(lines, e);
    var i :| 0 <= i < |lines| && e in LineEntries(lines[i]);
    var ms := Matches(lines[i], 0);
    TrimSpec(Stripped(lines[i], ms));
  }

  /** A tag's time is minutes, seconds and the fraction padded to three
      digits: ".5x" is not a fraction, ".50" is 500 ms, ".123" is 123 ms. */
  lemma TimeOfSpec(m: Match)
    requires AllDigits(m.minutes) && AllDigits(m.seconds)
    requires AllDigits(m.fraction) && |m.fraction| <= 3
    ensures m.fraction == "" ==> TimeOf(m) == ParseDigits(m.minutes) * 60000 + ParseDigits(m.seconds) * 1000
    ensures |m.fraction| == 2 ==> TimeOf(m) == ParseDigits(m.minutes) * 60000 + ParseDigits(m.seconds) * 1000
                                              + 10 * ParseDigits(m.fraction)
    ensures |m.fraction| == 3 ==> TimeOf(m) == ParseDigits(m.minutes) * 60000 + ParseDigits(m.seconds) * 1000
                                              + ParseDigits(m.fraction)
  {
    var f := m.fraction;
    var padded := PadEnd(if f == "" then "0" else f, 3, '0');
    if |f| == 2 {
      assert padded == f + "0";
      ParseThreeDigits(padded[..3]);
      assert f[..1][..0] == [];
      assert ParseDigits(f[..1]) == DigitValue(f[0]);
    } else if |f| == 3 {
      assert padded[..3] == f;
    } else if f == "" {
      assert padded == "000";
      ParseThreeDigits(padded[..3]);
    }
  }

  /** A line with two tags gives two entries with its text. */
  lemma TwoTagsExample(line: string)
    requires line == "[00:01.50][01:02]la"
    ensures var es := LineEntries(line);
      |es| == 2 && es[0] == Lyric(1500, "la") && es[1] == Lyric(62000, "la")
  {
    var ms := [Match(0, 10, "00", "01", "50"), Match(10, 7, "01", "02", "")];
    assert Matches(line, 0) == ms by { ExampleMatches(line); }
    assert Trim(Stripped(line, ms)) == "la" by { ExampleStripped(line); }
    assert Times(ms) == [1500, 62000] by { ExampleTimes(ms); }
    assert LineEntries(line) == Entries([1500, 62000], "la");
  }

  lemma ExampleTimes(ms: seq<Match>)
    requires ms == [Match(0, 10, "00", "01", "50"), Match(10, 7, "01", "02", "")]
    ensures Times(ms) == [1500, 62000]
  {
    TimeOfSpec(ms[0]);
    TimeOfSpec(ms[1]);
    DigitPairs();
    var ts := Times(ms);
    assert ts[0] == 1500 && ts[1] == 62000;
  }

  lemma ExampleFirstTag(line: string)
    requires line == "[00:01.50][01:02]la"
    ensures TagAt(line, 0) == Some(Match(0, 10, "00", "01", "50"))
  {
    assert line[1..4][2] == ':';
    assert TagWith(line, 0, 3).None?;
    assert line[7..10][2] == ']';
    assert line[7..9] == "50" && line[1..3] == "00" && line[4..6] == "01";
    assert FractionAt(line, 6) == Some((4, "50"));
  }

  lemma ExampleSecondTag(line: string)
    requires line == "[00:01.50][01:02]la"
    ensures TagAt(line, 10) == Some(Match(10, 7, "01", "02", ""))
  {
    assert line[11..14][2] == ':';
    assert TagWith(line, 10, 3).None?;
    assert FractionAt(line, 16) == Some((1, ""));
    assert line[11..13] == "01" && line[14..16] == "02";
  }

  lemma ExampleMatches(line: string)
    requires line == "[00:01.50][01:02]la"
    ensures Matches(line, 0) == [Match(0, 10, "00", "01", "50"), Match(10, 7, "01", "02", "")]
  {
    ExampleFirstTag(line);
    ExampleSecondTag(line);
    assert NextMatch(line, 0) == Some(Match(0, 10, "00", "01", "50"));
    assert NextMatch(line, 10) == Some(Match(10, 7, "01", "02", ""));
    assert NextMatch(line, 17).None? by {
      assert TagAt(line, 17).None? && TagAt(line, 18).None?;
    }
    MatchesStep(line, 0);
    MatchesStep(line, 10);
  }

  lemma ExampleStripped(line: string)
    requires line == "[00:01.50][01:02]la"
    ensures Trim(Stripped(line, [Match(0, 10, "00", "01", "50"), Match(10, 7, "01", "02", "")])) == "la"
  {
    var m1 := Match(0, 10, "00", "01", "50");
    var m2 := Match(10, 7, "01", "02", "");
    StrippedStep(line, [], m1);
    assert [] + [m1] == [m1];
    assert Raw(line, m1) == line[..10];
    RemoveFirstPrefix(line, line[..10]);
    var t := line[10..];
    StrippedStep(line, [m1], m2);
    assert [m1] + [m2] == [m1, m2];
    assert Raw(line, m2) == t[..7];
    RemoveFirstPrefix(t, t[..7]);
    assert t[7..] == "la";
    TrimLa();
  }

  lemma TrimLa()
    ensures Trim("la") == "la"
  {
    assert IsTrimmed("la");
    TrimOfTrimmed("la");
  }

  lemma DigitPairs()
    ensures ParseDigits("00") == 0 && ParseDigits("01") == 1
    ensures ParseDigits("02") == 2 && ParseDigits("50") == 50
  {
    assert "00"[..1] == "0" && "01"[..1] == "0" && "02"[..1] == "0" && "50"[..1] == "5";
    assert "0"[..0] == [] && "5"[..0] == [];
  }
}
