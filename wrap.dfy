/**
 * The greedy word wrapper of the plugin (`_wrap_text`). Text is split into
 * words, words are packed onto a line while the measured line stays within
 * the pixel budget, and a word that does not fit on an empty line is cut
 * down and marked with an ellipsis. Text measurement is a parameter.
 */
module TextWrap {
  import opened PyStr

  const Ellipsis: string := "..."

  /** The wrapper's two working lists: finished lines and the words of the open line. */
  datatype WrapState = WrapState(lines: seq<string>, current: seq<string>)

  /** The line the wrapper measures before adding `word` to the open line. */
  function TestLine(current: seq<string>, word: string): string {
    if current == [] then word else JoinSpace(current + [word])
  }

  /** The first `k` characters of `word`, with an ellipsis, fit the budget. */
  predicate PrefixFits(word: string, k: nat, maxWidth: int, width: string -> int)
    requires k <= |word|
  {
    width(word[..k] + Ellipsis) <= maxWidth
  }

  /**
   * The truncation loop, started from a prefix of length `n`: the longest
   * prefix of length 1..n whose ellipsised form fits, or else the first ten
   * characters of the word with an ellipsis.
   */
  function Shorten(word: string, n: nat, maxWidth: int, width: string -> int): (r: string)
    requires n <= |word|
    ensures |Ellipsis| <= |r| <= |word| + |Ellipsis|
    decreases n
  {
    if n == 0 then word[..Min(10, |word|)] + Ellipsis
    else if PrefixFits(word, n, maxWidth, width) then word[..n] + Ellipsis
    else Shorten(word, n - 1, maxWidth, width)
  }

  /**
   * The truncation loop keeps the longest prefix of length 1..n whose
   * ellipsised form fits; when none fits it falls back to the first ten
   * characters. Either way the result is a prefix of the word with the
   * ellipsis appended.
   */
  lemma {:induction false} ShortenLongestFit(word: string, n: nat, maxWidth: int, width: string -> int)
    requires n <= |word|
    ensures var r := Shorten(word, n, maxWidth, width);
      var m := |r| - |Ellipsis|;
      m <= |word| && r == word[..m] + Ellipsis &&
      ((1 <= m <= n && PrefixFits(word, m, maxWidth, width)
        && forall k :: m < k <= n ==> !PrefixFits(word, k, maxWidth, width))
       || (m == Min(10, |word|) && forall k :: 1 <= k <= n ==> !PrefixFits(word, k, maxWidth, width)))
    decreases n
  {
    if n > 0 && !PrefixFits(word, n, maxWidth, width) {
      ShortenLongestFit(word, n - 1, maxWidth, width);
    }
  }

  /** The line emitted for a word that does not fit on an empty line. */
  function Ellipsize(word: string, maxWidth: int, width: string -> int): (line: string)
    ensures var m := |line| - |Ellipsis|; 0 <= m <= |word| && line == word[..m] + Ellipsis
  {
    ShortenLongestFit(word, |word|, maxWidth, width);
    Shorten(word, |word|, maxWidth, width)
  }

  /** One iteration of the word loop, before the line-cap check. */
  function Step(st: WrapState, word: string, maxWidth: int, width: string -> int): (r: WrapState)
    ensures st.current == [] && width(word) > maxWidth ==> r.current == []
    ensures |st.lines| <= |r.lines| <= |st.lines| + 1 && r.lines[..|st.lines|] == st.lines
  {
    if width(TestLine(st.current, word)) <= maxWidth then WrapState(st.lines, st.current + [word])
    else if st.current != [] then WrapState(st.lines + [JoinSpace(st.current)], [word])
    else WrapState(st.lines + [Ellipsize(word, maxWidth, width)], [])
  }

  /** The word loop: a step per word, leaving the loop once `maxLines` lines are finished. */
  function Feed(st: WrapState, words: seq<string>, maxWidth: int, width: string -> int, maxLines: int): WrapState
    decreases |words|
  {
    if words == [] then st
    else
      var next := Step(st, words[0], maxWidth, width);
      if |next.lines| >= maxLines then next else Feed(next, words[1..], maxWidth, width, maxLines)
  }

  /** Python's `s[:n]`, including a negative `n` counted from the end. */
  function SliceTo<T>(s: seq<T>, n: int): (r: seq<T>)
    ensures r <= s
    ensures n >= 0 ==> |r| == Min(n, |s|)
  {
    if n >= 0 then s[..Min(n, |s|)] else s[..Max(0, |s| + n)]
  }

  /** The lines after the loop: the open line is emitted while the cap allows it. */
  function Finish(st: WrapState, maxLines: int): seq<string> {
    if st.current != [] && |st.lines| < maxLines then st.lines + [JoinSpace(st.current)] else st.lines
  }

  /** `_wrap_text(text, max_width, font, max_lines)` with `width` as the font's measure. */
  function Wrap(text: string, maxWidth: int, width: string -> int, maxLines: int): (r: seq<string>)
    ensures text == [] ==> r == [""]
    ensures text != [] && maxLines >= 0 ==> |r| <= maxLines
  {
    if text == [] then [""]
    else SliceTo(Finish(Feed(WrapState([], []), Split(text), maxWidth, width, maxLines), maxLines), maxLines)
  }

  /** The truncation loop: drop the last character until the ellipsised prefix fits. */
  method TruncateWord(word: string, maxWidth: int, width: string -> int) returns (line: string)
    ensures line == Ellipsize(word, maxWidth, width)
  {
    var truncated := word;
    while |truncated| > 0
      invariant truncated == word[..|truncated|]
      invariant Shorten(word, |truncated|, maxWidth, width) == Ellipsize(word, maxWidth, width)
    {
      if width(truncated + Ellipsis) <= maxWidth {
        return truncated + Ellipsis;
      }
      truncated := truncated[..|truncated| - 1];
    }
    line := word[..Min(10, |word|)] + Ellipsis;
  }

  /** The wrapper's loops, as the plugin runs them. */
  method WrapText(text: string, maxWidth: int, width: string -> int, maxLines: int) returns (result: seq<string>)
    ensures result == Wrap(text, maxWidth, width, maxLines)
  {
    if text == [] {
      return [""];
    }
    var lines: seq<string> := [];
    var current: seq<string> := [];
    var words := Split(text);
    var k := 0;
    while k < |words|
      invariant 0 <= k <= |words|
      invariant Feed(WrapState(lines, current), words[k..], maxWidth, width, maxLines)
        == Feed(WrapState([], []), words, maxWidth, width, maxLines)
    {
      FeedUnfold(WrapState(lines, current), words, k, maxWidth, width, maxLines);
      lines, current := WrapWord(lines, current, words[k], maxWidth, width);
      k := k + 1;
      if |lines| >= maxLines {
        break;
      }
    }
    if current != [] && |lines| < maxLines {
      lines := lines + [JoinSpace(current)];
    }
    result := SliceTo(lines, maxLines);
  }

  /** The body of the word loop for one word, before the line-cap check. */
  method WrapWord(lines: seq<string>, current: seq<string>, word: string, maxWidth: int, width: string -> int)
    returns (lines': seq<string>, current': seq<string>)
    ensures WrapState(lines', current') == Step(WrapState(lines, current), word, maxWidth, width)
  {
    lines', current' := lines, current;
    var testLine := if current != [] then JoinSpace(current + [word]) else word;
    if width(testLine) <= maxWidth {
      current' := current + [word];
    } else if current != [] {
      lines' := lines + [JoinSpace(current)];
      current' := [word];
    } else {
      var line := TruncateWord(word, maxWidth, width);
      lines' := lines + [line];
    }
  }

  /** One turn of the word loop, as the loop function takes it. */
  lemma FeedUnfold(st: WrapState, words: seq<string>, k: nat, maxWidth: int, width: string -> int, maxLines: int)
    requires k < |words|
    ensures var next := Step(st, words[k], maxWidth, width);
      Feed(st, words[k..], maxWidth, width, maxLines)
        == if |next.lines| >= maxLines then next else Feed(next, words[k + 1..], maxWidth, width, maxLines)
  {
    assert words[k..][1..] == words[k + 1..];
  }

  /** A line fits the budget unless it is a single word (or the cut-down form of one). */
  predicate LineOk(line: string, maxWidth: int, width: string -> int) {
    width(line) <= maxWidth || NoSpace(line)
  }

  predicate Words(ws: seq<string>) {
    forall i :: 0 <= i < |ws| ==> ws[i] != [] && NoSpace(ws[i])
  }

  /** What the loop keeps true: finished lines are fine, and an open line of two or more words was measured. */
  predicate GoodState(st: WrapState, maxWidth: int, width: string -> int) {
    && (forall i :: 0 <= i < |st.lines| ==> LineOk(st.lines[i], maxWidth, width))
    && Words(st.current)
    && (|st.current| >= 2 ==> width(JoinSpace(st.current)) <= maxWidth)
  }

  lemma JoinSpaceSnoc(s: seq<string>, y: string)
    ensures JoinSpace(s + [y]) == if s == [] then y else JoinSpace(s) + " " + y
  {
    assert (s + [y])[..|s|] == s;
  }

  lemma JoinOneWord(w: string)
    ensures JoinSpace([w]) == w
  {
  }

  /** A cut-down word has no whitespace when the word has none: the ellipsis has none either. */
  lemma ShortenNoSpace(word: string, n: nat, maxWidth: int, width: string -> int)
    requires n <= |word| && NoSpace(word)
    ensures NoSpace(Shorten(word, n, maxWidth, width))
  {
    var r := Shorten(word, n, maxWidth, width);
    var m := |r| - |Ellipsis|;
    ShortenLongestFit(word, n, maxWidth, width);
    NoSpaceConcat(word[..m], Ellipsis);
  }

  lemma NoSpaceConcat(a: string, b: string)
    requires NoSpace(a) && NoSpace(b)
    ensures NoSpace(a + b)
  {
    forall i | 0 <= i < |a + b| ensures !IsSpace((a + b)[i]) {
      if i < |a| {
        assert (a + b)[i] == a[i];
      } else {
        assert (a + b)[i] == b[i - |a|];
      }
    }
  }

  lemma StepGood(st: WrapState, word: string, maxWidth: int, width: string -> int)
    requires GoodState(st, maxWidth, width) && word != [] && NoSpace(word)
    ensures GoodState(Step(st, word, maxWidth, width), maxWidth, width)
  {
    var r := Step(st, word, maxWidth, width);
    if width(TestLine(st.current, word)) <= maxWidth {
      if st.current == [] {
        assert r.current == [word];
      }
    } else if st.current != [] {
      if |st.current| == 1 {
        JoinOneWord(st.current[0]);
        assert st.current == [st.current[0]];
      }
      assert LineOk(JoinSpace(st.current), maxWidth, width);
      assert r.lines[|st.lines|] == JoinSpace(st.current);
      assert r.current == [word];
    } else {
      ShortenNoSpace(word, |word|, maxWidth, width);
      assert r.lines[|st.lines|] == Ellipsize(word, maxWidth, width);
    }
  }

  lemma {:induction false} FeedGood(st: WrapState, words: seq<string>, maxWidth: int, width: string -> int, maxLines: int)
    requires GoodState(st, maxWidth, width) && Words(words)
    ensures GoodState(Feed(st, words, maxWidth, width, maxLines), maxWidth, width)
    decreases |words|
  {
    if words != [] {
      StepGood(st, words[0], maxWidth, width);
      var next := Step(st, words[0], maxWidth, width);
      if |next.lines| < maxLines {
        FeedGood(next, words[1..], maxWidth, width, maxLines);
      }
    }
  }

  /**
   * Every wrapped line either measured within the budget or is a single
   * word: a line joining two or more words always fits.
   */
  lemma WrapLinesFit(text: string, maxWidth: int, width: string -> int, maxLines: int)
    ensures forall i :: 0 <= i < |Wrap(text, maxWidth, width, maxLines)| ==>
      LineOk(Wrap(text, maxWidth, width, maxLines)[i], maxWidth, width)
  {
    if text != [] {
      var f := Feed(WrapState([], []), Split(text), maxWidth, width, maxLines);
      FeedGood(WrapState([], []), Split(text), maxWidth, width, maxLines);
      var out := Finish(f, maxLines);
      if f.current != [] && |f.lines| < maxLines {
        if |f.current| == 1 {
          JoinOneWord(f.current[0]);
          assert f.current == [f.current[0]];
        }
        assert out[|f.lines|] == JoinSpace(f.current);
      }
      assert forall i :: 0 <= i < |out| ==> LineOk(out[i], maxWidth, width);
      var r := SliceTo(out, maxLines);
      forall i | 0 <= i < |r| ensures LineOk(r[i], maxWidth, width) {
        assert r[i] == out[i];
      }
    }
  }

  /** Whitespace-only text that is not empty wraps to no lines at all. */
  lemma BlankTextWrapsToNothing(text: string, maxWidth: int, width: string -> int, maxLines: int)
    requires text != [] && Split(text) == []
    ensures Wrap(text, maxWidth, width, maxLines) == []
  {
  }

  /**
   * While the cap is not reached, feeding the remaining words keeps a line
   * open and keeps every word: the joined lines and open line give back the
   * words consumed so far followed by the rest.
   */
  lemma {:induction false} FeedKeepsWords(st: WrapState, done: seq<string>, rest: seq<string>, maxWidth: int, width: string -> int, maxLines: int)
    requires st.current != [] && done != [] && |st.lines| + |rest| < maxLines
    requires JoinSpace(st.lines + [JoinSpace(st.current)]) == JoinSpace(done)
    ensures var f := Feed(st, rest, maxWidth, width, maxLines);
      f.current != [] && |f.lines| <= |st.lines| + |rest|
      && JoinSpace(f.lines + [JoinSpace(f.current)]) == JoinSpace(done + rest)
    decreases |rest|
  {
    if rest == [] {
      assert done + rest == done;
    } else {
      var next := Step(st, rest[0], maxWidth, width);
      StepKeepsWords(st, done, rest[0], maxWidth, width);
      FeedKeepsWords(next, done + [rest[0]], rest[1..], maxWidth, width, maxLines);
      MoveFirst(done, rest);
    }
  }

  lemma MoveFirst<T>(done: seq<T>, rest: seq<T>)
    requires rest != []
    ensures done + [rest[0]] + rest[1..] == done + rest
  {
    assert rest == [rest[0]] + rest[1..];
  }

  /** A step with a line open adds at most one finished line and keeps the joined words. */
  lemma StepKeepsWords(st: WrapState, prefix: seq<string>, w: string, maxWidth: int, width: string -> int)
    requires st.current != [] && prefix != [] && JoinSpace(st.lines + [JoinSpace(st.current)]) == JoinSpace(prefix)
    ensures var next := Step(st, w, maxWidth, width);
      next.current != [] && |next.lines| <= |st.lines| + 1
      && JoinSpace(next.lines + [JoinSpace(next.current)]) == JoinSpace(prefix + [w])
  {
    JoinSpaceSnoc(prefix, w);
    if width(TestLine(st.current, w)) <= maxWidth {
      var x := JoinSpace(st.current);
      JoinSpaceSnoc(st.current, w);
      JoinSpaceSnoc(st.lines, x);
      JoinSpaceSnoc(st.lines, x + " " + w);
      if st.lines != [] {
        assert JoinSpace(st.lines) + " " + (x + " " + w) == JoinSpace(st.lines) + " " + x + " " + w;
      }
    } else {
      JoinSpaceSnoc(st.lines + [JoinSpace(st.current)], w);
      JoinOneWord(w);
    }
  }

  /**
   * When the first word fits on its own and there are no more words than
   * the line cap, wrapping loses, duplicates and reorders no word: the
   * lines joined with single spaces give back `' '.join(text.split())`.
   */
  lemma WrapKeepsWords(text: string, maxWidth: int, width: string -> int, maxLines: int)
    requires Split(text) != [] && width(Split(text)[0]) <= maxWidth
    requires |Split(text)| <= maxLines
    ensures JoinSpace(Wrap(text, maxWidth, width, maxLines)) == JoinSpace(Split(text))
  {
    var words := Split(text);
    assert text != [];
    FeedKeepsAllWords(words, maxWidth, width, maxLines);
    var out := Finish(Feed(WrapState([], []), words, maxWidth, width, maxLines), maxLines);
    assert SliceTo(out, maxLines) == out;
  }

  lemma FeedKeepsAllWords(words: seq<string>, maxWidth: int, width: string -> int, maxLines: int)
    requires words != [] && width(words[0]) <= maxWidth && |words| <= maxLines
    ensures var out := Finish(Feed(WrapState([], []), words, maxWidth, width, maxLines), maxLines);
      |out| <= maxLines && JoinSpace(out) == JoinSpace(words)
  {
    var s1 := Step(WrapState([], []), words[0], maxWidth, width);
    assert s1 == WrapState([], [words[0]]);
    JoinOneWord(words[0]);
    assert JoinSpace(s1.lines + [JoinSpace(s1.current)]) == JoinSpace([words[0]]);
    assert Feed(WrapState([], []), words, maxWidth, width, maxLines) == Feed(s1, words[1..], maxWidth, width, maxLines);
    FeedKeepsWords(s1, [words[0]], words[1..], maxWidth, width, maxLines);
    assert [words[0]] + words[1..] == words;
  }
}
