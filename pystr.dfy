/**
 * The Python string built-ins the plugin and its helper scripts rely on:
 * str.split(), ' '.join(), str.strip(), str.replace(), str.title(),
 * str.isalnum(), int(str) and str(int), stated over `seq<char>`.
 */
module PyStr {
  import opened Wrappers

  function Min(a: int, b: int): int { if a <= b then a else b }
  function Max(a: int, b: int): int { if a >= b then a else b }

  /** str.isspace() for one character: the whitespace of split(), strip() and int(). */
  predicate IsSpace(c: char) {
    c == ' ' || '\t' <= c <= '\r' || '\U{1c}' <= c <= '\U{1f}' || c == '\U{85}' || c == '\U{a0}'
    || c == '\U{1680}' || '\U{2000}' <= c <= '\U{200a}' || c == '\U{2028}' || c == '\U{2029}'
    || c == '\U{202f}' || c == '\U{205f}' || c == '\U{3000}'
  }

  predicate NoSpace(s: string) {
    forall i :: 0 <= i < |s| ==> !IsSpace(s[i])
  }

  /** `pat in s` for strings: `pat` occurs as a contiguous substring of `s`. */
  predicate Occurs(pat: string, s: string)
    decreases |s|
  {
    pat <= s || (s != [] && Occurs(pat, s[1..]))
  }

  /** For a one-character pattern, `pat in s` is membership of that character. */
  lemma {:induction false} OccursChar(c: char, s: string)
    ensures Occurs([c], s) <==> c in s
    decreases |s|
  {
    if s != [] {
      OccursChar(c, s[1..]);
      assert s == [s[0]] + s[1..];
    }
  }

  function TrimLeft(s: string): (t: string)
    ensures |t| <= |s|
    ensures t == [] || !IsSpace(t[0])
    ensures NoSpace(s) ==> t == s
  {
    if s != [] && IsSpace(s[0]) then TrimLeft(s[1..]) else s
  }

  function TrimRight(s: string): (t: string)
    ensures |t| <= |s|
    ensures t == [] || !IsSpace(t[|t| - 1])
    ensures NoSpace(s) ==> t == s
  {
    if s != [] && IsSpace(s[|s| - 1]) then TrimRight(s[..|s| - 1]) else s
  }

  /** Stripping on the left keeps a suffix. */
  lemma {:induction false} TrimLeftSuffix(s: string)
    ensures TrimLeft(s) == s[|s| - |TrimLeft(s)|..]
    decreases |s|
  {
    if s != [] && IsSpace(s[0]) {
      TrimLeftSuffix(s[1..]);
    }
  }

  /** Stripping on the right keeps a prefix. */
  lemma {:induction false} TrimRightPrefix(s: string)
    ensures TrimRight(s) == s[..|TrimRight(s)|]
    decreases |s|
  {
    if s != [] && IsSpace(s[|s| - 1]) {
      TrimRightPrefix(s[..|s| - 1]);
    }
  }

  /** str.strip() with no argument. */
  function Strip(s: string): string {
    TrimRight(TrimLeft(s))
  }

  /** Length of the leading run of non-whitespace characters. */
  function WordLength(s: string): (n: nat)
    ensures n <= |s| && NoSpace(s[..n]) && (n < |s| ==> IsSpace(s[n]))
    ensures s != [] && !IsSpace(s[0]) ==> n >= 1
  {
    if s == [] || IsSpace(s[0]) then 0 else 1 + WordLength(s[1..])
  }

  /** str.split() with no argument: the maximal runs of non-whitespace characters, in order. */
  function Split(s: string): (words: seq<string>)
    ensures forall i :: 0 <= i < |words| ==> words[i] != [] && NoSpace(words[i])
    decreases |s|
  {
    if s == [] then []
    else if IsSpace(s[0]) then Split(s[1..])
    else
      var n := WordLength(s);
      SplitCons(s[..n], Split(s[n..]))
  }

  /** One more word in front of the words of the rest. */
  function SplitCons(word: string, rest: seq<string>): (words: seq<string>)
    requires word != [] && NoSpace(word)
    requires forall i :: 0 <= i < |rest| ==> rest[i] != [] && NoSpace(rest[i])
    ensures words == [word] + rest
    ensures forall i :: 0 <= i < |words| ==> words[i] != [] && NoSpace(words[i])
  {
    [word] + rest
  }

  /** ' '.join(words). */
  function JoinSpace(words: seq<string>): string {
    if |words| == 0 then ""
    else if |words| == 1 then words[0]
    else JoinSpace(words[..|words| - 1]) + " " + words[|words| - 1]
  }

  /** s.replace(pat, rep): every non-overlapping occurrence, scanned from the left. */
  function Replace(s: string, pat: string, rep: string): string
    requires pat != []
    decreases |s|
  {
    if s == [] then []
    else if pat <= s then rep + Replace(s[|pat|..], pat, rep)
    else [s[0]] + Replace(s[1..], pat, rep)
  }

  /** A text in which the pattern does not occur is left as it is. */
  lemma {:induction false} ReplaceAbsent(s: string, pat: string, rep: string)
    requires pat != []
    ensures !Occurs(pat, s) ==> Replace(s, pat, rep) == s
    decreases |s|
  {
    if s != [] && !Occurs(pat, s) {
      ReplaceAbsent(s[1..], pat, rep);
      assert s == [s[0]] + s[1..];
    }
  }

  /** An occurring pattern's first character is in the text. */
  lemma {:induction false} OccursFirstChar(pat: string, s: string)
    requires pat != []
    ensures Occurs(pat, s) ==> pat[0] in s
    decreases |s|
  {
    if s != [] && Occurs(pat, s) && !(pat <= s) {
      OccursFirstChar(pat, s[1..]);
      assert s == [s[0]] + s[1..];
    }
  }

  lemma {:induction false} ReplaceCharAt(s: string, a: char, b: char, i: int)
    requires 0 <= i < |s|
    ensures |Replace(s, [a], [b])| == |s|
    ensures Replace(s, [a], [b])[i] == if s[i] == a then b else s[i]
    decreases |s|
  {
    if i > 0 {
      ReplaceCharAt(s[1..], a, b, i - 1);
    } else if |s| > 1 {
      ReplaceCharAt(s[1..], a, b, 0);
    }
  }

  /** Replacing a character by a single character changes exactly the positions that hold it. */
  lemma ReplaceChar(s: string, a: char, b: char)
    ensures |Replace(s, [a], [b])| == |s|
    ensures forall i :: 0 <= i < |s| ==> Replace(s, [a], [b])[i] == if s[i] == a then b else s[i]
  {
    if s == [] {
    } else {
      forall i | 0 <= i < |s|
        ensures |Replace(s, [a], [b])| == |s|
        ensures Replace(s, [a], [b])[i] == if s[i] == a then b else s[i]
      {
        ReplaceCharAt(s, a, b, i);
      }
    }
  }

  /** Removing every occurrence of a character keeps the other characters, in order. */
  lemma {:induction false} DeleteCharKeepsOthers(s: string, a: char)
    ensures forall c :: c in Replace(s, [a], []) <==> c in s && c != a
    ensures |Replace(s, [a], [])| == 0 <==> forall i :: 0 <= i < |s| ==> s[i] == a
    decreases |s|
  {
    if s != [] {
      DeleteCharKeepsOthers(s[1..], a);
      assert s == [s[0]] + s[1..];
    }
  }

  predicate IsUpper(c: char) { 'A' <= c <= 'Z' }
  predicate IsLower(c: char) { 'a' <= c <= 'z' }
  predicate IsCased(c: char) { IsUpper(c) || IsLower(c) }
  predicate IsDigit(c: char) { '0' <= c <= '9' }
  predicate IsAlnumChar(c: char) { IsCased(c) || IsDigit(c) }

  function ToUpper(c: char): char { if IsLower(c) then (c as int - 32) as char else c }
  function ToLower(c: char): char { if IsUpper(c) then (c as int + 32) as char else c }

  /** str.isalnum(): non-empty and every character a letter or a digit. */
  predicate IsAlnum(s: string) {
    |s| > 0 && forall i :: 0 <= i < |s| ==> IsAlnumChar(s[i])
  }

  /** The character str.title() puts at a position, given whether the previous character is cased. */
  function TitleChar(c: char, afterCased: bool): char {
    if !IsCased(c) then c else if afterCased then ToLower(c) else ToUpper(c)
  }

  function TitleFrom(s: string, afterCased: bool): (r: string)
    ensures |r| == |s|
    ensures s != [] ==> r[0] == TitleChar(s[0], afterCased)
    ensures forall i :: 0 < i < |s| ==> r[i] == TitleChar(s[i], IsCased(s[i - 1]))
  {
    if s == [] then [] else [TitleChar(s[0], afterCased)] + TitleFrom(s[1..], IsCased(s[0]))
  }

  /** str.title(): a letter is upper-cased when it starts a run of letters, lower-cased otherwise. */
  function Title(s: string): string {
    TitleFrom(s, false)
  }

  function DigitChar(d: nat): (c: char)
    requires d < 10
    ensures IsDigit(c) && c as int - '0' as int == d
  {
    ('0' as int + d) as char
  }

  /** str(n) for a natural number. */
  function NatToString(n: nat): (s: string)
    ensures |s| > 0 && forall i :: 0 <= i < |s| ==> IsDigit(s[i])
  {
    if n < 10 then [DigitChar(n)] else NatToString(n / 10) + [DigitChar(n % 10)]
  }

  /** str(i) for an integer. */
  function IntToString(i: int): string {
    if i < 0 then "-" + NatToString(-i) else NatToString(i)
  }

  predicate DigitsOrUnderscores(b: string) {
    forall i :: 0 <= i < |b| ==> IsDigit(b[i]) || b[i] == '_'
  }

  /** The body int() accepts after the sign: digits, each underscore standing between two digits. */
  predicate WellFormedDigits(b: string) {
    && |b| > 0 && IsDigit(b[0]) && IsDigit(b[|b| - 1])
    && DigitsOrUnderscores(b)
    && (forall i :: 0 <= i < |b| - 1 ==> IsDigit(b[i]) || IsDigit(b[i + 1]))
  }

  function DigitsValue(b: string): nat
    requires DigitsOrUnderscores(b)
  {
    if b == [] then 0
    else if b[|b| - 1] == '_' then DigitsValue(b[..|b| - 1])
    else 10 * DigitsValue(b[..|b| - 1]) + (b[|b| - 1] as int - '0' as int)
  }

  /** int(s) for a string in base 10; None where Python raises ValueError. */
  function ParseInt(s: string): Option<int> {
    var t := Strip(s);
    if t == [] then None
    else
      var body := if t[0] == '-' || t[0] == '+' then t[1..] else t;
      if !WellFormedDigits(body) then None
      else
        var magnitude: int := DigitsValue(body);
        Some(if t[0] == '-' then -magnitude else magnitude)
  }

  lemma {:induction false} NatToStringValue(n: nat)
    ensures DigitsValue(NatToString(n)) == n
  {
    if n >= 10 {
      var s := NatToString(n);
      assert s[..|s| - 1] == NatToString(n / 10);
      NatToStringValue(n / 10);
    }
  }

  lemma DigitStringHasNoSpace(s: string)
    requires forall i :: 0 <= i < |s| ==> IsDigit(s[i])
    ensures NoSpace(s) && Strip(s) == s
  {
  }

  /** A non-empty run of digits parses to its value. */
  lemma ParseDigits(s: string)
    requires |s| > 0 && forall i :: 0 <= i < |s| ==> IsDigit(s[i])
    ensures DigitsOrUnderscores(s) && ParseInt(s) == Some(DigitsValue(s))
  {
    DigitStringHasNoSpace(s);
    assert s[0] != '-' && s[0] != '+';
    assert WellFormedDigits(s);
  }

  /** int(str(n)) == n: the decimal rendering of a natural number parses back to it. */
  lemma ParseNatToString(n: nat)
    ensures ParseInt(NatToString(n)) == Some(n)
  {
    ParseDigits(NatToString(n));
    NatToStringValue(n);
  }

  /** int(str(i)) == i for every integer. */
  lemma ParseIntToString(i: int)
    ensures ParseInt(IntToString(i)) == Some(i)
  {
    if i >= 0 {
      ParseNatToString(i);
    } else {
      var d := NatToString(-i);
      var s := "-" + d;
      assert s[1..] == d;
      assert NoSpace(s);
      assert Strip(s) == s;
      NatToStringValue(-i);
      assert WellFormedDigits(d);
    }
  }

  /** str is injective on natural numbers. */
  lemma NatToStringInjective(a: nat, b: nat)
    requires NatToString(a) == NatToString(b)
    ensures a == b
  {
    ParseNatToString(a);
    ParseNatToString(b);
  }
}
