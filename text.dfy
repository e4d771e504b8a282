/**
 * Character classes, case mapping and the string operations of Python's `str`
 * that the assistant relies on: `isspace` (also what the regular-expression class
 * `\s` and `str.split()` use), `\w`, `lower`, `upper`, `strip`, `split` and `join`.
 *
 * Whitespace is Python's exact set. Word characters and case mapping are exact on
 * the Latin-1 range (U+0000..U+00FF), which covers Portuguese; beyond it a
 * character is not a word character and keeps its case.
 */
module Text {

  /** Python's `str.isspace()` for one character. */
  predicate IsSpace(c: char) {
    ('\t' <= c <= '\r') || ('\U{1C}' <= c <= '\U{1F}') || c == ' '
    || c == '\U{85}' || c == '\U{A0}' || c == '\U{1680}'
    || ('\U{2000}' <= c <= '\U{200A}')
    || c == '\U{2028}' || c == '\U{2029}' || c == '\U{202F}' || c == '\U{205F}' || c == '\U{3000}'
  }

  /** The regular-expression class `\w` (letters, digits, numerics, underscore) on Latin-1. */
  predicate IsWord(c: char) {
    ('0' <= c <= '9') || ('A' <= c <= 'Z') || ('a' <= c <= 'z') || c == '_'
    || c == '\U{AA}' || c == '\U{B2}' || c == '\U{B3}' || c == '\U{B5}' || c == '\U{B9}' || c == '\U{BA}'
    || ('\U{BC}' <= c <= '\U{BE}')
    || ('\U{C0}' <= c <= '\U{FF}' && c != '\U{D7}' && c != '\U{F7}')
  }

  /** The regular-expression range `À-ÿ` (U+00C0..U+00FF). */
  predicate InLatinLetterRange(c: char) {
    '\U{C0}' <= c <= '\U{FF}'
  }

  predicate IsUpperLatin(c: char) {
    ('A' <= c <= 'Z') || ('\U{C0}' <= c <= '\U{DE}' && c != '\U{D7}')
  }

  predicate IsLowerLatin(c: char) {
    ('a' <= c <= 'z') || ('\U{E0}' <= c <= '\U{FE}' && c != '\U{F7}')
  }

  /** `str.lower()` for one character. */
  function Lower(c: char): (r: char)
    ensures IsSpace(r) <==> IsSpace(c)
    ensures !IsUpperLatin(r)
    ensures IsUpperLatin(c) ==> IsLowerLatin(r) && r as int == c as int + 32
    ensures c == '\U{178}' ==> r == '\U{FF}'
    ensures !IsUpperLatin(c) && c != '\U{178}' ==> r == c
  {
    if IsUpperLatin(c) then (c as int + 32) as char
    else if c == '\U{178}' then '\U{FF}'
    else c
  }

  /** The upper (title) case of one character, as `str.capitalize()` uses it. */
  function Upper(c: char): (r: char)
    ensures IsSpace(r) <==> IsSpace(c)
    ensures !IsLowerLatin(r)
    ensures IsLowerLatin(c) ==> IsUpperLatin(r) && r as int == c as int - 32
    ensures c == '\U{FF}' ==> r == '\U{178}'
    ensures c == '\U{B5}' ==> r == '\U{39C}'
    ensures !IsLowerLatin(c) && c != '\U{FF}' && c != '\U{B5}' ==> r == c
  {
    if IsLowerLatin(c) then (c as int - 32) as char
    else if c == '\U{FF}' then '\U{178}'
    else if c == '\U{B5}' then '\U{39C}'
    else c
  }

  /** On cased Latin-1 letters, upper and lower case are each other's inverse. */
  lemma CaseInverse(c: char)
    ensures IsUpperLatin(c) || c == '\U{178}' ==> Upper(Lower(c)) == c
    ensures IsLowerLatin(c) || c == '\U{FF}' ==> Lower(Upper(c)) == c
  {
  }

  /** `s.lower()`: every character lowered, in place. */
  function LowerString(s: string): (r: string)
    ensures |r| == |s|
    ensures forall i :: 0 <= i < |s| ==> r[i] == Lower(s[i])
  {
    seq(|s|, i requires 0 <= i < |s| => Lower(s[i]))
  }

  /** Lowering twice is lowering once. */
  lemma LowerIdempotent(c: char)
    ensures Lower(Lower(c)) == Lower(c)
  {
  }

  lemma LowerStringIdempotent(s: string)
    ensures LowerString(LowerString(s)) == LowerString(s)
  {
    forall i | 0 <= i < |s| ensures LowerString(LowerString(s))[i] == LowerString(s)[i] {
      LowerIdempotent(s[i]);
    }
  }

  predicate AllSpace(s: string) {
    forall i :: 0 <= i < |s| ==> IsSpace(s[i])
  }

  /** A non-empty run of characters without whitespace: one item of `str.split()`. */
  predicate IsWordOfSplit(w: string) {
    |w| > 0 && forall i :: 0 <= i < |w| ==> !IsSpace(w[i])
  }

  /** Number of leading whitespace characters. */
  function LeadingSpaces(s: string): (n: nat)
    ensures n <= |s|
    ensures AllSpace(s[..n])
    ensures n < |s| ==> !IsSpace(s[n])
  {
    if s == [] || !IsSpace(s[0]) then 0
    else
      var n := 1 + LeadingSpaces(s[1..]);
      assert s[..n] == [s[0]] + s[1..][..n - 1];
      n
  }

  /** Number of whitespace characters that end `s[..k]`. */
  function SpacesBefore(s: string, k: nat): (n: nat)
    requires k <= |s|
    ensures n <= k
    ensures forall i :: k - n <= i < k ==> IsSpace(s[i])
    ensures n < k ==> !IsSpace(s[k - 1 - n])
  {
    if k == 0 || !IsSpace(s[k - 1]) then 0 else 1 + SpacesBefore(s, k - 1)
  }

  /** `s.lstrip()`: the suffix left once the leading whitespace is removed. */
  function StripStart(s: string): (r: string)
    ensures |r| <= |s| && r == s[|s| - |r|..] && AllSpace(s[..|s| - |r|])
    ensures r != [] ==> !IsSpace(r[0])
    ensures r == [] <==> AllSpace(s)
  {
    var n := LeadingSpaces(s);
    assert AllSpace(s) ==> n == |s|;
    s[n..]
  }

  /** `s.rstrip()`: the prefix left once the trailing whitespace is removed. */
  function StripEnd(s: string): (r: string)
    ensures |r| <= |s| && r == s[..|r|] && AllSpace(s[|r|..])
    ensures r != [] ==> !IsSpace(r[|r| - 1])
    ensures r == [] <==> AllSpace(s)
  {
    var n := SpacesBefore(s, |s|);
    assert AllSpace(s) ==> n == |s|;
    s[..|s| - n]
  }

  /**
   * `s.strip()`: the input with its leading and trailing whitespace removed.
   * The result is the slice of the input that starts after the leading
   * whitespace and is followed only by whitespace, and it neither starts nor
   * ends with whitespace.
   */
  function Strip(s: string): (r: string)
    ensures |r| > 0 ==> !IsSpace(r[0]) && !IsSpace(r[|r| - 1])
    ensures r == [] <==> AllSpace(s)
    ensures var i := |s| - |StripStart(s)|;
      i + |r| <= |s| && s[i..i + |r|] == r && AllSpace(s[i + |r|..])
  {
    StripEnd(StripStart(s))
  }

  /** Stripping a string without surrounding whitespace leaves it as it is. */
  lemma StripIdentity(s: string)
    requires |s| > 0 ==> !IsSpace(s[0]) && !IsSpace(s[|s| - 1])
    ensures Strip(s) == s
  {
  }

  /** Length of the leading non-whitespace run. */
  function WordLength(s: string): (n: nat)
    ensures n <= |s|
    ensures forall i :: 0 <= i < n ==> !IsSpace(s[i])
    ensures n < |s| ==> IsSpace(s[n])
    ensures |s| > 0 && !IsSpace(s[0]) ==> n > 0
  {
    if s == [] || IsSpace(s[0]) then 0 else 1 + WordLength(s[1..])
  }

  /** `s.split()` with no separator: the maximal runs of non-whitespace, in order. */
  function Split(s: string): (ws: seq<string>)
    ensures forall k :: 0 <= k < |ws| ==> IsWordOfSplit(ws[k])
    ensures AllSpace(s) ==> ws == []
    decreases |s|
  {
    if s == [] then []
    else if IsSpace(s[0]) then Split(s[1..])
    else
      var n := WordLength(s);
      [s[..n]] + Split(s[n..])
  }

  /** `sep.join(ws)`. */
  function Join(ws: seq<string>, sep: string): (r: string)
  {
    if ws == [] then ""
    else if |ws| == 1 then ws[0]
    else ws[0] + sep + Join(ws[1..], sep)
  }

  /** The characters of `s` that are not whitespace, in order. */
  function NonSpace(s: string): (r: string)
    ensures |r| <= |s|
    ensures forall i :: 0 <= i < |r| ==> !IsSpace(r[i])
  {
    if s == [] then [] else (if IsSpace(s[0]) then [] else [s[0]]) + NonSpace(s[1..])
  }

  lemma {:induction false} NonSpaceAppend(a: string, b: string)
    ensures NonSpace(a + b) == NonSpace(a) + NonSpace(b)
    decreases |a|
  {
    if a != [] {
      assert (a + b)[1..] == a[1..] + b;
      NonSpaceAppend(a[1..], b);
    } else {
      assert a + b == b;
    }
  }

  lemma {:induction false} NonSpaceOfWord(w: string)
    requires forall i :: 0 <= i < |w| ==> !IsSpace(w[i])
    ensures NonSpace(w) == w
    decreases |w|
  {
    if w != [] {
      NonSpaceOfWord(w[1..]);
      assert w == [w[0]] + w[1..];
    }
  }

  /** Joining with "" puts the first item in front of the joined rest. */
  lemma JoinEmptyCons(w: string, ws: seq<string>)
    ensures Join([w] + ws, "") == w + Join(ws, "")
  {
    if ws == [] {
      assert [w] + ws == [w];
    } else {
      assert ([w] + ws)[1..] == ws;
    }
  }

  /** The words of `split()` are the non-whitespace characters of the input, in order, and no others. */
  lemma {:induction false} SplitKeepsNonSpace(s: string)
    ensures Join(Split(s), "") == NonSpace(s)
    decreases |s|
  {
    if s != [] {
      if IsSpace(s[0]) {
        SplitKeepsNonSpace(s[1..]);
      } else {
        var n := WordLength(s);
        SplitKeepsNonSpace(s[n..]);
        JoinEmptyCons(s[..n], Split(s[n..]));
        assert s == s[..n] + s[n..];
        NonSpaceAppend(s[..n], s[n..]);
        NonSpaceOfWord(s[..n]);
      }
    }
  }

  /** Leading whitespace never produces a word. */
  lemma {:induction false} SplitSkipsSpaces(sp: string, b: string)
    requires AllSpace(sp)
    ensures Split(sp + b) == Split(b)
    decreases |sp|
  {
    if sp != [] {
      assert (sp + b)[1..] == sp[1..] + b;
      SplitSkipsSpaces(sp[1..], b);
    } else {
      assert sp + b == b;
    }
  }

  /** Whitespace after the leading word leaves that word's length unchanged. */
  lemma {:induction false} WordLengthBeforeSpace(a: string, t: string)
    requires t == [] || IsSpace(t[0])
    ensures WordLength(a + t) == WordLength(a)
    decreases |a|
  {
    if a == [] {
      assert a + t == t;
    } else if !IsSpace(a[0]) {
      assert (a + t)[1..] == a[1..] + t;
      WordLengthBeforeSpace(a[1..], t);
    }
  }

  /** A non-empty run of whitespace separates words: the words on either side are split independently. */
  lemma {:induction false} SplitSeparated(a: string, sp: string, b: string)
    requires |sp| > 0 && AllSpace(sp)
    ensures Split(a + sp + b) == Split(a) + Split(b)
    decreases |a|
  {
    var s := a + sp + b;
    if a == [] {
      assert s == sp + b;
      SplitSkipsSpaces(sp, b);
    } else if IsSpace(a[0]) {
      assert s[1..] == a[1..] + sp + b;
      SplitSeparated(a[1..], sp, b);
    } else {
      var n := WordLength(a);
      WordLengthBeforeSpace(a, sp + b);
      assert s == a + (sp + b);
      assert s[..n] == a[..n];
      assert s[n..] == a[n..] + sp + b;
      SplitSeparated(a[n..], sp, b);
    }
  }

  /** A word followed by whitespace or nothing is read back in full. */
  lemma {:induction false} WordLengthOfWord(w: string, rest: string)
    requires IsWordOfSplit(w)
    requires rest == [] || IsSpace(rest[0])
    ensures WordLength(w + rest) == |w|
    decreases |w|
  {
    if |w| > 1 {
      assert (w + rest)[1..] == w[1..] + rest;
      WordLengthOfWord(w[1..], rest);
    } else {
      assert (w + rest)[1..] == rest;
    }
  }

  /** A word followed by whitespace or nothing is split off as the first item. */
  lemma SplitWordThen(w: string, rest: string)
    requires IsWordOfSplit(w)
    requires rest == [] || IsSpace(rest[0])
    ensures Split(w + rest) == [w] + Split(rest)
  {
    var s := w + rest;
    WordLengthOfWord(w, rest);
    assert s[..|w|] == w && s[|w|..] == rest;
  }

  /** Splitting skips a leading space. */
  lemma SplitSpaceThen(rest: string)
    ensures Split(" " + rest) == Split(rest)
  {
    assert (" " + rest)[1..] == rest;
  }

  /** Splitting words joined by single spaces gives the words back. */
  lemma {:induction false} SplitJoin(ws: seq<string>)
    requires forall k :: 0 <= k < |ws| ==> IsWordOfSplit(ws[k])
    ensures Split(Join(ws, " ")) == ws
    decreases |ws|
  {
    if ws == [] {
    } else if |ws| == 1 {
      SplitWordThen(ws[0], "");
      assert ws[0] + "" == ws[0];
    } else {
      var rest := Join(ws[1..], " ");
      SplitWordThen(ws[0], " " + rest);
      SplitSpaceThen(rest);
      assert ws[0] + " " + rest == ws[0] + (" " + rest);
      SplitJoin(ws[1..]);
      assert ws == [ws[0]] + ws[1..];
    }
  }

  /**
   * Words separated by exactly one space each: no leading or trailing
   * whitespace, the only whitespace character is ' ', and no two in a row.
   */
  predicate SingleSpaced(s: string) {
    && (|s| > 0 ==> !IsSpace(s[0]) && !IsSpace(s[|s| - 1]))
    && (forall i :: 0 <= i < |s| && IsSpace(s[i]) ==> s[i] == ' ')
    && (forall i :: 0 <= i < |s| - 1 && IsSpace(s[i]) ==> !IsSpace(s[i + 1]))
  }

  /** Joining words with " " always gives a single-spaced string. */
  lemma {:induction false} JoinSingleSpaced(ws: seq<string>)
    requires forall k :: 0 <= k < |ws| ==> IsWordOfSplit(ws[k])
    ensures SingleSpaced(Join(ws, " "))
    ensures |ws| > 0 ==> |Join(ws, " ")| > 0
    decreases |ws|
  {
    if |ws| > 1 {
      JoinSingleSpaced(ws[1..]);
      var w, rest := ws[0], Join(ws[1..], " ");
      var s := w + " " + rest;
      forall i | 0 <= i < |s| && IsSpace(s[i]) ensures s[i] == ' ' {
        if i >= |w| + 1 { assert s[i] == rest[i - |w| - 1]; }
      }
      forall i | 0 <= i < |s| - 1 && IsSpace(s[i]) ensures !IsSpace(s[i + 1]) {
        if i >= |w| + 1 { assert s[i] == rest[i - |w| - 1] && s[i + 1] == rest[i - |w|]; }
        else if i == |w| { assert s[i + 1] == rest[0]; }
      }
    }
  }
}
