/**
 * The text transform the speech synthesiser applies before speaking:
 * `text.replace(",", ", ").replace(".", ". ")`, which adds a short pause after
 * every comma and full stop. The synthesis and playback that follow are not modelled.
 */
module Tts {

  /** `s.replace(c, rep)` for a one-character pattern: every `c` becomes `rep`. */
  function ReplaceChar(s: string, c: char, rep: string): (r: string)
    ensures c !in s ==> r == s
    ensures c !in rep ==> c !in r
    ensures s == [c] ==> r == rep
  {
    if s == [] then [] else (if s[0] == c then rep else [s[0]]) + ReplaceChar(s[1..], c, rep)
  }

  /** The two chained replacements of the synthesiser, in the source's order. */
  function Paused(text: string): string
  {
    ReplaceChar(ReplaceChar(text, ',', ", "), '.', ". ")
  }

  /** What one input character becomes: a pause after `,` and `.`, otherwise itself. */
  function PauseOf(c: char): string
  {
    if c == ',' then ", " else if c == '.' then ". " else [c]
  }

  /** Reference definition: each character replaced independently. */
  function PerCharacter(s: string): string
  {
    if s == [] then [] else PauseOf(s[0]) + PerCharacter(s[1..])
  }

  function Count(s: string, c: char): nat
  {
    if s == [] then 0 else (if s[0] == c then 1 else 0) + Count(s[1..], c)
  }

  predicate IsPausePoint(c: char) {
    c == ',' || c == '.'
  }

  lemma {:induction false} ReplaceCharAppend(a: string, b: string, c: char, rep: string)
    ensures ReplaceChar(a + b, c, rep) == ReplaceChar(a, c, rep) + ReplaceChar(b, c, rep)
    decreases |a|
  {
    if a != [] {
      assert (a + b)[1..] == a[1..] + b;
      ReplaceCharAppend(a[1..], b, c, rep);
    } else {
      assert a + b == b;
    }
  }

  /** The chained replacements act character by character, as the reference does. */
  lemma {:induction false} PausedIsPerCharacter(text: string)
    ensures Paused(text) == PerCharacter(text)
    decreases |text|
  {
    if text != [] {
      var head := if text[0] == ',' then ", " else [text[0]];
      var once := ReplaceChar(text[1..], ',', ", ");
      assert ReplaceChar(text, ',', ", ") == head + once;
      ReplaceCharAppend(head, once, '.', ". ");
      assert ReplaceChar(head, '.', ". ") == PauseOf(text[0]) by {
        if text[0] == ',' {
          assert head == [','] + [' '];
          assert ReplaceChar(head, '.', ". ") == [','] + ReplaceChar([' '], '.', ". ");
        }
      }
      PausedIsPerCharacter(text[1..]);
    }
  }

  /** Every comma and full stop adds exactly one character. */
  lemma {:induction false} PausedLength(text: string)
    ensures |Paused(text)| == |text| + Count(text, ',') + Count(text, '.')
  {
    PausedIsPerCharacter(text);
    PerCharacterLength(text);
  }

  lemma {:induction false} PerCharacterLength(s: string)
    ensures |PerCharacter(s)| == |s| + Count(s, ',') + Count(s, '.')
    decreases |s|
  {
    if s != [] {
      PerCharacterLength(s[1..]);
    }
  }

  /** In the spoken text, every comma and full stop is immediately followed by a space. */
  lemma {:induction false} PausesFollowedBySpace(text: string)
    ensures forall i :: 0 <= i < |Paused(text)| && IsPausePoint(Paused(text)[i]) ==>
      i + 1 < |Paused(text)| && Paused(text)[i + 1] == ' '
  {
    PausedIsPerCharacter(text);
    PerCharacterFollowedBySpace(text);
  }

  lemma {:induction false} PerCharacterFollowedBySpace(s: string)
    ensures forall i :: 0 <= i < |PerCharacter(s)| && IsPausePoint(PerCharacter(s)[i]) ==>
      i + 1 < |PerCharacter(s)| && PerCharacter(s)[i + 1] == ' '
    decreases |s|
  {
    if s != [] {
      PerCharacterFollowedBySpace(s[1..]);
      var h, t := PauseOf(s[0]), PerCharacter(s[1..]);
      assert PerCharacter(s) == h + t;
      forall i | 0 <= i < |h + t| && IsPausePoint((h + t)[i]) ensures i + 1 < |h + t| && (h + t)[i + 1] == ' ' {
        if i >= |h| {
          assert (h + t)[i] == t[i - |h|];
        }
      }
    }
  }

  /** Text without commas or full stops is spoken as it is. */
  lemma {:induction false} PausedWithoutPunctuation(text: string)
    requires forall i :: 0 <= i < |text| ==> !IsPausePoint(text[i])
    ensures Paused(text) == text
    decreases |text|
  {
    PausedIsPerCharacter(text);
    PerCharacterWithoutPunctuation(text);
  }

  lemma {:induction false} PerCharacterWithoutPunctuation(s: string)
    requires forall i :: 0 <= i < |s| ==> !IsPausePoint(s[i])
    ensures PerCharacter(s) == s
    decreases |s|
  {
    if s != [] {
      PerCharacterWithoutPunctuation(s[1..]);
      assert s == [s[0]] + s[1..];
    }
  }
}
