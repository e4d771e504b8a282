/**
 * The name-extraction heuristic `extract_user_facts`: the text is lower-cased,
 * the patterns `<keyword>\s+(.+)` are searched for in list order, and the first
 * that matches gives the captured rest of the line, which is cleaned of
 * punctuation and re-capitalised word by word. Instead of calling `save_fact`,
 * the extraction returns the name; `Remember` is the store update it causes.
 */
module Extract {
  import opened Options
  import opened Text
  import SystemPrompt

  /** The literal keyword of each pattern, in the order the source tries them. */
  const Keywords: seq<string> :=
    ["chamo-me", "o meu nome é", "meu nome é", "eu sou o", "eu sou a", "eu sou da", "eu sou das"]

  /**
   * Every keyword is already lower case, so each pattern can match the lowered text;
   * "o meu nome é" is tried before the "meu nome é" it contains.
   */
  lemma KeywordsLowerCase()
    ensures |Keywords| == 7
    ensures forall k :: 0 <= k < |Keywords| ==> LowerString(Keywords[k]) == Keywords[k]
    ensures Keywords[2] == Keywords[1][2..]
  {
    forall k | 0 <= k < |Keywords| ensures LowerString(Keywords[k]) == Keywords[k] {
      var w := Keywords[k];
      assert forall i :: 0 <= i < |w| ==> !IsUpperLatin(w[i]) && w[i] != '\U{178}';
    }
  }

  predicate KeywordAt(t: string, kw: string, p: nat) {
    p + |kw| <= |t| && t[p..p + |kw|] == kw
  }

  /**
   * The pattern `kw\s+(.+)` matches at `p` with its group starting at `q`: the keyword,
   * then one or more whitespace characters up to `q`, then a character that is not a
   * newline (the first of `.+`).
   */
  predicate Admits(t: string, kw: string, p: nat, q: nat) {
    KeywordAt(t, kw, p) && p + |kw| < q < |t| && AllSpace(t[p + |kw|..q]) && t[q] != '\n'
  }

  /** Length of the greedy `.+` from the start of `u`: the run of non-newline characters. */
  function LineLength(u: string): (n: nat)
    ensures n <= |u|
    ensures forall i :: 0 <= i < n ==> u[i] != '\n'
    ensures n < |u| ==> u[n] == '\n'
  {
    if u == [] || u[0] == '\n' then 0 else 1 + LineLength(u[1..])
  }

  /** Backtracking of the greedy `\s+`: the last position in (s, q] where `.+` can start. */
  function Backtrack(t: string, s: nat, q: nat): (r: Option<nat>)
    ensures r.Some? ==> s < r.value <= q && r.value < |t| && t[r.value] != '\n'
    ensures r.Some? ==> forall q' :: r.value < q' <= q ==> q' >= |t| || t[q'] == '\n'
    ensures r.None? ==> forall q' :: s < q' <= q ==> q' >= |t| || t[q'] == '\n'
    decreases q
  {
    if q <= s then None
    else if q < |t| && t[q] != '\n' then Some(q)
    else Backtrack(t, s, q - 1)
  }

  /**
   * Where the group of `kw\s+(.+)` starts when the match begins at `p`: the regular
   * expression engine takes the largest admissible position.
   */
  function GroupStart(t: string, kw: string, p: nat): (r: Option<nat>)
    ensures r.Some? ==> Admits(t, kw, p, r.value)
    ensures r.Some? ==> forall q: nat :: Admits(t, kw, p, q) ==> q <= r.value
    ensures r.None? ==> forall q: nat :: !Admits(t, kw, p, q)
  {
    if !KeywordAt(t, kw, p) then None
    else
      var s := p + |kw|;
      var e := s + LeadingSpaces(t[s..]);
      assert forall q :: s <= q <= e ==> AllSpace(t[s..q]) by {
        forall q | s <= q <= e ensures AllSpace(t[s..q]) {
          assert t[s..q] == t[s..][..e - s][..q - s];
        }
      }
      assert forall q :: e < q <= |t| ==> !AllSpace(t[s..q]) by {
        forall q | e < q <= |t| ensures !AllSpace(t[s..q]) {
          assert t[s..q][e - s] == t[s..][e - s];
        }
      }
      var r := Backtrack(t, s, e);
      assert r.Some? ==> Admits(t, kw, p, r.value);
      assert forall q: nat :: Admits(t, kw, p, q) ==> q <= e;
      r
  }

  /** `re.search`: the leftmost position at or after `p` where the pattern matches. */
  function SearchFrom(t: string, kw: string, p: nat): (r: Option<nat>)
    ensures r.Some? ==> p <= r.value && GroupStart(t, kw, r.value).Some?
    ensures r.Some? ==> forall p': nat :: p <= p' < r.value ==> GroupStart(t, kw, p').None?
    ensures r.None? ==> forall p': nat :: p <= p' ==> GroupStart(t, kw, p').None?
    decreases |t| + 1 - p
  {
    if p > |t| then None
    else if GroupStart(t, kw, p).Some? then Some(p)
    else SearchFrom(t, kw, p + 1)
  }

  /** `match.group(1)` of `re.search(kw + r"\s+(.+)", t)`, if there is a match. */
  function Group(t: string, kw: string): (r: Option<string>)
    ensures r.Some? ==> |r.value| > 0 && forall i :: 0 <= i < |r.value| ==> r.value[i] != '\n'
  {
    match SearchFrom(t, kw, 0)
    case None => None
    case Some(p) =>
      var q := GroupStart(t, kw, p).value;
      Some(t[q..q + LineLength(t[q..])])
  }

  /** The characters the cleanup `re.sub(r"[^\w\sÀ-ÿ]", "", name)` keeps. */
  predicate Kept(c: char) {
    IsWord(c) || IsSpace(c) || InLatinLetterRange(c)
  }

  /** The cleanup: every character outside `\w`, `\s` and `À-ÿ` removed, the rest in order. */
  function Clean(s: string): (r: string)
    ensures forall i :: 0 <= i < |r| ==> Kept(r[i])
    ensures (forall i :: 0 <= i < |s| ==> Kept(s[i])) ==> r == s
    ensures (forall i :: 0 <= i < |s| ==> !IsWord(s[i]) && !InLatinLetterRange(s[i])) ==> AllSpace(r)
    ensures |s| == 1 ==> r == (if Kept(s[0]) then s else [])
  {
    if s == [] then []
    else
      var r := (if Kept(s[0]) then [s[0]] else []) + Clean(s[1..]);
      assert (forall i :: 0 <= i < |s| ==> Kept(s[i])) ==> r == [s[0]] + s[1..];
      r
  }

  lemma AppendAssociative(p: string, q: string, r: string)
    ensures p + (q + r) == (p + q) + r
  {
  }

  /** Cleaning looks at the first character on its own. */
  lemma CleanCons(c: char, t: string)
    ensures Clean([c] + t) == (if Kept(c) then [c] else []) + Clean(t)
  {
    assert ([c] + t)[0] == c && ([c] + t)[1..] == t;
  }

  /** The substitution works character by character: cleaning a concatenation cleans each part. */
  lemma {:induction false} CleanAppend(a: string, b: string)
    ensures Clean(a + b) == Clean(a) + Clean(b)
    decreases |a|
  {
    if a == [] {
      assert a + b == b;
    } else {
      assert a + b == [a[0]] + (a[1..] + b);
      assert a == [a[0]] + a[1..];
      CleanCons(a[0], a[1..] + b);
      CleanCons(a[0], a[1..]);
      CleanAppend(a[1..], b);
      AppendAssociative(if Kept(a[0]) then [a[0]] else [], Clean(a[1..]), Clean(b));
    }
  }

  /** `w.capitalize()`: first character upper-cased, the rest lower-cased. */
  function Capitalize(w: string): (r: string)
    ensures |r| == |w|
    ensures |w| > 0 ==> r[0] == Upper(w[0])
    ensures forall i :: 0 < i < |w| ==> r[i] == Lower(w[i])
    ensures IsWordOfSplit(w) ==> IsWordOfSplit(r)
  {
    if w == [] then [] else [Upper(w[0])] + LowerString(w[1..])
  }

  function CapitalizeAll(ws: seq<string>): (rs: seq<string>)
    ensures |rs| == |ws|
    ensures forall k :: 0 <= k < |ws| ==> rs[k] == Capitalize(ws[k])
  {
    seq(|ws|, k requires 0 <= k < |ws| => Capitalize(ws[k]))
  }

  /** `" ".join(w.capitalize() for w in name.split())` applied to the cleaned group. */
  function TidyName(group: string): string
  {
    Join(CapitalizeAll(Split(Clean(group))), " ")
  }

  /**
   * The saved name is single-spaced, and its words are exactly the capitalised
   * words of the cleaned group, in order.
   */
  lemma TidyNameShape(group: string)
    ensures SingleSpaced(TidyName(group))
    ensures Split(TidyName(group)) == CapitalizeAll(Split(Clean(group)))
  {
    var ws := CapitalizeAll(Split(Clean(group)));
    JoinSingleSpaced(ws);
    SplitJoin(ws);
  }

  /** A group made only of punctuation and whitespace gives the empty name. */
  lemma TidyNameOfPunctuation(group: string)
    requires forall i :: 0 <= i < |group| ==> !IsWord(group[i]) && !InLatinLetterRange(group[i])
    ensures TidyName(group) == ""
  {
  }

  /** The name the patterns `kws[k..]` give for the lower-cased text `t`, the first match winning. */
  function FirstName(t: string, kws: seq<string>, k: nat): Option<string>
    decreases |kws| - k
  {
    if k >= |kws| then None
    else match Group(t, kws[k])
      case Some(g) => Some(TidyName(g))
      case None => FirstName(t, kws, k + 1)
  }

  /** The name `extract_user_facts` saves for `text`, or None when it saves nothing. */
  function ExtractName(text: string): Option<string>
  {
    FirstName(LowerString(text), Keywords, 0)
  }

  /** Pattern `kws[k]` matches the lower-cased text `t`. */
  predicate PatternMatches(t: string, kws: seq<string>, k: nat)
    requires k < |kws|
  {
    Group(t, kws[k]).Some?
  }

  /** The name pattern `kws[k]` captures in `t`, once cleaned. */
  function PatternName(t: string, kws: seq<string>, k: nat): string
    requires k < |kws| && PatternMatches(t, kws, k)
  {
    TidyName(Group(t, kws[k]).value)
  }

  /** The index of the first pattern of `kws[k..]` that matches `t`, if any. */
  function FirstMatch(t: string, kws: seq<string>, k: nat): (r: Option<nat>)
    requires k <= |kws|
    ensures r.Some? ==> k <= r.value < |kws| && PatternMatches(t, kws, r.value)
    ensures r.Some? ==> forall i :: k <= i < r.value ==> !PatternMatches(t, kws, i)
    ensures r.None? ==> forall i :: k <= i < |kws| ==> !PatternMatches(t, kws, i)
    decreases |kws| - k
  {
    if k == |kws| then None
    else if PatternMatches(t, kws, k) then Some(k)
    else FirstMatch(t, kws, k + 1)
  }

  /** Trying the patterns in order gives the name of the first that matches. */
  lemma {:induction false} FirstNameIsFirstMatch(t: string, kws: seq<string>, k: nat)
    requires k <= |kws|
    ensures FirstName(t, kws, k) ==
      match FirstMatch(t, kws, k)
      case None => None
      case Some(j) => Some(PatternName(t, kws, j))
    decreases |kws| - k
  {
    if k < |kws| && !PatternMatches(t, kws, k) {
      FirstNameIsFirstMatch(t, kws, k + 1);
    }
  }

  /**
   * A name is saved exactly when some pattern matches the lower-cased text, and
   * it comes from the first pattern in list order that matches, whatever the
   * positions of the matches in the text.
   */
  lemma ExtractNameSpec(text: string)
    ensures ExtractName(text).None? <==>
      forall k :: 0 <= k < |Keywords| ==> !PatternMatches(LowerString(text), Keywords, k)
    ensures forall k ::
      (0 <= k < |Keywords| && PatternMatches(LowerString(text), Keywords, k)
       && (forall j :: 0 <= j < k ==> !PatternMatches(LowerString(text), Keywords, j)))
      ==> ExtractName(text) == Some(PatternName(LowerString(text), Keywords, k))
  {
    var t := LowerString(text);
    FirstNameIsFirstMatch(t, Keywords, 0);
    var r := FirstMatch(t, Keywords, 0);
    forall k | 0 <= k < |Keywords| && PatternMatches(t, Keywords, k)
      && (forall j :: 0 <= j < k ==> !PatternMatches(t, Keywords, j))
      ensures ExtractName(text) == Some(PatternName(t, Keywords, k))
    {
      assert r.Some? && r.value == k;
    }
  }

  /**
   * The loop of `extract_user_facts`: tries each pattern in order and returns
   * after the first match, with the name it would save.
   */
  method ExtractUserFacts(text: string) returns (name: Option<string>)
    ensures name == ExtractName(text)
  {
    var t := LowerString(text);
    for k := 0 to |Keywords|
      invariant FirstName(t, Keywords, k) == FirstName(t, Keywords, 0)
    {
      var m := Group(t, Keywords[k]);
      if m.Some? {
        name := Some(TidyName(m.value));
        return;
      }
    }
    name := None;
  }

  /** `save_fact("name", …)` when a name was extracted; the store is unchanged otherwise. */
  function Remember(facts: map<string, string>, name: Option<string>): (r: map<string, string>)
    ensures forall k :: k != SystemPrompt.NameKey ==> Get(r, k) == Get(facts, k)
    ensures name.Some? ==> Get(r, SystemPrompt.NameKey) == name
    ensures name.None? ==> r == facts
  {
    if name.Some? then facts[SystemPrompt.NameKey := name.value] else facts
  }

  /** The search moves past positions that cannot start the keyword. */
  lemma {:induction false} SearchSkips(t: string, kw: string, from: nat, to: nat)
    requires |kw| > 0 && from <= to <= |t|
    requires forall p :: from <= p < to ==> t[p] != kw[0]
    ensures SearchFrom(t, kw, from) == SearchFrom(t, kw, to)
    decreases |t| - from
  {
    if from < to {
      assert from + |kw| <= |t| ==> t[from..from + |kw|][0] == t[from];
      assert !KeywordAt(t, kw, from);
      SearchSkips(t, kw, from + 1, to);
    }
  }

  /**
   * The first pattern in list order wins, not the earliest match in the text:
   * "eu sou o" occurs first, but "chamo-me" is tried first. The full stop of the
   * captured "ana." is cleaned away.
   */
  lemma FirstPatternWins()
    ensures ExtractName("Eu sou o Rui, chamo-me Ana.") == Some("Ana")
  {
    LowerExample();
    assert Keywords[0] == "chamo-me";
    ChamoMeInExample();
    AnaTidied();
  }

  lemma LowerExample()
    ensures LowerString("Eu sou o Rui, chamo-me Ana.") == "eu sou o rui, chamo-me ana."
  {
    var s, t := "Eu sou o Rui, chamo-me Ana.", "eu sou o rui, chamo-me ana.";
    assert forall i :: 0 <= i < |s| ==> Lower(s[i]) == t[i];
  }

  lemma ChamoMeInExample()
    ensures Group("eu sou o rui, chamo-me ana.", "chamo-me") == Some("ana.")
  {
    var t := "eu sou o rui, chamo-me ana.";
    ExampleSearchReachesKeyword();
    ExampleGroupStart();
    assert t[23..] == "ana.";
    LineOfAna();
    GroupFrom(t, "chamo-me", 14, 23, 4);
    assert t[23..27] == "ana.";
  }

  lemma LineOfAna()
    ensures LineLength("ana.") == 4
  {
    assert LineLength(".") == 1;
    assert LineLength("a.") == 2;
  }

  /** The group once the match position and the group start are known. */
  lemma GroupFrom(t: string, kw: string, p: nat, q: nat, n: nat)
    requires SearchFrom(t, kw, 0) == Some(p) && GroupStart(t, kw, p) == Some(q)
    requires q + n <= |t| && LineLength(t[q..]) == n
    ensures Group(t, kw) == Some(t[q..q + n])
  {
  }

  lemma ExampleSearchReachesKeyword()
    ensures SearchFrom("eu sou o rui, chamo-me ana.", "chamo-me", 0)
         == SearchFrom("eu sou o rui, chamo-me ana.", "chamo-me", 14)
  {
    var t := "eu sou o rui, chamo-me ana.";
    assert forall p :: 0 <= p < 14 ==> t[p] != 'c';
    SearchSkips(t, "chamo-me", 0, 14);
  }

  lemma ExampleGroupStart()
    ensures GroupStart("eu sou o rui, chamo-me ana.", "chamo-me", 14) == Some(23)
  {
    var t := "eu sou o rui, chamo-me ana.";
    var kw := "chamo-me";
    assert t[14..22] == kw;
    assert KeywordAt(t, kw, 14);
    assert t[22..] == " ana.";
    assert LeadingSpaces(" ana.") == 1;
  }

  lemma AnaTidied()
    ensures TidyName("ana.") == "Ana"
  {
    CleanAna();
    SplitJoin(["ana"]);
    assert Split("ana") == ["ana"];
    CapitalizeAna();
    assert CapitalizeAll(["ana"]) == ["Ana"];
  }

  lemma CleanAna()
    ensures Clean("ana.") == "ana"
  {
    assert Kept('a') && Kept('n') && !Kept('.');
    CleanCons('.', "");
    CleanCons('a', ".");
    CleanCons('n', "a.");
    CleanCons('a', "na.");
    assert ['.'] + "" == "." && ['a'] + "." == "a." && ['n'] + "a." == "na." && ['a'] + "na." == "ana.";
  }

  lemma CapitalizeAna()
    ensures Capitalize("ana") == "Ana"
  {
    assert LowerString("na") == "na";
  }

  /** A keyword followed only by punctuation saves the empty name. */
  lemma PunctuationOnlySavesEmptyName()
    ensures ExtractName("Chamo-me !") == Some("")
  {
    LowerChamoMe();
    assert Keywords[0] == "chamo-me";
    ExampleKeywordThenPunctuation();
    TidyNameOfPunctuation("!");
  }

  lemma LowerChamoMe()
    ensures LowerString("Chamo-me !") == "chamo-me !"
  {
    var s, t := "Chamo-me !", "chamo-me !";
    assert forall i :: 0 <= i < |s| ==> Lower(s[i]) == t[i];
  }

  lemma ExampleKeywordThenPunctuation()
    ensures Group("chamo-me !", "chamo-me") == Some("!")
  {
    var t, kw := "chamo-me !", "chamo-me";
    assert KeywordAt(t, kw, 0);
    assert t[8..] == " !";
    assert LeadingSpaces(" !") == 1;
    assert GroupStart(t, kw, 0) == Some(9);
    assert SearchFrom(t, kw, 0) == Some(0);
    assert t[9..] == "!";
    assert LineLength("!") == 1;
    GroupFrom(t, kw, 0, 9, 1);
    assert t[9..10] == "!";
  }
}
