/** The string operations the modelled code relies on, over ASCII letters and white space. */
module Text {
  predicate IsSpace(c: char) {
    c == ' ' || '\t' <= c <= '\r' || '\U{1C}' <= c <= '\U{1F}'
  }

  /** The ten ASCII codes that Python strips. */
  const SPACE_CODES := {9, 10, 11, 12, 13, 28, 29, 30, 31, 32}

  /** Some character is not white space. */
  predicate Visible(s: string) {
    exists i | 0 <= i < |s| :: s[i] as int !in SPACE_CODES
  }

  lemma VisibleIsNotBlank(s: string)
    ensures Visible(s) <==> !Blank(s)
  {
    if Visible(s) {
      var i :| 0 <= i < |s| && s[i] as int !in SPACE_CODES;
      assert !IsSpace(s[i]);
    }
    if i :| 0 <= i < |s| && !IsSpace(s[i]) {
      assert s[i] as int !in SPACE_CODES;
    }
  }

  /** `not s.strip()` */
  predicate Blank(s: string) {
    forall i | 0 <= i < |s| :: IsSpace(s[i])
  }

  function LowerChar(c: char): char {
    if 'A' <= c <= 'Z' then (c as int + 32) as char else c
  }

  function Lower(s: string): string {
    seq(|s|, i requires 0 <= i < |s| => LowerChar(s[i]))
  }

  /** `s.lower().replace("-", "_")` */
  function SnakeCase(s: string): string {
    seq(|s|, i requires 0 <= i < |s| => if s[i] == '-' then '_' else LowerChar(s[i]))
  }

  /** The position of the first underscore, or the length of the string. */
  function WordEnd(s: string): (n: nat)
    ensures n <= |s|
  {
    if s == "" || s[0] == '_' then 0 else 1 + WordEnd(s[1..])
  }

  lemma {:induction false} WordEndIsFirst(s: string)
    ensures forall i | 0 <= i < WordEnd(s) :: s[i] != '_'
    ensures WordEnd(s) < |s| ==> s[WordEnd(s)] == '_'
  {
    if s != "" && s[0] != '_' {
      WordEndIsFirst(s[1..]);
      assert forall i | 0 < i < |s| :: s[i] == s[1..][i - 1];
    }
  }

  /** The first underscore is where it is found. */
  lemma WordEndAt(s: string, n: nat)
    requires n <= |s| && (forall i | 0 <= i < n :: s[i] != '_') && (n < |s| ==> s[n] == '_')
    ensures WordEnd(s) == n
  {
    WordEndIsFirst(s);
  }

  /** `[part for part in s.split("_") if part]` */
  function Words(s: string): seq<string>
    decreases |s|
  {
    var n := WordEnd(s);
    (if n == 0 then [] else [s[..n]]) + (if n == |s| then [] else Words(s[n + 1..]))
  }

  predicate Snake(s: string) {
    forall i | 0 <= i < |s| :: 'a' <= s[i] <= 'z' || s[i] == '_'
  }

  lemma SnakeCaseIdempotent(s: string)
    requires Snake(s)
    ensures SnakeCase(s) == s
  {
  }

  /** The words of a snake-case name spelled out word by word. */
  lemma WordsOfOne(w: string)
    requires w != "" && '_' !in w
    ensures Words(w) == [w]
  {
    WordEndAt(w, |w|);
    assert w[..|w|] == w;
  }

  lemma WordsOfTwo(w: string, v: string)
    requires w != "" && '_' !in w && v != "" && '_' !in v
    ensures Words(w + "_" + v) == [w, v]
  {
    var s := w + "_" + v;
    assert s[|w|] == '_';
    WordEndAt(s, |w|);
    assert s[..|w|] == w && s[|w| + 1..] == v;
    WordsOfOne(v);
  }

  /** `s.strip()` */
  function StripLeft(s: string): string {
    if s != "" && IsSpace(s[0]) then StripLeft(s[1..]) else s
  }

  function StripRight(s: string): string {
    if s != "" && IsSpace(s[|s| - 1]) then StripRight(s[..|s| - 1]) else s
  }

  function Strip(s: string): string {
    StripRight(StripLeft(s))
  }

  lemma {:induction false} StripLeftEmpty(s: string)
    ensures StripLeft(s) == "" <==> Blank(s)
    ensures StripLeft(s) != "" ==> !IsSpace(StripLeft(s)[0])
  {
    if s != "" && IsSpace(s[0]) {
      StripLeftEmpty(s[1..]);
      assert Blank(s) <==> Blank(s[1..]) by {
        assert forall i | 0 < i < |s| :: s[i] == s[1..][i - 1];
      }
    }
  }

  lemma {:induction false} StripRightKeepsHead(s: string)
    requires s != "" && !IsSpace(s[0])
    ensures StripRight(s) != "" && StripRight(s)[0] == s[0]
  {
    if IsSpace(s[|s| - 1]) {
      StripRightKeepsHead(s[..|s| - 1]);
    }
  }

  /** Stripping leaves nothing exactly for blank text, and what it leaves is not blank. */
  lemma StripEmpty(s: string)
    ensures Strip(s) == "" <==> Blank(s)
    ensures Strip(s) != "" ==> !Blank(Strip(s))
  {
    StripLeftEmpty(s);
    if StripLeft(s) != "" {
      StripRightKeepsHead(StripLeft(s));
    }
  }

  lemma {:induction false} StripLeftSplits(s: string)
    ensures exists a :: s == a + StripLeft(s) && Blank(a)
    ensures StripLeft(s) != "" ==> !IsSpace(StripLeft(s)[0])
  {
    if s != "" && IsSpace(s[0]) {
      StripLeftSplits(s[1..]);
      var a :| s[1..] == a + StripLeft(s) && Blank(a);
      assert s == ([s[0]] + a) + StripLeft(s) && Blank([s[0]] + a);
    } else {
      assert s == "" + s && Blank("");
    }
  }

  lemma {:induction false} StripRightSplits(s: string)
    ensures exists b :: s == StripRight(s) + b && Blank(b)
    ensures StripRight(s) != "" ==> !IsSpace(StripRight(s)[|StripRight(s)| - 1])
    ensures StripRight(s) != "" ==> StripRight(s)[0] == s[0]
  {
    if s != "" && IsSpace(s[|s| - 1]) {
      var front := s[..|s| - 1];
      StripRightSplits(front);
      var b :| front == StripRight(s) + b && Blank(b);
      assert s == front + [s[|s| - 1]] == StripRight(s) + (b + [s[|s| - 1]]) && Blank(b + [s[|s| - 1]]);
    } else {
      assert s == s + "" && Blank("");
    }
  }

  /** Stripping takes white space off both ends, all of it and nothing else. */
  lemma StripIsExact(s: string)
    ensures exists a, b :: s == a + Strip(s) + b && Blank(a) && Blank(b)
    ensures Strip(s) != "" ==>
      Strip(s)[0] as int !in SPACE_CODES && Strip(s)[|Strip(s)| - 1] as int !in SPACE_CODES
  {
    var left := StripLeft(s);
    StripLeftSplits(s);
    StripRightSplits(left);
    var a :| s == a + left && Blank(a);
    var b :| left == Strip(s) + b && Blank(b);
    assert s == a + Strip(s) + b;
  }

  predicate CapitalOf(c: char, d: char) {
    65 <= c as int <= 90 && d as int == c as int + 32
  }

  /** The same character, or the capital and the small form of one letter. */
  predicate SameLetter(c: char, d: char) {
    c == d || CapitalOf(c, d) || CapitalOf(d, c)
  }

  ghost predicate SameLetters(s: string, t: string) {
    |s| == |t| && forall i | 0 <= i < |s| :: SameLetter(s[i], t[i])
  }

  lemma LowerCharIsExact(c: char, d: char)
    ensures SameLetter(c, LowerChar(c)) && !(65 <= LowerChar(c) as int <= 90)
    ensures LowerChar(c) == LowerChar(d) <==> SameLetter(c, d)
  {
  }

  /** Lowering keeps the letters, leaves no capitals, and identifies what differs in case only. */
  lemma LowerIsExact(s: string, t: string)
    ensures SameLetters(s, Lower(s)) && forall i | 0 <= i < |s| :: !(65 <= Lower(s)[i] as int <= 90)
    ensures Lower(s) == Lower(t) <==> SameLetters(s, t)
  {
    forall i | 0 <= i < |s|
      ensures SameLetter(s[i], Lower(s)[i]) && !(65 <= Lower(s)[i] as int <= 90)
    {
      LowerCharIsExact(s[i], s[i]);
    }
    if |s| == |t| {
      forall i | 0 <= i < |s|
        ensures Lower(s)[i] == Lower(t)[i] <==> SameLetter(s[i], t[i])
      {
        LowerCharIsExact(s[i], t[i]);
      }
    }
  }

  /*** Names in any spelling ***/

  predicate IsSeparator(c: char) {
    c == '-' || c == '_'
  }

  /**
   The plain spelling of a name: small letters, one underscore between words and none around
   them. `begun` says that a word has been written, `gap` that a separator has followed it.
   */
  function Condensed(s: string, begun: bool, gap: bool): string {
    if s == "" then ""
    else if IsSeparator(s[0]) then Condensed(s[1..], begun, true)
    else (if begun && gap then "_" else "") + [LowerChar(s[0])] + Condensed(s[1..], true, false)
  }

  function PlainSpelling(s: string): string {
    Condensed(s, false, false)
  }

  function Joined(words: seq<string>): string {
    if words == [] then "" else if |words| == 1 then words[0] else words[0] + "_" + Joined(words[1..])
  }

  lemma CondensedStep(c: char, s: string, begun: bool, gap: bool)
    requires !IsSeparator(c)
    ensures Condensed([c] + s, begun, gap)
      == (if begun && gap then "_" else "") + ([LowerChar(c)] + Condensed(s, true, false))
  {
    assert ([c] + s)[1..] == s;
  }

  /** A word without separators in front of more text. */
  lemma {:induction false} CondensedWord(w: string, rest: string)
    requires forall i | 0 <= i < |w| :: !IsSeparator(w[i])
    ensures Condensed(w + rest, true, false) == Lower(w) + Condensed(rest, true, false)
  {
    if w == "" {
      assert w + rest == rest && Lower(w) == "";
    } else {
      var tail := w[1..];
      CondensedWord(tail, rest);
      CondensedStep(w[0], tail + rest, true, false);
      assert w + rest == [w[0]] + (tail + rest);
      assert Lower(w) == [LowerChar(w[0])] + Lower(tail);
    }
  }

  lemma CondensedFirstWord(w: string, rest: string, begun: bool, gap: bool)
    requires w != "" && forall i | 0 <= i < |w| :: !IsSeparator(w[i])
    ensures Condensed(w + rest, begun, gap)
      == (if begun && gap then "_" else "") + (Lower(w) + Condensed(rest, true, false))
  {
    var tail, end := w[1..], Condensed(rest, true, false);
    CondensedWord(tail, rest);
    CondensedStep(w[0], tail + rest, begun, gap);
    assert w + rest == [w[0]] + (tail + rest);
    LowerCons(w, end);
  }

  lemma LowerCons(w: string, end: string)
    requires w != ""
    ensures [LowerChar(w[0])] + (Lower(w[1..]) + end) == Lower(w) + end
  {
    assert Lower(w) == [LowerChar(w[0])] + Lower(w[1..]);
  }

  lemma SnakeCaseAt(s: string, n: nat)
    requires n <= |s|
    ensures SnakeCase(s)[n..] == SnakeCase(s[n..]) && SnakeCase(s)[..n] == SnakeCase(s[..n])
    ensures (forall i | 0 <= i < n :: !IsSeparator(s[i])) ==> SnakeCase(s[..n]) == Lower(s[..n])
  {
  }

  lemma SeparatorMeansUnderscore(c: char)
    ensures IsSeparator(c) <==> (if c == '-' then '_' else LowerChar(c)) == '_'
  {
  }

  lemma FirstSeparator(s: string)
    ensures var n := WordEnd(SnakeCase(s));
      && n <= |s|
      && (forall i | 0 <= i < n :: !IsSeparator(s[i]))
      && (n < |s| ==> IsSeparator(s[n]) && SnakeCase(s)[n + 1..] == SnakeCase(s[n + 1..]))
      && SnakeCase(s)[..n] == Lower(s[..n])
  {
    var n := WordEnd(SnakeCase(s));
    WordEndIsFirst(SnakeCase(s));
    forall i | 0 <= i < n
      ensures !IsSeparator(s[i])
    {
      SeparatorMeansUnderscore(s[i]);
      assert SnakeCase(s)[i] != '_';
    }
    SnakeCaseAt(s, n);
    if n < |s| {
      SeparatorMeansUnderscore(s[n]);
      SnakeCaseAt(s, n + 1);
    }
  }

  /** Words in front of which a separator may have to be written. */
  function Continued(words: seq<string>, begun: bool): string {
    if words == [] then "" else (if begun then "_" else "") + Joined(words)
  }

  lemma ContinuedCons(w: string, words: seq<string>, begun: bool)
    ensures Continued([w] + words, begun) == (if begun then "_" else "") + (w + Continued(words, true))
  {
    if words != [] {
      assert ([w] + words)[1..] == words;
      assert Joined([w] + words) == w + ("_" + Joined(words));
    } else {
      assert [w] + words == [w] && w + "" == w;
    }
  }

  /** The words after a separator, if there is one. */
  function LaterWords(rest: string): seq<string> {
    if rest == "" then [] else Words(SnakeCase(rest[1..]))
  }

  /** The first word of a text, perhaps empty, and the rest from the separator on. */
  lemma SplitWord(s: string) returns (w: string, rest: string)
    ensures s == w + rest && (forall i | 0 <= i < |w| :: !IsSeparator(w[i]))
    ensures rest != "" ==> IsSeparator(rest[0])
    ensures Words(SnakeCase(s)) == (if w == "" then [] else [Lower(w)]) + LaterWords(rest)
  {
    var n := WordEnd(SnakeCase(s));
    FirstSeparator(s);
    w, rest := s[..n], s[n..];
    LaterWordsAt(s, n);
  }

  lemma LaterWordsAt(s: string, n: nat)
    requires n <= |s| && (n < |s| ==> SnakeCase(s)[n + 1..] == SnakeCase(s[n + 1..]))
    ensures LaterWords(s[n..]) == if n == |SnakeCase(s)| then [] else Words(SnakeCase(s)[n + 1..])
  {
    if n < |s| {
      assert s[n..][1..] == s[n + 1..];
    }
  }

  lemma RestCondensed(rest: string, begun: bool, gap: bool)
    requires rest != "" && IsSeparator(rest[0])
    ensures Condensed(rest, begun, gap) == Condensed(rest[1..], begun, true)
  {
  }

  /** The plain spelling joins the words that splitting at underscores finds. */
  lemma {:induction false} CondensedJoins(s: string, begun: bool, gap: bool)
    requires begun ==> gap || s == "" || IsSeparator(s[0])
    ensures Condensed(s, begun, gap) == Continued(Words(SnakeCase(s)), begun)
    decreases |s|
  {
    var w, rest := SplitWord(s);
    if rest != "" {
      CondensedJoins(rest[1..], begun || w != "", true);
      RestCondensed(rest, begun || w != "", if w == "" then gap else false);
    }
    if w == "" {
      assert s == rest && Words(SnakeCase(s)) == LaterWords(rest);
    } else {
      assert s[0] == w[0];
      WordFirst(w, rest, LaterWords(rest), begun, gap);
    }
  }

  lemma WordFirst(w: string, rest: string, words: seq<string>, begun: bool, gap: bool)
    requires w != "" && (forall i | 0 <= i < |w| :: !IsSeparator(w[i])) && (begun ==> gap)
    requires Condensed(rest, true, false) == Continued(words, true)
    ensures Condensed(w + rest, begun, gap) == Continued([Lower(w)] + words, begun)
  {
    CondensedFirstWord(w, rest, begun, gap);
    ContinuedCons(Lower(w), words, begun);
  }

  predicate IsWord(w: string) {
    w != "" && '_' !in w
  }

  lemma {:induction false} WordsAreWords(s: string)
    ensures forall i | 0 <= i < |Words(s)| :: IsWord(Words(s)[i])
    decreases |s|
  {
    var n := WordEnd(s);
    WordEndIsFirst(s);
    if n < |s| {
      WordsAreWords(s[n + 1..]);
    }
  }

  lemma {:induction false} WordsOfJoined(words: seq<string>)
    requires forall i | 0 <= i < |words| :: IsWord(words[i])
    ensures Words(Joined(words)) == words
  {
    if |words| == 1 {
      WordsOfOne(words[0]);
    } else if |words| > 1 {
      var w, rest := words[0], Joined(words[1..]);
      var s := w + "_" + rest;
      WordsOfJoined(words[1..]);
      assert s[|w|] == '_';
      WordEndAt(s, |w|);
      assert s[..|w|] == w && s[|w| + 1..] == rest;
      assert Joined(words) == s;
    }
  }

  /** Two lists of words that join to the same text are the same. */
  lemma JoinedInjective(a: seq<string>, b: seq<string>)
    requires forall i | 0 <= i < |a| :: IsWord(a[i])
    requires forall i | 0 <= i < |b| :: IsWord(b[i])
    requires Joined(a) == Joined(b)
    ensures a == b
  {
    WordsOfJoined(a);
    WordsOfJoined(b);
  }

  /** A key has given words exactly if its plain spelling is theirs. */
  lemma SpellingIsExact(key: string, words: seq<string>)
    requires forall i | 0 <= i < |words| :: IsWord(words[i])
    ensures Words(SnakeCase(key)) == words <==> PlainSpelling(key) == Joined(words)
  {
    CondensedJoins(key, false, false);
    WordsAreWords(SnakeCase(key));
    if PlainSpelling(key) == Joined(words) {
      JoinedInjective(Words(SnakeCase(key)), words);
    }
  }
}
