/** Workspace slugs: normalisation, validation, candidates and the choice of an unused one. */
module Slugs {
  import opened Wrappers
  import opened Text

  const RESERVED_SLUGS: set<string> := {
    "admin", "api", "app", "www", "drantiq", "support", "help", "status", "billing", "login",
    "signup", "onboarding", "welcome", "internal", "test", "demo", "null", "undefined"}

  const MIN_SLUG_LENGTH: nat := 3
  const MAX_SLUG_LENGTH: nat := 48
  const MAX_SLUG_ATTEMPTS: nat := 5

  predicate IsAlnum(c: char) {
    'a' <= c <= 'z' || '0' <= c <= '9'
  }

  /** str.lower() on one character. The folding of non-ASCII characters is left open: it may give
      any text, including ASCII letters. */
  type Folding = char -> string

  function LowerChar(c: char, fold: Folding): string {
    if 'A' <= c <= 'Z' then [c - 'A' + 'a']
    else if c < '\U{80}' || IsSpace(c) then [c]
    else fold(c)
  }

  function Lower(s: string, fold: Folding): string {
    if s == "" then "" else LowerChar(s[0], fold) + Lower(s[1..], fold)
  }

  predicate IsHyphen(c: char) {
    c == '-'
  }

  /** re.sub: every maximal run of characters in the class becomes one hyphen. */
  function SubRuns(s: string, inClass: char -> bool): string
    decreases |s|
  {
    if s == "" then ""
    else if !inClass(s[0]) then [s[0]] + SubRuns(s[1..], inClass)
    else
      StripLeftShorter(s, inClass);
      "-" + SubRuns(StripLeft(s, inClass), inClass)
  }

  lemma {:induction false} StripLeftShorter(s: string, strip: char -> bool)
    ensures |StripLeft(s, strip)| <= |s|
    ensures s != "" && strip(s[0]) ==> |StripLeft(s, strip)| < |s|
  {
    if s != "" && strip(s[0]) {
      StripLeftShorter(s[1..], strip);
    }
  }

  function NotAlnum(): char -> bool {
    c => !IsAlnum(c)
  }

  /** slugify_workspace_name. */
  method SlugifyWorkspaceName(name: string, fold: Folding) returns (text: string)
    ensures text == Slugify(name, fold)
  {
    text := Lower(Strip(name, IsSpace), fold);
    text := SubRuns(text, NotAlnum());
    text := Strip(SubRuns(text, IsHyphen), IsHyphen);
    if |text| > MAX_SLUG_LENGTH {
      text := StripRight(text[..MAX_SLUG_LENGTH], IsHyphen);
    }
    SlugifySteps(name, fold);
  }

  // ----- what a slug is

  /** The length of the alphanumeric run at the start of s. */
  function RunLength(s: string): (n: nat)
    ensures n <= |s|
    ensures forall i | 0 <= i < n :: IsAlnum(s[i])
    ensures n < |s| ==> !IsAlnum(s[n])
  {
    if s == "" || !IsAlnum(s[0]) then 0 else 1 + RunLength(s[1..])
  }

  /** The maximal alphanumeric runs of s. */
  function Words(s: string): seq<string>
    decreases |s|
  {
    if s == "" then []
    else if !IsAlnum(s[0]) then Words(s[1..])
    else [s[..RunLength(s)]] + Words(s[RunLength(s)..])
  }

  function JoinHyphens(words: seq<string>): string {
    if words == [] then ""
    else if |words| == 1 then words[0]
    else words[0] + ("-" + JoinHyphens(words[1..]))
  }

  /** The slug of a name: its alphanumeric runs joined by hyphens, truncated, right-trimmed. */
  function Slugify(name: string, fold: Folding): string {
    var text := JoinHyphens(Words(Lower(name, fold)));
    StripRight(if |text| > MAX_SLUG_LENGTH then text[..MAX_SLUG_LENGTH] else text, IsHyphen)
  }

  predicate IsWord(w: string) {
    w != "" && forall i | 0 <= i < |w| :: IsAlnum(w[i])
  }

  /** The validator's pattern [a-z0-9]+(?:-[a-z0-9]+)* on the whole string. */
  ghost predicate MatchesPattern(slug: string) {
    exists words: seq<string> :: words != [] && (forall w | w in words :: IsWord(w)) && slug == JoinHyphens(words)
  }

  /** The same language, character by character. */
  predicate Clean(s: string) {
    && (forall i | 0 <= i < |s| :: IsAlnum(s[i]) || s[i] == '-')
    && (forall i | 0 <= i < |s| - 1 :: s[i] == '-' ==> s[i + 1] != '-')
    && (s != "" ==> s[0] != '-' && s[|s| - 1] != '-')
  }

  lemma {:induction false} WordsAreWords(s: string)
    ensures forall w | w in Words(s) :: IsWord(w)
    decreases |s|
  {
    if s != "" {
      if !IsAlnum(s[0]) {
        WordsAreWords(s[1..]);
      } else {
        WordsAreWords(s[RunLength(s)..]);
      }
    }
  }

  lemma {:induction false} JoinIsClean(words: seq<string>)
    requires forall w | w in words :: IsWord(w)
    ensures Clean(JoinHyphens(words))
    ensures words != [] ==> JoinHyphens(words) != ""
  {
    if words != [] {
      assert words[0] in words;
      if |words| > 1 {
        JoinIsClean(words[1..]);
      }
    }
  }

  // ----- the two substitutions

  lemma {:induction false} SubRunsCopies(s: string, n: nat)
    requires n <= |s| && forall i | 0 <= i < n :: IsAlnum(s[i])
    ensures SubRuns(s, NotAlnum()) == s[..n] + SubRuns(s[n..], NotAlnum())
  {
    if n > 0 {
      SubRunsCopies(s[1..], n - 1);
      assert s[..n] == [s[0]] + s[1..][..n - 1];
      assert s[n..] == s[1..][n - 1..];
    } else {
      assert s[0..] == s;
    }
  }

  function Lead(s: string): string {
    if s != "" && !IsAlnum(s[0]) then "-" else ""
  }

  function Trail(s: string): string {
    if s != "" && !IsAlnum(s[|s| - 1]) then "-" else ""
  }

  lemma {:induction false} StripLeftToWord(s: string)
    ensures var rest := StripLeft(s, NotAlnum());
            && Words(s) == Words(rest)
            && (rest != "" ==> IsAlnum(rest[0]) && s != "" && rest[|rest| - 1] == s[|s| - 1])
  {
    if s != "" && !IsAlnum(s[0]) {
      StripLeftToWord(s[1..]);
    }
  }

  /** The words joined by hyphens and closed by trail. */
  function Closed(words: seq<string>, trail: string): string
    requires words != []
  {
    words[0] + (if |words| == 1 then trail else "-" + Closed(words[1..], trail))
  }

  function Separated(s: string): string {
    if Words(s) == [] then Lead(s)
    else if IsAlnum(s[0]) then Closed(Words(s), Trail(s))
    else "-" + Closed(Words(s), Trail(s))
  }

  /** Substituting the separators leaves the words joined by hyphens, with a hyphen at each end
      where the text had separators. */
  lemma {:induction false} SubRunsIsSeparated(s: string)
    ensures SubRuns(s, NotAlnum()) == Separated(s)
    decreases |s|
  {
    if s != "" {
      if IsAlnum(s[0]) {
        SubRunsCopies(s, RunLength(s));
        SubRunsIsSeparated(s[RunLength(s)..]);
        SeparatedAtWord(s);
      } else {
        StripLeftShorter(s, NotAlnum());
        SubRunsIsSeparated(StripLeft(s, NotAlnum()));
        SeparatedAtHyphen(s);
      }
    }
  }

  lemma SeparatedAtWord(s: string)
    requires s != "" && IsAlnum(s[0])
    ensures Separated(s) == s[..RunLength(s)] + Separated(s[RunLength(s)..])
  {
    var rest := s[RunLength(s)..];
    assert Words(s)[1..] == Words(rest);
    if rest != "" {
      assert rest[|rest| - 1] == s[|s| - 1] && Trail(rest) == Trail(s);
      if Words(rest) == [] {
        NoWordsNoAlnum(rest);
      }
    }
  }

  lemma SeparatedAtHyphen(s: string)
    requires s != "" && !IsAlnum(s[0])
    ensures Separated(s) == "-" + Separated(StripLeft(s, NotAlnum()))
  {
    StripLeftToWord(s);
  }

  lemma {:induction false} ClosedIsJoin(words: seq<string>, trail: string)
    requires words != []
    ensures Closed(words, trail) == JoinHyphens(words) + trail
  {
    if |words| > 1 {
      ClosedIsJoin(words[1..], trail);
      var joined := JoinHyphens(words[1..]);
      Regroup("-", joined, trail);
      Regroup(words[0], "-" + joined, trail);
    }
  }

  lemma SubRunsIsJoin(s: string)
    ensures SubRuns(s, NotAlnum()) ==
            if Words(s) == [] then Lead(s) else Lead(s) + JoinHyphens(Words(s)) + Trail(s)
  {
    SubRunsIsSeparated(s);
    if Words(s) != [] {
      var joined := JoinHyphens(Words(s));
      ClosedIsJoin(Words(s), Trail(s));
      Regroup(Lead(s), joined, Trail(s));
      EmptyEnds(joined + Trail(s));
    }
  }

  lemma {:induction false} NoWordsNoAlnum(s: string)
    requires Words(s) == []
    ensures forall i | 0 <= i < |s| :: !IsAlnum(s[i])
  {
    if s != "" {
      NoWordsNoAlnum(s[1..]);
    }
  }

  ghost predicate NoDoubleHyphen(s: string) {
    forall i | 0 <= i < |s| - 1 :: s[i] == '-' ==> s[i + 1] != '-'
  }

  lemma NoDoubleTail(s: string)
    requires s != "" && NoDoubleHyphen(s)
    ensures NoDoubleHyphen(s[1..])
  {
    forall i | 0 <= i < |s[1..]| - 1 && s[1..][i] == '-' ensures s[1..][i + 1] != '-' {
      assert s[i + 1] == '-';
    }
  }

  lemma {:induction false} SubHyphensIsIdentity(s: string)
    requires NoDoubleHyphen(s)
    ensures SubRuns(s, IsHyphen) == s
    decreases |s|
  {
    if s != "" {
      NoDoubleTail(s);
      SubHyphensIsIdentity(s[1..]);
      if s[0] == '-' {
        assert |s| > 1 ==> s[1] != '-';
        assert StripLeft(s[1..], IsHyphen) == s[1..];
        assert StripLeft(s, IsHyphen) == s[1..];
      }
      assert s == [s[0]] + s[1..];
    }
  }

  lemma StripLeadingHyphen(lead: string, text: string)
    requires (lead == "" || lead == "-") && (text != "" ==> text[0] != '-')
    ensures StripLeft(lead + text, IsHyphen) == text
  {
    assert StripLeft(text, IsHyphen) == text;
    assert lead == "" ==> lead + text == text;
    assert lead == "-" ==> (lead + text)[0] == '-' && (lead + text)[1..] == text;
  }

  lemma StripTrailingHyphen(text: string, trail: string)
    requires (trail == "" || trail == "-") && (text != "" ==> text[|text| - 1] != '-')
    ensures StripRight(text + trail, IsHyphen) == text
  {
    assert StripRight(text, IsHyphen) == text;
    assert trail == "" ==> text + trail == text;
    assert trail == "-" ==> (text + trail)[|text|] == '-' && (text + trail)[..|text|] == text;
  }

  lemma EndHyphensStaySingle(lead: string, text: string, trail: string)
    requires Clean(text) && (lead == "" || lead == "-") && (trail == "" || trail == "-")
    requires text == "" ==> trail == ""
    ensures NoDoubleHyphen(lead + (text + trail))
  {
    var s := lead + (text + trail);
    forall i | 0 <= i < |s| - 1 && s[i] == '-' ensures s[i + 1] != '-' {
      var k := i - |lead|;
      if k >= 0 {
        assert s[i] == (text + trail)[k] && s[i + 1] == (text + trail)[k + 1];
      } else {
        assert s[i + 1] == text[0];
      }
    }
  }

  lemma StripHyphens(lead: string, text: string, trail: string)
    requires Clean(text) && (lead == "" || lead == "-") && (trail == "" || trail == "-")
    requires text == "" ==> trail == ""
    ensures NoDoubleHyphen(lead + text + trail)
    ensures Strip(lead + text + trail, IsHyphen) == text
  {
    Regroup(lead, text, trail);
    EndHyphensStaySingle(lead, text, trail);
    assert text != "" ==> (text + trail)[0] == text[0];
    StripLeadingHyphen(lead, text + trail);
    StripTrailingHyphen(text, trail);
  }

  // ----- stripping white space first makes no difference

  lemma Regroup(a: string, b: string, c: string)
    ensures a + (b + c) == (a + b) + c
  {
  }

  lemma {:induction false} LowerAppend(s: string, t: string, fold: Folding)
    ensures Lower(s + t, fold) == Lower(s, fold) + Lower(t, fold)
  {
    if s == "" {
      assert s + t == t && Lower(s, fold) == "";
    } else {
      var head, tail := LowerChar(s[0], fold), s[1..];
      LowerAppend(tail, t, fold);
      assert (s + t)[0] == s[0] && (s + t)[1..] == tail + t;
      assert Lower(s + t, fold) == head + Lower(tail + t, fold);
      assert Lower(s, fold) == head + Lower(tail, fold);
      Regroup(head, Lower(tail, fold), Lower(t, fold));
    }
  }

  lemma {:induction false} WordsIgnoreTrailing(s: string, c: char)
    requires !IsAlnum(c)
    ensures Words(s + [c]) == Words(s)
    decreases |s|
  {
    if s != "" {
      if !IsAlnum(s[0]) {
        assert (s + [c])[1..] == s[1..] + [c];
        WordsIgnoreTrailing(s[1..], c);
      } else {
        var n := RunLength(s);
        RunLengthAppend(s, c);
        assert (s + [c])[..n] == s[..n] && (s + [c])[n..] == s[n..] + [c];
        WordsIgnoreTrailing(s[n..], c);
      }
    } else {
      assert "" + [c] == [c] && [c][1..] == "";
    }
  }

  lemma {:induction false} RunLengthAppend(s: string, c: char)
    requires !IsAlnum(c)
    ensures RunLength(s + [c]) == RunLength(s)
  {
    if s != "" && IsAlnum(s[0]) {
      assert (s + [c])[1..] == s[1..] + [c];
      RunLengthAppend(s[1..], c);
    }
  }

  lemma {:induction false} StripLeftKeepsWords(name: string, fold: Folding)
    ensures Words(Lower(StripLeft(name, IsSpace), fold)) == Words(Lower(name, fold))
  {
    if name != "" && IsSpace(name[0]) {
      StripLeftKeepsWords(name[1..], fold);
      assert Lower(name, fold)[1..] == Lower(name[1..], fold);
    }
  }

  lemma {:induction false} StripRightKeepsWords(name: string, fold: Folding)
    ensures Words(Lower(StripRight(name, IsSpace), fold)) == Words(Lower(name, fold))
  {
    if name != "" && IsSpace(name[|name| - 1]) {
      var init, last := name[..|name| - 1], name[|name| - 1];
      StripRightKeepsWords(init, fold);
      assert name == init + [last];
      LowerAppend(init, [last], fold);
      assert Lower([last], fold) == [last];
      WordsIgnoreTrailing(Lower(init, fold), last);
    }
  }

  /** The hyphen at the end of the separated text, if there is one. */
  function TrailOf(s: string): string {
    if Words(s) == [] then "" else Trail(s)
  }

  lemma SeparatedText(s: string)
    ensures SubRuns(s, NotAlnum()) == Lead(s) + JoinHyphens(Words(s)) + TrailOf(s)
  {
    SubRunsIsJoin(s);
    if Words(s) == [] {
      assert Lead(s) + "" + "" == Lead(s);
    }
  }

  /** Separating, collapsing and trimming leave the words joined by hyphens. */
  lemma CollapsedText(s: string)
    ensures Strip(SubRuns(SubRuns(s, NotAlnum()), IsHyphen), IsHyphen) == JoinHyphens(Words(s))
    ensures Clean(JoinHyphens(Words(s)))
  {
    SeparatedText(s);
    WordsAreWords(s);
    JoinIsClean(Words(s));
    StripHyphens(Lead(s), JoinHyphens(Words(s)), TrailOf(s));
    SubHyphensIsIdentity(Lead(s) + JoinHyphens(Words(s)) + TrailOf(s));
  }

  lemma StrippedKeepsWords(name: string, fold: Folding)
    ensures Words(Lower(Strip(name, IsSpace), fold)) == Words(Lower(name, fold))
  {
    StripLeftKeepsWords(name, fold);
    StripRightKeepsWords(StripLeft(name, IsSpace), fold);
  }

  /** The five steps of slugify_workspace_name amount to the definition of Slugify. */
  lemma SlugifySteps(name: string, fold: Folding)
    ensures var text := Strip(SubRuns(SubRuns(Lower(Strip(name, IsSpace), fold), NotAlnum()), IsHyphen), IsHyphen);
            && text == JoinHyphens(Words(Lower(name, fold)))
            && (|text| <= MAX_SLUG_LENGTH ==> StripRight(text, IsHyphen) == text)
  {
    StrippedKeepsWords(name, fold);
    CollapsedText(Lower(Strip(name, IsSpace), fold));
    CleanHasNoEnds(JoinHyphens(Words(Lower(name, fold))));
  }

  // ----- properties of every slug

  lemma {:induction false} TrimmedPrefixIsClean(s: string)
    requires (forall i | 0 <= i < |s| :: IsAlnum(s[i]) || s[i] == '-') && NoDoubleHyphen(s) && (s != "" ==> s[0] != '-')
    ensures Clean(StripRight(s, IsHyphen)) && |StripRight(s, IsHyphen)| <= |s|
    ensures s != "" ==> StripRight(s, IsHyphen) != ""
  {
    if s != "" && s[|s| - 1] == '-' {
      TrimmedPrefixIsClean(s[..|s| - 1]);
    }
  }

  lemma CleanIsJoin(s: string)
    requires Clean(s)
    ensures JoinHyphens(Words(s)) == s
  {
    CleanIsKept(s);
    SubRunsIsJoin(s);
    CleanHasNoEnds(s);
    if Words(s) != [] {
      EmptyEnds(JoinHyphens(Words(s)));
    }
  }

  lemma CleanHasNoEnds(s: string)
    requires Clean(s)
    ensures Lead(s) == "" && Trail(s) == ""
  {
  }

  lemma EmptyEnds(s: string)
    ensures "" + s == s && "" + s + "" == s
  {
  }

  lemma {:induction false} CleanIsKept(s: string)
    requires (forall i | 0 <= i < |s| :: IsAlnum(s[i]) || s[i] == '-') && NoDoubleHyphen(s)
    ensures SubRuns(s, NotAlnum()) == s
    decreases |s|
  {
    if s != "" {
      NoDoubleTail(s);
      CleanIsKept(s[1..]);
      if s[0] == '-' {
        assert |s| > 1 ==> s[1] != '-' && IsAlnum(s[1..][0]);
        assert StripLeft(s[1..], NotAlnum()) == s[1..];
        assert StripLeft(s, NotAlnum()) == s[1..];
      }
      assert s == [s[0]] + s[1..];
    }
  }

  /** The non-empty clean texts are exactly those the validator's pattern matches. */
  lemma PatternIsClean(s: string)
    ensures MatchesPattern(s) <==> s != "" && Clean(s)
  {
    if s != "" && Clean(s) {
      CleanIsJoin(s);
      WordsAreWords(s);
      assert Words(s) != [];
    }
    if words: seq<string> :| words != [] && (forall w | w in words :: IsWord(w)) && s == JoinHyphens(words) {
      JoinIsClean(words);
    }
  }

  // ----- what a slug keeps of the name

  /** Lower-casing takes an ASCII capital to the small letter with its place in the alphabet, and leaves
      every other ASCII character alone. */
  lemma LowerMeaning(c: char, fold: Folding)
    ensures 'A' <= c <= 'Z' ==> Lower([c], fold) == ["abcdefghijklmnopqrstuvwxyz"[(c - 'A') as int]]
    ensures c < '\U{80}' && !('A' <= c <= 'Z') ==> Lower([c], fold) == [c]
  {
    assert [c][1..] == "";
  }

  /** The alphanumeric characters of a text, in order. */
  function Letters(s: string): string {
    if s == "" then "" else (if IsAlnum(s[0]) then [s[0]] else "") + Letters(s[1..])
  }

  lemma {:induction false} LettersAppend(s: string, t: string)
    ensures Letters(s + t) == Letters(s) + Letters(t)
  {
    if s == "" {
      assert s + t == t;
    } else {
      assert (s + t)[1..] == s[1..] + t;
      LettersAppend(s[1..], t);
    }
  }

  lemma {:induction false} WordIsLetters(w: string)
    requires forall i | 0 <= i < |w| :: IsAlnum(w[i])
    ensures Letters(w) == w
  {
    if w != "" {
      WordIsLetters(w[1..]);
      assert w == [w[0]] + w[1..];
    }
  }

  lemma JoinedLetters(word: string, words: seq<string>)
    requires forall i | 0 <= i < |word| :: IsAlnum(word[i])
    ensures Letters(JoinHyphens([word] + words)) == word + Letters(JoinHyphens(words))
  {
    WordIsLetters(word);
    assert ([word] + words)[1..] == words;
    if words == [] {
      assert word + "" == word;
    } else {
      LettersAppend(word, "-" + JoinHyphens(words));
      LettersAppend("-", JoinHyphens(words));
      assert Letters("-") == "" && "" + Letters(JoinHyphens(words)) == Letters(JoinHyphens(words));
    }
  }

  /** Joining the words of a text loses none of its letters and digits and changes no order. */
  lemma {:induction false} WordsKeepLetters(s: string)
    ensures Letters(JoinHyphens(Words(s))) == Letters(s)
    decreases |s|
  {
    if s != "" {
      if !IsAlnum(s[0]) {
        WordsKeepLetters(s[1..]);
      } else {
        var n := RunLength(s);
        WordsKeepLetters(s[n..]);
        JoinedLetters(s[..n], Words(s[n..]));
        WordIsLetters(s[..n]);
        LettersAppend(s[..n], s[n..]);
        assert s == s[..n] + s[n..];
      }
    }
  }

  lemma {:induction false} TrimmedKeepsLetters(s: string)
    ensures Letters(StripRight(s, IsHyphen)) == Letters(s)
  {
    if s != "" && s[|s| - 1] == '-' {
      TrimmedKeepsLetters(s[..|s| - 1]);
      assert s == s[..|s| - 1] + "-";
      LettersAppend(s[..|s| - 1], "-");
    }
  }

  /** A slug has the letters and digits of the lowered name, in order; all of them unless the words joined
      exceed 48 characters. */
  lemma SlugKeepsLetters(name: string, fold: Folding)
    ensures Letters(Slugify(name, fold)) <= Letters(Lower(name, fold))
    ensures |JoinHyphens(Words(Lower(name, fold)))| <= 48 ==> Letters(Slugify(name, fold)) == Letters(Lower(name, fold))
  {
    var text := JoinHyphens(Words(Lower(name, fold)));
    WordsKeepLetters(Lower(name, fold));
    if |text| > MAX_SLUG_LENGTH {
      TrimmedKeepsLetters(text[..MAX_SLUG_LENGTH]);
      LettersAppend(text[..MAX_SLUG_LENGTH], text[MAX_SLUG_LENGTH..]);
      assert text == text[..MAX_SLUG_LENGTH] + text[MAX_SLUG_LENGTH..];
    } else {
      TrimmedKeepsLetters(text);
    }
  }

  /** Every slug is clean and at most 48 characters long. */
  lemma SlugIsClean(name: string, fold: Folding)
    ensures Clean(Slugify(name, fold)) && |Slugify(name, fold)| <= MAX_SLUG_LENGTH
  {
    var text := JoinHyphens(Words(Lower(name, fold)));
    WordsAreWords(Lower(name, fold));
    JoinIsClean(Words(Lower(name, fold)));
    var cut := if |text| > MAX_SLUG_LENGTH then text[..MAX_SLUG_LENGTH] else text;
    TrimmedPrefixIsClean(cut);
  }

  /** Every slug is empty or matches the validator's pattern. */
  lemma SlugMatchesPattern(name: string, fold: Folding)
    ensures Slugify(name, fold) == "" || MatchesPattern(Slugify(name, fold))
  {
    SlugIsClean(name, fold);
    PatternIsClean(Slugify(name, fold));
  }

  lemma {:induction false} LowerCleanIsIdentity(s: string, fold: Folding)
    requires forall i | 0 <= i < |s| :: IsAlnum(s[i]) || s[i] == '-'
    ensures Lower(s, fold) == s
  {
    if s != "" {
      LowerCleanIsIdentity(s[1..], fold);
      assert s == [s[0]] + s[1..];
    }
  }

  /** A slug is its own slug. */
  lemma SlugifyIdempotent(name: string, fold: Folding)
    ensures Slugify(Slugify(name, fold), fold) == Slugify(name, fold)
  {
    var slug := Slugify(name, fold);
    SlugIsClean(name, fold);
    LowerCleanIsIdentity(slug, fold);
    CleanIsJoin(slug);
  }

  // ----- validation and candidates

  datatype SlugError = TooShort | TooLong | Reserved | InvalidCharacters

  function ValidateSlug(slug: string): Option<SlugError> {
    if |slug| < MIN_SLUG_LENGTH then Some(TooShort)
    else if |slug| > MAX_SLUG_LENGTH then Some(TooLong)
    else if slug in RESERVED_SLUGS then Some(Reserved)
    else if !Clean(slug) then Some(InvalidCharacters)
    else None
  }

  predicate Valid(slug: string) {
    ValidateSlug(slug).None?
  }

  /** The five answers of validate_slug, with the bounds and the reserved names written out. */
  lemma SlugErrors(slug: string)
    ensures var reserved := {
              "admin", "api", "app", "www", "drantiq", "support", "help", "status", "billing", "login", "signup", "onboarding",
              "welcome", "internal", "test", "demo", "null", "undefined"};
            && (ValidateSlug(slug) == Some(TooShort) <==> |slug| < 3)
            && (ValidateSlug(slug) == Some(TooLong) <==> |slug| > 48)
            && (ValidateSlug(slug) == Some(Reserved) <==> slug in reserved)
            && (ValidateSlug(slug) == Some(InvalidCharacters) <==>
                  3 <= |slug| <= 48 && slug !in reserved && !MatchesPattern(slug))
            && (ValidateSlug(slug) == None ==>
                  && (forall i | 0 <= i < |slug| :: slug[i] == '-' || '0' <= slug[i] <= '9' || 'a' <= slug[i] <= 'z')
                  && slug[0] != '-' && slug[|slug| - 1] != '-'
                  && forall i | 0 < i < |slug| :: slug[i - 1] != '-' || slug[i] != '-')
  {
    PatternIsClean(slug);
  }

  /** And every text of such characters, hyphens single and inside, passes unless it is reserved or of
      the wrong length. */
  lemma GoodSlugs(slug: string)
    requires 3 <= |slug| <= 48 && slug !in RESERVED_SLUGS && slug[0] != '-' && slug[|slug| - 1] != '-'
    requires forall i | 0 <= i < |slug| :: slug[i] == '-' || '0' <= slug[i] <= '9' || 'a' <= slug[i] <= 'z'
    requires forall i | 0 < i < |slug| :: slug[i - 1] != '-' || slug[i] != '-'
    ensures ValidateSlug(slug) == None
  {
    forall i | 0 <= i < |slug| - 1 && slug[i] == '-' ensures slug[i + 1] != '-' {
      assert slug[i + 1 - 1] != '-' || slug[i + 1] != '-';
    }
  }

  function Digit(i: nat): string
    requires i < 10
  {
    ['0' + (i as char)]
  }

  function Candidate(base: string, i: nat): string
    requires i < MAX_SLUG_ATTEMPTS
  {
    if i == 0 then base else base + "-" + Digit(i + 1)
  }

  lemma CandidatesListed(base: string)
    ensures Candidates(base) == [base, base + "-2", base + "-3", base + "-4", base + "-5"]
  {
    assert Candidate(base, 1) == base + "-" + "2" == base + "-2";
    assert Candidate(base, 2) == base + "-" + "3" == base + "-3";
    assert Candidate(base, 3) == base + "-" + "4" == base + "-4";
    assert Candidate(base, 4) == base + "-" + "5" == base + "-5";
  }

  /** slug_candidates: the base and its first numbered variants. */
  method SlugCandidates(base: string) returns (candidates: seq<string>)
    ensures candidates == Candidates(base)
    ensures candidates == [base, base + "-2", base + "-3", base + "-4", base + "-5"]
  {
    candidates := [base];
    for i := 2 to MAX_SLUG_ATTEMPTS + 2
      invariant |candidates| == i - 1
      invariant forall j | 0 <= j < |candidates| && j < MAX_SLUG_ATTEMPTS :: candidates[j] == Candidate(base, j)
    {
      candidates := candidates + [base + "-" + Digit(i)];
    }
    candidates := candidates[..MAX_SLUG_ATTEMPTS];
    CandidatesListed(base);
  }

  function Candidates(base: string): seq<string> {
    seq(MAX_SLUG_ATTEMPTS, i requires 0 <= i < MAX_SLUG_ATTEMPTS => Candidate(base, i))
  }

  lemma ReservedHaveNoHyphen(slug: string)
    requires '-' in slug
    ensures slug !in RESERVED_SLUGS
  {
  }

  lemma NumberedIsClean(base: string, i: nat)
    requires Clean(base) && base != "" && 0 < i < MAX_SLUG_ATTEMPTS
    ensures Clean(Candidate(base, i)) && '-' in Candidate(base, i) && |Candidate(base, i)| == |base| + 2
  {
    var c := Candidate(base, i);
    assert c[|base|] == '-' && IsAlnum(c[|base| + 1]);
    assert forall j | 0 <= j < |base| :: c[j] == base[j];
  }

  /** Every candidate validates exactly when the base validates and leaves room for the suffix. */
  lemma CandidatesValidate(base: string)
    ensures (forall c | c in Candidates(base) :: Valid(c)) <==> Valid(base) && |base| <= MAX_SLUG_LENGTH - 2
  {
    assert Candidates(base)[0] == base && Candidates(base)[1] == Candidate(base, 1);
    if Valid(base) {
      forall i | 0 < i < MAX_SLUG_ATTEMPTS
        ensures Valid(Candidate(base, i)) <==> |base| <= MAX_SLUG_LENGTH - 2
      {
        NumberedValidates(base, i);
      }
    }
  }

  // ----- resolving a unique slug

  /** The first candidate that is not taken. */
  function FirstFree(candidates: seq<string>, taken: set<string>): Option<string> {
    if candidates == [] then None
    else if candidates[0] !in taken then Some(candidates[0])
    else FirstFree(candidates[1..], taken)
  }

  /** resolve_unique_slug, with the tenants table given as the set of slugs in use. The extra check
      against four reserved names never skips a candidate. */
  method ResolveUniqueSlug(name: string, fold: Folding, taken: set<string>) returns (slug: Option<string>)
    ensures slug == if Valid(Slugify(name, fold)) then FirstFree(Candidates(Slugify(name, fold)), taken) else None
  {
    var base := SlugifyWorkspaceName(name, fold);
    if ValidateSlug(base).Some? {
      return None;
    }
    var candidates := SlugCandidates(base);
    for i := 0 to |candidates|
      invariant FirstFree(candidates, taken) == FirstFree(candidates[i..], taken)
    {
      CandidateIsNotReserved(base, i);
      if candidates[i] in {"admin", "api", "app", "drantiq"} {
        continue;
      }
      if candidates[i] !in taken {
        return Some(candidates[i]);
      }
    }
    slug := None;
  }

  lemma CandidateIsNotReserved(base: string, i: nat)
    requires Valid(base) && i < MAX_SLUG_ATTEMPTS
    ensures Candidate(base, i) !in RESERVED_SLUGS
    ensures {"admin", "api", "app", "drantiq"} <= RESERVED_SLUGS
  {
    if i > 0 {
      NumberedIsClean(base, i);
      ReservedHaveNoHyphen(Candidate(base, i));
    }
  }

  lemma {:induction false} FirstFreeMeaning(candidates: seq<string>, taken: set<string>)
    ensures match FirstFree(candidates, taken)
            case None => forall c | c in candidates :: c in taken
            case Some(slug) => slug !in taken &&
                               exists i :: 0 <= i < |candidates| && candidates[i] == slug && forall j | 0 <= j < i :: candidates[j] in taken
  {
    if candidates != [] && candidates[0] in taken {
      FirstFreeMeaning(candidates[1..], taken);
      if FirstFree(candidates, taken).Some? {
        var slug := FirstFree(candidates, taken).value;
        var i :| 0 <= i < |candidates[1..]| && candidates[1..][i] == slug && forall j | 0 <= j < i :: candidates[1..][j] in taken;
        assert candidates[i + 1] == slug;
        forall j | 0 <= j < i + 1 ensures candidates[j] in taken {
          assert j > 0 ==> candidates[j] == candidates[1..][j - 1];
        }
      }
    }
  }

  /** A resolved slug is unused and comes from the candidates; it validates exactly when the base is
      free or short enough for a suffix: a base of 47 or 48 characters that is taken resolves to an
      over-long slug. */
  lemma ResolvedSlug(base: string, taken: set<string>)
    requires Valid(base) && FirstFree(Candidates(base), taken).Some?
    ensures var slug := FirstFree(Candidates(base), taken).value;
            && slug !in taken && slug in Candidates(base)
            && (Valid(slug) <==> base !in taken || |base| <= MAX_SLUG_LENGTH - 2)
  {
    FirstFreeMeaning(Candidates(base), taken);
    assert Candidates(base)[0] == base;
    var slug := FirstFree(Candidates(base), taken).value;
    var i :| 0 <= i < MAX_SLUG_ATTEMPTS && Candidates(base)[i] == slug && forall j | 0 <= j < i :: Candidates(base)[j] in taken;
    if i > 0 {
      assert base in taken;
      NumberedValidates(base, i);
    }
  }

  lemma NumberedValidates(base: string, i: nat)
    requires Valid(base) && 0 < i < MAX_SLUG_ATTEMPTS
    ensures Valid(Candidate(base, i)) <==> |base| <= MAX_SLUG_LENGTH - 2
  {
    NumberedIsClean(base, i);
    ReservedHaveNoHyphen(Candidate(base, i));
  }

  /** The boundary is real: when only a base of 47 characters is taken, the slug handed out has 49
      characters and does not validate. */
  lemma LongBaseResolvesToInvalidSlug(base: string)
    requires Valid(base) && |base| == 47
    ensures FirstFree(Candidates(base), {base}) == Some(base + "-2")
    ensures ValidateSlug(base + "-2") == Some(TooLong)
  {
    var candidates := Candidates(base);
    assert candidates[0] == base && candidates[1] == base + "-2";
    assert candidates[1..][0] == base + "-2" && |base + "-2"| == 49;
  }
}
