/** Banned phrases of several words, each word disguised on its own, with any
    separators in between, are caught (pkg/antispam/antispam.go). */
module DisguisedPhrases {
  import opened TextFold
  import opened LookAlikes
  import opened Normalize
  import opened StringSearch
  import opened WordPlaces
  import opened BannedKeywords
  import opened DisguisedWords

  /** The words of each banned keyword. */
  const PHRASES: seq<seq<string>> := [
    ["togel"], ["gacor"], ["maxwin"], ["judol"], ["pinjol"],
    ["judi", "online"], ["judi", "slot"], ["slot", "online"], ["scatter", "hitam"], ["mahjong", "ways"],
    ["gates", "of", "olympus"], ["pragmatic", "play"], ["rtp", "live"], ["rtp", "slot"], ["pinjaman", "online"]
  ]

  lemma JoinTwo(a: string, b: string)
    ensures Join([a]) == a && Join([a, b]) == a + " " + b
  {
    assert [a, b][..1] == [a];
  }

  lemma JoinThree(a: string, b: string, c: string)
    ensures Join([a, b, c]) == a + " " + b + " " + c
  {
    assert [a, b, c][..2] == [a, b];
    JoinTwo(a, b);
  }

  lemma JoinOfFew(words: seq<string>)
    ensures |words| == 1 ==> Join(words) == words[0]
    ensures |words| == 2 ==> Join(words) == words[0] + " " + words[1]
    ensures |words| == 3 ==> Join(words) == words[0] + " " + words[1] + " " + words[2]
  {
    if |words| == 1 {
      JoinTwo(words[0], "");
      assert words == [words[0]];
    } else if |words| == 2 {
      JoinTwo(words[0], words[1]);
      assert words == [words[0], words[1]];
    } else if |words| == 3 {
      JoinThree(words[0], words[1], words[2]);
      assert words == [words[0], words[1], words[2]];
    }
  }

  lemma EarlyPhrases(k: nat)
    requires k < 8
    ensures PHRASES[k] != [] && Join(PHRASES[k]) == BANNED[k]
  {
    JoinOfFew(PHRASES[k]);
  }

  lemma LatePhrases(k: nat)
    requires 8 <= k < |PHRASES|
    ensures PHRASES[k] != [] && Join(PHRASES[k]) == BANNED[k]
  {
    JoinOfFew(PHRASES[k]);
  }

  lemma PhrasesAreBanned(k: nat)
    requires k < |BANNED|
    ensures k < |PHRASES| && PHRASES[k] != [] && Join(PHRASES[k]) == BANNED[k]
  {
    assert |BANNED| == |PHRASES|;
    if k < 8 {
      EarlyPhrases(k);
    } else {
      LatePhrases(k);
    }
  }

  lemma {:induction false} StripAppend(a: string, b: string)
    ensures Strip(a + b) == Strip(a) + Strip(b)
  {
    if b == "" {
      assert a + b == a;
    } else {
      var n := |b| - 1;
      StripAppend(a, b[..n]);
      assert (a + b)[..|a| + n] == a + b[..n];
    }
  }

  lemma {:induction false} StripLetters(word: string)
    requires forall i :: 0 <= i < |word| ==> IsLetter(word[i])
    ensures Strip(word) == word
  {
    if word != "" {
      StripLetters(word[..|word| - 1]);
    }
  }

  function AsOneWord(words: seq<string>): string {
    if words == [] then "" else AsOneWord(words[..|words| - 1]) + words[|words| - 1]
  }

  lemma StripSpace(a: string)
    ensures Strip(a + [' ']) == Strip(a)
  {
    assert (a + [' '])[..|a|] == a;
    Empties(Strip(a));
  }

  lemma StripWord(a: string, word: string)
    requires forall i :: 0 <= i < |word| ==> IsLetter(word[i])
    ensures Strip(a + " " + word) == Strip(a) + word
  {
    StripAppend(a + " ", word);
    StripSpace(a);
    StripLetters(word);
  }

  predicate LetterWords(words: seq<string>) {
    forall k :: 0 <= k < |words| ==> LetterWord(words[k])
  }

  predicate LetterWord(word: string) {
    forall i :: 0 <= i < |word| ==> IsLetter(word[i])
  }

  lemma StripJoinStep(front: seq<string>, last: string)
    requires LetterWord(last)
    ensures Strip(Join(front + [last])) == Strip(Join(front)) + last
  {
    JoinAppend(front, last);
    if front == [] {
      StripLetters(last);
      Empties(last);
    } else {
      StripWord(Join(front), last);
    }
  }

  lemma FrontAndLast<T>(list: seq<T>)
    requires list != []
    ensures list[..|list| - 1] + [list[|list| - 1]] == list
  {
  }

  lemma {:induction false} StripJoin(words: seq<string>)
    requires LetterWords(words)
    ensures Strip(Join(words)) == AsOneWord(words)
  {
    if words != [] {
      var n := |words| - 1;
      assert LetterWord(words[n]);
      StripJoin(words[..n]);
      StripJoinStep(words[..n], words[n]);
      FrontAndLast(words);
    }
  }

  /** Without its spaces a banned keyword is its words in a row. */
  lemma StrippedIsOneWord(k: nat)
    requires k < |BANNED|
    ensures k < |PHRASES| && Strip(BANNED[k]) == AsOneWord(PHRASES[k])
  {
    PhrasesAreBanned(k);
    forall i | 0 <= i < |PHRASES[k]| ensures LetterWord(PHRASES[k][i]) {
      PhrasesAreLetters(k, i);
    }
    StripJoin(PHRASES[k]);
  }

  lemma WordsHaveAnchors(k: nat, j: nat)
    requires k < |PHRASES| && j < |PHRASES[k]|
    ensures |PHRASES[k][j]| >= 2 && HasAnchor(PHRASES[k][j])
  {
    var w := PHRASES[k][j];
    assert |w| >= 2;
    assert Anchor(w[0]) || Anchor(w[1]) || (|w| > 2 && Anchor(w[2]));
  }

  lemma {:induction false} JoinFirst(word: string, words: seq<string>)
    requires words != []
    ensures Join([word] + words) == word + " " + Join(words)
  {
    var n := |words| - 1;
    var all := [word] + words;
    assert all[..|all| - 1] == [word] + words[..n] && all[|all| - 1] == words[n];
    if n > 0 {
      JoinFirst(word, words[..n]);
      assert word + " " + Join(words[..n]) + " " + words[n] == word + " " + (Join(words[..n]) + " " + words[n]);
    }
  }

  // ----- Separators -----

  /** Nothing that counts as a letter or digit. */
  predicate Quiet(symbols: seq<Symbol>) {
    forall i :: 0 <= i < |symbols| ==> !symbols[i].Emit?
  }

  predicate Separates(symbols: seq<Symbol>) {
    Quiet(symbols) && Gap in symbols
  }

  lemma {:induction false} QuietAfter(x: seq<Symbol>, quiet: seq<Symbol>)
    requires Quiet(quiet)
    ensures Tokens(x + quiet) == Tokens(x)
  {
    if quiet == [] {
      assert x + quiet == x;
    } else {
      var n := |quiet| - 1;
      QuietAfter(x, quiet[..n]);
      LexSnoc(x + quiet[..n], quiet[n]);
      assert x + quiet == x + quiet[..n] + [quiet[n]];
    }
  }

  lemma {:induction false} LexQuiet(quiet: seq<Symbol>)
    requires Quiet(quiet)
    ensures Lex(quiet) == Lexer([], "")
  {
    if quiet != [] {
      LexQuiet(quiet[..|quiet| - 1]);
    }
  }

  lemma {:induction false} QuietBefore(quiet: seq<Symbol>, y: seq<Symbol>)
    requires Quiet(quiet)
    ensures Lex(quiet + y) == Lex(y)
  {
    if y == [] {
      assert quiet + y == quiet;
      LexQuiet(quiet);
    } else {
      var n := |y| - 1;
      QuietBefore(quiet, y[..n]);
      assert (quiet + y)[..|quiet| + n] == quiet + y[..n];
    }
  }

  lemma TokensApart(x: seq<Symbol>, separator: seq<Symbol>, y: seq<Symbol>)
    requires Separates(separator)
    ensures Tokens(x + separator + y) == Tokens(x) + Tokens(y)
  {
    var i :| 0 <= i < |separator| && separator[i] == Gap;
    var left, right := separator[..i], separator[i + 1..];
    assert x + separator + y == (x + left) + [Gap] + (right + y);
    TokensAfterGap(x + left, right + y);
    QuietAfter(x, left);
    QuietBefore(right, y);
  }

  lemma GlueApart(a: seq<string>, b: seq<string>)
    requires a != [] && b != [] && |a[|a| - 1]| >= 2
    ensures Glue(a + b) == Glue(a) + " " + Glue(b)
  {
    var between := GlueConcat(a, b);
  }

  // ----- Words at the ends of a piece of text -----

  lemma Regroup(a: string, b: string, c: string, d: string)
    ensures a + b + (c + d) == a + b + c + d == a + (b + c + d)
    ensures a + b + (c + d) == a + (b + c) + d
  {
  }

  lemma Empties(a: string)
    ensures "" + a == a && a + "" == a
  {
  }

  lemma NoneBefore<T>(a: seq<T>, b: seq<T>)
    ensures [] + a + b == a + b && [] + a == a
  {
  }

  lemma GlueOne(token: string)
    ensures Glue([token]) == token
  {
    GlueSnoc([], token);
    NoneBefore([token], []);
    Empties(token);
  }

  lemma LexWord(y: seq<Symbol>)
    requires NoGap(y)
    ensures Lex(y) == Lexer([], Emitted(y))
    ensures Emitted(y) != "" ==> Tokens(y) == [Emitted(y)]
  {
    LexNoGap([], y);
    NoneBefore(y, []);
    Empties(Emitted(y));
    NoneBefore([Emitted(y)], []);
  }

  /** A spelled word ending a piece of text ends its last token. */
  lemma WordEnds(x: seq<Symbol>, y: seq<Symbol>) returns (before: string)
    requires NoGap(y) && |Emitted(y)| >= 2
    ensures var tokens := Tokens(x + y);
      && tokens != [] && |tokens[|tokens| - 1]| >= 2
      && Glue(tokens) == before + Emitted(y)
  {
    LexNoGap(x, y);
    var l := Lex(x);
    var token := l.current + Emitted(y);
    GlueSnoc(l.tokens, token);
    before := Glue(l.tokens) + Between(l.tokens, token) + l.current;
    Regroup(Glue(l.tokens), Between(l.tokens, token), l.current, Emitted(y));
  }

  /** A spelled word starting a piece of text starts its first token. */
  lemma WordStarts(y: seq<Symbol>, z: seq<Symbol>) returns (after: string)
    requires NoGap(y) && Emitted(y) != ""
    ensures Tokens(y + z) != [] && Glue(Tokens(y + z)) == Emitted(y) + after
  {
    LexWord(y);
    var more, later := TokensFinish(y, z);
    var token := Emitted(y) + more;
    NoneBefore([token], later);
    var between := GlueConcat([token], later);
    GlueOne(token);
    after := more + between + Glue(later);
    Regroup(Emitted(y), more, between, Glue(later));
  }

  lemma SplitOff(text: string, word: string, i: nat)
    requires OccursAt(text, word, i)
    ensures text == text[..i] + word + text[i + |word|..]
  {
  }

  lemma UndoneAtStart(spelling: string, after: string, word: string) returns (rest: string)
    requires Disguises(spelling, word) && HasAnchor(word)
    ensures UnleetWords(spelling + after) == word + rest && |rest| == |after|
  {
    var anchor :| 0 <= anchor < |word| && Anchor(word[anchor]);
    assert spelling[anchor] == word[anchor];
    DisguiseOccurs("", spelling, after, word, anchor);
    Empties(spelling);
    rest := UnleetWords(spelling + after)[|word|..];
    SplitOff(UnleetWords(spelling + after), word, 0);
    Empties(word);
  }

  lemma UndoneAtEnd(before: string, spelling: string, word: string) returns (front: string)
    requires Disguises(spelling, word) && HasAnchor(word)
    ensures UnleetWords(before + spelling) == front + word && |front| == |before|
  {
    var anchor :| 0 <= anchor < |word| && Anchor(word[anchor]);
    assert spelling[anchor] == word[anchor];
    DisguiseOccurs(before, spelling, "", word, anchor);
    Empties(before + spelling);
    front := UnleetWords(before + spelling)[..|before|];
    SplitOff(UnleetWords(before + spelling), word, |before|);
    Empties(front + word);
  }

  // ----- The phrase -----

  /** The parts with the separators between them. */
  function Spelled(parts: seq<string>, separators: seq<string>): string
    requires |parts| == |separators| + 1
  {
    if |parts| == 1 then parts[0] else parts[0] + separators[0] + Spelled(parts[1..], separators[1..])
  }

  /** Each part spells its word in disguise, and each separator separates. */
  ghost predicate SpellsPhrase(lower: char -> char, parts: seq<string>, separators: seq<string>, words: seq<string>) {
    && |parts| == |words| == |separators| + 1
    && (forall i :: 0 <= i < |parts| ==>
          NoGap(Symbols(lower, parts[i])) && Disguises(Emitted(Symbols(lower, parts[i])), words[i]) &&
          |words[i]| >= 2 && HasAnchor(words[i]))
    && (forall i :: 0 <= i < |separators| ==> Separates(Symbols(lower, separators[i])))
  }

  lemma SymbolsApart(lower: char -> char, a: string, b: string, c: string)
    ensures Symbols(lower, a + b + c) == Symbols(lower, a) + Symbols(lower, b) + Symbols(lower, c)
  {
    SymbolsConcat(lower, a, b);
    SymbolsConcat(lower, a + b, c);
  }

  /** Tokens ending in the first word, then tokens starting with the other words. */
  lemma WordThenWords(
    a: seq<string>, b: seq<string>, front: string, spelling: string, words: seq<string>, after: string)
    returns (before: string)
    requires a != [] && |a[|a| - 1]| >= 2 && Glue(a) == front + spelling
    requires b != [] && |words| > 1 && UnleetWords(Glue(b)) == Join(words[1..]) + after
    requires Disguises(spelling, words[0]) && HasAnchor(words[0])
    ensures UnleetWords(Glue(a + b)) == before + Join(words) + after && |before| == |front|
  {
    GlueApart(a, b);
    UnleetWordsSplit(front + spelling, Glue(b));
    before := UndoneAtEnd(front, spelling, words[0]);
    FirstOfWords(words);
    GrowPhrase(before, words[0], Join(words[1..]), after);
  }

  lemma FirstOfWords(words: seq<string>)
    requires |words| > 1
    ensures Join(words) == words[0] + " " + Join(words[1..])
  {
    JoinFirst(words[0], words[1..]);
    assert words == [words[0]] + words[1..];
  }

  lemma GrowPhrase(before: string, word: string, rest: string, after: string)
    ensures before + word + " " + (rest + after) == before + (word + " " + rest) + after
  {
  }

  /** Text that starts with a phrase, or with the rest of one, normalises to text
      that does. */
  lemma {:induction false} PhraseStarts(
    lower: char -> char, parts: seq<string>, separators: seq<string>, words: seq<string>, post: string)
    returns (after: string)
    requires SpellsPhrase(lower, parts, separators, words)
    ensures var tokens := Tokens(Symbols(lower, Spelled(parts, separators) + post));
      tokens != [] && UnleetWords(Glue(tokens)) == Join(words) + after
    decreases |parts|
  {
    if |parts| == 1 {
      var y := Symbols(lower, parts[0]);
      SymbolsConcat(lower, parts[0], post);
      var tail := WordStarts(y, Symbols(lower, post));
      after := UndoneAtStart(Emitted(y), tail, words[0]);
    } else {
      var before;
      before, after := PhraseJoins(lower, "", parts, separators, words, post);
      Empties(Join(words));
      Empties(Spelled(parts, separators));
    }
  }

  /** A phrase in any text: its first word ends a token, the rest follows. */
  lemma {:induction false} PhraseJoins(
    lower: char -> char, pre: string, parts: seq<string>, separators: seq<string>, words: seq<string>, post: string)
    returns (before: string, after: string)
    requires SpellsPhrase(lower, parts, separators, words) && |parts| > 1
    ensures var tokens := Tokens(Symbols(lower, pre + Spelled(parts, separators) + post));
      tokens != [] && UnleetWords(Glue(tokens)) == before + Join(words) + after
    ensures pre == "" ==> before == ""
    decreases |parts|, 0
  {
    var x, y := Symbols(lower, pre), Symbols(lower, parts[0]);
    var rest := Spelled(parts[1..], separators[1..]) + post;
    after := PhraseStarts(lower, parts[1..], separators[1..], words[1..], post);
    SpelledFrom(pre, parts, separators, post);
    SymbolsApart(lower, pre + parts[0], separators[0], rest);
    SymbolsConcat(lower, pre, parts[0]);
    TokensApart(x + y, Symbols(lower, separators[0]), Symbols(lower, rest));
    var front := WordEnds(x, y);
    if pre == "" {
      LexWord(y);
      NoneBefore(y, []);
      GlueOne(Emitted(y));
    }
    before := WordThenWords(Tokens(x + y), Tokens(Symbols(lower, rest)), front, Emitted(y), words, after);
  }

  lemma SpelledFrom(pre: string, parts: seq<string>, separators: seq<string>, post: string)
    requires |parts| == |separators| + 1 && |parts| > 1
    ensures pre + Spelled(parts, separators) + post ==
      (pre + parts[0]) + separators[0] + (Spelled(parts[1..], separators[1..]) + post)
  {
    FourParts(pre, parts[0], separators[0], Spelled(parts[1..], separators[1..]), post);
  }

  lemma FourParts(pre: string, a: string, b: string, c: string, post: string)
    ensures pre + (a + b + c) + post == (pre + a) + b + (c + post)
  {
  }

  lemma PhraseInside(before: string, phrase: string, after: string)
    ensures Contains(before + phrase + after, phrase)
  {
    assert OccursAt(before + phrase + after, phrase, |before|);
  }

  lemma PhraseIsFlagged(lower: char -> char, text: string, k: nat)
    requires k < |BANNED| && Contains(Normalized(lower, text), BANNED[k])
    ensures BannedKeyword(lower, [text]) != ""
  {
    forall i | 0 <= i < |BANNED| ensures BANNED[i] != "" { KeywordsAreWords(i); }
    assert Matches(Normalized(lower, text), BANNED[k]);
    FirstMatchFinds(BANNED, Normalized(lower, text));
  }

  lemma PhraseInDisguiseIsFlagged(
    lower: char -> char, pre: string, parts: seq<string>, separators: seq<string>, post: string, k: nat)
    requires k < |BANNED| && k < |PHRASES| && |parts| == |PHRASES[k]| == |separators| + 1 && |parts| > 1
    requires forall i :: 0 <= i < |parts| ==>
      NoGap(Symbols(lower, parts[i])) && Disguises(Emitted(Symbols(lower, parts[i])), PHRASES[k][i])
    requires forall i :: 0 <= i < |separators| ==> Separates(Symbols(lower, separators[i]))
    ensures BannedKeyword(lower, [pre + Spelled(parts, separators) + post]) != ""
  {
    forall j | 0 <= j < |PHRASES[k]|
      ensures |PHRASES[k][j]| >= 2 && HasAnchor(PHRASES[k][j])
    {
      WordsHaveAnchors(k, j);
    }
    var text := pre + Spelled(parts, separators) + post;
    var before, after := PhraseJoins(lower, pre, parts, separators, PHRASES[k], post);
    PhrasesAreBanned(k);
    NormalizedByPlace(lower, text);
    PhraseInside(before, BANNED[k], after);
    PhraseIsFlagged(lower, text, k);
  }

  lemma SeparatesIfBroken(lower: char -> char, text: string)
    ensures Wordless(lower, text) && Broken(lower, text) <==> Separates(Symbols(lower, text))
  {
    GapIfBlank(lower, text);
    NoGapIfUnbroken(lower, text);
  }

  lemma PhrasesAreLetters(k: nat, i: nat)
    requires k < |PHRASES| && i < |PHRASES[k]|
    ensures forall j :: 0 <= j < |PHRASES[k][i]| ==> IsLetter(PHRASES[k][i][j])
  {
  }

  /** A banned phrase of several words is caught with each word disguised on its own,
      in any text, whatever separates the words. */
  lemma DisguisedPhraseIsCaught(
    lower: char -> char, pre: string, parts: seq<string>, separators: seq<string>, post: string, k: nat)
    requires k < |BANNED| && k < |PHRASES| && |parts| == |PHRASES[k]| == |separators| + 1 && |parts| > 1
    requires forall i :: 0 <= i < |parts| ==>
      Unbroken(lower, parts[i]) && Spells(lower, parts[i], PHRASES[k][i])
    requires forall i :: 0 <= i < |separators| ==>
      Wordless(lower, separators[i]) && Broken(lower, separators[i])
    ensures BannedKeyword(lower, [pre + Spelled(parts, separators) + post]) != ""
  {
    forall i | 0 <= i < |parts|
      ensures NoGap(Symbols(lower, parts[i])) && Disguises(Emitted(Symbols(lower, parts[i])), PHRASES[k][i])
    {
      PhrasesAreLetters(k, i);
      NoGapIfUnbroken(lower, parts[i]);
      SpellsIfDisguises(lower, parts[i], PHRASES[k][i]);
    }
    forall i | 0 <= i < |separators| ensures Separates(Symbols(lower, separators[i])) {
      SeparatesIfBroken(lower, separators[i]);
    }
    PhraseInDisguiseIsFlagged(lower, pre, parts, separators, post, k);
  }
}
