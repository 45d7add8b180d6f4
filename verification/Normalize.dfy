/** The anti-spam normaliser (pkg/antispam/normalize.go): its loops, and the
    functions on token lists they compute. */
module Normalize {
  import opened TextFold

  // ----- Tokens -----

  /** Finished tokens and the one being built. */
  datatype Lexer = Lexer(tokens: seq<string>, current: string) {
    function Flush(): seq<string> {
      if current == "" then tokens else tokens + [current]
    }
  }

  function Lex(symbols: seq<Symbol>): Lexer {
    if symbols == [] then Lexer([], "") else
    var l := Lex(symbols[..|symbols| - 1]);
    match symbols[|symbols| - 1]
    case Skip => l
    case Emit(c) => Lexer(l.tokens, l.current + [c])
    case Gap => Lexer(l.Flush(), "")
  }

  function Tokens(symbols: seq<Symbol>): seq<string> {
    Lex(symbols).Flush()
  }

  /** Merged tokens and the run of one-character tokens being joined. */
  function MergeRuns(tokens: seq<string>): Lexer {
    if tokens == [] then Lexer([], "") else
    var l := MergeRuns(tokens[..|tokens| - 1]);
    var last := tokens[|tokens| - 1];
    if |last| == 1 then Lexer(l.tokens, l.current + last) else Lexer(l.Flush() + [last], "")
  }

  function Merged(tokens: seq<string>): seq<string> {
    MergeRuns(tokens).Flush()
  }

  // ----- Leetspeak -----

  predicate IsLeetDigit(c: char) {
    c in {'0', '1', '3', '4', '5', '7'}
  }

  function UnleetChar(c: char): char {
    match c
    case '0' => 'o' case '1' => 'i' case '3' => 'e' case '4' => 'a' case '5' => 's' case '7' => 't'
    case _ => c
  }

  predicate HasLetter(token: string) {
    exists i :: 0 <= i < |token| && IsLetter(token[i])
  }

  function Unleet(token: string): (r: string)
    ensures |r| == |token|
  {
    if HasLetter(token) then seq(|token|, i requires 0 <= i < |token| => UnleetChar(token[i])) else token
  }

  function UnleetAll(tokens: seq<string>): (r: seq<string>)
    ensures |r| == |tokens|
  {
    seq(|tokens|, i requires 0 <= i < |tokens| => Unleet(tokens[i]))
  }

  function Join(tokens: seq<string>): string {
    if tokens == [] then ""
    else if |tokens| == 1 then tokens[0]
    else Join(tokens[..|tokens| - 1]) + " " + tokens[|tokens| - 1]
  }

  function Normalized(lower: char -> char, text: string): string {
    Join(UnleetAll(Merged(Tokens(Symbols(lower, text)))))
  }

  // ----- The loops -----

  method NormalizeText(lower: char -> char, text: string) returns (r: string)
    ensures r == Normalized(lower, text)
  {
    var tokens: seq<string>, current: string := [], "";
    var symbols := Symbols(lower, text);
    for i := 0 to |text|
      invariant Lex(symbols[..i]) == Lexer(tokens, current)
    {
      assert symbols[..i + 1][..i] == symbols[..i];
      var rune := lower(text[i]);
      if !IsInvisible(rune) {
        var folded := FoldRune(rune);
        if IsASCIIAlnum(folded) {
          current := current + [folded];
        } else if current != "" {
          tokens, current := tokens + [current], "";
        }
      }
    }
    assert symbols[..|text|] == symbols;
    if current != "" {
      tokens := tokens + [current];
    }
    tokens := MergeSingleCharRuns(tokens);
    ghost var merged := tokens;
    for i := 0 to |tokens|
      invariant |tokens| == |merged|
      invariant forall k :: 0 <= k < |tokens| ==> tokens[k] == if k < i then Unleet(merged[k]) else merged[k]
    {
      var token := UndoLeet(tokens[i]);
      tokens := tokens[i := token];
    }
    assert tokens == UnleetAll(merged);
    r := Join(tokens);
  }

  method MergeSingleCharRuns(tokens: seq<string>) returns (merged: seq<string>)
    ensures merged == Merged(tokens)
  {
    var run := "";
    merged := [];
    for i := 0 to |tokens|
      invariant MergeRuns(tokens[..i]) == Lexer(merged, run)
    {
      assert tokens[..i + 1][..i] == tokens[..i];
      var token := tokens[i];
      if |token| == 1 {
        run := run + token;
        continue;
      }
      if run != "" {
        merged, run := merged + [run], "";
      }
      merged := merged + [token];
    }
    assert tokens[..|tokens|] == tokens;
    if run != "" {
      merged := merged + [run];
    }
  }

  method UndoLeet(token: string) returns (r: string)
    ensures r == Unleet(token)
  {
    if !HasLetter(token) {
      return token;
    }
    r := token;
    for i := 0 to |token|
      invariant |r| == |token|
      invariant forall k :: 0 <= k < |token| ==> r[k] == if k < i then UnleetChar(token[k]) else token[k]
    {
      if IsLeetDigit(r[i]) {
        r := r[i := UnleetChar(r[i])];
      }
    }
  }

  // ----- The normal form -----

  predicate AlnumToken(token: string) {
    token != "" && forall i :: 0 <= i < |token| ==> IsASCIIAlnum(token[i])
  }

  /** No token mixes letters with leet digits. */
  predicate Plain(token: string) {
    HasLetter(token) ==> forall i :: 0 <= i < |token| ==> !IsLeetDigit(token[i])
  }

  predicate NoAdjacentSingles(tokens: seq<string>) {
    forall i :: 0 <= i < |tokens| - 1 ==> !(|tokens[i]| == 1 && |tokens[i + 1]| == 1)
  }

  predicate AlnumTokens(tokens: seq<string>) {
    forall i :: 0 <= i < |tokens| ==> AlnumToken(tokens[i])
  }

  predicate NormalTokens(tokens: seq<string>) {
    AlnumTokens(tokens) && NoAdjacentSingles(tokens) && forall i :: 0 <= i < |tokens| ==> Plain(tokens[i])
  }

  /** Lowercase alphanumeric words separated by single spaces, no two adjacent
      ones of a single character, none holding both a letter and a leet digit. */
  ghost predicate NormalForm(s: string) {
    exists tokens :: NormalTokens(tokens) && s == Join(tokens)
  }

  lemma {:induction false} LexYieldsAlnum(lower: char -> char, text: string)
    ensures var l := Lex(Symbols(lower, text));
      AlnumTokens(l.tokens) && forall i :: 0 <= i < |l.current| ==> IsASCIIAlnum(l.current[i])
  {
    if text != "" {
      var n := |text| - 1;
      LexYieldsAlnum(lower, text[..n]);
      assert Symbols(lower, text)[..n] == Symbols(lower, text[..n]);
    }
  }

  lemma {:induction false} MergeRunsForm(tokens: seq<string>)
    requires AlnumTokens(tokens)
    ensures var l := MergeRuns(tokens);
      && AlnumTokens(l.tokens) && NoAdjacentSingles(l.tokens)
      && (forall i :: 0 <= i < |l.current| ==> IsASCIIAlnum(l.current[i]))
      && (l.current != "" && l.tokens != [] ==> |l.tokens[|l.tokens| - 1]| > 1)
  {
    if tokens != [] {
      MergeRunsForm(tokens[..|tokens| - 1]);
    }
  }

  lemma UnleetIsPlain(token: string)
    requires AlnumToken(token)
    ensures AlnumToken(Unleet(token)) && Plain(Unleet(token))
  {
    var r := Unleet(token);
    if HasLetter(token) {
      forall i | 0 <= i < |token| ensures IsASCIIAlnum(r[i]) && !IsLeetDigit(r[i]) {
        assert r[i] == UnleetChar(token[i]);
      }
    }
  }

  lemma NormalizedIsNormal(lower: char -> char, text: string)
    ensures NormalForm(Normalized(lower, text))
  {
    LexYieldsAlnum(lower, text);
    var tokens := Tokens(Symbols(lower, text));
    MergeRunsForm(tokens);
    var merged := Merged(tokens);
    forall i | 0 <= i < |merged| ensures AlnumToken(Unleet(merged[i])) && Plain(Unleet(merged[i])) {
      UnleetIsPlain(merged[i]);
    }
    assert NormalTokens(UnleetAll(merged));
  }

  lemma {:induction false} LexPlainWord(symbols: seq<Symbol>, word: string)
    ensures Lex(symbols + Emits(word)) == Lexer(Lex(symbols).tokens, Lex(symbols).current + word)
  {
    if word == "" {
      assert symbols + Emits(word) == symbols;
    } else {
      var n := |word| - 1;
      LexPlainWord(symbols, word[..n]);
      assert (symbols + Emits(word))[..|symbols| + n] == symbols + Emits(word[..n]);
      assert Lex(symbols).current + word == (Lex(symbols).current + word[..n]) + [word[n]];
    }
  }

  function Emits(word: string): seq<Symbol> {
    seq(|word|, i requires 0 <= i < |word| => Emit(word[i]))
  }

  lemma ReadWord(lower: char -> char, word: string)
    requires LowerFacts(lower) && forall i :: 0 <= i < |word| ==> IsASCIIAlnum(word[i])
    ensures Symbols(lower, word) == Emits(word)
  {
    forall i | 0 <= i < |word| ensures Read(lower, word[i]) == Emit(word[i]) {
      ReadPlain(lower, word[i]);
    }
  }

  lemma LexGapWord(symbols: seq<Symbol>, word: string)
    ensures Lex(symbols + [Gap] + Emits(word)) == Lexer(Lex(symbols).Flush(), word)
  {
    var before := symbols + [Gap];
    assert before[..|symbols|] == symbols;
    LexPlainWord(before, word);
    assert "" + word == word;
  }

  lemma SymbolsConcat(lower: char -> char, a: string, b: string)
    ensures Symbols(lower, a + b) == Symbols(lower, a) + Symbols(lower, b)
  {
  }

  lemma ReadSpacedWord(lower: char -> char, text: string, word: string)
    requires LowerFacts(lower) && forall i :: 0 <= i < |word| ==> IsASCIIAlnum(word[i])
    ensures Symbols(lower, text + " " + word) == Symbols(lower, text) + [Gap] + Emits(word)
  {
    ReadWord(lower, word);
    ReadPlain(lower, ' ');
    SymbolsConcat(lower, text + " ", word);
    SymbolsConcat(lower, text, " ");
    assert Symbols(lower, " ") == [Gap];
  }

  lemma LexSpacedWord(lower: char -> char, text: string, front: seq<string>, word: string)
    requires LowerFacts(lower) && AlnumToken(word) && Tokens(Symbols(lower, text)) == front
    ensures Lex(Symbols(lower, text + " " + word)) == Lexer(front, word)
  {
    ReadSpacedWord(lower, text, word);
    LexGapWord(Symbols(lower, text), word);
  }

  lemma LexSingleWord(lower: char -> char, word: string)
    requires LowerFacts(lower) && AlnumToken(word)
    ensures Lex(Symbols(lower, word)) == Lexer([], word)
  {
    ReadWord(lower, word);
    LexPlainWord([], word);
    assert [] + Emits(word) == Emits(word) && "" + word == word;
  }

  /** Tokenizing joined words gives the words back. */
  lemma {:induction false} TokensOfJoin(lower: char -> char, tokens: seq<string>)
    requires LowerFacts(lower) && AlnumTokens(tokens)
    ensures Tokens(Symbols(lower, Join(tokens))) == tokens
  {
    if |tokens| > 0 {
      var n := |tokens| - 1;
      var front, word := tokens[..n], tokens[n];
      assert tokens == front + [word] && AlnumToken(word);
      if n == 0 {
        LexSingleWord(lower, word);
      } else {
        assert AlnumTokens(front);
        TokensOfJoin(lower, front);
        LexSpacedWord(lower, Join(front), front, word);
      }
    }
  }

  /** Merging one more token, when no run is open that it could join. */
  lemma MergeLast(l: Lexer, front: seq<string>, last: string)
    requires l.Flush() == front && last != "" && (|last| == 1 ==> l.current == "")
    ensures var m := if |last| == 1 then Lexer(l.tokens, l.current + last) else Lexer(l.Flush() + [last], "");
      m.Flush() == front + [last] && m.current == if |last| == 1 then last else ""
  {
    assert |last| == 1 ==> l.current + last == last;
  }

  lemma {:induction false} MergeKeepsNormal(tokens: seq<string>)
    requires NoAdjacentSingles(tokens) && AlnumTokens(tokens)
    ensures Merged(tokens) == tokens
    ensures MergeRuns(tokens).current ==
      if tokens != [] && |tokens[|tokens| - 1]| == 1 then tokens[|tokens| - 1] else ""
  {
    if tokens != [] {
      var n := |tokens| - 1;
      MergeKeepsNormal(tokens[..n]);
      assert AlnumToken(tokens[n]);
      MergeLast(MergeRuns(tokens[..n]), tokens[..n], tokens[n]);
      assert tokens == tokens[..n] + [tokens[n]];
    }
  }

  lemma UnleetKeepsPlain(token: string)
    requires Plain(token)
    ensures Unleet(token) == token
  {
  }

  /** The fixed points of the normaliser are exactly the normal forms. */
  lemma FixedPointIffNormal(lower: char -> char, s: string)
    requires LowerFacts(lower)
    ensures Normalized(lower, s) == s <==> NormalForm(s)
  {
    NormalizedIsNormal(lower, s);
    if NormalForm(s) {
      var tokens :| NormalTokens(tokens) && s == Join(tokens);
      TokensOfJoin(lower, tokens);
      MergeKeepsNormal(tokens);
      forall i | 0 <= i < |tokens| ensures Unleet(tokens[i]) == tokens[i] {
        UnleetKeepsPlain(tokens[i]);
      }
      assert UnleetAll(tokens) == tokens;
    }
  }

  lemma NormalizeIdempotent(lower: char -> char, text: string)
    requires LowerFacts(lower)
    ensures Normalized(lower, Normalized(lower, text)) == Normalized(lower, text)
  {
    NormalizedIsNormal(lower, text);
    FixedPointIffNormal(lower, Normalized(lower, text));
  }
}
