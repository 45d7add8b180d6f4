/** Disguised spellings of banned keywords are caught (pkg/antispam/normalize.go,
    pkg/antispam/antispam.go). */
module DisguisedWords {
  import opened TextFold
  import opened LookAlikes
  import opened Normalize
  import opened StringSearch
  import opened WordPlaces
  import opened BannedKeywords

  /** The letters and digits a piece of text emits. */
  function Emitted(symbols: seq<Symbol>): string {
    if symbols == [] then "" else
    var last := symbols[|symbols| - 1];
    Emitted(symbols[..|symbols| - 1]) + (if last.Emit? then [last.c] else "")
  }

  /** Letter by letter, the needle itself or a leet digit for it. */
  predicate Disguises(spelling: string, needle: string) {
    |spelling| == |needle| &&
    forall i :: 0 <= i < |needle| ==> IsASCIIAlnum(spelling[i]) && UnleetChar(spelling[i]) == needle[i]
  }

  lemma PlaceUndone(before: string, spelling: string, after: string, anchor: int, i: int)
    requires 0 <= i < |spelling| && 0 <= anchor < |spelling| && IsLetter(spelling[anchor])
    requires forall k :: 0 <= k < |spelling| ==> IsASCIIAlnum(spelling[k])
    ensures UnleetAt(before + spelling + after, |before| + i) == UnleetChar(spelling[i])
  {
    assert SameWord(spelling, i, anchor);
    LetterWordKept(spelling, before, after, i);
    assert (before + spelling + after)[|before| + i] == spelling[i];
  }

  lemma DisguiseIsUndone(before: string, spelling: string, after: string, needle: string)
    requires Disguises(spelling, needle) && HasAnchor(needle)
    ensures Contains(UnleetWords(before + spelling + after), needle)
  {
    var anchor :| 0 <= anchor < |needle| && Anchor(needle[anchor]);
    assert spelling[anchor] == needle[anchor];
    DisguiseOccurs(before, spelling, after, needle, anchor);
  }

  lemma DisguiseOccurs(before: string, spelling: string, after: string, needle: string, anchor: nat)
    requires Disguises(spelling, needle) && anchor < |spelling| && IsLetter(spelling[anchor])
    ensures OccursAt(UnleetWords(before + spelling + after), needle, |before|)
  {
    forall i | 0 <= i < |needle|
      ensures UnleetAt(before + spelling + after, |before| + i) == needle[i]
    {
      PlaceUndone(before, spelling, after, anchor, i);
    }
    OccursPointwise(UnleetWords(before + spelling + after), needle, |before|);
  }

  predicate NoGap(symbols: seq<Symbol>) {
    Gap !in symbols
  }

  lemma {:induction false} LexNoGap(x: seq<Symbol>, y: seq<Symbol>)
    requires NoGap(y)
    ensures Lex(x + y) == Lexer(Lex(x).tokens, Lex(x).current + Emitted(y))
  {
    if y == [] {
      assert x + y == x && Lex(x).current + "" == Lex(x).current;
    } else {
      var n := |y| - 1;
      assert y[n] != Gap;
      LexNoGap(x, y[..n]);
      assert (x + y)[..|x| + n] == x + y[..n];
      assert Lex(x).current + Emitted(y[..n]) + (if y[n].Emit? then [y[n].c] else "") == Lex(x).current + Emitted(y);
    }
  }

  /** A token under construction either still grows or was finished, as the
      start of one token. */
  lemma {:induction false} LexFinishes(x: seq<Symbol>, y: seq<Symbol>)
      returns (growing: bool, more: string, later: seq<string>, rest: string)
    requires Lex(x).current != ""
    ensures Lex(x + y) ==
      if growing then Lexer(Lex(x).tokens, Lex(x).current + more)
      else Lexer(Lex(x).tokens + [Lex(x).current + more] + later, rest)
    ensures growing ==> later == [] && rest == ""
  {
    growing, more, later, rest := true, "", [], "";
    if y == [] {
      assert x + y == x && Lex(x).current + "" == Lex(x).current;
    } else {
      var n := |y| - 1;
      growing, more, later, rest := LexFinishes(x, y[..n]);
      assert x + y == x + y[..n] + [y[n]];
      LexSnoc(x + y[..n], y[n]);
      var token := Lex(x).current + more;
      match y[n] {
        case Skip =>
        case Emit(c) =>
          if growing {
            assert token + [c] == Lex(x).current + (more + [c]);
            more := more + [c];
          } else {
            rest := rest + [c];
          }
        case Gap =>
          if growing {
            growing := false;
            assert Lex(x).tokens + [token] == Lex(x).tokens + [token] + [];
          } else if rest != "" {
            assert Lex(x).tokens + [token] + later + [rest] == Lex(x).tokens + [token] + (later + [rest]);
            later, rest := later + [rest], "";
          }
      }
    }
  }

  lemma LexSnoc(symbols: seq<Symbol>, symbol: Symbol)
    ensures var l := Lex(symbols);
      Lex(symbols + [symbol]) ==
        match symbol
        case Skip => l
        case Emit(c) => Lexer(l.tokens, l.current + [c])
        case Gap => Lexer(l.Flush(), "")
  {
    assert (symbols + [symbol])[..|symbols|] == symbols;
  }

  lemma TokensFinish(x: seq<Symbol>, y: seq<Symbol>) returns (more: string, later: seq<string>)
    requires Lex(x).current != ""
    ensures Tokens(x + y) == Lex(x).tokens + [Lex(x).current + more] + later
  {
    var growing, rest;
    growing, more, later, rest := LexFinishes(x, y);
    if !growing && rest != "" {
      later := later + [rest];
    }
  }

  /** Text without a gap ends up, letter by letter, inside the glued tokens. */
  lemma NoGapIsGlued(x: seq<Symbol>, y: seq<Symbol>, z: seq<Symbol>) returns (before: string, after: string)
    requires NoGap(y) && Emitted(y) != ""
    ensures Glue(Tokens(x + y + z)) == before + Emitted(y) + after
  {
    LexNoGap(x, y);
    var more, later := TokensFinish(x + y, z);
    var prefix := Lex(x).current;
    var token := prefix + Emitted(y) + more;
    before, after := GlueOfThree(Lex(x).tokens, [token], later);
    GlueSnoc([], token);
    assert Glue([token]) == token by { assert [] + [token] == [token] && "" + "" + token == token; }
    GlueInside(before, prefix, Emitted(y), more, after);
    before, after := before + prefix, more + after;
  }

  lemma GlueInside(a: string, b: string, c: string, d: string, e: string)
    ensures a + (b + c + d) + e == (a + b) + c + (d + e)
  {
  }

  lemma DisguiseIsFlagged(lower: char -> char, pre: string, word: string, post: string, k: nat)
    requires k < |BANNED| && NoGap(Symbols(lower, word))
    requires Disguises(Emitted(Symbols(lower, word)), Strip(BANNED[k]))
    ensures BannedKeyword(lower, [pre + word + post]) != ""
  {
    var text := pre + word + post;
    var x, y, z := Symbols(lower, pre), Symbols(lower, word), Symbols(lower, post);
    ThreePieces(lower, pre, word, post);
    KeywordsAreWords(k);
    var before, after := NoGapIsGlued(x, y, z);
    NormalizedByPlace(lower, text);
    DisguiseIsUndone(before, Emitted(y), after, Strip(BANNED[k]));
    MatchIsFlagged(lower, text, k);
  }

  lemma MatchIsFlagged(lower: char -> char, text: string, k: nat)
    requires k < |BANNED| && Contains(Normalized(lower, text), Strip(BANNED[k]))
    ensures BannedKeyword(lower, [text]) != ""
  {
    forall i | 0 <= i < |BANNED| ensures BANNED[i] != "" { KeywordsAreWords(i); }
    assert Matches(Normalized(lower, text), BANNED[k]);
    FirstMatchFinds(BANNED, Normalized(lower, text));
  }

  /** Between any two letters there is a gap. */
  predicate Separated(symbols: seq<Symbol>) {
    forall i, j :: 0 <= i < j < |symbols| && symbols[i].Emit? && symbols[j].Emit? ==>
      Gap in symbols[i..j]
  }

  function Singles(word: string): seq<string> {
    seq(|word|, i requires 0 <= i < |word| => [word[i]])
  }

  lemma {:induction false} LexSeparated(symbols: seq<Symbol>)
    requires Separated(symbols)
    ensures Tokens(symbols) == Singles(Emitted(symbols))
    ensures |Lex(symbols).current| <= 1
    ensures Lex(symbols).current != "" ==>
      exists i :: 0 <= i < |symbols| && symbols[i].Emit? && Gap !in symbols[i..]
  {
    if symbols != [] {
      var n := |symbols| - 1;
      var front := symbols[..n];
      assert Separated(front) by {
        forall i, j | 0 <= i < j < n && front[i].Emit? && front[j].Emit? ensures Gap in front[i..j] {
          assert symbols[i..j] == front[i..j];
        }
      }
      LexSeparated(front);
      if Lex(front).current != "" {
        var i :| 0 <= i < n && front[i].Emit? && Gap !in front[i..];
        assert symbols[i..n] == front[i..] && symbols[i..] == front[i..] + [symbols[n]];
      } else if symbols[n].Emit? {
        assert symbols[n..] == [symbols[n]];
      }
      if symbols[n].Emit? {
        assert Lex(front).current == "" && "" + [symbols[n].c] == [symbols[n].c];
      }
      assert Singles(Emitted(front) + (if symbols[n].Emit? then [symbols[n].c] else "")) ==
        Singles(Emitted(front)) + (if symbols[n].Emit? then [[symbols[n].c]] else []);
    }
  }

  lemma {:induction false} GlueOfSingles(word: string)
    ensures Glue(Singles(word)) == word
  {
    if |word| > 1 {
      var n := |word| - 1;
      GlueOfSingles(word[..n]);
      assert Singles(word)[..n] == Singles(word[..n]);
      assert word[..n] + "" + [word[n]] == word;
    }
  }

  lemma TokensBetweenGaps(x: seq<Symbol>, y: seq<Symbol>, z: seq<Symbol>)
    requires (x == [] || x[|x| - 1] == Gap) && (z == [] || z[0] == Gap)
    ensures Tokens(x + y + z) == Tokens(x) + Tokens(y) + Tokens(z)
  {
    var xy := x + y;
    assert Tokens(xy) == Tokens(x) + Tokens(y) by {
      if x == [] {
        assert xy == y;
      } else {
        var n := |x| - 1;
        assert xy == x[..n] + [Gap] + y && x == x[..n] + [Gap] + [];
        TokensAfterGap(x[..n], y);
        TokensAfterGap(x[..n], []);
      }
    }
    if z == [] {
      assert xy + z == xy;
    } else {
      assert xy + z == xy + [Gap] + z[1..] && z == [] + [Gap] + z[1..];
      TokensAfterGap(xy, z[1..]);
      TokensAfterGap([], z[1..]);
    }
  }

  lemma SpacedIsGlued(x: seq<Symbol>, y: seq<Symbol>, z: seq<Symbol>) returns (before: string, after: string)
    requires (x == [] || x[|x| - 1] == Gap) && (z == [] || z[0] == Gap) && Separated(y)
    ensures Glue(Tokens(x + y + z)) == before + Emitted(y) + after
  {
    TokensBetweenGaps(x, y, z);
    LexSeparated(y);
    GlueOfSingles(Emitted(y));
    before, after := GlueOfThree(Tokens(x), Tokens(y), Tokens(z));
  }

  lemma ThreePieces(lower: char -> char, pre: string, word: string, post: string)
    ensures Symbols(lower, pre + word + post) == Symbols(lower, pre) + Symbols(lower, word) + Symbols(lower, post)
  {
    SymbolsConcat(lower, pre, word);
    SymbolsConcat(lower, pre + word, post);
  }

  lemma SpacedIsFlagged(lower: char -> char, pre: string, word: string, post: string, k: nat)
    requires k < |BANNED| && Separated(Symbols(lower, word))
    requires Disguises(Emitted(Symbols(lower, word)), Strip(BANNED[k]))
    requires pre == "" || Read(lower, pre[|pre| - 1]) == Gap
    requires post == "" || Read(lower, post[0]) == Gap
    ensures BannedKeyword(lower, [pre + word + post]) != ""
  {
    var text := pre + word + post;
    ThreePieces(lower, pre, word, post);
    KeywordsAreWords(k);
    var before, after := SpacedIsGlued(Symbols(lower, pre), Symbols(lower, word), Symbols(lower, post));
    NormalizedByPlace(lower, text);
    DisguiseIsUndone(before, Emitted(Symbols(lower, word)), after, Strip(BANNED[k]));
    MatchIsFlagged(lower, text, k);
  }

  // ----- The same, told by what the runes look like -----

  lemma EmittedSnoc(lower: char -> char, text: string)
    requires text != ""
    ensures var n := |text| - 1; var front := Emitted(Symbols(lower, text[..n]));
      Emitted(Symbols(lower, text)) ==
        match Read(lower, text[n])
        case Emit(c) => front + [c]
        case _ => front
  {
    var n := |text| - 1;
    assert Symbols(lower, text)[..n] == Symbols(lower, text[..n]);
    assert Emitted(Symbols(lower, text[..n])) + "" == Emitted(Symbols(lower, text[..n]));
  }

  lemma DisguisesSnoc(spelling: string, c: char, word: string)
    ensures Disguises(spelling + [c], word) <==>
      (word != "" && Disguises(spelling, word[..|word| - 1]) &&
       IsASCIIAlnum(c) && UnleetChar(c) == word[|word| - 1])
  {
    var m := |word| - 1;
    if word != "" && Disguises(spelling + [c], word) {
      forall i | 0 <= i < m ensures IsASCIIAlnum(spelling[i]) && UnleetChar(spelling[i]) == word[..m][i] {
        assert (spelling + [c])[i] == spelling[i];
      }
      assert (spelling + [c])[m] == c;
    }
  }

  /** What a text spells is what it emits, undone. */
  lemma {:induction false} SpellsIfDisguises(lower: char -> char, text: string, word: string)
    requires forall i :: 0 <= i < |word| ==> IsLetter(word[i])
    ensures Spells(lower, text, word) <==> Disguises(Emitted(Symbols(lower, text)), word)
    decreases |text|
  {
    if text != "" {
      var n, m := |text| - 1, |word| - 1;
      EmittedSnoc(lower, text);
      ReadAsItLooks(lower, text[n]);
      match Read(lower, text[n]) {
        case Emit(c) =>
          DisguisesSnoc(Emitted(Symbols(lower, text[..n])), c, word);
          if word != "" {
            StandsForIfRead(lower, text[n], word[m]);
            SpellsIfDisguises(lower, text[..n], word[..m]);
          }
        case _ => SpellsIfDisguises(lower, text[..n], word);
      }
    }
  }

  lemma GapIfBlank(lower: char -> char, text: string)
    ensures forall i :: 0 <= i < |text| ==> (Symbols(lower, text)[i] == Gap <==> Blank(lower(text[i])))
    ensures forall i :: 0 <= i < |text| ==> (Symbols(lower, text)[i].Emit? <==> Shows(lower(text[i])))
  {
    forall i | 0 <= i < |text|
      ensures Symbols(lower, text)[i] == Gap <==> Blank(lower(text[i]))
      ensures Symbols(lower, text)[i].Emit? <==> Shows(lower(text[i]))
    {
      ReadAsItLooks(lower, text[i]);
    }
  }

  lemma NoGapIfUnbroken(lower: char -> char, text: string)
    ensures Unbroken(lower, text) <==> NoGap(Symbols(lower, text))
  {
    GapIfBlank(lower, text);
  }

  lemma SymbolsOfPart(lower: char -> char, text: string, i: nat, j: nat)
    requires i <= j <= |text|
    ensures Symbols(lower, text[i..j]) == Symbols(lower, text)[i..j]
  {
  }

  lemma SeparatedIfSpacedOut(lower: char -> char, text: string)
    ensures SpacedOut(lower, text) <==> Separated(Symbols(lower, text))
  {
    GapIfBlank(lower, text);
    forall i, j | 0 <= i < j < |text|
      ensures Broken(lower, text[i..j]) <==> Gap in Symbols(lower, text)[i..j]
    {
      SymbolsOfPart(lower, text, i, j);
      NoGapIfUnbroken(lower, text[i..j]);
    }
  }

  lemma SpelledKeyword(lower: char -> char, word: string, k: nat)
    requires k < |BANNED| && Spells(lower, word, Strip(BANNED[k]))
    ensures Disguises(Emitted(Symbols(lower, word)), Strip(BANNED[k]))
  {
    KeywordsAreWords(k);
    StripIsWord(BANNED[k]);
    SpellsIfDisguises(lower, word, Strip(BANNED[k]));
  }

  /** Wherever the runes of a word spell a banned keyword, with look-alikes, leet
      digits and runes that do not render in any mix, the text is flagged. */
  lemma DisguisedWordIsCaught(lower: char -> char, pre: string, word: string, post: string, k: nat)
    requires k < |BANNED| && Unbroken(lower, word) && Spells(lower, word, Strip(BANNED[k]))
    ensures BannedKeyword(lower, [pre + word + post]) != ""
  {
    SpelledKeyword(lower, word, k);
    NoGapIfUnbroken(lower, word);
    DisguiseIsFlagged(lower, pre, word, post, k);
  }

  /** So it is when such a spelling is written letter by letter, with separators
      around and between the letters. */
  lemma SpacedWordIsCaught(lower: char -> char, pre: string, word: string, post: string, k: nat)
    requires k < |BANNED| && SpacedOut(lower, word) && Spells(lower, word, Strip(BANNED[k]))
    requires pre == "" || Blank(lower(pre[|pre| - 1]))
    requires post == "" || Blank(lower(post[0]))
    ensures BannedKeyword(lower, [pre + word + post]) != ""
  {
    SpelledKeyword(lower, word, k);
    SeparatedIfSpacedOut(lower, word);
    if pre != "" {
      ReadAsItLooks(lower, pre[|pre| - 1]);
    }
    if post != "" {
      ReadAsItLooks(lower, post[0]);
    }
    SpacedIsFlagged(lower, pre, word, post, k);
  }
}
