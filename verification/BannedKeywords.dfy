/** Keyword matching on normalised text (pkg/antispam/antispam.go): joining never
    hides a banned keyword. */
module BannedKeywords {
  import opened TextFold
  import opened Normalize
  import opened StringSearch
  import opened WordPlaces

  const BANNED: seq<string> := [
    "togel", "gacor", "maxwin", "judol", "pinjol",
    "judi online", "judi slot", "slot online", "scatter hitam", "mahjong ways",
    "gates of olympus", "pragmatic play", "rtp live", "rtp slot", "pinjaman online"
  ]

  /** The keyword written as one word. */
  function Strip(keyword: string): string {
    if keyword == "" then ""
    else Strip(keyword[..|keyword| - 1]) + (if keyword[|keyword| - 1] == ' ' then "" else [keyword[|keyword| - 1]])
  }

  predicate Matches(haystack: string, keyword: string) {
    Contains(haystack, keyword) || Contains(haystack, Strip(keyword))
  }

  function JoinLines(texts: seq<string>): string {
    if texts == [] then ""
    else if |texts| == 1 then texts[0]
    else JoinLines(texts[..|texts| - 1]) + "\n" + texts[|texts| - 1]
  }

  function FirstMatch(keywords: seq<string>, haystack: string): string {
    if keywords == [] then ""
    else if Matches(haystack, keywords[0]) then keywords[0]
    else FirstMatch(keywords[1..], haystack)
  }

  /** The first banned phrase in any of the texts, or "". */
  function BannedKeyword(lower: char -> char, texts: seq<string>): string {
    FirstMatch(BANNED, Normalized(lower, JoinLines(texts)))
  }

  lemma {:induction false} FirstMatchFinds(keywords: seq<string>, haystack: string)
    requires forall i :: 0 <= i < |keywords| ==> keywords[i] != ""
    ensures FirstMatch(keywords, haystack) != "" <==>
      exists i :: 0 <= i < |keywords| && Matches(haystack, keywords[i])
  {
    if keywords != [] {
      FirstMatchFinds(keywords[1..], haystack);
      if exists i :: 0 <= i < |keywords[1..]| && Matches(haystack, keywords[1..][i]) {
        var i :| 0 <= i < |keywords[1..]| && Matches(haystack, keywords[1..][i]);
        assert keywords[i + 1] == keywords[1..][i];
      }
      if i :| 0 < i < |keywords| && Matches(haystack, keywords[i]) {
        assert keywords[1..][i - 1] == keywords[i];
      }
    }
  }

  /** It is the first keyword of the list that matches. */
  lemma {:induction false} FirstMatchIsFirst(keywords: seq<string>, haystack: string, k: nat)
    requires k < |keywords| && forall i :: 0 <= i < |keywords| ==> keywords[i] != ""
    requires Matches(haystack, keywords[k]) && forall j :: 0 <= j < k ==> !Matches(haystack, keywords[j])
    ensures FirstMatch(keywords, haystack) == keywords[k]
  {
    if k > 0 {
      assert !Matches(haystack, keywords[0]);
      assert forall j :: 0 <= j < |keywords[1..]| ==> keywords[1..][j] == keywords[j + 1];
      FirstMatchIsFirst(keywords[1..], haystack, k - 1);
    }
  }

  // ----- More text around never hides a match -----

  predicate LetterPhrase(needle: string) {
    forall i :: 0 <= i < |needle| ==> IsLetter(needle[i]) || needle[i] == ' '
  }

  lemma PlaceKept(s: string, before: string, after: string, i: int)
    requires 0 <= i < |s| && (IsLetter(UnleetAt(s, i)) || UnleetAt(s, i) == ' ')
    ensures UnleetAt(before + s + after, |before| + i) == UnleetAt(s, i)
  {
    assert (before + s + after)[|before| + i] == s[i];
    if InLetterWord(s, i) {
      LetterWordKept(s, before, after, i);
    }
  }

  /** g repeats, from some place on, every letter and space of h. */
  predicate Repeats(h: string, g: string, from: nat) {
    from + |h| <= |g| &&
    forall i :: 0 <= i < |h| && (IsLetter(h[i]) || h[i] == ' ') ==> g[from + i] == h[i]
  }

  lemma MatchTransfers(h: string, g: string, from: nat, needle: string)
    requires Repeats(h, g, from) && LetterPhrase(needle) && Contains(h, needle)
    ensures Contains(g, needle)
  {
    var at :| 0 <= at <= |h| && OccursAt(h, needle, at);
    OccursPointwise(h, needle, at);
    forall k | 0 <= k < |needle| ensures g[from + at + k] == needle[k] {
      assert g[from + (at + k)] == h[at + k];
    }
    OccursPointwise(g, needle, from + at);
  }

  lemma PlacesKept(s: string, before: string, after: string)
    ensures Repeats(UnleetWords(s), UnleetWords(before + s + after), |before|)
  {
    forall i | 0 <= i < |s| && (IsLetter(UnleetAt(s, i)) || UnleetAt(s, i) == ' ')
      ensures UnleetAt(before + s + after, |before| + i) == UnleetAt(s, i)
    {
      PlaceKept(s, before, after, i);
    }
  }

  lemma MatchKept(s: string, before: string, after: string, needle: string)
    requires LetterPhrase(needle) && Contains(UnleetWords(s), needle)
    ensures Contains(UnleetWords(before + s + after), needle)
  {
    PlacesKept(s, before, after);
    MatchTransfers(UnleetWords(s), UnleetWords(before + s + after), |before|, needle);
  }

  lemma {:induction false} GlueConcat(a: seq<string>, b: seq<string>) returns (between: string)
    ensures Glue(a + b) == Glue(a) + between + Glue(b)
    ensures a != [] && b != [] ==> between == Between(a, b[0])
  {
    if b == [] {
      between := "";
      assert a + b == a && Glue(a) + "" + "" == Glue(a);
    } else {
      var n := |b| - 1;
      var front, token := b[..n], b[n];
      assert b == front + [token] && a + b == a + front + [token];
      GlueSnoc(front, token);
      GlueSnoc(a + front, token);
      var rest := GlueConcat(a, front);
      if n == 0 {
        assert a + front == a;
        between := Between(a, token);
        assert Glue(b) == token;
      } else {
        between := rest;
        assert Between(a + front, token) == Between(front, token);
        GlueAssoc(Glue(a) + rest, Glue(front), Between(front, token), token);
      }
    }
  }

  lemma GlueAssoc(a: string, b: string, c: string, d: string)
    ensures a + b + c + d == a + (b + c + d)
  {
  }

  lemma GlueOfThree(a: seq<string>, b: seq<string>, c: seq<string>) returns (before: string, after: string)
    ensures Glue(a + b + c) == before + Glue(b) + after
  {
    var first := GlueConcat(a, b);
    var second := GlueConcat(a + b, c);
    before, after := Glue(a) + first, second + Glue(c);
  }

  // ----- Joining texts -----

  lemma {:induction false} LexAfterGap(x: seq<Symbol>, y: seq<Symbol>)
    ensures Lex(x + [Gap] + y) == Lexer(Tokens(x) + Lex(y).tokens, Lex(y).current)
  {
    var z := x + [Gap] + y;
    if y == [] {
      assert z == x + [Gap] && z[..|x|] == x;
    } else {
      var n := |y| - 1;
      LexAfterGap(x, y[..n]);
      assert z[..|x| + 1 + n] == x + [Gap] + y[..n];
    }
  }

  lemma TokensAfterGap(x: seq<Symbol>, y: seq<Symbol>)
    ensures Tokens(x + [Gap] + y) == Tokens(x) + Tokens(y)
  {
    LexAfterGap(x, y);
  }

  lemma TokensOfLines(lower: char -> char, a: string, b: string)
    requires LowerFacts(lower)
    ensures Tokens(Symbols(lower, a + "\n" + b)) == Tokens(Symbols(lower, a)) + Tokens(Symbols(lower, b))
  {
    ReadPlain(lower, '\n');
    assert Symbols(lower, "\n") == [Gap];
    SymbolsConcat(lower, a, "\n");
    SymbolsConcat(lower, a + "\n", b);
    TokensAfterGap(Symbols(lower, a), Symbols(lower, b));
  }

  lemma NothingAround<T>(front: seq<T>, own: seq<T>)
    ensures front + own == front + own + [] && own == [] + own + []
  {
  }

  lemma OneMoreAfter<T>(before: seq<T>, own: seq<T>, after: seq<T>, last: seq<T>)
    ensures before + own + after + last == before + own + (after + last)
  {
  }

  lemma {:induction false} TokensOfOneText(lower: char -> char, texts: seq<string>, k: nat)
      returns (before: seq<string>, after: seq<string>)
    requires LowerFacts(lower) && k < |texts|
    ensures Tokens(Symbols(lower, JoinLines(texts))) == before + Tokens(Symbols(lower, texts[k])) + after
  {
    var n := |texts| - 1;
    var own := Tokens(Symbols(lower, texts[k]));
    before, after := [], [];
    if n == 0 {
      NothingAround([], own);
      return;
    }
    TokensOfLines(lower, JoinLines(texts[..n]), texts[n]);
    if k == n {
      before := Tokens(Symbols(lower, JoinLines(texts[..n])));
      NothingAround(before, own);
    } else {
      before, after := TokensOfOneText(lower, texts[..n], k);
      OneMoreAfter(before, own, after, Tokens(Symbols(lower, texts[n])));
      after := after + Tokens(Symbols(lower, texts[n]));
    }
  }

  predicate HasAnchor(needle: string) {
    exists i :: 0 <= i < |needle| && Anchor(needle[i])
  }

  predicate Anchor(c: char) {
    IsLetter(c) && c !in {'o', 'i', 'e', 'a', 's', 't'}
  }

  lemma {:induction false} StripIsWord(keyword: string)
    requires LetterPhrase(keyword)
    ensures forall i :: 0 <= i < |Strip(keyword)| ==> IsLetter(Strip(keyword)[i])
    ensures HasAnchor(keyword) ==> HasAnchor(Strip(keyword))
  {
    if keyword != "" {
      var n := |keyword| - 1;
      StripIsWord(keyword[..n]);
      if HasAnchor(keyword) && !HasAnchor(keyword[..n]) {
        var i :| 0 <= i < |keyword| && Anchor(keyword[i]);
        assert forall j :: 0 <= j < n ==> keyword[..n][j] == keyword[j];
        assert i == n;
        assert Strip(keyword)[|Strip(keyword)| - 1] == keyword[n];
      } else if HasAnchor(keyword[..n]) {
        var i :| 0 <= i < |Strip(keyword[..n])| && Anchor(Strip(keyword[..n])[i]);
        assert Strip(keyword)[i] == Strip(keyword[..n])[i];
      }
    }
  }

  lemma KeywordsAreWords(k: nat)
    requires k < |BANNED|
    ensures BANNED[k] != "" && LetterPhrase(BANNED[k]) && LetterPhrase(Strip(BANNED[k]))
    ensures HasAnchor(Strip(BANNED[k]))
  {
    var w := BANNED[k];
    assert |w| > 2 && LetterPhrase(w);
    assert Anchor(w[0]) || Anchor(w[1]) || Anchor(w[2]);
    StripIsWord(w);
  }

  /** If one text alone is flagged, so is every list of texts containing it. */
  lemma JoiningNeverHides(lower: char -> char, texts: seq<string>, k: nat)
    requires LowerFacts(lower) && k < |texts|
    ensures BannedKeyword(lower, [texts[k]]) != "" ==> BannedKeyword(lower, texts) != ""
  {
    if BannedKeyword(lower, [texts[k]]) == "" {
      return;
    }
    forall i | 0 <= i < |BANNED| ensures BANNED[i] != "" { KeywordsAreWords(i); }
    var alone := Normalized(lower, texts[k]);
    FirstMatchFinds(BANNED, alone);
    var i :| 0 <= i < |BANNED| && Matches(alone, BANNED[i]);
    KeywordsAreWords(i);
    NormalizedByPlace(lower, texts[k]);
    NormalizedByPlace(lower, JoinLines(texts));
    var front, back := TokensOfOneText(lower, texts, k);
    var own := Tokens(Symbols(lower, texts[k]));
    var before, after := GlueOfThree(front, own, back);
    var needle := if Contains(alone, BANNED[i]) then BANNED[i] else Strip(BANNED[i]);
    MatchKept(Glue(own), before, after, needle);
    FirstMatchFinds(BANNED, Normalized(lower, JoinLines(texts)));
    assert Matches(Normalized(lower, JoinLines(texts)), BANNED[i]);
  }

  predicate MatchesFirst(keywords: seq<string>, haystack: string, k: int) {
    0 <= k < |keywords| && Matches(haystack, keywords[k]) && forall j :: 0 <= j < k ==> !Matches(haystack, keywords[j])
  }

  /** The keyword that matches first, or "" when none does. */
  predicate IsFirstMatch(keywords: seq<string>, haystack: string, keyword: string) {
    if keyword == "" then forall k :: 0 <= k < |keywords| ==> !Matches(haystack, keywords[k])
    else exists k :: 0 <= k < |keywords| && MatchesFirst(keywords, haystack, k) && keywords[k] == keyword
  }

  /** The loop over the list. */
  method FindMatch(keywords: seq<string>, haystack: string) returns (keyword: string)
    requires forall i :: 0 <= i < |keywords| ==> keywords[i] != ""
    ensures keyword == FirstMatch(keywords, haystack) && IsFirstMatch(keywords, haystack, keyword)
  {
    for k := 0 to |keywords|
      invariant forall j :: 0 <= j < k ==> !Matches(haystack, keywords[j])
    {
      if Contains(haystack, keywords[k]) || Contains(haystack, Strip(keywords[k])) {
        assert MatchesFirst(keywords, haystack, k);
        FirstMatchIsFirst(keywords, haystack, k);
        return keywords[k];
      }
    }
    FirstMatchFinds(keywords, haystack);
    return "";
  }

  method FindBannedKeyword(lower: char -> char, texts: seq<string>) returns (keyword: string)
    ensures keyword == BannedKeyword(lower, texts)
    ensures IsFirstMatch(BANNED, Normalized(lower, JoinLines(texts)), keyword)
  {
    forall i | 0 <= i < |BANNED| ensures BANNED[i] != "" { KeywordsAreWords(i); }
    var haystack := NormalizeText(lower, JoinLines(texts));
    keyword := FindMatch(BANNED, haystack);
  }
}
