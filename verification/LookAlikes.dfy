/** What the runes of a text look like, told by their code points and by the lists
    of look-alikes (pkg/antispam/normalize.go), and that the tokenizer reads every
    rune as what it looks like. */
module LookAlikes {
  import opened Wrappers
  import opened TextFold
  import opened Normalize

  // ----- What a rune looks like -----

  predicate Listed(r: char, c: char) {
    exists k :: 0 <= k < |CONFUSABLES| && CONFUSABLES[k].0 == c && r in CONFUSABLES[k].1
  }

  /** r is the n-th rune of one of `blocks` blocks of the given size from `base` on. */
  predicate InBlocks(r: char, base: int, size: int, blocks: int, n: int) {
    exists b :: 0 <= b < blocks && r as int == base + (b * size + n)
  }

  /** Full-width, small or capital; circled, capital or small; or one of the 13
      mathematical alphabets, each of capitals and small letters. */
  predicate StyledLetter(r: char, n: int) {
    || r as int == 0xFF21 + n || r as int == 0xFF41 + n
    || r as int == 0x24B6 + n || r as int == 0x24D0 + n
    || InBlocks(r, 0x1D400, 26, 2 * 13, n)
  }

  /** Full-width, or one of the five mathematical styles. */
  predicate StyledDigit(r: char, n: int) {
    r as int == 0xFF10 + n || InBlocks(r, 0x1D7CE, 10, 5, n)
  }

  /** r is the ASCII letter or digit c, or is taken for it. */
  predicate LooksLike(r: char, c: char) {
    IsASCIIAlnum(c) &&
    (|| r == c || Listed(r, c) || (r == '@' && c == 'a') || (r == '$' && c == 's')
     || (IsLetter(c) && StyledLetter(r, c as int - 'a' as int))
     || (IsDigit(c) && StyledDigit(r, c as int - '0' as int)))
  }

  ghost predicate Shows(r: char) {
    exists c :: LooksLike(r, c)
  }

  /** Soft hyphen, combining marks, zero-width runes and marks of direction,
      embeddings and overrides, invisible operators, byte order mark. */
  const UNSEEN: seq<(int, int)> := [
    (0xAD, 0xAD), (0x300, 0x36F), (0x200B, 0x200F), (0x202A, 0x202E), (0x2060, 0x2064), (0xFEFF, 0xFEFF)
  ]

  predicate Unseen(r: char) {
    exists k :: 0 <= k < |UNSEEN| && UNSEEN[k].0 <= r as int <= UNSEEN[k].1
  }

  ghost predicate Blank(r: char) {
    !Unseen(r) && !Shows(r)
  }

  // ----- The lists are disjoint -----

  /** The letter of each listed Latin rune, by code point. */
  function LatinLetter(r: char): char {
    if r <= '\U{00E5}' then 'a' else if r <= '\U{00E7}' then 'c' else if r <= '\U{00EB}' then 'e'
    else if r <= '\U{00EF}' then 'i' else if r <= '\U{00F1}' then 'n' else if r <= '\U{00F8}' then 'o'
    else if r <= '\U{00FC}' then 'u' else if r <= '\U{00FF}' then 'y' else if r <= '\U{0105}' then 'a'
    else if r <= '\U{010D}' then 'c' else if r <= '\U{011B}' then 'e' else if r <= '\U{0123}' then 'g'
    else if r <= '\U{0131}' then 'i' else if r <= '\U{0148}' then 'n' else if r <= '\U{0151}' then 'o'
    else if r <= '\U{0161}' then 's' else if r <= '\U{0173}' then 'u' else if r <= '\U{0177}' then 'y'
    else if r <= '\U{017E}' then 'z' else 'g'
  }

  /** The letter of each listed Greek or Cyrillic rune, by code point. */
  function EasternLetter(r: char): char {
    if r <= '\U{03B1}' then 'a' else if r <= '\U{03B5}' then 'e' else if r <= '\U{03B9}' then 'i'
    else if r <= '\U{03BA}' then 'k' else if r <= '\U{03BD}' then 'v' else if r <= '\U{03BF}' then 'o'
    else if r <= '\U{03C1}' then 'p' else if r <= '\U{03C4}' then 't' else if r <= '\U{03C5}' then 'u'
    else if r <= '\U{0430}' then 'a' else if r <= '\U{0432}' then 'b' else if r <= '\U{0435}' then 'e'
    else if r <= '\U{043A}' then 'k' else if r <= '\U{043C}' then 'm' else if r <= '\U{043D}' then 'h'
    else if r <= '\U{043E}' then 'o' else if r <= '\U{0440}' then 'p' else if r <= '\U{0441}' then 'c'
    else if r <= '\U{0442}' then 't' else if r <= '\U{0443}' then 'y' else if r <= '\U{0445}' then 'x'
    else if r <= '\U{044C}' then 'b' else if r <= '\U{0455}' then 's' else if r <= '\U{0456}' then 'i' else 'j'
  }

  lemma ListedInRange(k: nat, r: char)
    requires k < |CONFUSABLES| && r in CONFUSABLES[k].1
    ensures '\U{00E0}' <= r < '\U{0300}' || '\U{036F}' < r < '\U{0460}'
  {
  }

  lemma LatinHasOneLetter(k: nat, r: char)
    requires k < |CONFUSABLES| && r in CONFUSABLES[k].1 && r < '\U{0300}'
    ensures LatinLetter(r) == CONFUSABLES[k].0
  {
  }

  lemma EasternHasOneLetter(k: nat, r: char)
    requires k < |CONFUSABLES| && r in CONFUSABLES[k].1 && '\U{0300}' <= r
    ensures EasternLetter(r) == CONFUSABLES[k].0
  {
  }

  lemma ListedOnce(j: nat, k: nat, r: char)
    requires j < |CONFUSABLES| && k < |CONFUSABLES| && r in CONFUSABLES[j].1 && r in CONFUSABLES[k].1
    ensures CONFUSABLES[j].0 == CONFUSABLES[k].0
  {
    if r < '\U{0300}' {
      LatinHasOneLetter(j, r);
      LatinHasOneLetter(k, r);
    } else {
      EasternHasOneLetter(j, r);
      EasternHasOneLetter(k, r);
    }
  }

  /** The search finds a group that lists r, if there is one. */
  lemma {:induction false} ConfusableFinds(groups: seq<(char, string)>, r: char)
    ensures match Confusable(groups, r)
            case Some(c) => exists k :: 0 <= k < |groups| && groups[k].0 == c && r in groups[k].1
            case None => forall k :: 0 <= k < |groups| ==> r !in groups[k].1
  {
    if groups != [] && r !in groups[0].1 {
      ConfusableFinds(groups[1..], r);
      match Confusable(groups, r) {
        case Some(c) =>
          var k :| 0 <= k < |groups[1..]| && groups[1..][k].0 == c && r in groups[1..][k].1;
          assert groups[k + 1].0 == c && r in groups[k + 1].1;
        case None =>
          forall k | 0 <= k < |groups| ensures r !in groups[k].1 {
            assert k > 0 ==> groups[1..][k - 1] == groups[k];
          }
      }
    }
  }

  lemma ConfusableIsListed(r: char, c: char)
    ensures Confusable(CONFUSABLES, r) == Some(c) <==> Listed(r, c)
    ensures Listed(r, c) ==> '\U{00E0}' <= r < '\U{0300}' || '\U{036F}' < r < '\U{0460}'
  {
    ConfusableFinds(CONFUSABLES, r);
    if Listed(r, c) {
      var j :| 0 <= j < |CONFUSABLES| && CONFUSABLES[j].0 == c && r in CONFUSABLES[j].1;
      ListedInRange(j, r);
      var found := Confusable(CONFUSABLES, r).value;
      var k :| 0 <= k < |CONFUSABLES| && CONFUSABLES[k].0 == found && r in CONFUSABLES[k].1;
      ListedOnce(j, k, r);
    }
  }

  // ----- Every rune is read as what it looks like -----

  lemma HalfOfBlock(x: nat)
    ensures x % 52 % 26 == x % 26
  {
    var m := x % 52;
    assert x == 26 * (2 * (x / 52) + m / 26) + m % 26;
  }

  lemma LetterBlocks(r: char, n: int)
    requires '\U{1D400}' <= r <= '\U{1D6A3}'
    ensures InBlocks(r, 0x1D400, 26, 2 * 13, n) && 0 <= n < 26 <==> (r as int - 0x1D400) % 52 % 26 == n
  {
    var x := r as int - 0x1D400;
    var b := x / 26;
    HalfOfBlock(x);
    assert x == b * 26 + x % 26 && 0 <= b < 26;
    if x % 26 == n {
      assert r as int == 0x1D400 + (b * 26 + n);
    }
  }

  lemma DigitBlocks(r: char, n: int)
    requires '\U{1D7CE}' <= r <= '\U{1D7FF}'
    ensures InBlocks(r, 0x1D7CE, 10, 5, n) && 0 <= n < 10 <==> (r as int - 0x1D7CE) % 10 == n
  {
    var x := r as int - 0x1D7CE;
    var b := x / 10;
    assert x == b * 10 + x % 10 && 0 <= b < 5;
    if x % 10 == n {
      assert r as int == 0x1D7CE + (b * 10 + n);
    }
  }

  lemma BlocksAreInRange(r: char, n: int)
    ensures InBlocks(r, 0x1D400, 26, 2 * 13, n) && 0 <= n < 26 ==> '\U{1D400}' <= r <= '\U{1D6A3}'
    ensures InBlocks(r, 0x1D7CE, 10, 5, n) && 0 <= n < 10 ==> '\U{1D7CE}' <= r <= '\U{1D7FF}'
  {
  }

  /** The code points between which the lists lie. */
  predicate AmongListed(r: char) {
    '\U{00E0}' <= r < '\U{0300}' || '\U{036F}' < r < '\U{0460}'
  }

  lemma ListedFolds(r: char, c: char)
    requires AmongListed(r) && IsASCIIAlnum(c)
    ensures FoldRune(r) == c <==> LooksLike(r, c)
  {
    ConfusableIsListed(r, c);
    BlocksAreInRange(r, c as int - 'a' as int);
    BlocksAreInRange(r, c as int - '0' as int);
  }

  lemma NoneListed(r: char)
    requires !AmongListed(r)
    ensures Confusable(CONFUSABLES, r) == None && forall c :: !Listed(r, c)
  {
    forall c ensures !Listed(r, c) {
      ConfusableIsListed(r, c);
    }
    ConfusableFinds(CONFUSABLES, r);
    if Confusable(CONFUSABLES, r).Some? {
      assert Listed(r, Confusable(CONFUSABLES, r).value);
    }
  }

  lemma LetterFolds(r: char, c: char)
    requires Confusable(CONFUSABLES, r) == None && IsLetter(c)
    ensures FoldRune(r) == c <==>
      (r == c || (r == '@' && c == 'a') || (r == '$' && c == 's') || StyledLetter(r, c as int - 'a' as int))
  {
    BlocksAreInRange(r, c as int - 'a' as int);
    if '\U{1D400}' <= r <= '\U{1D6A3}' {
      LetterBlocks(r, c as int - 'a' as int);
    }
  }

  lemma DigitFolds(r: char, c: char)
    requires Confusable(CONFUSABLES, r) == None && IsDigit(c)
    ensures FoldRune(r) == c <==> r == c || StyledDigit(r, c as int - '0' as int)
  {
    BlocksAreInRange(r, c as int - '0' as int);
    if '\U{1D7CE}' <= r <= '\U{1D7FF}' {
      DigitBlocks(r, c as int - '0' as int);
    }
  }

  /** `foldRune` gives a letter or digit iff the rune looks like it. */
  lemma FoldsToWhatItLooksLike(r: char, c: char)
    ensures IsASCIIAlnum(c) && FoldRune(r) == c <==> LooksLike(r, c)
  {
    if AmongListed(r) {
      if IsASCIIAlnum(c) {
        ListedFolds(r, c);
      }
    } else {
      NoneListed(r);
      if IsLetter(c) {
        LetterFolds(r, c);
      } else if IsDigit(c) {
        DigitFolds(r, c);
      }
    }
  }

  lemma UnseenIsInvisible(r: char)
    ensures Unseen(r) <==> IsInvisible(r)
    ensures Unseen(r) ==> !IsASCIIAlnum(FoldRune(r))
  {
    if IsInvisible(r) {
      NoneListed(r);
      assert UNSEEN[0].0 <= r as int <= UNSEEN[0].1 || UNSEEN[1].0 <= r as int <= UNSEEN[1].1 ||
        UNSEEN[2].0 <= r as int <= UNSEEN[2].1 || UNSEEN[3].0 <= r as int <= UNSEEN[3].1 ||
        UNSEEN[4].0 <= r as int <= UNSEEN[4].1 || UNSEEN[5].0 <= r as int <= UNSEEN[5].1;
    }
  }

  /** The tokenizer takes every rune, once lowered, for what it looks like, drops
      those that render as nothing, and splits at all others. */
  lemma ReadAsItLooks(lower: char -> char, x: char)
    ensures forall c :: Read(lower, x) == Emit(c) <==> LooksLike(lower(x), c)
    ensures Read(lower, x) == Skip <==> Unseen(lower(x))
    ensures Read(lower, x) == Gap <==> Blank(lower(x))
  {
    var r := lower(x);
    UnseenIsInvisible(r);
    forall c ensures Read(lower, x) == Emit(c) <==> LooksLike(r, c) {
      FoldsToWhatItLooksLike(r, c);
    }
    if IsASCIIAlnum(FoldRune(r)) {
      FoldsToWhatItLooksLike(r, FoldRune(r));
    }
  }

  // ----- Spellings -----

  /** The digits that stand for letters. */
  const LEET: seq<(char, char)> := [('0', 'o'), ('1', 'i'), ('3', 'e'), ('4', 'a'), ('5', 's'), ('7', 't')]

  /** d is the letter c or a digit that stands for it. */
  predicate Spelling(d: char, c: char) {
    d == c || exists k :: 0 <= k < |LEET| && LEET[k] == (d, c)
  }

  ghost predicate StandsFor(r: char, c: char) {
    exists d :: LooksLike(r, d) && Spelling(d, c)
  }

  /** The runes of the text that show a letter or digit stand, in order, for the
      letters of the word. */
  ghost predicate Spells(lower: char -> char, text: string, word: string) {
    if text == "" then word == ""
    else
      var n, m := |text| - 1, |word| - 1;
      if Shows(lower(text[n])) then
        word != "" && StandsFor(lower(text[n]), word[m]) && Spells(lower, text[..n], word[..m])
      else Spells(lower, text[..n], word)
  }

  /** No rune of the text separates. */
  ghost predicate Unbroken(lower: char -> char, text: string) {
    forall i :: 0 <= i < |text| ==> !Blank(lower(text[i]))
  }

  /** Some rune separates. */
  ghost predicate Broken(lower: char -> char, text: string) {
    exists i :: 0 <= i < |text| && Blank(lower(text[i]))
  }

  /** No rune shows a letter or digit. */
  ghost predicate Wordless(lower: char -> char, text: string) {
    forall i :: 0 <= i < |text| ==> !Shows(lower(text[i]))
  }

  /** Between any two letters or digits something separates. */
  ghost predicate SpacedOut(lower: char -> char, text: string) {
    forall i, j :: 0 <= i < j < |text| && Shows(lower(text[i])) && Shows(lower(text[j])) ==>
      Broken(lower, text[i..j])
  }

  lemma SpellingIfUnleet(d: char, c: char)
    requires IsLetter(c)
    ensures Spelling(d, c) <==> UnleetChar(d) == c
  {
    if UnleetChar(d) == c && d != c {
      assert LEET[0] == (d, c) || LEET[1] == (d, c) || LEET[2] == (d, c) || LEET[3] == (d, c) ||
        LEET[4] == (d, c) || LEET[5] == (d, c);
    }
  }

  lemma StandsForIfRead(lower: char -> char, x: char, c: char)
    requires IsLetter(c)
    ensures StandsFor(lower(x), c) <==> Read(lower, x).Emit? && UnleetChar(Read(lower, x).c) == c
  {
    ReadAsItLooks(lower, x);
    if StandsFor(lower(x), c) {
      var d :| LooksLike(lower(x), d) && Spelling(d, c);
      SpellingIfUnleet(d, c);
    }
    if Read(lower, x).Emit? {
      SpellingIfUnleet(Read(lower, x).c, c);
    }
  }
}
