/** Counting links word by word (pkg/antispam/links.go): splitting a text into
    words neither creates nor loses a link for any detector. */
module LinkCount {
  import opened TextFold
  import opened StringSearch
  import opened Links

  /** The runes at which `CountLinks` splits. */
  predicate IsSeparator(c: char) {
    IsSpace(c) || c in {'(', ')', '[', ']', '<', '>', '"', '\''}
  }

  function Lowered(lower: char -> char, text: string): string {
    seq(|text|, i requires 0 <= i < |text| => lower(text[i]))
  }

  /** `ContainsLink` on lowered text. */
  predicate LinkIn(s: string) {
    || Contains(s, "://") || Contains(s, "mailto:")
    || HasWWW(s) || HasDomain(s)
    || exists k :: 0 <= k < |BARE_LINK_DOMAINS| && HasBareLink(s, BARE_LINK_DOMAINS[k])
  }

  predicate ContainsLink(lower: char -> char, text: string) {
    LinkIn(Lowered(lower, text))
  }

  method CheckLink(lower: char -> char, text: string) returns (found: bool)
    ensures found == ContainsLink(lower, text)
  {
    var s := Lowered(lower, text);
    if Contains(s, "://") || Contains(s, "mailto:") {
      return true;
    }
    found := ScanWWWHost(s);
    if found {
      return;
    }
    found := ScanBareDomain(s);
    if found {
      return;
    }
    for k := 0 to |BARE_LINK_DOMAINS|
      invariant forall m :: 0 <= m < k ==> !HasBareLink(s, BARE_LINK_DOMAINS[m])
    {
      DomainsAreBorderFree(BARE_LINK_DOMAINS[k]);
      found := ContainsBareLink(s, BARE_LINK_DOMAINS[k]);
      if found {
        return;
      }
    }
    return false;
  }

  /** The last separator of the text, or -1. */
  function LastSeparator(text: string): (i: int)
    ensures -1 <= i < |text|
    ensures i >= 0 ==> IsSeparator(text[i])
    ensures forall k :: i < k < |text| ==> !IsSeparator(text[k])
  {
    if text == "" then -1
    else if IsSeparator(text[|text| - 1]) then |text| - 1
    else LastSeparator(text[..|text| - 1])
  }

  function IfAny(word: string): seq<string> {
    if word == "" then [] else [word]
  }

  /** `strings.FieldsFunc`: the maximal runs of non-separators. */
  function Words(text: string): seq<string> {
    var i := LastSeparator(text);
    if i < 0 then IfAny(text) else Words(text[..i]) + IfAny(text[i + 1..])
  }

  /** `strings.Count` of "://". */
  function CountSchemes(word: string, from: nat): nat
    requires from <= |word|
    decreases |word| - from
  {
    var i := Index(word, "://", from);
    if i < 0 then 0 else 1 + CountSchemes(word, i + 3)
  }

  function WordLinks(lower: char -> char, word: string): nat {
    if !ContainsLink(lower, word) then 0
    else if CountSchemes(word, 0) == 0 then 1
    else CountSchemes(word, 0)
  }

  function SumLinks(lower: char -> char, words: seq<string>): nat {
    if words == [] then 0
    else SumLinks(lower, words[..|words| - 1]) + WordLinks(lower, words[|words| - 1])
  }

  function TotalLinks(lower: char -> char, texts: seq<string>): nat {
    if texts == [] then 0
    else TotalLinks(lower, texts[..|texts| - 1]) + SumLinks(lower, Words(texts[|texts| - 1]))
  }

  lemma PrefixStep<T>(list: seq<T>, k: nat)
    requires k < |list|
    ensures list[..k + 1][..k] == list[..k] && list[..k + 1][k] == list[k]
    ensures list[..|list|] == list
  {
  }

  lemma SumStep(lower: char -> char, words: seq<string>, k: nat)
    requires k < |words|
    ensures SumLinks(lower, words[..k + 1]) == SumLinks(lower, words[..k]) + WordLinks(lower, words[k])
  {
    PrefixStep(words, k);
  }

  lemma TotalStep(lower: char -> char, texts: seq<string>, k: nat)
    requires k < |texts|
    ensures TotalLinks(lower, texts[..k + 1]) == TotalLinks(lower, texts[..k]) + SumLinks(lower, Words(texts[k]))
  {
    PrefixStep(texts, k);
  }

  method CountLinks(lower: char -> char, texts: seq<string>) returns (count: nat)
    ensures count == TotalLinks(lower, texts)
    ensures LowerFacts(lower) ==> count == SchemesIn(texts) + BareLinksIn(lower, texts)
  {
    count := 0;
    for i := 0 to |texts|
      invariant count == TotalLinks(lower, texts[..i])
    {
      var words := Words(texts[i]);
      for j := 0 to |words|
        invariant count == TotalLinks(lower, texts[..i]) + SumLinks(lower, words[..j])
      {
        SumStep(lower, words, j);
        var found := CheckLink(lower, words[j]);
        if found {
          var schemes := CountSchemes(words[j], 0);
          count := count + if schemes == 0 then 1 else schemes;
        }
      }
      assert words[..|words|] == words;
      TotalStep(lower, texts, i);
    }
    assert texts[..|texts|] == texts;
    if LowerFacts(lower) {
      CountIsSchemesAndBareWords(lower, texts);
    }
  }

  // ----- Each detector, cut at a separator -----

  /** Facts about separators that the detectors depend on. */
  predicate Cuts(c: char) {
    IsHostTerminator(c) && !IsLetter(c) && !IsDigit(c) && c !in {'/', ':'}
  }

  lemma SeparatorsCut(lower: char -> char, c: char)
    requires LowerFacts(lower) && IsSeparator(c)
    ensures lower(c) == c && Cuts(c)
  {
  }

  lemma ContainsSplit(a: string, c: char, b: string, needle: string)
    requires needle != "" && c !in needle
    ensures Contains(a + [c] + b, needle) <==> Contains(a, needle) || Contains(b, needle)
  {
    var s := a + [c] + b;
    if Contains(s, needle) {
      var i :| 0 <= i <= |s| && OccursAt(s, needle, i);
      OccursSplit(a, c, b, needle, i);
    }
    if Contains(a, needle) {
      var i :| 0 <= i <= |a| && OccursAt(a, needle, i);
      OccursSplit(a, c, b, needle, i);
    }
    if Contains(b, needle) {
      var i :| 0 <= i <= |b| && OccursAt(b, needle, i);
      OccursSplit(a, c, b, needle, |a| + 1 + i);
    }
  }

  lemma WWWSplitAt(a: string, c: char, b: string, i: int)
    requires Cuts(c)
    ensures WWWAt(a + [c] + b, i) <==> WWWAt(a, i) || WWWAt(b, i - |a| - 1)
  {
    var s := a + [c] + b;
    OccursSplit(a, c, b, "www.", i);
    assert forall k :: 0 <= k < |a| ==> s[k] == a[k];
    assert s[|a|] == c;
    assert forall k :: 0 <= k < |b| ==> s[|a| + 1 + k] == b[k];
    if OccursAt(b, "www.", i - |a| - 1) && i > |a| + 1 {
      assert s[i - 1] == b[i - |a| - 2];
    }
  }

  lemma WWWSplit(a: string, c: char, b: string)
    requires Cuts(c)
    ensures HasWWW(a + [c] + b) <==> HasWWW(a) || HasWWW(b)
  {
    var s := a + [c] + b;
    if HasWWW(s) {
      var i :| 0 <= i <= |s| && WWWAt(s, i);
      WWWSplitAt(a, c, b, i);
    }
    if HasWWW(a) {
      var i :| 0 <= i <= |a| && WWWAt(a, i);
      WWWSplitAt(a, c, b, i);
    }
    if HasWWW(b) {
      var i :| 0 <= i <= |b| && WWWAt(b, i);
      WWWSplitAt(a, c, b, |a| + 1 + i);
    }
  }

  lemma BareLinkSplitAt(a: string, c: char, b: string, domain: string, i: int)
    requires Cuts(c) && c !in domain
    ensures BareLinkAt(a + [c] + b, domain, i) <==> BareLinkAt(a, domain, i) || BareLinkAt(b, domain, i - |a| - 1)
  {
    var s := a + [c] + b;
    OccursSplit(a, c, b, domain + "/", i);
    assert forall k :: 0 <= k < |a| ==> s[k] == a[k];
    assert s[|a|] == c;
    assert forall k :: 0 <= k < |b| ==> s[|a| + 1 + k] == b[k];
    if OccursAt(b, domain + "/", i - |a| - 1) && i > |a| + 1 {
      assert s[i - 1] == b[i - |a| - 2];
    }
  }

  lemma BareLinkSplit(a: string, c: char, b: string, domain: string)
    requires Cuts(c) && c !in domain
    ensures HasBareLink(a + [c] + b, domain) <==> HasBareLink(a, domain) || HasBareLink(b, domain)
  {
    var s := a + [c] + b;
    if HasBareLink(s, domain) {
      var i :| 0 <= i <= |s| && BareLinkAt(s, domain, i);
      BareLinkSplitAt(a, c, b, domain, i);
    }
    if HasBareLink(a, domain) {
      var i :| 0 <= i <= |a| && BareLinkAt(a, domain, i);
      BareLinkSplitAt(a, c, b, domain, i);
    }
    if HasBareLink(b, domain) {
      var i :| 0 <= i <= |b| && BareLinkAt(b, domain, i);
      BareLinkSplitAt(a, c, b, domain, |a| + 1 + i);
    }
  }

  lemma {:induction false} LettersEndLeft(a: string, c: char, b: string, from: nat)
    requires Cuts(c) && from <= |a|
    ensures LettersEnd(a + [c] + b, from) == LettersEnd(a, from)
    decreases |a| - from
  {
    var s := a + [c] + b;
    assert s[|a|] == c && (from < |a| ==> s[from] == a[from]);
    if from < |a| && IsLetter(a[from]) {
      LettersEndLeft(a, c, b, from + 1);
    }
  }

  lemma {:induction false} LettersEndRight(a: string, b: string, from: nat)
    requires from <= |b|
    ensures LettersEnd(a + b, |a| + from) == |a| + LettersEnd(b, from)
    decreases |b| - from
  {
    if from < |b| && IsLetter(b[from]) {
      LettersEndRight(a, b, from + 1);
    }
  }

  lemma DomainSplitLeft(a: string, c: char, b: string, dot: int)
    requires Cuts(c) && 0 <= dot < |a|
    ensures DomainAt(a + [c] + b, dot) <==> DomainAt(a, dot)
  {
    var s := a + [c] + b;
    LettersEndLeft(a, c, b, dot + 1);
    var end := LettersEnd(a, dot + 1);
    assert s[dot + 1..end] == a[dot + 1..end];
    assert s[|a|] == c && forall k :: 0 <= k < |a| ==> s[k] == a[k];
  }

  lemma DomainShift(a: string, b: string, dot: int)
    requires 0 < dot < |b|
    ensures DomainAt(a + b, |a| + dot) <==> DomainAt(b, dot)
  {
    var s := a + b;
    LettersEndRight(a, b, dot + 1);
    var end := LettersEnd(b, dot + 1);
    assert s[|a| + dot + 1..|a| + end] == b[dot + 1..end];
    assert s[|a| + dot] == b[dot] && s[|a| + (dot - 1)] == b[dot - 1];
    assert end < |b| ==> s[|a| + end] == b[end];
  }

  lemma DomainSplitRight(a: string, c: char, b: string, dot: int)
    requires Cuts(c) && 0 <= dot < |b|
    ensures DomainAt(a + [c] + b, |a| + 1 + dot) <==> DomainAt(b, dot)
  {
    if dot == 0 {
      assert (a + [c] + b)[|a|] == c;
    } else {
      DomainShift(a + [c], b, dot);
    }
  }

  lemma DomainSplit(a: string, c: char, b: string)
    requires Cuts(c)
    ensures HasDomain(a + [c] + b) <==> HasDomain(a) || HasDomain(b)
  {
    var s := a + [c] + b;
    if HasDomain(s) {
      var dot :| 0 <= dot < |s| && DomainAt(s, dot);
      assert s[|a|] == c;
      if dot < |a| {
        DomainSplitLeft(a, c, b, dot);
      } else {
        DomainSplitRight(a, c, b, dot - |a| - 1);
      }
    }
    if HasDomain(a) {
      var dot :| 0 <= dot < |a| && DomainAt(a, dot);
      DomainSplitLeft(a, c, b, dot);
    }
    if HasDomain(b) {
      var dot :| 0 <= dot < |b| && DomainAt(b, dot);
      DomainSplitRight(a, c, b, dot);
    }
  }

  lemma LinkSplit(a: string, c: char, b: string)
    requires Cuts(c)
    ensures LinkIn(a + [c] + b) <==> LinkIn(a) || LinkIn(b)
  {
    ContainsSplit(a, c, b, "://");
    ContainsSplit(a, c, b, "mailto:");
    WWWSplit(a, c, b);
    DomainSplit(a, c, b);
    forall k | 0 <= k < |BARE_LINK_DOMAINS|
      ensures HasBareLink(a + [c] + b, BARE_LINK_DOMAINS[k]) <==>
        HasBareLink(a, BARE_LINK_DOMAINS[k]) || HasBareLink(b, BARE_LINK_DOMAINS[k])
    {
      BareLinkSplit(a, c, b, BARE_LINK_DOMAINS[k]);
    }
  }

  lemma NoLinkInNothing()
    ensures !LinkIn("")
  {
  }

  // ----- The theorem -----

  lemma InitOfAppend<T>(a: seq<T>, b: seq<T>)
    requires b != []
    ensures (a + b)[..|a + b| - 1] == a + b[..|b| - 1]
    ensures (a + b)[|a + b| - 1] == b[|b| - 1]
  {
  }

  lemma {:induction false} SumLinksAppend(lower: char -> char, a: seq<string>, b: seq<string>)
    ensures SumLinks(lower, a + b) == SumLinks(lower, a) + SumLinks(lower, b)
  {
    if b == [] {
      assert a + b == a;
    } else {
      SumLinksAppend(lower, a, b[..|b| - 1]);
      InitOfAppend(a, b);
    }
  }

  lemma CutAt(text: string, i: nat)
    requires i < |text|
    ensures text == text[..i] + [text[i]] + text[i + 1..]
  {
  }

  lemma SumOfOne(lower: char -> char, word: string)
    ensures SumLinks(lower, [word]) == WordLinks(lower, word)
  {
    assert [word][..0] == [];
  }

  lemma LastWordKeepsLinks(lower: char -> char, words: seq<string>, last: string)
    ensures SumLinks(lower, words + IfAny(last)) ==
      SumLinks(lower, words) + (if ContainsLink(lower, last) then WordLinks(lower, last) else 0)
  {
    NoLinkInNothing();
    SumOfOne(lower, last);
    SumLinksAppend(lower, words, IfAny(last));
  }

  lemma LoweredSplit(lower: char -> char, a: string, c: char, b: string)
    requires LowerFacts(lower) && IsSeparator(c)
    ensures ContainsLink(lower, a + [c] + b) <==> ContainsLink(lower, a) || ContainsLink(lower, b)
  {
    SeparatorsCut(lower, c);
    LinkSplit(Lowered(lower, a), c, Lowered(lower, b));
    assert Lowered(lower, a + [c] + b) == Lowered(lower, a) + [c] + Lowered(lower, b);
  }

  predicate KeepsLinks(lower: char -> char, text: string, words: seq<string>) {
    SumLinks(lower, words) == 0 <==> !ContainsLink(lower, text)
  }

  lemma LastWordKeeps(
    lower: char -> char, text: string, all: seq<string>, front: string, words: seq<string>, c: char, last: string)
    requires LowerFacts(lower) && KeepsLinks(lower, front, words) && IsSeparator(c)
    requires text == front + [c] + last && all == words + IfAny(last)
    ensures KeepsLinks(lower, text, all)
  {
    LastWordKeepsLinks(lower, words, last);
    LoweredSplit(lower, front, c, last);
  }

  lemma OneWordKeeps(lower: char -> char, text: string)
    requires LastSeparator(text) < 0
    ensures KeepsLinks(lower, text, Words(text))
  {
    LastWordKeepsLinks(lower, [], text);
    NothingBefore(IfAny(text));
  }

  lemma NothingBefore<T>(list: seq<T>)
    ensures [] + list == list
  {
  }

  /** The words of a text hold a link iff the text does. */
  lemma {:induction false} WordsKeepLinks(lower: char -> char, text: string)
    requires LowerFacts(lower)
    ensures SumLinks(lower, Words(text)) == 0 <==> !ContainsLink(lower, text)
  {
    var i := LastSeparator(text);
    if i < 0 {
      OneWordKeeps(lower, text);
    } else {
      WordsKeepLinks(lower, text[..i]);
      CutAt(text, i);
      LastWordKeeps(lower, text, Words(text), text[..i], Words(text[..i]), text[i], text[i + 1..]);
    }
  }

  /** `CountLinks(text) == 0` iff `!ContainsLink(text)`. */
  lemma NoLinksCountedIffNone(lower: char -> char, text: string)
    requires LowerFacts(lower)
    ensures TotalLinks(lower, [text]) == 0 <==> !ContainsLink(lower, text)
  {
    WordsKeepLinks(lower, text);
    assert [text][..0] == [];
  }

  /** The count is additive, so spreading links over title, body and tags does
      not change it. */
  lemma {:induction false} CountIsAdditive(lower: char -> char, a: seq<string>, b: seq<string>)
    ensures TotalLinks(lower, a + b) == TotalLinks(lower, a) + TotalLinks(lower, b)
  {
    if b == [] {
      assert a + b == a;
    } else {
      CountIsAdditive(lower, a, b[..|b| - 1]);
      InitOfAppend(a, b);
    }
  }

  // ----- What is counted -----

  function Join(gaps: seq<string>, words: seq<string>): string
    requires |gaps| == |words| + 1
  {
    if words == [] then gaps[0]
    else Join(gaps[..|words|], words[..|words| - 1]) + words[|words| - 1] + gaps[|words|]
  }

  predicate AllSeparators(text: string) {
    forall i :: 0 <= i < |text| ==> IsSeparator(text[i])
  }

  predicate IsWord(text: string) {
    text != "" && forall i :: 0 <= i < |text| ==> !IsSeparator(text[i])
  }

  /** The words are the text between the separators: non-empty, without separators,
      in order, and apart. */
  predicate Cut(text: string, gaps: seq<string>, words: seq<string>) {
    && |gaps| == |words| + 1 && Join(gaps, words) == text
    && (forall k :: 0 <= k < |words| ==> IsWord(words[k]))
    && (forall k :: 0 <= k < |gaps| ==> AllSeparators(gaps[k]))
    && (forall k :: 0 < k < |gaps| - 1 ==> gaps[k] != "")
  }

  lemma JoinSnoc(gaps: seq<string>, words: seq<string>, word: string, gap: string)
    requires |gaps| == |words| + 1
    ensures Join(gaps + [gap], words + [word]) == Join(gaps, words) + word + gap
  {
    assert (gaps + [gap])[..|words| + 1] == gaps && (words + [word])[..|words|] == words;
  }

  lemma JoinWider(gaps: seq<string>, words: seq<string>, more: string)
    requires |gaps| == |words| + 1
    ensures Join(gaps[|words| := gaps[|words|] + more], words) == Join(gaps, words) + more
  {
    var wider := gaps[|words| := gaps[|words|] + more];
    if words != [] {
      assert wider[..|words|] == gaps[..|words|];
      Assoc(Join(gaps[..|words|], words[..|words| - 1]) + words[|words| - 1], gaps[|words|], more);
    }
  }

  lemma Assoc(a: string, b: string, c: string)
    ensures a + (b + c) == (a + b) + c
  {
  }

  lemma CutGrows(
    text: string, all: seq<string>, front: string, gaps: seq<string>, words: seq<string>, c: char, last: string)
    returns (gaps': seq<string>)
    requires Cut(front, gaps, words) && IsSeparator(c) && (last == "" || IsWord(last))
    requires text == front + [c] + last && all == words + IfAny(last)
    ensures Cut(text, gaps', all)
  {
    var n := |words|;
    gaps' := gaps[n := gaps[n] + [c]];
    JoinWider(gaps, words, [c]);
    if last == "" {
      assert text == front + [c] && all == words;
    } else {
      JoinSnoc(gaps', words, last, "");
      assert text == front + [c] + last + "";
      gaps' := gaps' + [""];
    }
  }

  /** `strings.FieldsFunc` cuts at the separators and nowhere else. */
  lemma {:induction false} WordsAreCut(text: string) returns (gaps: seq<string>)
    ensures Cut(text, gaps, Words(text))
  {
    var i := LastSeparator(text);
    if i < 0 {
      gaps := if text == "" then [""] else ["", ""];
      OneWord(text);
    } else {
      gaps := WordsAreCut(text[..i]);
      CutAt(text, i);
      gaps := CutGrows(text, Words(text), text[..i], gaps, Words(text[..i]), text[i], text[i + 1..]);
    }
  }

  lemma OneWord(text: string)
    requires text == "" || IsWord(text)
    ensures Cut(text, if text == "" then [""] else ["", ""], Words(text))
  {
    assert LastSeparator(text) == -1;
    if text != "" {
      JoinSnoc([""], [], text, "");
      assert [""] + [""] == ["", ""] && [] + [text] == [text] && "" + text + "" == text;
    }
  }

  /** How many indices of the text "://" stands at. */
  function SchemesOf(text: string): nat {
    Occurrences(text, "://", 0)
  }

  /** How many words hold a link but no "://". */
  function BareLinks(lower: char -> char, words: seq<string>): nat {
    if words == [] then 0
    else
      var last := words[|words| - 1];
      BareLinks(lower, words[..|words| - 1]) +
      if ContainsLink(lower, last) && !Contains(last, "://") then 1 else 0
  }

  lemma {:induction false} CountSchemesCounts(word: string, from: nat)
    requires from <= |word|
    ensures CountSchemes(word, from) == Occurrences(word, "://", from)
    decreases |word| - from
  {
    var i := Index(word, "://", from);
    if i < 0 {
      NoneInBetween(word, "://", from, |word| + 1);
    } else {
      NoneInBetween(word, "://", from, i);
      NeedlesAreBorderFree();
      forall k | i + 1 <= k < i + 3 ensures !OccursAt(word, "://", k) {
        NoOverlap(word, "://", i, k);
      }
      NoneInBetween(word, "://", i + 1, i + 3);
      CountSchemesCounts(word, i + 3);
    }
  }

  lemma SchemeIsLink(lower: char -> char, word: string)
    requires LowerFacts(lower) && Contains(word, "://")
    ensures ContainsLink(lower, word)
  {
    var i :| 0 <= i <= |word| && OccursAt(word, "://", i);
    OccursPointwise(word, "://", i);
    OccursPointwise(Lowered(lower, word), "://", i);
    assert OccursAt(Lowered(lower, word), "://", i);
  }

  lemma WordLinksMeans(lower: char -> char, word: string)
    requires LowerFacts(lower)
    ensures WordLinks(lower, word) == SchemesOf(word) +
      if ContainsLink(lower, word) && !Contains(word, "://") then 1 else 0
  {
    CountSchemesCounts(word, 0);
    OccursIffCounted(word, "://");
    if Contains(word, "://") {
      SchemeIsLink(lower, word);
    }
  }

  /** The links among the words are `schemes` and the bare ones. */
  predicate LinksAre(lower: char -> char, words: seq<string>, schemes: nat) {
    SumLinks(lower, words) == schemes + BareLinks(lower, words)
  }

  lemma LastWordCounted(lower: char -> char, all: seq<string>, words: seq<string>, schemes: nat, last: string)
    requires LowerFacts(lower) && LinksAre(lower, words, schemes) && all == words + IfAny(last)
    ensures LinksAre(lower, all, schemes + SchemesOf(last))
  {
    WordLinksMeans(lower, last);
    if last == "" {
      assert words + [] == words;
      NoLinkInNothing();
    } else {
      InitOfAppend(words, [last]);
      assert words + [last][..0] == words;
    }
  }

  lemma SchemesSplit(text: string, i: nat)
    requires i < |text| && IsSeparator(text[i])
    ensures SchemesOf(text) == SchemesOf(text[..i]) + SchemesOf(text[i + 1..])
  {
    OccurrencesSplit(text[..i], text[i], text[i + 1..], "://", 0);
    CutAt(text, i);
  }

  /** The links of a text are its occurrences of "://", each inside one word, and
      the words that hold a link without it. */
  lemma {:induction false} LinksAreSchemesAndBareWords(lower: char -> char, text: string)
    requires LowerFacts(lower)
    ensures SumLinks(lower, Words(text)) == SchemesOf(text) + BareLinks(lower, Words(text))
  {
    var i := LastSeparator(text);
    if i < 0 {
      NothingBefore(IfAny(text));
      LastWordCounted(lower, Words(text), [], 0, text);
    } else {
      LinksAreSchemesAndBareWords(lower, text[..i]);
      LastWordCounted(lower, Words(text), Words(text[..i]), SchemesOf(text[..i]), text[i + 1..]);
      SchemesSplit(text, i);
    }
  }

  function SchemesIn(texts: seq<string>): nat {
    if texts == [] then 0
    else SchemesIn(texts[..|texts| - 1]) + SchemesOf(texts[|texts| - 1])
  }

  function BareLinksIn(lower: char -> char, texts: seq<string>): nat {
    if texts == [] then 0
    else BareLinksIn(lower, texts[..|texts| - 1]) + BareLinks(lower, Words(texts[|texts| - 1]))
  }

  /** What `CountLinks` returns for any list of texts. */
  lemma {:induction false} CountIsSchemesAndBareWords(lower: char -> char, texts: seq<string>)
    requires LowerFacts(lower)
    ensures TotalLinks(lower, texts) == SchemesIn(texts) + BareLinksIn(lower, texts)
  {
    if texts != [] {
      CountIsSchemesAndBareWords(lower, texts[..|texts| - 1]);
      LinksAreSchemesAndBareWords(lower, texts[|texts| - 1]);
    }
  }
}
