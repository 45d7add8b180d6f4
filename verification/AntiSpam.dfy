/** The verdict on a text or a post (pkg/antispam/antispam.go). */
module AntiSpam {
  import opened Wrappers
  import opened TextFold
  import opened BlockedLinks
  import opened LinkCount
  import opened BannedKeywords

  const MAX_LINKS_PER_POST: nat := 2

  datatype Reason = Keyword(phrase: string) | BlockedLinkIn(text: nat, block: Block) | TooManyLinks(count: nat)

  predicate LinkRejected(lower: char -> char, text: string) {
    HasBlocked(Lowered(lower, text))
  }

  predicate TextRejected(lower: char -> char, texts: seq<string>) {
    || BannedKeyword(lower, texts) != ""
    || exists k :: 0 <= k < |texts| && LinkRejected(lower, texts[k])
  }

  predicate PostRejected(lower: char -> char, texts: seq<string>) {
    TextRejected(lower, texts) || TotalLinks(lower, texts) > MAX_LINKS_PER_POST
  }

  ghost predicate BlocksText(lower: char -> char, text: string, block: Block) {
    IsReason(Lowered(lower, text), block)
  }

  /** The first text with a blocked link, and what blocks it. */
  ghost predicate IsLinkReason(lower: char -> char, texts: seq<string>, reason: Reason) {
    && reason.BlockedLinkIn? && reason.text < |texts|
    && BlocksText(lower, texts[reason.text], reason.block)
    && forall j :: 0 <= j < reason.text ==> !LinkRejected(lower, texts[j])
  }

  method CheckText(lower: char -> char, text: string) returns (block: Option<Block>)
    ensures block.Some? <==> LinkRejected(lower, text)
    ensures block.Some? ==> BlocksText(lower, text, block.value)
  {
    block := BlockedLink(Lowered(lower, text));
  }

  method LinkRejectReason(lower: char -> char, texts: seq<string>) returns (reason: Option<Reason>)
    ensures reason.Some? <==> exists k :: 0 <= k < |texts| && LinkRejected(lower, texts[k])
    ensures reason.Some? ==> IsLinkReason(lower, texts, reason.value)
  {
    for k := 0 to |texts|
      invariant forall j :: 0 <= j < k ==> !LinkRejected(lower, texts[j])
    {
      var block := CheckText(lower, texts[k]);
      if block.Some? {
        return Some(BlockedLinkIn(k, block.value));
      }
    }
    return None;
  }

  method TextRejectReason(lower: char -> char, texts: seq<string>) returns (reason: Option<Reason>)
    ensures reason.Some? <==> TextRejected(lower, texts)
    ensures BannedKeyword(lower, texts) != "" ==> reason == Some(Keyword(BannedKeyword(lower, texts)))
    ensures reason.Some? && BannedKeyword(lower, texts) == "" ==> IsLinkReason(lower, texts, reason.value)
  {
    var keyword := FindBannedKeyword(lower, texts);
    if keyword != "" {
      return Some(Keyword(keyword));
    }
    reason := LinkRejectReason(lower, texts);
  }

  method PostRejectReason(lower: char -> char, title: string, body: string, tags: seq<string>)
    returns (reason: Option<Reason>)
    ensures var texts := [title, body] + tags;
      && (reason.Some? <==> PostRejected(lower, texts))
      && (BannedKeyword(lower, texts) != "" ==> reason == Some(Keyword(BannedKeyword(lower, texts))))
      && (BannedKeyword(lower, texts) == "" && TextRejected(lower, texts) ==> IsLinkReason(lower, texts, reason.value))
      && (reason.Some? && !TextRejected(lower, texts) ==> reason.value == TooManyLinks(TotalLinks(lower, texts)))
  {
    var texts := [title, body] + tags;
    reason := TextRejectReason(lower, texts);
    if reason.Some? {
      return;
    }
    var links := CountLinks(lower, texts);
    if links > MAX_LINKS_PER_POST {
      return Some(TooManyLinks(links));
    }
  }

  lemma TextsAround(texts: seq<string>, k: nat)
    requires k < |texts|
    ensures texts == texts[..k] + ([texts[k]] + texts[k + 1..])
  {
  }

  /** Spam in one field cannot be diluted: whatever is refused on its own is
      refused in any post that carries it, in whichever field. */
  lemma NoFieldHidesSpam(lower: char -> char, texts: seq<string>, k: nat)
    requires LowerFacts(lower) && k < |texts|
    ensures PostRejected(lower, [texts[k]]) ==> PostRejected(lower, texts)
  {
    if !PostRejected(lower, [texts[k]]) {
      return;
    }
    if BannedKeyword(lower, [texts[k]]) != "" {
      JoiningNeverHides(lower, texts, k);
    } else if TextRejected(lower, [texts[k]]) {
      assert LinkRejected(lower, texts[k]);
    } else {
      TextsAround(texts, k);
      CountIsAdditive(lower, texts[..k], [texts[k]] + texts[k + 1..]);
      CountIsAdditive(lower, [texts[k]], texts[k + 1..]);
    }
  }
}
