/** Links to shorteners and gambling hosts, and the reason given for the first one
    (pkg/antispam/links.go). */
module BlockedLinks {
  import opened Wrappers
  import opened StringSearch
  import opened Links

  const SHORTENERS: seq<string> := [
    "adf.ly", "bit.ly", "cutt.ly", "is.gd", "ow.ly", "rb.gy", "rebrand.ly", "s.id",
    "shorturl.at", "t.ly", "tinyurl.com", "v.gd"
  ]

  const GAMBLING_WORDS: seq<string> := ["casino", "judi", "poker", "sbobet"]

  predicate MatchesShortener(host: string, k: int)
    requires 0 <= k < |SHORTENERS|
  {
    host == SHORTENERS[k] || HasSuffix(host, "." + SHORTENERS[k])
  }

  predicate IsShortener(host: string) {
    exists k :: 0 <= k < |SHORTENERS| && MatchesShortener(host, k)
  }

  predicate IsGamblingHost(host: string) {
    (exists k :: 0 <= k < |GAMBLING_WORDS| && Contains(host, GAMBLING_WORDS[k])) || HasSlotNumber(host)
  }

  predicate BlockedHost(host: string) {
    IsShortener(host) || IsGamblingHost(host)
  }

  predicate BlockedAt(lower: string, i: int) {
    UrlAt(lower, i) && BlockedHost(HostAfter(lower, i))
  }

  /** Some URL anywhere in the text has a blocked host, or a shortener is pasted
      without a scheme. */
  predicate HasBlocked(lower: string) {
    || (exists i :: 0 <= i < |lower| && BlockedAt(lower, i))
    || (exists k :: 0 <= k < |SHORTENERS| && HasBareLink(lower, SHORTENERS[k]))
  }

  /** What the reason names. */
  datatype Block = Shortener(name: string) | Gambling(host: string)

  /** The first shortener of the list that the host matches. */
  predicate FirstShortener(host: string, k: int) {
    0 <= k < |SHORTENERS| && MatchesShortener(host, k) && forall j :: 0 <= j < k ==> !MatchesShortener(host, j)
  }

  /** The reason comes from host n: the first blocked one, as a shortener if it is one. */
  ghost predicate HostReason(hosts: seq<string>, n: int, block: Block) {
    && 0 <= n < |hosts| && (forall m :: 0 <= m < n ==> !BlockedHost(hosts[m]))
    && match block
       case Shortener(name) => exists k :: FirstShortener(hosts[n], k) && name == SHORTENERS[k]
       case Gambling(host) => host == hosts[n] && IsGamblingHost(host) && !IsShortener(host)
  }

  /** The reason is the first shortener pasted without a scheme. */
  predicate BareReason(lower: string, k: int, block: Block) {
    && 0 <= k < |SHORTENERS| && HasBareLink(lower, SHORTENERS[k]) && block == Shortener(SHORTENERS[k])
    && forall j :: 0 <= j < k ==> !HasBareLink(lower, SHORTENERS[j])
  }

  ghost predicate IsReason(lower: string, block: Block) {
    var hosts := HostsFrom(lower, 0);
    if exists n :: 0 <= n < |hosts| && BlockedHost(hosts[n]) then exists n :: HostReason(hosts, n, block)
    else exists k :: BareReason(lower, k, block)
  }

  method MatchShortener(host: string) returns (k: int)
    ensures if IsShortener(host) then FirstShortener(host, k) else k == |SHORTENERS|
  {
    k := 0;
    while k < |SHORTENERS|
      invariant 0 <= k <= |SHORTENERS| && forall j :: 0 <= j < k ==> !MatchesShortener(host, j)
    {
      if host == SHORTENERS[k] || HasSuffix(host, "." + SHORTENERS[k]) {
        assert FirstShortener(host, k);
        return;
      }
      k := k + 1;
    }
  }

  method CheckGamblingHost(host: string) returns (found: bool)
    ensures found == IsGamblingHost(host)
  {
    for k := 0 to |GAMBLING_WORDS|
      invariant forall j :: 0 <= j < k ==> !Contains(host, GAMBLING_WORDS[j])
    {
      if Contains(host, GAMBLING_WORDS[k]) {
        return true;
      }
    }
    found := ScanSlotNumber(host);
  }

  /** Some listed host is blocked iff some URL of the text has a blocked host. */
  lemma BlockedHostIff(lower: string)
    ensures var hosts := HostsFrom(lower, 0);
      (exists n :: 0 <= n < |hosts| && BlockedHost(hosts[n])) <==> (exists i :: 0 <= i < |lower| && BlockedAt(lower, i))
  {
    var hosts := HostsFrom(lower, 0);
    if n :| 0 <= n < |hosts| && BlockedHost(hosts[n]) {
      HostsAreListed(lower, 0, hosts[n]);
      var i :| 0 <= i < |lower| && HostAt(lower, i, hosts[n]);
      assert BlockedAt(lower, i);
    }
    if i :| 0 <= i < |lower| && BlockedAt(lower, i) {
      HostsAreListed(lower, 0, HostAfter(lower, i));
      assert HostAt(lower, i, HostAfter(lower, i));
    }
  }

  method FirstBlockedHost(hosts: seq<string>) returns (block: Option<Block>)
    ensures block.Some? <==> exists n :: 0 <= n < |hosts| && BlockedHost(hosts[n])
    ensures block.Some? ==> exists n :: HostReason(hosts, n, block.value)
  {
    for n := 0 to |hosts|
      invariant forall m :: 0 <= m < n ==> !BlockedHost(hosts[m])
    {
      var k := MatchShortener(hosts[n]);
      if k < |SHORTENERS| {
        assert HostReason(hosts, n, Shortener(SHORTENERS[k]));
        return Some(Shortener(SHORTENERS[k]));
      }
      var gambling := CheckGamblingHost(hosts[n]);
      if gambling {
        assert HostReason(hosts, n, Gambling(hosts[n]));
        return Some(Gambling(hosts[n]));
      }
    }
    return None;
  }

  method FirstBareShortener(lower: string) returns (block: Option<Block>)
    ensures block.Some? <==> exists k :: 0 <= k < |SHORTENERS| && HasBareLink(lower, SHORTENERS[k])
    ensures block.Some? ==> exists k :: BareReason(lower, k, block.value)
  {
    for k := 0 to |SHORTENERS|
      invariant forall m :: 0 <= m < k ==> !HasBareLink(lower, SHORTENERS[m])
    {
      ShortenersAreBorderFree(k);
      var bare := ContainsBareLink(lower, SHORTENERS[k]);
      if bare {
        assert BareReason(lower, k, Shortener(SHORTENERS[k]));
        return Some(Shortener(SHORTENERS[k]));
      }
    }
    return None;
  }

  lemma ShortenersAreBorderFree(k: nat)
    requires k < |SHORTENERS|
    ensures BorderFree(SHORTENERS[k] + "/")
  {
    DomainsAreBorderFree(SHORTENERS[k]);
  }

  method BlockedLink(lower: string) returns (block: Option<Block>)
    ensures block.Some? <==> HasBlocked(lower)
    ensures block.Some? ==> IsReason(lower, block.value)
  {
    BlockedHostIff(lower);
    var hosts := LinkHosts(lower);
    block := FirstBlockedHost(hosts);
    if block.None? {
      block := FirstBareShortener(lower);
    }
  }
}
