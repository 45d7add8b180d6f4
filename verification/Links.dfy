/** Link detection (pkg/antispam/links.go). Scanners work on lowered text. */
module Links {
  import opened TextFold
  import opened StringSearch

  const LINK_TLDS: set<string> := {"com", "org", "xyz", "biz", "club", "vip", "co", "bet", "casino"}

  const BARE_LINK_DOMAINS: seq<string> := ["t.me", "wa.me", "linktr.ee"]

  predicate IsHostTerminator(r: char) {
    !(IsASCIIAlnum(r) || r == '.' || r == '-')
  }

  // ----- What the scanners look for -----

  /** "www." at the start of a word. */
  predicate WWWAt(s: string, i: int) {
    OccursAt(s, "www.", i) && (i == 0 || !IsASCIIAlnum(s[i - 1]))
  }

  predicate HasWWW(s: string) {
    exists i :: 0 <= i <= |s| && WWWAt(s, i)
  }

  /** The domain and a slash, starting a host. */
  predicate BareLinkAt(s: string, domain: string, i: int) {
    OccursAt(s, domain + "/", i) && (i == 0 || IsHostTerminator(s[i - 1]))
  }

  predicate HasBareLink(s: string, domain: string) {
    exists i :: 0 <= i <= |s| && BareLinkAt(s, domain, i)
  }

  /** The end of the run of lowercase letters starting at `from`. */
  function LettersEnd(s: string, from: nat): (end: nat)
    requires from <= |s|
    ensures from <= end <= |s|
    ensures forall k :: from <= k < end ==> IsLetter(s[k])
    ensures end < |s| ==> !IsLetter(s[end])
    decreases |s| - from
  {
    if from < |s| && IsLetter(s[from]) then LettersEnd(s, from + 1) else from
  }

  /** A dot between a label and a listed top-level domain that ends the word. */
  predicate DomainAt(s: string, dot: int) {
    && 0 < dot < |s| && s[dot] == '.' && IsASCIIAlnum(s[dot - 1])
    && var end := LettersEnd(s, dot + 1);
       s[dot + 1..end] in LINK_TLDS && (end == |s| || !IsDigit(s[end]))
  }

  predicate HasDomain(s: string) {
    exists dot :: 0 <= dot < |s| && DomainAt(s, dot)
  }

  predicate SlotNumberAt(host: string, i: int) {
    OccursAt(host, "slot", i) && i + 4 < |host| && IsDigit(host[i + 4])
  }

  predicate HasSlotNumber(host: string) {
    exists i :: 0 <= i <= |host| && SlotNumberAt(host, i)
  }

  // ----- The scanners, which jump past a whole match -----

  lemma NeedlesAreBorderFree()
    ensures BorderFree("www.") && BorderFree("slot") && BorderFree("://")
  {
    assert "www." == "www" + ['.'];
    BorderFreeIfLastIsNew("www", '.');
    assert "slot" == "slo" + ['t'];
    BorderFreeIfLastIsNew("slo", 't');
    assert "://"[1..] == "//" && "://"[..2] == ":/" && "://"[2..] == "/" && "://"[..1] == ":";
  }

  method ScanWWWHost(lower: string) returns (found: bool)
    ensures found == HasWWW(lower)
  {
    NeedlesAreBorderFree();
    var offset := 0;
    while true
      invariant 0 <= offset <= |lower|
      invariant forall i :: 0 <= i < offset ==> !WWWAt(lower, i)
      decreases |lower| - offset
    {
      var start := Index(lower, "www.", offset);
      if start < 0 {
        return false;
      }
      if start == 0 || !IsASCIIAlnum(lower[start - 1]) {
        assert WWWAt(lower, start);
        return true;
      }
      forall i | offset <= i < start + 4 ensures !WWWAt(lower, i) {
        if i > start {
          NoOverlap(lower, "www.", start, i);
        }
      }
      offset := start + 4;
    }
  }

  /** Exact for every domain whose needle is border-free; never a false alarm. */
  method ContainsBareLink(lower: string, domain: string) returns (found: bool)
    ensures found ==> HasBareLink(lower, domain)
    ensures BorderFree(domain + "/") ==> found == HasBareLink(lower, domain)
  {
    var needle := domain + "/";
    var offset := 0;
    while true
      invariant 0 <= offset <= |lower|
      invariant BorderFree(needle) ==> forall i :: 0 <= i < offset ==> !BareLinkAt(lower, domain, i)
      decreases |lower| - offset
    {
      var start := Index(lower, needle, offset);
      if start < 0 {
        return false;
      }
      if start == 0 || IsHostTerminator(lower[start - 1]) {
        assert BareLinkAt(lower, domain, start);
        return true;
      }
      if BorderFree(needle) {
        forall i | offset <= i < start + |needle| ensures !BareLinkAt(lower, domain, i) {
          if i > start {
            NoOverlap(lower, needle, start, i);
          }
        }
      }
      offset := start + |needle|;
    }
  }

  /** A domain without a slash, as all listed ones are, is always scanned exactly. */
  lemma DomainsAreBorderFree(domain: string)
    requires '/' !in domain
    ensures BorderFree(domain + "/")
  {
    BorderFreeIfLastIsNew(domain, '/');
  }

  lemma NoDotNoDomain(s: string, from: nat, to: nat)
    requires from <= to <= |s| && forall k :: from <= k < to ==> !OccursAt(s, ".", k)
    ensures forall i :: from <= i < to ==> !DomainAt(s, i)
  {
    forall i | from <= i < to ensures !DomainAt(s, i) {
      assert s[i] == '.' ==> OccursAt(s, ".", i);
    }
  }

  method ScanBareDomain(lower: string) returns (found: bool)
    ensures found == HasDomain(lower)
  {
    var offset := 0;
    while true
      invariant 0 <= offset <= |lower|
      invariant forall i :: 0 <= i < offset ==> !DomainAt(lower, i)
      decreases |lower| - offset
    {
      var dot := Index(lower, ".", offset);
      NoDotNoDomain(lower, offset, if dot < 0 then |lower| else dot);
      if dot < 0 {
        return false;
      }
      assert lower[dot] == '.';
      offset := dot + 1;
      if dot == 0 || !IsASCIIAlnum(lower[dot - 1]) {
        continue;
      }
      var end := ScanLetters(lower, dot + 1);
      if lower[dot + 1..end] !in LINK_TLDS {
        continue;
      }
      if end < |lower| && IsDigit(lower[end]) {
        continue;
      }
      assert DomainAt(lower, dot);
      return true;
    }
  }

  /** The inner loop of the domain scanner. */
  method ScanLetters(lower: string, from: nat) returns (end: nat)
    requires from <= |lower|
    ensures end == LettersEnd(lower, from)
  {
    end := from;
    while end < |lower| && IsLetter(lower[end])
      invariant from <= end <= |lower| && LettersEnd(lower, from) == LettersEnd(lower, end)
    {
      end := end + 1;
    }
  }

  method ScanSlotNumber(host: string) returns (found: bool)
    ensures found == HasSlotNumber(host)
  {
    NeedlesAreBorderFree();
    var offset := 0;
    while true
      invariant 0 <= offset <= |host|
      invariant forall i :: 0 <= i < offset ==> !SlotNumberAt(host, i)
      decreases |host| - offset
    {
      var start := Index(host, "slot", offset);
      if start < 0 {
        return false;
      }
      if start + 4 < |host| && IsDigit(host[start + 4]) {
        assert SlotNumberAt(host, start);
        return true;
      }
      forall i | offset <= i < start + 4 ensures !SlotNumberAt(host, i) {
        if i > start {
          NoOverlap(host, "slot", start, i);
        }
      }
      offset := start + 4;
    }
  }

  // ----- Hosts of http(s) URLs -----

  function HostEnd(s: string, from: nat): (end: nat)
    requires from <= |s|
    ensures from <= end <= |s|
    ensures forall k :: from <= k < end ==> !IsHostTerminator(s[k])
    ensures end < |s| ==> IsHostTerminator(s[end])
    decreases |s| - from
  {
    if from < |s| && !IsHostTerminator(s[from]) then HostEnd(s, from + 1) else from
  }

  function TrimPrefix(s: string, prefix: string): string {
    if OccursAt(s, prefix, 0) then s[|prefix|..] else s
  }

  /** The host after the "://" at i, without "www.". */
  function HostAfter(s: string, i: nat): string
    requires i + 3 <= |s|
  {
    TrimPrefix(s[i + 3..HostEnd(s, i + 3)], "www.")
  }

  /** "://" at i with the whole text before it ending in http or https, and a
      host after it. */
  predicate UrlAt(s: string, i: int) {
    && OccursAt(s, "://", i) && (HasSuffix(s[..i], "http") || HasSuffix(s[..i], "https"))
    && HostAfter(s, i) != ""
  }

  /** The hosts of the URLs at or after p, in order. */
  function HostsFrom(s: string, p: nat): seq<string>
    requires p <= |s|
    decreases |s| - p
  {
    if p == |s| then []
    else (if UrlAt(s, p) then [HostAfter(s, p)] else []) + HostsFrom(s, p + 1)
  }

  lemma {:induction false} NoUrlBetween(s: string, p: nat, q: nat)
    requires p <= q <= |s| && forall i :: p <= i < q ==> !UrlAt(s, i)
    ensures HostsFrom(s, p) == HostsFrom(s, q)
    decreases q - p
  {
    if p < q {
      NoUrlBetween(s, p + 1, q);
    }
  }

  /** A suffix without slashes is decided by the piece after the last "://". */
  lemma SuffixOfPiece(s: string, offset: nat, i: nat, suffix: string)
    requires offset <= i <= |s| && '/' !in suffix && suffix != ""
    requires offset == 0 || s[offset - 1] == '/'
    ensures HasSuffix(s[offset..i], suffix) <==> HasSuffix(s[..i], suffix)
  {
    var n := |suffix|;
    if i - offset >= n {
      assert s[offset..i][i - offset - n..] == s[i - n..i] == s[..i][i - n..];
    } else if HasSuffix(s[..i], suffix) {
      OccursAcross(s[..i], suffix, i - n, offset - 1);
    }
  }

  /** From one "://" to the next. */
  lemma HostsStep(s: string, offset: nat, i: nat)
    requires offset <= i && OccursAt(s, "://", i)
    requires forall k :: offset <= k < i ==> !OccursAt(s, "://", k)
    ensures HostsFrom(s, offset) == (if UrlAt(s, i) then [HostAfter(s, i)] else []) + HostsFrom(s, i + 3)
  {
    NeedlesAreBorderFree();
    NoUrlBetween(s, offset, i);
    forall k | i < k < i + 3 ensures !UrlAt(s, k) {
      NoOverlap(s, "://", i, k);
    }
    NoUrlBetween(s, i + 1, i + 3);
  }

  /** The scanner sees only the piece since the last "://". */
  lemma PieceDecides(s: string, offset: nat, i: nat)
    requires offset <= i && OccursAt(s, "://", i) && (offset == 0 || s[offset - 1] == '/')
    ensures UrlAt(s, i) <==>
      (HasSuffix(s[offset..i], "http") || HasSuffix(s[offset..i], "https")) && HostAfter(s, i) != ""
    ensures s[i + 2] == '/'
  {
    SuffixOfPiece(s, offset, i, "http");
    SuffixOfPiece(s, offset, i, "https");
    OccursPointwise(s, "://", i);
  }

  lemma HostsAppend(hosts: seq<string>, host: string, rest: seq<string>)
    ensures hosts + ([host] + rest) == hosts + [host] + rest
    ensures hosts + ([] + rest) == hosts + rest
    ensures [] + hosts == hosts
  {
  }

  /** Taking the host at the next separator, or passing over it. */
  lemma HostTaken(s: string, offset: nat, i: nat, hosts: seq<string>)
    requires offset <= i && OccursAt(s, "://", i)
    requires forall k :: offset <= k < i ==> !OccursAt(s, "://", k)
    ensures var all := hosts + HostsFrom(s, offset);
      all == (if UrlAt(s, i) then hosts + [HostAfter(s, i)] else hosts) + HostsFrom(s, i + 3)
  {
    HostsStep(s, offset, i);
    HostsAppend(hosts, HostAfter(s, i), HostsFrom(s, i + 3));
  }

  lemma NoMoreHosts(s: string, offset: nat, hosts: seq<string>)
    requires offset <= |s| && forall k :: offset <= k ==> !OccursAt(s, "://", k)
    ensures hosts + HostsFrom(s, offset) == hosts
  {
    NoUrlBetween(s, offset, |s|);
    HostsAppend(hosts, "", []);
  }

  method LinkHosts(lower: string) returns (hosts: seq<string>)
    ensures hosts == HostsFrom(lower, 0)
  {
    hosts := [];
    var offset := 0;
    HostsAppend(HostsFrom(lower, 0), "", []);
    while true
      invariant 0 <= offset <= |lower|
      invariant offset == 0 || lower[offset - 1] == '/'
      invariant hosts + HostsFrom(lower, offset) == HostsFrom(lower, 0)
      decreases |lower| - offset
    {
      var i := Index(lower, "://", offset);
      if i < 0 {
        NoMoreHosts(lower, offset, hosts);
        return;
      }
      HostTaken(lower, offset, i, hosts);
      PieceDecides(lower, offset, i);
      var scheme := lower[offset..i];
      offset := i + 3;
      if !HasSuffix(scheme, "http") && !HasSuffix(scheme, "https") {
        continue;
      }
      var host := TrimPrefix(lower[offset..HostEnd(lower, offset)], "www.");
      if host != "" {
        hosts := hosts + [host];
      }
    }
  }

  /** A URL at i, with this host. */
  predicate HostAt(s: string, i: int, host: string) {
    0 <= i < |s| && UrlAt(s, i) && HostAfter(s, i) == host
  }

  lemma InEither<T>(x: T, a: seq<T>, b: seq<T>)
    ensures x in a + b <==> x in a || x in b
  {
  }

  lemma FirstHost(s: string, p: nat, host: string)
    requires p < |s|
    ensures host in HostsFrom(s, p) <==> HostAt(s, p, host) || host in HostsFrom(s, p + 1)
  {
    InEither(host, if UrlAt(s, p) then [HostAfter(s, p)] else [], HostsFrom(s, p + 1));
  }

  ghost predicate HostFrom(s: string, p: nat, host: string) {
    exists i :: p <= i < |s| && HostAt(s, i, host)
  }

  lemma HostFromNext(s: string, p: nat, host: string)
    requires p < |s|
    ensures HostFrom(s, p, host) <==> HostAt(s, p, host) || HostFrom(s, p + 1, host)
  {
  }

  /** The list holds exactly the hosts of the URLs in the text. */
  lemma {:induction false} HostsAreListed(s: string, p: nat, host: string)
    requires p <= |s|
    ensures host in HostsFrom(s, p) <==> HostFrom(s, p, host)
    decreases |s| - p
  {
    if p < |s| {
      HostsAreListed(s, p + 1, host);
      FirstHost(s, p, host);
      HostFromNext(s, p, host);
    }
  }

  // ----- As written -----

  predicate IsHostText(host: string) {
    forall k :: 0 <= k < |host| ==> !IsHostTerminator(host[k])
  }

  lemma HostEndAt(before: string, host: string, after: string)
    requires IsHostText(host) && (after == "" || IsHostTerminator(after[0]))
    ensures HostEnd(before + host + after, |before|) == |before| + |host|
  {
    var s := before + host + after;
    assert forall k :: 0 <= k < |host| ==> s[|before| + k] == host[k];
    assert after != "" ==> s[|before| + |host|] == after[0];
  }

  /** A URL with its host, a port or a path, and any text around it. */
  lemma WrittenUrl(before: string, host: string, after: string)
    requires IsHostText(host) && (after == "" || IsHostTerminator(after[0]))
    ensures var s, name := before + "://" + host + after, if "www." <= host then host[4..] else host;
      && HostAfter(s, |before|) == name
      && (UrlAt(s, |before|) <==> name != "" && (HasSuffix(before, "http") || HasSuffix(before, "https")))
  {
    var s := before + "://" + host + after;
    HostEndAt(before + "://", host, after);
    assert s[|before| + 3..|before| + 3 + |host|] == host;
    assert OccursAt(host, "www.", 0) <==> "www." <= host;
    assert s[..|before|] == before && s[|before|..|before| + 3] == "://";
  }

  /** A dot with letters after it, in any text: a link iff a label precedes it, the
      letters are a listed top-level domain, and no digit follows. */
  lemma WrittenDomain(before: string, tld: string, after: string)
    requires (forall k :: 0 <= k < |tld| ==> IsLetter(tld[k])) && (after == "" || !IsLetter(after[0]))
    ensures DomainAt(before + "." + tld + after, |before|) <==>
      (before != "" && IsASCIIAlnum(before[|before| - 1]) && tld in LINK_TLDS && (after == "" || !IsDigit(after[0])))
  {
    var s := before + "." + tld + after;
    var from := |before| + 1;
    var end := LettersEnd(s, from);
    assert forall k :: 0 <= k < |tld| ==> s[from + k] == tld[k];
    assert after != "" ==> s[from + |tld|] == after[0];
    assert end == from + |tld| && s[from..end] == tld;
    assert s[|before|] == '.' && (before != "" ==> s[|before| - 1] == before[|before| - 1]);
  }
}
