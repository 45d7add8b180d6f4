/** When printing a parsed password hash gives back its text, and what the parser
    reads besides (pkg/password/password.go). */
module PasswordText {
  import opened Wrappers
  import opened PasswordHash

  // ----- strings.Split, the other way -----

  lemma {:induction false} JoinUndoesSplit(s: string, sep: char)
    ensures Split(s, sep) != [] && Joined(Split(s, sep), sep) == s
    ensures forall k :: 0 <= k < |Split(s, sep)| ==> sep !in Split(s, sep)[k]
    decreases |s|
  {
    var i := Find(s, sep);
    if i < |s| {
      JoinUndoesSplit(s[i + 1..], sep);
      JoinCons(s[..i], Split(s[i + 1..], sep), sep);
      assert s == s[..i] + [sep] + s[i + 1..];
    }
  }

  /** A text is the printed one iff it has the printed parts. */
  lemma PrintedIffParts(h: string, params: Params)
    requires InRange(params.costs)
    ensures Print(params) == h <==> Split(h, '$') == PrintedParts(params)
  {
    JoinUndoesSplit(h, '$');
    CostsReadBack(params.costs);
    NoDollarInBase64(params.salt);
    NoDollarInBase64(params.key);
    SplitUndoesJoin(PrintedParts(params), '$');
  }

  // ----- Numbers without leading zeros -----

  lemma {:induction false} DigitsArePositive(s: string)
    requires s != "" && AllDigits(s) && s[0] != '0'
    ensures DigitsValue(s) > 0
  {
    if |s| > 1 {
      DigitsArePositive(s[..|s| - 1]);
    }
  }

  lemma DecimalSnoc(n: nat, digit: nat)
    requires 0 < n && digit < 10
    ensures Decimal(n * 10 + digit) == Decimal(n) + [('0' as int + digit) as char]
  {
    assert (n * 10 + digit) / 10 == n && (n * 10 + digit) % 10 == digit;
  }

  lemma {:induction false} DecimalOfDigits(s: string)
    requires s != "" && AllDigits(s) && s[0] != '0'
    ensures Decimal(DigitsValue(s)) == s
  {
    var init, last := s[..|s| - 1], s[|s| - 1];
    assert s == init + [last];
    if init == "" {
      assert DigitsValue(s) == last as int - '0' as int;
    } else {
      DecimalOfDigits(init);
      DigitsArePositive(init);
      DecimalSnoc(DigitsValue(init), last as int - '0' as int);
    }
  }

  lemma {:induction false} DecimalLeads(n: nat)
    requires n > 0
    ensures Decimal(n) != "" && Decimal(n)[0] != '0'
  {
    if n >= 10 {
      DecimalLeads(n / 10);
    }
  }

  // ----- The cost segment -----

  /** `name=` and a number that does not start with a zero. */
  predicate Plain(subpart: string, name: char) {
    |subpart| > 2 && subpart[0] == name && subpart[1] == '=' && subpart[2] != '0'
  }

  predicate PlainCosts(segment: string) {
    var fields := Split(segment, ',');
    |fields| == 3 && Plain(fields[0], 'm') && Plain(fields[1], 't') && Plain(fields[2], 'p')
  }

  lemma PlainField(subpart: string, name: char, other: string, value: nat)
    requires name != '=' && Plain(subpart, name) && Sets(subpart, other, value)
    ensures other == [name] && subpart == [name] + "=" + Decimal(value)
  {
    assert Find(subpart, '=') == 1;
    assert subpart[..1] == [name];
    DecimalOfDigits(subpart[2..]);
    assert subpart == [name] + "=" + subpart[2..];
  }

  lemma PrintedIsPlain(name: char, value: nat)
    requires value > 0
    ensures Plain([name] + "=" + Decimal(value), name)
  {
    DecimalLeads(value);
  }

  lemma PrintedCostsArePlain(costs: Costs)
    requires InRange(costs)
    ensures PlainCosts(CostsText(costs))
  {
    DecimalSets("m", costs.memory);
    DecimalSets("t", costs.time);
    DecimalSets("p", costs.threads);
    var m, t, p :=
      "m" + "=" + Decimal(costs.memory), "t" + "=" + Decimal(costs.time), "p" + "=" + Decimal(costs.threads);
    SplitSegment(m, t, p);
    PrintedIsPlain('m', costs.memory);
    PrintedIsPlain('t', costs.time);
    PrintedIsPlain('p', costs.threads);
  }

  lemma ThreeFieldsJoined(segment: string, a: string, b: string, c: string)
    requires Split(segment, ',') == [a, b, c]
    ensures segment == Segment(a, b, c) && ',' !in a && ',' !in b && ',' !in c
  {
    JoinUndoesSplit(segment, ',');
    JoinThree(a, b, c, ',');
    assert ',' !in Split(segment, ',')[0] && ',' !in Split(segment, ',')[1] && ',' !in Split(segment, ',')[2];
  }

  /** Costs that were read are printed as they stood iff they stand in the order
      m, t, p and without leading zeros. */
  lemma CostsPrintedIff(segment: string, costs: Costs)
    requires ParseSegment(segment) == Some(costs)
    ensures InRange(costs)
    ensures segment == CostsText(costs) <==> PlainCosts(segment)
  {
    var fields := Split(segment, ',');
    var a, b, c := fields[0], fields[1], fields[2];
    assert fields == [a, b, c];
    ThreeFieldsJoined(segment, a, b, c);
    SegmentIff(a, b, c, costs);
    PrintedCostsArePlain(costs);
    if PlainCosts(segment) {
      PlainIsPrinted(a, b, c, costs);
    }
  }

  lemma PlainIsPrinted(a: string, b: string, c: string, costs: Costs)
    requires Plain(a, 'm') && Plain(b, 't') && Plain(c, 'p') && AssignInSomeOrder(a, b, c, costs)
    ensures Segment(a, b, c) == CostsText(costs)
  {
    forall other: string, value | Sets(a, other, value)
      ensures other == "m" && a == "m" + "=" + Decimal(value)
    {
      PlainField(a, 'm', other, value);
    }
    forall other: string, value | Sets(b, other, value)
      ensures other == "t" && b == "t" + "=" + Decimal(value)
    {
      PlainField(b, 't', other, value);
    }
    forall other: string, value | Sets(c, other, value)
      ensures other == "p" && c == "p" + "=" + Decimal(value)
    {
      PlainField(c, 'p', other, value);
    }
    assert Assign(a, b, c, costs);
  }

  // ----- The whole text -----

  /** No line ends, and no bits beyond the last byte. */
  predicate CanonicalBase64(s: string) {
    IsLetters(s) && LeftoverBitsAreZero(Values(s))
  }

  predicate Canonical(h: string) {
    var parts := Split(h, '$');
    && |parts| == 6 && parts[0] == "" && parts[2] == "v=19"
    && PlainCosts(parts[3]) && CanonicalBase64(parts[4]) && CanonicalBase64(parts[5])
  }

  /** Printing what was parsed gives back the text iff nothing precedes the first
      dollar sign, the version reads "v=19", the costs are in order without leading
      zeros, and the base64 is canonical. */
  lemma PrintUndoesParseIff(h: string)
    requires Parse(h).Ok?
    ensures Print(Parse(h).value) == h <==> Canonical(h)
  {
    var params, parts := Parse(h).value, Split(h, '$');
    CostsPrintedIff(parts[3], params.costs);
    PrintedIffParts(h, params);
    EncodeUndoesDecodeIff(parts[4]);
    EncodeUndoesDecodeIff(parts[5]);
    var printed := PrintedParts(params);
    assert parts[1] == printed[1];
    assert parts == printed <==>
      (parts[0] == printed[0] && parts[2] == printed[2] && parts[3] == printed[3] &&
       parts[4] == printed[4] && parts[5] == printed[5]);
  }

  // ----- Which current hashes can be compared -----

  lemma JoinedFirstTwo(parts: seq<string>)
    requires |parts| > 2
    ensures Joined(parts, '$') == parts[0] + "$" + (parts[1] + "$" + Joined(parts[2..], '$'))
  {
    JoinCons(parts[0], parts[1..], '$');
    JoinCons(parts[1], parts[2..], '$');
    assert [parts[0]] + parts[1..] == parts && [parts[1]] + parts[2..] == parts[1..];
  }

  lemma EmptyFirstStarts(h: string, rest: string)
    requires h == "" + "$" + ("argon2id" + "$" + rest)
    ensures "$argon2id$" <= h
  {
    assert h == "$argon2id$" + rest;
  }

  lemma ParsedStartsIff(h: string)
    requires Parse(h).Ok?
    ensures "$argon2id$" <= h <==> Split(h, '$')[0] == ""
  {
    var parts := Split(h, '$');
    if parts[0] == "" {
      JoinUndoesSplit(h, '$');
      JoinedFirstTwo(parts);
      EmptyFirstStarts(h, Joined(parts[2..], '$'));
    } else {
      assert h[..Find(h, '$')] == parts[0] && h[0] != '$';
    }
  }

  /** A hash that needs no rehash can be compared iff it starts with "$argon2id$";
      otherwise every password is answered with an error. */
  lemma CurrentComparesIff(
    derive: Derive, bcrypt: (string, string) -> Result<bool, Error>, h: string, password: string)
    requires !NeedsRehash(h)
    ensures Compare(derive, bcrypt, h, password).Ok? <==> "$argon2id$" <= h
    ensures "$argon2id$" <= h <==> Split(h, '$')[0] == ""
    ensures Compare(derive, bcrypt, h, password).Err? ==> Compare(derive, bcrypt, h, password) == Err(InvalidHash)
  {
    ParsedStartsIff(h);
  }

  // ----- Inputs -----

  function SixParts(first: string, version: string, costs: string, salt: string, key: string): string {
    Joined([first, "argon2id", version, costs, salt, key], '$')
  }

  /** Each part may be spelled in any way that reads the same. */
  lemma PartsAreRead(first: string, version: string, costs: string, salt: string, key: string, params: Params)
    requires '$' !in first && '$' !in version && '$' !in costs && '$' !in salt && '$' !in key
    requires ScanVersion(version) == Some(19) && ParseSegment(costs) == Some(params.costs)
    requires Decode(salt) == Some(params.salt) && Decode(key) == Some(params.key)
    ensures var h := SixParts(first, version, costs, salt, key);
      && Parse(h) == Ok(params)
      && Split(h, '$') == [first, "argon2id", version, costs, salt, key]
  {
    SplitUndoesJoin([first, "argon2id", version, costs, salt, key], '$');
  }

  /** Text before the first dollar sign is not looked at, so such a hash can be
      current and yet refuse every password. */
  lemma JunkIsCurrent(
    first: string, salt: seq<byte>, key: seq<byte>,
    derive: Derive, bcrypt: (string, string) -> Result<bool, Error>, password: string)
    requires first != "" && '$' !in first && |key| == DEFAULT_KEY_LEN
    ensures var h := SixParts(first, "v=19", CostsText(DEFAULTS), Encode(salt), Encode(key));
      && Parse(h) == Ok(Params(DEFAULTS, salt, key)) && Print(Params(DEFAULTS, salt, key)) != h
      && !NeedsRehash(h) && Compare(derive, bcrypt, h, password) == Err(InvalidHash)
  {
    var h := SixParts(first, "v=19", CostsText(DEFAULTS), Encode(salt), Encode(key));
    CostsReadBack(DEFAULTS);
    DecodeUndoesEncode(salt);
    DecodeUndoesEncode(key);
    NoDollarInBase64(salt);
    NoDollarInBase64(key);
    Version19();
    PartsAreRead(first, "v=19", CostsText(DEFAULTS), Encode(salt), Encode(key), Params(DEFAULTS, salt, key));
    PrintUndoesParseIff(h);
    CurrentIff(h);
    CurrentComparesIff(derive, bcrypt, h, password);
  }

  /** Blanks, a sign, leading zeros and trailing text in the version. */
  lemma LooseVersion()
    ensures ScanVersion("v= +019x") == Some(19)
  {
    var s := "v= +019x";
    assert s[2..] == " +019x" && " +019x"[1..] == "+019x" && "+019x"[1..] == "019x";
    assert SkipSpace("+019x") == Some("+019x");
    assert "019x"[1..] == "19x" && "19x"[1..] == "9x" && "9x"[1..] == "x";
    assert DigitsEnd("x") == 0;
    assert DigitsEnd("9x") == 1;
    assert DigitsEnd("19x") == 2;
    assert "019x"[..3] == "019" && "019"[..2] == "01" && "01"[..1] == "0" && "0"[..0] == "";
    assert DigitsValue("0") == 0;
    assert DigitsValue("01") == 1;
  }

  lemma {:induction false} LeadingZero(digits: string)
    requires AllDigits(digits)
    ensures AllDigits("0" + digits) && DigitsValue("0" + digits) == DigitsValue(digits)
  {
    if digits == "" {
      assert "0" + digits == "0" && "0"[..0] == "";
    } else {
      var init, last := digits[..|digits| - 1], digits[|digits| - 1];
      LeadingZero(init);
      var longer := "0" + digits;
      assert longer[..|longer| - 1] == "0" + init && longer[|longer| - 1] == last;
    }
  }

  lemma ZeroSets(name: string, n: nat)
    requires |name| == 1 && name[0] !in {'=', ',', '$'} && n < 0x1_0000_0000
    ensures Sets(name + "=" + ("0" + Decimal(n)), name, n)
    ensures forall c :: c in name + "=" + ("0" + Decimal(n)) ==> c != ',' && c != '$'
  {
    var digits := "0" + Decimal(n);
    DecimalValue(n);
    LeadingZero(Decimal(n));
    FindAfter(name, '=', digits);
    var s := name + "=" + digits;
    assert s[..1] == name && s[2..] == digits;
  }

  lemma NotPlain(a: string, b: string, c: string)
    requires ',' !in a && ',' !in b && ',' !in c && !Plain(a, 'm')
    ensures !PlainCosts(Segment(a, b, c))
  {
    SplitSegment(a, b, c);
  }

  /** Fields in another order, for any costs. */
  lemma LooseOrder(costs: Costs) returns (segment: string)
    requires InRange(costs)
    ensures ParseSegment(segment) == Some(costs) && !PlainCosts(segment) && '$' !in segment
  {
    var m, t, p :=
      "m" + "=" + Decimal(costs.memory), "t" + "=" + Decimal(costs.time), "p" + "=" + Decimal(costs.threads);
    DecimalSets("m", costs.memory);
    DecimalSets("t", costs.time);
    DecimalSets("p", costs.threads);
    CostsReadBack(costs);
    OrderDoesNotMatter(m, t, p);
    segment := Segment(t, m, p);
    NotPlain(t, m, p);
    SegmentHasNoDollar(t, m, p);
  }

  /** A leading zero, for any costs. */
  lemma LooseNumber(costs: Costs) returns (segment: string)
    requires InRange(costs)
    ensures ParseSegment(segment) == Some(costs) && !PlainCosts(segment) && '$' !in segment
  {
    var m, t, p :=
      "m" + "=" + ("0" + Decimal(costs.memory)), "t" + "=" + Decimal(costs.time), "p" + "=" + Decimal(costs.threads);
    ZeroSets("m", costs.memory);
    DecimalSets("t", costs.time);
    DecimalSets("p", costs.threads);
    ReadBack(m, t, p, costs);
    segment := Segment(m, t, p);
    NotPlain(m, t, p);
    SegmentHasNoDollar(m, t, p);
  }

  lemma {:induction false} LineEndIsSkipped(s: string)
    ensures NoLineEnds(s + "\n") == NoLineEnds(s)
  {
    if s == "" {
      assert s + "\n" == "\n" && "\n"[1..] == "";
    } else {
      LineEndIsSkipped(s[1..]);
      assert (s + "\n")[1..] == s[1..] + "\n";
    }
  }

  /** A line end after any text of base64. */
  lemma LooseLineEnd(b: seq<byte>)
    ensures Decode(Encode(b) + "\n") == Some(b) && '$' !in Encode(b) + "\n"
  {
    LineEndIsSkipped(Encode(b));
    DecodeUndoesEncode(b);
    NoDollarInBase64(b);
  }

  /** A bit beyond the last byte: the printed text has a zero there. */
  function LeftoverText(x: byte): string {
    [Letter(x / 4), Letter(x % 4 * 16 + 1)]
  }

  lemma LooseBits(x: byte)
    ensures Decode(LeftoverText(x)) == Some([x]) && Encode([x]) != LeftoverText(x) && '$' !in LeftoverText(x)
  {
    var a: sextet, b: sextet := x / 4, x % 4 * 16 + 1;
    var text := LeftoverText(x);
    LetterSextet(a);
    LetterSextet(b);
    assert IsLetters(text) && Values(text) == [a, b];
    LettersHaveNoLineEnds(text);
    ShortBytes(Values(text));
    assert Byte0(a, b) == x;
    EncodeUndoesDecodeIff(text);
    assert b % 16 == 1;
  }

  lemma LooseHash(version: string, costs: string, salt: string, key: string, params: Params) returns (h: string)
    requires '$' !in version && '$' !in costs && '$' !in salt && '$' !in key
    requires ScanVersion(version) == Some(19) && ParseSegment(costs) == Some(params.costs)
    requires Decode(salt) == Some(params.salt) && Decode(key) == Some(params.key)
    requires version != "v=19" || !PlainCosts(costs) || Encode(params.salt) != salt || Encode(params.key) != key
    ensures Parse(h) == Ok(params) && Print(params) != h
    ensures Split(h, '$') == ["", "argon2id", version, costs, salt, key]
  {
    h := SixParts("", version, costs, salt, key);
    PartsAreRead("", version, costs, salt, key, params);
    PrintUndoesParseIff(h);
    EncodeUndoesDecodeIff(salt);
    EncodeUndoesDecodeIff(key);
  }

  /** Whatever was hashed, each looseness gives a text that is read as the same hash
      but is not the printed one. */
  lemma LooseVersionHash(params: Params) returns (h: string)
    requires InRange(params.costs)
    ensures Parse(h) == Ok(params) && Print(params) != h
    ensures |Split(h, '$')| == 6 && Split(h, '$')[2] == "v= +019x"
  {
    LooseVersion();
    CostsReadBack(params.costs);
    DecodeUndoesEncode(params.salt);
    DecodeUndoesEncode(params.key);
    NoDollarInBase64(params.salt);
    NoDollarInBase64(params.key);
    h := LooseHash("v= +019x", CostsText(params.costs), Encode(params.salt), Encode(params.key), params);
  }

  lemma LooseCostsHash(params: Params, zero: bool) returns (h: string)
    requires InRange(params.costs)
    ensures Parse(h) == Ok(params) && Print(params) != h
    ensures |Split(h, '$')| == 6 && !PlainCosts(Split(h, '$')[3])
  {
    var segment;
    if zero {
      segment := LooseNumber(params.costs);
    } else {
      segment := LooseOrder(params.costs);
    }
    Version19();
    DecodeUndoesEncode(params.salt);
    DecodeUndoesEncode(params.key);
    NoDollarInBase64(params.salt);
    NoDollarInBase64(params.key);
    h := LooseHash("v=19", segment, Encode(params.salt), Encode(params.key), params);
  }

  lemma LineEndHash(params: Params) returns (h: string)
    requires InRange(params.costs)
    ensures Parse(h) == Ok(params) && Print(params) != h
    ensures |Split(h, '$')| == 6 && Split(h, '$')[4] == Encode(params.salt) + "\n"
  {
    LooseLineEnd(params.salt);
    Version19();
    CostsReadBack(params.costs);
    DecodeUndoesEncode(params.key);
    NoDollarInBase64(params.key);
    h := LooseHash("v=19", CostsText(params.costs), Encode(params.salt) + "\n", Encode(params.key), params);
  }

  lemma LeftoverBitsHash(costs: Costs, x: byte, key: seq<byte>) returns (h: string)
    requires InRange(costs)
    ensures Parse(h) == Ok(Params(costs, [x], key)) && Print(Params(costs, [x], key)) != h
    ensures |Split(h, '$')| == 6 && Split(h, '$')[4] == LeftoverText(x)
  {
    LooseBits(x);
    Version19();
    CostsReadBack(costs);
    DecodeUndoesEncode(key);
    NoDollarInBase64(key);
    h := LooseHash("v=19", CostsText(costs), LeftoverText(x), Encode(key), Params(costs, [x], key));
  }
}
