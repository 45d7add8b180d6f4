/** Which texts the parser of password hashes takes, which it refuses and with which
    error (pkg/password/password.go). */
module PasswordRefusal {
  import opened Wrappers
  import TextFold
  import opened PasswordHash
  import opened PasswordText
  import opened Base64Text

  // ----- The version: "v=", blanks, a sign, digits, anything -----

  predicate Blanks(s: string) {
    forall i :: 0 <= i < |s| ==> TextFold.IsSpace(s[i]) && s[i] != '\n'
  }

  function Signed(sign: string, digits: string): int
    requires AllDigits(digits)
  {
    var value: int := DigitsValue(digits);
    if sign == "-" then -value else value
  }

  predicate VersionParts(text: string, blanks: string, sign: string, digits: string, rest: string, value: int) {
    && text == "v=" + (blanks + (sign + (digits + rest)))
    && Blanks(blanks) && sign in {"", "+", "-"} && digits != "" && AllDigits(digits)
    && (rest == "" || !IsDigit(rest[0]))
    && value == Signed(sign, digits)
    && -0x8000_0000_0000_0000 <= value < 0x8000_0000_0000_0000
  }

  ghost predicate ReadsVersion(text: string, value: int) {
    exists blanks, sign, digits, rest :: VersionParts(text, blanks, sign, digits, rest, value)
  }

  lemma {:induction false} SkipsBlanks(blanks: string, tail: string)
    requires Blanks(blanks) && tail != "" && !TextFold.IsSpace(tail[0])
    ensures SkipSpace(blanks + tail) == Some(tail)
  {
    if blanks == "" {
      assert blanks + tail == tail;
    } else {
      SkipsBlanks(blanks[1..], tail);
      assert (blanks + tail)[1..] == blanks[1..] + tail;
    }
  }

  lemma {:induction false} SkippedBlanks(s: string) returns (blanks: string)
    requires SkipSpace(s).Some?
    ensures Blanks(blanks) && s == blanks + SkipSpace(s).value
  {
    if s == "" || !TextFold.IsSpace(s[0]) {
      blanks := "";
    } else {
      var rest := SkippedBlanks(s[1..]);
      blanks := [s[0]] + rest;
      assert s == [s[0]] + s[1..];
    }
  }

  lemma {:induction false} DigitsEndAt(digits: string, rest: string)
    requires AllDigits(digits) && (rest == "" || !IsDigit(rest[0]))
    ensures DigitsEnd(digits + rest) == |digits|
  {
    if digits == "" {
      assert digits + rest == rest;
    } else {
      DigitsEndAt(digits[1..], rest);
      assert (digits + rest)[1..] == digits[1..] + rest;
    }
  }

  /** What is read of a number, from its sign on. */
  function ScanNumber(s: string): Option<int> {
    var negative := s != "" && s[0] == '-';
    var digits := if s != "" && s[0] in {'+', '-'} then s[1..] else s;
    var end := DigitsEnd(digits);
    var value: int := DigitsValue(digits[..end]);
    if end == 0 then None
    else if negative then (if value > 0x8000_0000_0000_0000 then None else Some(-value))
    else if value >= 0x8000_0000_0000_0000 then None
    else Some(value)
  }

  lemma ScanVersionSteps(s: string)
    ensures ScanVersion(s) ==
      if |s| < 2 || s[..2] != "v=" || SkipSpace(s[2..]).None? then None else ScanNumber(SkipSpace(s[2..]).value)
  {
  }

  lemma SignedNumber(sign: string, digits: string, rest: string)
    requires sign in {"", "+", "-"} && digits != "" && AllDigits(digits) && (rest == "" || !IsDigit(rest[0]))
    ensures var value := Signed(sign, digits);
      ScanNumber(sign + (digits + rest)) ==
        if -0x8000_0000_0000_0000 <= value < 0x8000_0000_0000_0000 then Some(value) else None
  {
    var s := sign + (digits + rest);
    DigitsEndAt(digits, rest);
    assert (digits + rest)[..|digits|] == digits;
    if sign == "" {
      assert s == digits + rest && IsDigit(s[0]);
    } else {
      assert s[1..] == digits + rest && s[0] == sign[0];
    }
  }

  lemma NumberIsSigned(s: string, value: int) returns (sign: string, digits: string, rest: string)
    requires ScanNumber(s) == Some(value)
    ensures s == sign + (digits + rest)
    ensures sign in {"", "+", "-"} && digits != "" && AllDigits(digits) && (rest == "" || !IsDigit(rest[0]))
    ensures value == Signed(sign, digits)
    ensures -0x8000_0000_0000_0000 <= value < 0x8000_0000_0000_0000
  {
    var signed := s != "" && s[0] in {'+', '-'};
    sign := if signed then [s[0]] else "";
    var unsigned := if signed then s[1..] else s;
    var end := DigitsEnd(unsigned);
    digits, rest := unsigned[..end], unsigned[end..];
    assert unsigned == digits + rest;
  }

  lemma AfterPrefix(tail: string)
    ensures ("v=" + tail)[..2] == "v=" && ("v=" + tail)[2..] == tail
  {
  }

  /** The version is read as a number iff the text is "v=", blanks without a line
      feed, a sign or none, and digits, up to anything that is not a digit. */
  lemma VersionIff(text: string, value: int)
    ensures ScanVersion(text) == Some(value) <==> ReadsVersion(text, value)
  {
    ScanVersionSteps(text);
    if ReadsVersion(text, value) {
      var blanks, sign, digits, rest :| VersionParts(text, blanks, sign, digits, rest, value);
      var number := sign + (digits + rest);
      AfterPrefix(blanks + number);
      assert number[0] == if sign == "" then digits[0] else sign[0];
      SkipsBlanks(blanks, number);
      SignedNumber(sign, digits, rest);
    }
    if ScanVersion(text) == Some(value) {
      var blanks := SkippedBlanks(text[2..]);
      var sign, digits, rest := NumberIsSigned(SkipSpace(text[2..]).value, value);
      assert text == text[..2] + text[2..];
      assert VersionParts(text, blanks, sign, digits, rest, value);
    }
  }

  // ----- The costs -----

  ghost predicate ReadsCosts(segment: string, costs: Costs) {
    exists a, b, c :: CostsParts(segment, a, b, c, costs)
  }

  predicate CostsParts(segment: string, a: string, b: string, c: string, costs: Costs) {
    && segment == Segment(a, b, c) && ',' !in a && ',' !in b && ',' !in c
    && InRange(costs) && AssignInSomeOrder(a, b, c, costs)
  }

  lemma CostsIff(segment: string, costs: Costs)
    ensures ParseSegment(segment) == Some(costs) <==> ReadsCosts(segment, costs)
  {
    if ReadsCosts(segment, costs) {
      var a, b, c :| CostsParts(segment, a, b, c, costs);
      SegmentIff(a, b, c, costs);
    }
    if ParseSegment(segment) == Some(costs) {
      var parts := Split(segment, ',');
      assert parts == [parts[0], parts[1], parts[2]];
      ThreeFieldsJoined(segment, parts[0], parts[1], parts[2]);
      SegmentIff(parts[0], parts[1], parts[2], costs);
      assert CostsParts(segment, parts[0], parts[1], parts[2], costs);
    }
  }

  // ----- Salt and key -----

  /** Letters of the alphabet and line ends; the letters are those of the bytes, but
      for leftover bits in the last. */
  predicate ReadsBase64(s: string, b: seq<byte>) {
    && (forall i :: 0 <= i < |s| ==> s[i] in ALPHABET || IsLineEnd(s[i]))
    && IsLetters(NoLineEnds(s)) && |NoLineEnds(s)| % 4 != 1
    && SameBits(Values(NoLineEnds(s)), Sextets(b))
  }

  lemma SextetsAreInjective(a: seq<byte>, b: seq<byte>)
    requires Sextets(a) == Sextets(b)
    ensures a == b
  {
    BytesUndoesSextets(a);
    BytesUndoesSextets(b);
  }

  lemma Base64Iff(s: string, b: seq<byte>)
    ensures Decode(s) == Some(b) <==> ReadsBase64(s, b)
  {
    DecodesIff(s);
    LettersAndLineEnds(s);
    if ReadsBase64(s, b) {
      SextetsAreInjective(Decode(s).value, b);
    }
  }

  // ----- The whole text -----

  /** A text that does not have six parts is refused. */
  lemma WrongNumberOfParts(parts: seq<string>)
    requires parts != [] && |parts| != 6 && forall i :: 0 <= i < |parts| ==> '$' !in parts[i]
    ensures Parse(Joined(parts, '$')) == Err(InvalidHash)
  {
    SplitUndoesJoin(parts, '$');
  }

  /** A text of six parts is read as these parameters iff the scheme is "argon2id", the
      version 19, and costs, salt and key read so. */
  lemma AcceptedIff(parts: seq<string>, params: Params)
    requires |parts| == 6 && forall i :: 0 <= i < |parts| ==> '$' !in parts[i]
    ensures Parse(Joined(parts, '$')) == Ok(params) <==>
      (parts[1] == "argon2id" && ReadsVersion(parts[2], 19) && ReadsCosts(parts[3], params.costs) &&
       ReadsBase64(parts[4], params.salt) && ReadsBase64(parts[5], params.key))
  {
    SplitUndoesJoin(parts, '$');
    VersionIff(parts[2], 19);
    CostsIff(parts[3], params.costs);
    Base64Iff(parts[4], params.salt);
    Base64Iff(parts[5], params.key);
  }

  /** Every other text gets the same error, but for one that has the scheme and reads as
      another version. */
  lemma IncompatibleIff(parts: seq<string>)
    requires |parts| == 6 && forall i :: 0 <= i < |parts| ==> '$' !in parts[i]
    ensures Parse(Joined(parts, '$')) == Err(IncompatibleVersion) <==>
      (parts[1] == "argon2id" && exists v :: v != 19 && ReadsVersion(parts[2], v))
  {
    SplitUndoesJoin(parts, '$');
    forall v ensures ScanVersion(parts[2]) == Some(v) <==> ReadsVersion(parts[2], v) {
      VersionIff(parts[2], v);
    }
  }
}
