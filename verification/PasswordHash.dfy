/** The password-hash text (pkg/password/password.go): printed by `Hash`, read
    back by `parseArgon2idHash`. Argon2, bcrypt and randomness are parameters. */
module PasswordHash {
  import opened Wrappers
  import TextFold

  const ARGON2_VERSION := 19
  const DEFAULT_MEMORY: nat := 65536
  const DEFAULT_TIME: nat := 1
  const DEFAULT_THREADS: nat := 4
  const DEFAULT_KEY_LEN: nat := 32

  type byte = x: int | 0 <= x < 256

  datatype Error = InvalidHash | IncompatibleVersion
  datatype Costs = Costs(memory: nat, time: nat, threads: nat)
  datatype Params = Params(costs: Costs, salt: seq<byte>, key: seq<byte>)

  // ----- strings.Split -----

  function Find(s: string, sep: char): (i: nat)
    ensures i <= |s| && (i < |s| ==> s[i] == sep) && forall k :: 0 <= k < i ==> s[k] != sep
  {
    if s == "" || s[0] == sep then 0 else 1 + Find(s[1..], sep)
  }

  function Split(s: string, sep: char): seq<string> {
    var i := Find(s, sep);
    if i == |s| then [s] else [s[..i]] + Split(s[i + 1..], sep)
  }

  function Joined(parts: seq<string>, sep: char): string {
    if parts == [] then ""
    else if |parts| == 1 then parts[0]
    else parts[0] + [sep] + Joined(parts[1..], sep)
  }

  lemma FindAfter(a: string, sep: char, b: string)
    requires sep !in a
    ensures Find(a + [sep] + b, sep) == |a|
  {
    var s := a + [sep] + b;
    assert s[|a|] == sep && forall k :: 0 <= k < |a| ==> s[k] == a[k];
  }

  lemma SplitFirst(a: string, sep: char, b: string)
    requires sep !in a
    ensures Split(a + [sep] + b, sep) == [a] + Split(b, sep)
  {
    var s := a + [sep] + b;
    FindAfter(a, sep, b);
    assert s[..|a|] == a && s[|a| + 1..] == b;
  }

  lemma HeadAndTail<T>(s: seq<T>)
    requires s != []
    ensures [s[0]] + s[1..] == s
  {
  }

  lemma {:induction false} SplitUndoesJoin(parts: seq<string>, sep: char)
    requires parts != [] && forall i :: 0 <= i < |parts| ==> sep !in parts[i]
    ensures Split(Joined(parts, sep), sep) == parts
  {
    if |parts| == 1 {
      assert Find(parts[0], sep) == |parts[0]|;
    } else {
      SplitUndoesJoin(parts[1..], sep);
      SplitFirst(parts[0], sep, Joined(parts[1..], sep));
      HeadAndTail(parts);
    }
  }

  // ----- Unpadded base64, sections 3.2 and 4 of RFC 4648 -----

  type sextet = v: int | 0 <= v < 64

  function Letter(v: sextet): char {
    if v < 26 then ('A' as int + v) as char
    else if v < 52 then ('a' as int + v - 26) as char
    else if v < 62 then ('0' as int + v - 52) as char
    else if v == 62 then '+' else '/'
  }

  function Sextet(c: char): Option<sextet> {
    if 'A' <= c <= 'Z' then Some(c as int - 'A' as int)
    else if 'a' <= c <= 'z' then Some(c as int - 'a' as int + 26)
    else if '0' <= c <= '9' then Some(c as int - '0' as int + 52)
    else if c == '+' then Some(62)
    else if c == '/' then Some(63)
    else None
  }

  predicate IsLetters(s: string) {
    forall i :: 0 <= i < |s| ==> Sextet(s[i]).Some?
  }

  /** Groups of three bytes as four sextets; a short last group is padded with zero bits. */
  function Sextets(b: seq<byte>): seq<sextet> {
    if |b| == 0 then []
    else if |b| == 1 then [b[0] / 4, b[0] % 4 * 16]
    else if |b| == 2 then [b[0] / 4, b[0] % 4 * 16 + b[1] / 16, b[1] % 16 * 4]
    else [b[0] / 4, b[0] % 4 * 16 + b[1] / 16, b[1] % 16 * 4 + b[2] / 64, b[2] % 64] + Sextets(b[3..])
  }

  function Byte0(v0: int, v1: int): byte
    requires 0 <= v0 < 64 && 0 <= v1 < 64
  {
    v0 * 4 + v1 / 16
  }

  function Byte1(v1: int, v2: int): byte
    requires 0 <= v1 < 64 && 0 <= v2 < 64
  {
    v1 % 16 * 16 + v2 / 4
  }

  function Byte2(v2: int, v3: int): byte
    requires 0 <= v2 < 64 && 0 <= v3 < 64
  {
    v2 % 4 * 64 + v3
  }

  /** A lone last sextet is an error; the bits a short last group leaves over are
      dropped without a look. */
  function Bytes(v: seq<sextet>): Option<seq<byte>> {
    if |v| == 0 then Some([])
    else if |v| == 1 then None
    else if |v| == 2 then Some([Byte0(v[0], v[1])])
    else if |v| == 3 then Some([Byte0(v[0], v[1]), Byte1(v[1], v[2])])
    else
      match Bytes(v[4..])
      case None => None
      case Some(rest) => Some([Byte0(v[0], v[1]), Byte1(v[1], v[2]), Byte2(v[2], v[3])] + rest)
  }

  function Encode(b: seq<byte>): string {
    var v := Sextets(b);
    seq(|v|, i requires 0 <= i < |v| => Letter(v[i]))
  }

  function Values(s: string): seq<sextet>
    requires IsLetters(s)
  {
    seq(|s|, i requires 0 <= i < |s| => Sextet(s[i]).value)
  }

  /** The decoder skips line ends anywhere. */
  function NoLineEnds(s: string): string {
    if s == "" then ""
    else (if s[0] in {'\r', '\n'} then "" else [s[0]]) + NoLineEnds(s[1..])
  }

  function Decode(s: string): Option<seq<byte>> {
    var letters := NoLineEnds(s);
    if IsLetters(letters) then Bytes(Values(letters)) else None
  }

  lemma LetterSextet(v: sextet)
    ensures Sextet(Letter(v)) == Some(v)
  {
  }

  lemma SextetLetter(c: char)
    requires Sextet(c).Some?
    ensures Letter(Sextet(c).value) == c
  {
  }

  lemma {:induction false} LettersHaveNoLineEnds(s: string)
    requires IsLetters(s)
    ensures NoLineEnds(s) == s
  {
    if s != "" {
      LettersHaveNoLineEnds(s[1..]);
    }
  }

  lemma EncodedLetters(b: seq<byte>)
    ensures IsLetters(Encode(b)) && Values(Encode(b)) == Sextets(b)
  {
    forall i | 0 <= i < |Encode(b)|
      ensures Sextet(Encode(b)[i]) == Some(Sextets(b)[i])
    {
      LetterSextet(Sextets(b)[i]);
    }
  }

  lemma FirstOfFour(b: seq<byte>)
    requires |b| >= 3
    ensures var v := Sextets(b);
      && |v| >= 4 && v[4..] == Sextets(b[3..])
      && Byte0(v[0], v[1]) == b[0] && Byte1(v[1], v[2]) == b[1] && Byte2(v[2], v[3]) == b[2]
  {
  }

  lemma {:induction false} BytesUndoesSextets(b: seq<byte>)
    ensures Bytes(Sextets(b)) == Some(b)
  {
    if |b| > 2 {
      BytesUndoesSextets(b[3..]);
      FirstOfFour(b);
      assert b == [b[0], b[1], b[2]] + b[3..];
    } else if |b| == 2 {
      assert b == [b[0], b[1]];
      assert Byte0(b[0] / 4, b[0] % 4 * 16 + b[1] / 16) == b[0];
      assert Byte1(b[0] % 4 * 16 + b[1] / 16, b[1] % 16 * 4) == b[1];
    } else if |b| == 1 {
      assert b == [b[0]];
      assert Byte0(b[0] / 4, b[0] % 4 * 16) == b[0];
    }
  }

  /** Decoding undoes encoding, for every byte string. */
  lemma DecodeUndoesEncode(b: seq<byte>)
    ensures Decode(Encode(b)) == Some(b)
  {
    EncodedLetters(b);
    LettersHaveNoLineEnds(Encode(b));
    BytesUndoesSextets(b);
  }

  /** The bits dropped by decoding are zero. */
  predicate LeftoverBitsAreZero(v: seq<sextet>) {
    && (|v| % 4 == 2 ==> v[|v| - 1] % 16 == 0)
    && (|v| % 4 == 3 ==> v[|v| - 1] % 4 == 0)
  }

  lemma FirstOfThree(v: seq<sextet>)
    requires |v| >= 4 && Bytes(v).Some?
    ensures var b := Bytes(v).value;
      && |b| >= 3 && Bytes(v[4..]) == Some(b[3..])
      && Sextets(b) == v[..4] + Sextets(b[3..])
  {
    var b := Bytes(v).value;
    assert b[3..] == Bytes(v[4..]).value;
    assert b[0] / 4 == v[0] && b[0] % 4 * 16 + b[1] / 16 == v[1];
    assert b[1] % 16 * 4 + b[2] / 64 == v[2] && b[2] % 64 == v[3];
  }

  lemma BytesTaken(v0: int, v1: int, v2: int)
    requires 0 <= v0 < 64 && 0 <= v1 < 64 && 0 <= v2 < 64
    ensures Byte0(v0, v1) / 4 == v0 && Byte0(v0, v1) % 4 == v1 / 16
    ensures Byte1(v1, v2) / 16 == v1 % 16 && Byte1(v1, v2) % 16 == v2 / 4
    ensures v1 / 16 * 16 + v1 % 16 == v1 && v2 / 4 * 4 + v2 % 4 == v2
  {
  }

  /** Sextets of short groups come back iff the dropped bits were zero. */
  lemma TwoSextets(v0: sextet, v1: sextet)
    ensures Sextets([Byte0(v0, v1)]) == [v0, v1] <==> v1 % 16 == 0
  {
    BytesTaken(v0, v1, 0);
    var s := Sextets([Byte0(v0, v1)]);
    assert |s| == 2 && s[0] == v0 && s[1] == Byte0(v0, v1) % 4 * 16;
    assert s == [v0, v1] <==> s[1] == v1;
  }

  lemma ThreeSextets(v0: sextet, v1: sextet, v2: sextet)
    ensures Sextets([Byte0(v0, v1), Byte1(v1, v2)]) == [v0, v1, v2] <==> v2 % 4 == 0
  {
    BytesTaken(v0, v1, v2);
    var s := Sextets([Byte0(v0, v1), Byte1(v1, v2)]);
    assert |s| == 3 && s[0] == v0 && s[1] == v1 && s[2] == Byte1(v1, v2) % 16 * 4;
    assert s == [v0, v1, v2] <==> s[2] == v2;
  }

  lemma ShortBytes(v: seq<sextet>)
    ensures |v| == 2 ==> v == [v[0], v[1]] && Bytes(v) == Some([Byte0(v[0], v[1])])
    ensures |v| == 3 ==> v == [v[0], v[1], v[2]] && Bytes(v) == Some([Byte0(v[0], v[1]), Byte1(v[1], v[2])])
  {
  }

  lemma ShortGroups(v: seq<sextet>, b: seq<byte>)
    requires |v| in {0, 2, 3} && Bytes(v) == Some(b)
    ensures Sextets(b) == v <==> LeftoverBitsAreZero(v)
  {
    ShortBytes(v);
    if |v| == 2 {
      TwoSextets(v[0], v[1]);
    } else if |v| == 3 {
      ThreeSextets(v[0], v[1], v[2]);
    }
  }

  lemma SameAfterFour(a: seq<sextet>, v: seq<sextet>, rest: seq<sextet>)
    requires |v| >= 4 && a == v[..4] + rest
    ensures a == v <==> rest == v[4..]
    ensures LeftoverBitsAreZero(v) <==> LeftoverBitsAreZero(v[4..])
  {
    assert a[4..] == rest;
    assert v == v[..4] + v[4..];
  }

  lemma {:induction false} SextetsUndoesBytesIff(v: seq<sextet>)
    requires Bytes(v).Some?
    ensures Sextets(Bytes(v).value) == v <==> LeftoverBitsAreZero(v)
    decreases |v|
  {
    if |v| < 4 {
      ShortGroups(v, Bytes(v).value);
    } else {
      FirstOfThree(v);
      SextetsUndoesBytesIff(v[4..]);
      SameAfterFour(Sextets(Bytes(v).value), v, Sextets(Bytes(v[4..]).value));
    }
  }

  /** One byte string has several texts; printing gives back the text that was
      read iff it holds no line ends and no leftover bits. */
  lemma EncodeUndoesDecodeIff(s: string)
    requires Decode(s).Some?
    ensures Encode(Decode(s).value) == s <==> IsLetters(s) && LeftoverBitsAreZero(Values(s))
  {
    var b := Decode(s).value;
    EncodedLetters(b);
    if IsLetters(s) {
      LettersHaveNoLineEnds(s);
      SextetsUndoesBytesIff(Values(s));
      forall i | 0 <= i < |s|
        ensures Letter(Values(s)[i]) == s[i]
      {
        SextetLetter(s[i]);
      }
      assert Sextets(b) == Values(s) ==> Encode(b) == s;
    }
  }

  // ----- Numbers -----

  predicate IsDigit(c: char) {
    '0' <= c <= '9'
  }

  predicate AllDigits(s: string) {
    forall i :: 0 <= i < |s| ==> IsDigit(s[i])
  }

  function DigitsValue(s: string): nat
    requires AllDigits(s)
  {
    if s == "" then 0 else DigitsValue(s[..|s| - 1]) * 10 + (s[|s| - 1] as int - '0' as int)
  }

  /** `%d` for a natural number. */
  function Decimal(n: nat): string {
    (if n < 10 then "" else Decimal(n / 10)) + [('0' as int + n % 10) as char]
  }

  /** `strconv.ParseUint(s, 10, 32)`. */
  function ParseUint32(s: string): Option<nat> {
    if s == "" || !AllDigits(s) || DigitsValue(s) >= 0x1_0000_0000 then None else Some(DigitsValue(s))
  }

  lemma {:induction false} DecimalValue(n: nat)
    ensures Decimal(n) != "" && AllDigits(Decimal(n)) && DigitsValue(Decimal(n)) == n
  {
    if n >= 10 {
      DecimalValue(n / 10);
    }
    var s := Decimal(n);
    assert s[..|s| - 1] == if n < 10 then "" else Decimal(n / 10);
  }

  // ----- fmt.Sscanf(s, "v=%d", &version) -----

  /** Leading blanks are skipped; a line feed among them is an error. */
  function SkipSpace(s: string): Option<string> {
    if s == "" then Some("")
    else if s[0] == '\n' then None
    else if TextFold.IsSpace(s[0]) then SkipSpace(s[1..])
    else Some(s)
  }

  function DigitsEnd(s: string): (i: nat)
    ensures i <= |s| && AllDigits(s[..i]) && (i < |s| ==> !IsDigit(s[i]))
  {
    if s == "" || !IsDigit(s[0]) then 0
    else
      var i := 1 + DigitsEnd(s[1..]);
      assert s[..i] == [s[0]] + s[1..][..i - 1];
      i
  }

  /** Text after the number is not looked at. */
  function ScanVersion(s: string): Option<int> {
    if |s| < 2 || s[..2] != "v=" then None
    else
      match SkipSpace(s[2..])
      case None => None
      case Some(rest) =>
        var negative := rest != "" && rest[0] == '-';
        var digits := if rest != "" && rest[0] in {'+', '-'} then rest[1..] else rest;
        var end := DigitsEnd(digits);
        var value: int := DigitsValue(digits[..end]);
        if end == 0 then None
        else if negative then (if value > 0x8000_0000_0000_0000 then None else Some(-value))
        else if value >= 0x8000_0000_0000_0000 then None
        else Some(value)
  }

  // ----- The cost segment -----

  /** One `name=value` of the segment, stored. */
  function Field(costs: Costs, subpart: string): Option<Costs> {
    var i := Find(subpart, '=');
    if i == |subpart| then None
    else
      var name := subpart[..i];
      match ParseUint32(subpart[i + 1..])
      case None => None
      case Some(value) =>
        if name == "m" then Some(costs.(memory := value))
        else if name == "t" then Some(costs.(time := value))
        else if name == "p" then (if value > 255 then None else Some(costs.(threads := value)))
        else None
  }

  function Fields(subparts: seq<string>): Option<Costs> {
    if subparts == [] then Some(Costs(0, 0, 0))
    else
      match Fields(subparts[..|subparts| - 1])
      case None => None
      case Some(costs) => Field(costs, subparts[|subparts| - 1])
  }

  function ParseSegment(segment: string): Option<Costs> {
    var subparts := Split(segment, ',');
    if |subparts| != 3 then None
    else
      match Fields(subparts)
      case None => None
      case Some(costs) =>
        if costs.memory == 0 || costs.time == 0 || costs.threads == 0 then None else Some(costs)
  }

  function Parse(hash: string): Result<Params, Error> {
    var parts := Split(hash, '$');
    if |parts| != 6 || parts[1] != "argon2id" then Err(InvalidHash)
    else
      match ScanVersion(parts[2])
      case None => Err(InvalidHash)
      case Some(version) =>
        if version != ARGON2_VERSION then Err(IncompatibleVersion)
        else
          var costs, salt, key := ParseSegment(parts[3]), Decode(parts[4]), Decode(parts[5]);
          if costs.None? || salt.None? || key.None? then Err(InvalidHash)
          else Ok(Params(costs.value, salt.value, key.value))
  }

  /** The loop over the fields. */
  method ParseCosts(segment: string) returns (costs: Option<Costs>)
    ensures costs == ParseSegment(segment)
  {
    var memory, time, threads := 0, 0, 0;
    var subparts := Split(segment, ',');
    if |subparts| != 3 {
      return None;
    }
    for k := 0 to 3
      invariant Fields(subparts[..k]) == Some(Costs(memory, time, threads))
    {
      assert subparts[..k + 1][..k] == subparts[..k];
      var subpart := subparts[k];
      if Field(Costs(memory, time, threads), subpart).None? {
        FieldsFail(subparts, k + 1);
      }
      var i := Find(subpart, '=');
      if i == |subpart| {
        return None;
      }
      var val := ParseUint32(subpart[i + 1..]);
      if val.None? {
        return None;
      }
      match subpart[..i] {
        case "m" => memory := val.value;
        case "t" => time := val.value;
        case "p" =>
          if val.value > 255 {
            return None;
          }
          threads := val.value;
        case _ => return None;
      }
    }
    assert subparts[..3] == subparts;
    if memory == 0 || time == 0 || threads == 0 {
      return None;
    }
    return Some(Costs(memory, time, threads));
  }

  method ParseArgon2idHash(hash: string) returns (r: Result<Params, Error>)
    ensures r == Parse(hash)
  {
    var parts := Split(hash, '$');
    if |parts| != 6 {
      return Err(InvalidHash);
    }
    if parts[1] != "argon2id" {
      return Err(InvalidHash);
    }
    var version := ScanVersion(parts[2]);
    if version.None? {
      return Err(InvalidHash);
    }
    if version.value != ARGON2_VERSION {
      return Err(IncompatibleVersion);
    }
    var costs := ParseCosts(parts[3]);
    if costs.None? {
      return Err(InvalidHash);
    }
    var salt := Decode(parts[4]);
    if salt.None? {
      return Err(InvalidHash);
    }
    var key := Decode(parts[5]);
    if key.None? {
      return Err(InvalidHash);
    }
    return Ok(Params(costs.value, salt.value, key.value));
  }

  lemma {:induction false} FieldsFail(subparts: seq<string>, k: nat)
    requires k <= |subparts| && Fields(subparts[..k]).None?
    ensures Fields(subparts).None?
    decreases |subparts| - k
  {
    if k == |subparts| {
      assert subparts[..k] == subparts;
    } else {
      assert subparts[..k + 1][..k] == subparts[..k];
      FieldsFail(subparts, k + 1);
    }
  }

  // ----- Each parameter is named exactly once, in any order -----

  predicate Sets(subpart: string, name: string, value: nat) {
    var i := Find(subpart, '=');
    i < |subpart| && subpart[..i] == name && ParseUint32(subpart[i + 1..]) == Some(value)
  }

  predicate InRange(costs: Costs) {
    0 < costs.memory < 0x1_0000_0000 && 0 < costs.time < 0x1_0000_0000 && 0 < costs.threads <= 255
  }

  predicate Assign(m: string, t: string, p: string, costs: Costs) {
    Sets(m, "m", costs.memory) && Sets(t, "t", costs.time) && Sets(p, "p", costs.threads)
  }

  predicate AssignInSomeOrder(a: string, b: string, c: string, costs: Costs) {
    || Assign(a, b, c, costs) || Assign(a, c, b, costs)
    || Assign(b, a, c, costs) || Assign(c, a, b, costs)
    || Assign(b, c, a, costs) || Assign(c, b, a, costs)
  }

  function Segment(a: string, b: string, c: string): string {
    a + "," + (b + "," + c)
  }

  lemma SplitSegment(a: string, b: string, c: string)
    requires ',' !in a && ',' !in b && ',' !in c
    ensures Split(Segment(a, b, c), ',') == [a, b, c]
  {
    SplitFirst(a, ',', b + "," + c);
    SplitFirst(b, ',', c);
    assert Find(c, ',') == |c|;
  }

  datatype Setting = Setting(name: char, value: nat)

  /** One field, read without its predecessors. */
  function Stored(subpart: string): Option<Setting> {
    if Field(Costs(0, 0, 0), subpart).None? then None
    else Some(Setting(subpart[0], ParseUint32(subpart[Find(subpart, '=') + 1..]).value))
  }

  function With(costs: Costs, field: Setting): Costs {
    if field.name == 'm' then costs.(memory := field.value)
    else if field.name == 't' then costs.(time := field.value)
    else costs.(threads := field.value)
  }

  predicate Legal(field: Setting) {
    field.name in {'m', 't', 'p'} && field.value < 0x1_0000_0000 && (field.name == 'p' ==> field.value <= 255)
  }

  lemma FieldIsStored(costs: Costs, subpart: string)
    ensures Field(costs, subpart) ==
      if Stored(subpart).None? then None else Some(With(costs, Stored(subpart).value))
    ensures Stored(subpart).Some? ==> Legal(Stored(subpart).value)
  {
  }

  lemma SetsIffStored(subpart: string, name: char, value: nat)
    requires Legal(Setting(name, value))
    ensures Sets(subpart, [name], value) <==> Stored(subpart) == Some(Setting(name, value))
  {
    var i := Find(subpart, '=');
    assert i < |subpart| && |subpart[..i]| == 1 ==> subpart[..i][0] == subpart[0];
  }

  lemma Inits<T>(a: T, b: T, c: T)
    ensures [a, b, c][..2] == [a, b] && [a, b][..1] == [a] && [a][..0] == []
  {
  }

  lemma ThreeFields(a: string, b: string, c: string)
    ensures Fields([a, b, c]) ==
      if Stored(a).None? || Stored(b).None? || Stored(c).None? then None
      else Some(With(With(With(Costs(0, 0, 0), Stored(a).value), Stored(b).value), Stored(c).value))
  {
    Inits(a, b, c);
    assert Fields([]) == Some(Costs(0, 0, 0));
    var one := Fields([a]);
    var two := Fields([a, b]);
    FieldIsStored(Costs(0, 0, 0), a);
    assert one == Field(Costs(0, 0, 0), a);
    if one.Some? {
      FieldIsStored(one.value, b);
      assert two == Field(one.value, b);
      if two.Some? {
        FieldIsStored(two.value, c);
      }
    }
  }

  predicate Settings(m: Option<Setting>, t: Option<Setting>, p: Option<Setting>, costs: Costs) {
    && m == Some(Setting('m', costs.memory))
    && t == Some(Setting('t', costs.time))
    && p == Some(Setting('p', costs.threads))
  }

  lemma AssignIffSettings(m: string, t: string, p: string, costs: Costs)
    requires InRange(costs)
    ensures Assign(m, t, p, costs) <==> Settings(Stored(m), Stored(t), Stored(p), costs)
  {
    SetsIffStored(m, 'm', costs.memory);
    SetsIffStored(t, 't', costs.time);
    SetsIffStored(p, 'p', costs.threads);
  }

  lemma ThreeSettings(a: Setting, b: Setting, c: Setting, costs: Costs)
    requires Legal(a) && Legal(b) && Legal(c)
    ensures InRange(costs) && With(With(With(Costs(0, 0, 0), a), b), c) == costs <==>
      InRange(costs) &&
      (|| Settings(Some(a), Some(b), Some(c), costs) || Settings(Some(a), Some(c), Some(b), costs)
       || Settings(Some(b), Some(a), Some(c), costs) || Settings(Some(c), Some(a), Some(b), costs)
       || Settings(Some(b), Some(c), Some(a), costs) || Settings(Some(c), Some(b), Some(a), costs))
  {
  }

  lemma SegmentIsInRange(a: string, b: string, c: string)
    requires ',' !in a && ',' !in b && ',' !in c
    ensures var r := ParseSegment(Segment(a, b, c));
      if Stored(a).None? || Stored(b).None? || Stored(c).None? then r == None
      else
        var costs := With(With(With(Costs(0, 0, 0), Stored(a).value), Stored(b).value), Stored(c).value);
        r == if InRange(costs) then Some(costs) else None
  {
    SplitSegment(a, b, c);
    ThreeFields(a, b, c);
    FieldIsStored(Costs(0, 0, 0), a);
    FieldIsStored(Costs(0, 0, 0), b);
    FieldIsStored(Costs(0, 0, 0), c);
  }

  /** A segment is read as `costs` iff its three fields are m, t and p, each
      exactly once and in any order, with those values, all in range. */
  lemma SegmentIff(a: string, b: string, c: string, costs: Costs)
    requires ',' !in a && ',' !in b && ',' !in c
    ensures ParseSegment(Segment(a, b, c)) == Some(costs) <==> InRange(costs) && AssignInSomeOrder(a, b, c, costs)
  {
    SegmentIsInRange(a, b, c);
    if InRange(costs) {
      AssignIffSettings(a, b, c, costs);
      AssignIffSettings(a, c, b, costs);
      AssignIffSettings(b, a, c, costs);
      AssignIffSettings(c, a, b, costs);
      AssignIffSettings(b, c, a, costs);
      AssignIffSettings(c, b, a, costs);
      if Stored(a).Some? && Stored(b).Some? && Stored(c).Some? {
        FieldIsStored(costs, a);
        FieldIsStored(costs, b);
        FieldIsStored(costs, c);
        ThreeSettings(Stored(a).value, Stored(b).value, Stored(c).value, costs);
      }
    }
  }

  /** All six orders of the fields parse the same, or are all refused. */
  lemma OrderDoesNotMatter(a: string, b: string, c: string)
    requires ',' !in a && ',' !in b && ',' !in c
    ensures var r := ParseSegment(Segment(a, b, c));
      && r == ParseSegment(Segment(a, c, b)) == ParseSegment(Segment(b, a, c))
      && r == ParseSegment(Segment(b, c, a)) == ParseSegment(Segment(c, a, b))
      && r == ParseSegment(Segment(c, b, a))
  {
    SwapLast(a, b, c);
    SwapFirst(a, b, c);
    SwapLast(b, a, c);
    SwapFirst(a, c, b);
    SwapLast(c, a, b);
  }

  lemma SwapLast(a: string, b: string, c: string)
    requires ',' !in a && ',' !in b && ',' !in c
    ensures ParseSegment(Segment(a, b, c)) == ParseSegment(Segment(a, c, b))
  {
    SameCosts(a, b, c, a, c, b);
  }

  lemma SwapFirst(a: string, b: string, c: string)
    requires ',' !in a && ',' !in b && ',' !in c
    ensures ParseSegment(Segment(a, b, c)) == ParseSegment(Segment(b, a, c))
  {
    SameCosts(a, b, c, b, a, c);
  }

  lemma SameCosts(a: string, b: string, c: string, x: string, y: string, z: string)
    requires ',' !in a && ',' !in b && ',' !in c && ',' !in x && ',' !in y && ',' !in z
    requires forall costs :: AssignInSomeOrder(a, b, c, costs) <==> AssignInSomeOrder(x, y, z, costs)
    ensures ParseSegment(Segment(a, b, c)) == ParseSegment(Segment(x, y, z))
  {
    var r, s := ParseSegment(Segment(a, b, c)), ParseSegment(Segment(x, y, z));
    if r.Some? {
      SegmentIff(a, b, c, r.value);
      SegmentIff(x, y, z, r.value);
    }
    if s.Some? {
      SegmentIff(a, b, c, s.value);
      SegmentIff(x, y, z, s.value);
    }
  }

  // ----- Printing, and reading back -----

  function CostsText(costs: Costs): string {
    Segment("m" + "=" + Decimal(costs.memory), "t" + "=" + Decimal(costs.time), "p" + "=" + Decimal(costs.threads))
  }

  /** The PHC text: `$argon2id$v=19$m=..,t=..,p=..$salt$key`. */
  function Print(params: Params): string {
    Joined(PrintedParts(params), '$')
  }

  function PrintedParts(params: Params): seq<string> {
    ["", "argon2id", "v=19", CostsText(params.costs), Encode(params.salt), Encode(params.key)]
  }

  const DEFAULTS := Costs(DEFAULT_MEMORY, DEFAULT_TIME, DEFAULT_THREADS)

  function Hash(salt: seq<byte>, key: seq<byte>): string {
    Print(Params(DEFAULTS, salt, key))
  }

  lemma DecimalSets(name: string, n: nat)
    requires |name| == 1 && name[0] !in {'=', ',', '$'} && n < 0x1_0000_0000
    ensures Sets(name + "=" + Decimal(n), name, n)
    ensures forall c :: c in name + "=" + Decimal(n) ==> c != ',' && c != '$'
  {
    DecimalValue(n);
    FindAfter(name, '=', Decimal(n));
    var s := name + "=" + Decimal(n);
    assert s[..1] == name && s[2..] == Decimal(n);
  }

  lemma SegmentHasNoDollar(a: string, b: string, c: string)
    requires '$' !in a && '$' !in b && '$' !in c
    ensures '$' !in Segment(a, b, c)
  {
  }

  lemma ReadBack(m: string, t: string, p: string, costs: Costs)
    requires InRange(costs) && Assign(m, t, p, costs) && ',' !in m && ',' !in t && ',' !in p
    ensures ParseSegment(Segment(m, t, p)) == Some(costs)
  {
    SegmentIff(m, t, p, costs);
  }

  lemma CostsReadBack(costs: Costs)
    requires InRange(costs)
    ensures ParseSegment(CostsText(costs)) == Some(costs)
    ensures '$' !in CostsText(costs)
  {
    var m, t, p :=
      "m" + "=" + Decimal(costs.memory), "t" + "=" + Decimal(costs.time), "p" + "=" + Decimal(costs.threads);
    DecimalSets("m", costs.memory);
    DecimalSets("t", costs.time);
    DecimalSets("p", costs.threads);
    ReadBack(m, t, p, costs);
    SegmentHasNoDollar(m, t, p);
  }

  lemma NoDollarInBase64(b: seq<byte>)
    ensures '$' !in Encode(b)
  {
    EncodedLetters(b);
  }

  lemma Version19()
    ensures ScanVersion("v=19") == Some(19)
  {
    assert "v=19"[2..] == "19" && "19"[1..] == "9" && "9"[1..] == "";
    assert DigitsEnd("9") == 1;
    assert "19"[..2] == "19" && "19"[..1] == "1" && "1"[..0] == "";
    assert SkipSpace("19") == Some("19");
    assert DigitsEnd("19") == 2;
    assert DigitsValue("1") == 1;
    assert DigitsValue("19") == 19;
  }

  /** Parsing what was printed gives back the costs, salt and key, whatever they are. */
  lemma ParseUndoesPrint(params: Params)
    requires InRange(params.costs)
    ensures Parse(Print(params)) == Ok(params)
  {
    CostsReadBack(params.costs);
    DecodeUndoesEncode(params.salt);
    DecodeUndoesEncode(params.key);
    NoDollarInBase64(params.salt);
    NoDollarInBase64(params.key);
    SplitUndoesJoin(PrintedParts(params), '$');
    Version19();
  }

  // ----- Which hashes are current -----

  predicate IsBcrypt(hash: string) {
    "$2a$" <= hash || "$2b$" <= hash || "$2y$" <= hash
  }

  predicate NeedsRehash(hash: string) {
    || IsBcrypt(hash)
    || Parse(hash).Err?
    || Parse(hash).value.costs.memory != DEFAULT_MEMORY
    || Parse(hash).value.costs.time != DEFAULT_TIME
    || Parse(hash).value.costs.threads != DEFAULT_THREADS
    || |Parse(hash).value.key| != DEFAULT_KEY_LEN
  }

  lemma BcryptNeverParses(hash: string)
    requires IsBcrypt(hash)
    ensures Parse(hash) == Err(InvalidHash)
  {
    var scheme := hash[1..3];
    assert hash == "" + "$" + (scheme + "$" + hash[4..]);
    assert '$' !in scheme && scheme != "argon2id";
    SplitFirst("", '$', scheme + "$" + hash[4..]);
    SplitFirst(scheme, '$', hash[4..]);
    assert Split(hash, '$')[1] == scheme;
  }

  /** A hash is current iff it parses to today's costs and a 32-byte key: the
      bcrypt check decides nothing of its own. */
  lemma CurrentIff(hash: string)
    ensures !NeedsRehash(hash) <==>
      Parse(hash).Ok? && Parse(hash).value.costs == DEFAULTS && |Parse(hash).value.key| == DEFAULT_KEY_LEN
  {
    if IsBcrypt(hash) {
      BcryptNeverParses(hash);
    }
  }

  lemma FreshHashIsCurrentIff(salt: seq<byte>, key: seq<byte>)
    ensures NeedsRehash(Hash(salt, key)) <==> |key| != DEFAULT_KEY_LEN
  {
    ParseUndoesPrint(Params(DEFAULTS, salt, key));
    CurrentIff(Hash(salt, key));
  }

  /** Argon2id, as a function of password, salt, costs and key length. */
  type Derive = (string, seq<byte>, Costs, nat) -> seq<byte>

  function Compare(derive: Derive, bcrypt: (string, string) -> Result<bool, Error>, hash: string, password: string)
    : Result<bool, Error>
  {
    if IsBcrypt(hash) then bcrypt(hash, password)
    else if "$argon2id$" <= hash then
      match Parse(hash)
      case Err(error) => Err(error)
      case Ok(params) => Ok(params.key == derive(password, params.salt, params.costs, |params.key|))
    else Err(InvalidHash)
  }

  lemma JoinCons(first: string, rest: seq<string>, sep: char)
    requires rest != []
    ensures Joined([first] + rest, sep) == first + [sep] + Joined(rest, sep)
  {
    assert ([first] + rest)[1..] == rest;
  }

  lemma JoinThree(a: string, b: string, c: string, sep: char)
    ensures Joined([a, b, c], sep) == a + [sep] + (b + [sep] + c)
  {
    JoinCons(b, [c], sep);
    JoinCons(a, [b] + [c], sep);
    assert [a] + ([b] + [c]) == [a, b, c];
  }

  /** The format string of `Hash`. */
  lemma PrintedText(params: Params)
    ensures Print(params) ==
      "$argon2id$v=19$" + (CostsText(params.costs) + "$" + (Encode(params.salt) + "$" + Encode(params.key)))
  {
    var last := [CostsText(params.costs), Encode(params.salt), Encode(params.key)];
    var text := Joined(last, '$');
    JoinThree(CostsText(params.costs), Encode(params.salt), Encode(params.key), '$');
    JoinCons("v=19", last, '$');
    JoinCons("argon2id", ["v=19"] + last, '$');
    JoinCons("", ["argon2id"] + (["v=19"] + last), '$');
    assert PrintedParts(params) == [""] + (["argon2id"] + (["v=19"] + last));
    assert "" + "$" + ("argon2id" + "$" + ("v=19" + "$" + text)) == "$argon2id$v=19$" + text;
  }

  lemma PrintStarts(params: Params)
    ensures "$argon2id$" <= Print(params) && !IsBcrypt(Print(params))
  {
    PrintedText(params);
    assert Print(params)[1] == 'a' && "$2a$"[1] == '2' && "$2b$"[1] == '2' && "$2y$"[1] == '2';
  }

  /** A password is accepted against a fresh hash iff it derives the same key, so
      the right one always is; the hash is compared with the salt it was made with. */
  lemma ComparesWithWhatWasHashed(
    derive: Derive, bcrypt: (string, string) -> Result<bool, Error>, salt: seq<byte>, password: string, guess: string)
    requires |derive(password, salt, DEFAULTS, DEFAULT_KEY_LEN)| == DEFAULT_KEY_LEN
    ensures var key := derive(password, salt, DEFAULTS, DEFAULT_KEY_LEN);
      Compare(derive, bcrypt, Hash(salt, key), guess) == Ok(key == derive(guess, salt, DEFAULTS, DEFAULT_KEY_LEN))
  {
    var key := derive(password, salt, DEFAULTS, DEFAULT_KEY_LEN);
    ParseUndoesPrint(Params(DEFAULTS, salt, key));
    PrintStarts(Params(DEFAULTS, salt, key));
  }
}
