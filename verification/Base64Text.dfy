/** Which texts the unpadded base64 decoder takes and for which bytes, bit by bit
    (sections 3.2 and 4 of RFC 4648; pkg/password/password.go). */
module Base64Text {
  import opened Wrappers
  import opened PasswordHash

  const UPPER := "ABCDEFGHIJKLMNOPQRSTUVWXYZ"
  const LOWER := "abcdefghijklmnopqrstuvwxyz"
  const ALPHABET := UPPER + LOWER + "0123456789+/"

  lemma LettersAreTheAlphabet(v: sextet)
    ensures |ALPHABET| == 64 && Letter(v) == ALPHABET[v]
  {
    assert |UPPER| == 26 && |LOWER| == 26;
    if v < 26 {
      assert ALPHABET[v] == UPPER[v];
    } else if v < 52 {
      assert ALPHABET[v] == LOWER[v - 26];
    } else {
      assert ALPHABET[v] == "0123456789+/"[v - 52];
    }
  }

  lemma AlphabetIsLetters(c: char)
    ensures Sextet(c).Some? <==> c in ALPHABET
  {
    if Sextet(c).Some? {
      var v := Sextet(c).value;
      LettersAreTheAlphabet(v);
      SextetLetter(c);
      assert ALPHABET[v] == c;
    }
    if c in ALPHABET {
      var v: int :| 0 <= v < |ALPHABET| && ALPHABET[v] == c;
      LettersAreTheAlphabet(v);
      LetterSextet(v);
    }
  }

  // ----- Encoding: 24 bits as four letters -----

  function ByteAt(b: seq<byte>, i: nat): int {
    if i < |b| then b[i] else 0
  }

  function SextetAt(v: seq<sextet>, i: nat): int {
    if i < |v| then v[i] else 0
  }

  function ByteGroup(b: seq<byte>, i: nat): int {
    ByteAt(b, i) * 0x10000 + ByteAt(b, i + 1) * 0x100 + ByteAt(b, i + 2)
  }

  function SextetGroup(v: seq<sextet>, i: nat): int {
    SextetAt(v, i) * 0x40000 + SextetAt(v, i + 1) * 0x1000 + SextetAt(v, i + 2) * 0x40 + SextetAt(v, i + 3)
  }

  lemma FirstGroup(b: seq<byte>)
    requires b != []
    ensures SextetGroup(Sextets(b), 0) == ByteGroup(b, 0)
  {
  }

  lemma ByteGroupLater(b: seq<byte>, i: nat)
    requires 3 <= i && 3 <= |b|
    ensures ByteGroup(b, i) == ByteGroup(b[3..], i - 3)
  {
  }

  lemma SextetGroupLater(v: seq<sextet>, i: nat)
    requires 4 <= i && 4 <= |v|
    ensures SextetGroup(v, i) == SextetGroup(v[4..], i - 4)
  {
  }

  /** Each group of three bytes and its four sextets are the same number; a short
      last group is filled up with zero bits. */
  lemma {:induction false} GroupsAgree(b: seq<byte>, k: nat)
    requires 3 * k < |b|
    ensures SextetGroup(Sextets(b), 4 * k) == ByteGroup(b, 3 * k)
    decreases k
  {
    if k == 0 {
      FirstGroup(b);
    } else {
      GroupsAgree(b[3..], k - 1);
      ByteGroupLater(b, 3 * k);
      FirstOfFour(b);
      SextetGroupLater(Sextets(b), 4 * k);
    }
  }

  lemma {:induction false} SextetsLength(b: seq<byte>)
    ensures |Sextets(b)| == |b| / 3 * 4 + (if |b| % 3 == 0 then 0 else |b| % 3 + 1)
  {
    if |b| > 2 {
      SextetsLength(b[3..]);
    }
  }

  /** The encoding, letter by letter. */
  lemma EncodedBits(b: seq<byte>, k: nat)
    requires 3 * k < |b|
    ensures SextetGroup(Sextets(b), 4 * k) == ByteGroup(b, 3 * k)
    ensures |Encode(b)| == |b| / 3 * 4 + (if |b| % 3 == 0 then 0 else |b| % 3 + 1)
    ensures forall i :: 0 <= i < |Encode(b)| ==> Encode(b)[i] == ALPHABET[Sextets(b)[i]]
  {
    GroupsAgree(b, k);
    SextetsLength(b);
    forall i | 0 <= i < |Encode(b)| ensures Encode(b)[i] == ALPHABET[Sextets(b)[i]] {
      LettersAreTheAlphabet(Sextets(b)[i]);
    }
  }

  // ----- Decoding: which texts, and to what -----

  /** The sextet without the bits that are not part of a whole byte. */
  function Whole(v: sextet, group: nat): sextet {
    if group == 2 then v / 16 * 16 else if group == 3 then v / 4 * 4 else v
  }

  /** The sextets of the bytes are these, but for leftover bits in the last. */
  predicate SameBits(v: seq<sextet>, w: seq<sextet>) {
    |w| == |v| &&
    forall i :: 0 <= i < |v| ==> w[i] == if i == |v| - 1 then Whole(v[i], |v| % 4) else v[i]
  }

  lemma SameBitsAfterFour(v: seq<sextet>, w: seq<sextet>)
    requires |v| > 4 && SameBits(v[4..], w)
    ensures SameBits(v, v[..4] + w)
  {
    var all := v[..4] + w;
    forall i | 0 <= i < |v| ensures all[i] == if i == |v| - 1 then Whole(v[i], |v| % 4) else v[i] {
      if i >= 4 {
        assert all[i] == w[i - 4] && v[i] == v[4..][i - 4];
      }
    }
  }

  lemma ShortBytesMean(v: seq<sextet>)
    requires |v| in {2, 3}
    ensures Bytes(v).Some? && SameBits(v, Sextets(Bytes(v).value))
  {
    ShortBytes(v);
    BytesTaken(v[0], v[1], if |v| == 3 then v[2] else 0);
  }

  lemma LongBytesMean(v: seq<sextet>)
    requires |v| >= 4 && Bytes(v).Some? && Bytes(v[4..]).Some? && SameBits(v[4..], Sextets(Bytes(v[4..]).value))
    ensures SameBits(v, Sextets(Bytes(v).value))
  {
    FirstOfThree(v);
    var w := Sextets(Bytes(v[4..]).value);
    if |v| > 4 {
      SameBitsAfterFour(v, w);
    } else {
      assert w == [] && v[..4] + w == v;
    }
  }

  lemma {:induction false} BytesMeans(v: seq<sextet>)
    ensures Bytes(v).Some? <==> |v| % 4 != 1
    ensures Bytes(v).Some? ==> SameBits(v, Sextets(Bytes(v).value))
    decreases |v|
  {
    if |v| in {2, 3} {
      ShortBytesMean(v);
    } else if |v| >= 4 {
      BytesMeans(v[4..]);
      if Bytes(v).Some? {
        LongBytesMean(v);
      }
    }
  }

  predicate IsLineEnd(c: char) {
    c in {'\r', '\n'}
  }

  lemma {:induction false} LettersAndLineEnds(s: string)
    ensures IsLetters(NoLineEnds(s)) <==> forall i :: 0 <= i < |s| ==> s[i] in ALPHABET || IsLineEnd(s[i])
  {
    if s != "" {
      AlphabetIsLetters(s[0]);
      LettersAndLineEnds(s[1..]);
      var rest := NoLineEnds(s[1..]);
      assert forall i :: 0 < i < |s| ==> s[1..][i - 1] == s[i];
      if IsLineEnd(s[0]) {
        assert NoLineEnds(s) == "" + rest == rest;
      } else {
        assert NoLineEnds(s)[0] == s[0] && NoLineEnds(s)[1..] == rest;
        assert IsLetters(NoLineEnds(s)) <==> (Sextet(s[0]).Some? && IsLetters(rest));
      }
    }
  }

  /** The decoder takes a text iff it holds letters of the alphabet and line ends
      only and the letters do not leave a lone one over; the bytes are those whose
      encoding has these letters, but for leftover bits in the last. */
  lemma DecodesIff(s: string)
    ensures Decode(s).Some? <==>
      (forall i :: 0 <= i < |s| ==> s[i] in ALPHABET || IsLineEnd(s[i])) && |NoLineEnds(s)| % 4 != 1
    ensures Decode(s).Some? ==>
      IsLetters(NoLineEnds(s)) && SameBits(Values(NoLineEnds(s)), Sextets(Decode(s).value))
  {
    LettersAndLineEnds(s);
    if IsLetters(NoLineEnds(s)) {
      BytesMeans(Values(NoLineEnds(s)));
    }
  }
}
