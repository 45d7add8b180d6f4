/** Runes of user-written text: lowering, spaces and the look-alike table of
    pkg/antispam/normalize.go. */
module TextFold {
  import opened Wrappers

  predicate IsLetter(c: char) {
    'a' <= c <= 'z'
  }

  predicate IsDigit(c: char) {
    '0' <= c <= '9'
  }

  predicate IsASCIIAlnum(c: char) {
    IsLetter(c) || IsDigit(c)
  }

  /** `unicode.IsSpace`. */
  predicate IsSpace(c: char) {
    || '\t' <= c <= '\r' || c == ' ' || c == '\U{0085}' || c == '\U{00A0}' || c == '\U{1680}'
    || '\U{2000}' <= c <= '\U{200A}' || c == '\U{2028}' || c == '\U{2029}' || c == '\U{202F}'
    || c == '\U{205F}' || c == '\U{3000}'
  }

  function AsciiLower(c: char): char {
    if 'A' <= c <= 'Z' then c + ' ' else c
  }

  /** What is used of `strings.ToLower`, which maps each rune on its own: it is
      the usual lowering on ASCII and leaves white space alone. */
  ghost predicate LowerFacts(lower: char -> char) {
    && (forall c :: c < '\U{0080}' ==> lower(c) == AsciiLower(c))
    && (forall c :: IsSpace(c) ==> lower(c) == c)
  }

  /** `isInvisible`: runes that render as nothing or decorate the letter before. */
  predicate IsInvisible(r: char) {
    || r == '\U{00AD}' || r == '\U{FEFF}' || '\U{0300}' <= r <= '\U{036F}'
    || '\U{200B}' <= r <= '\U{200F}' || '\U{202A}' <= r <= '\U{202E}' || '\U{2060}' <= r <= '\U{2064}'
  }

  /** `confusableGroups`: each letter with its look-alikes. */
  const CONFUSABLES: seq<(char, string)> := [
    ('a', "\U{00E0}\U{00E1}\U{00E2}\U{00E3}\U{00E4}\U{00E5}\U{0101}\U{0103}\U{0105}\U{0430}\U{03B1}"),
    ('b', "\U{044C}\U{0432}"),
    ('c', "\U{00E7}\U{0107}\U{0109}\U{010B}\U{010D}\U{0441}"),
    ('e', "\U{00E8}\U{00E9}\U{00EA}\U{00EB}\U{0113}\U{0115}\U{0117}\U{0119}\U{011B}\U{0435}\U{03B5}"),
    ('g', "\U{011D}\U{011F}\U{0121}\U{0123}\U{0261}"),
    ('h', "\U{043D}"),
    ('i', "\U{00EC}\U{00ED}\U{00EE}\U{00EF}\U{0129}\U{012B}\U{012D}\U{012F}\U{0131}\U{0456}\U{03B9}"),
    ('j', "\U{0458}"),
    ('k', "\U{043A}\U{03BA}"),
    ('m', "\U{043C}"),
    ('n', "\U{00F1}\U{0144}\U{0146}\U{0148}"),
    ('o', "\U{00F2}\U{00F3}\U{00F4}\U{00F5}\U{00F6}\U{00F8}\U{014D}\U{014F}\U{0151}\U{043E}\U{03BF}"),
    ('p', "\U{0440}\U{03C1}"),
    ('s', "\U{015B}\U{015D}\U{015F}\U{0161}\U{0455}"),
    ('t', "\U{0442}\U{03C4}"),
    ('u', "\U{00F9}\U{00FA}\U{00FB}\U{00FC}\U{0169}\U{016B}\U{016D}\U{016F}\U{0171}\U{0173}\U{03C5}"),
    ('v', "\U{03BD}"),
    ('x', "\U{0445}"),
    ('y', "\U{00FD}\U{00FF}\U{0177}\U{0443}"),
    ('z', "\U{017A}\U{017C}\U{017E}")
  ]

  /** The letter whose group lists r; the groups are disjoint. */
  function Confusable(groups: seq<(char, string)>, r: char): Option<char> {
    if groups == [] then None
    else if r in groups[0].1 then Some(groups[0].0)
    else Confusable(groups[1..], r)
  }

  /** `foldRune`: the plain ASCII look-alike of r, or r itself. */
  function FoldRune(r: char): char {
    if r == '@' then 'a'
    else if r == '$' then 's'
    else if '\U{FF10}' <= r <= '\U{FF5A}' then AsciiLower((r as int - 0xFEE0) as char)
    else if '\U{1D400}' <= r <= '\U{1D6A3}' then ('a' as int + (r as int - 0x1D400) % 52 % 26) as char
    else if '\U{1D7CE}' <= r <= '\U{1D7FF}' then ('0' as int + (r as int - 0x1D7CE) % 10) as char
    else if '\U{24B6}' <= r <= '\U{24E9}' then ('a' as int + (r as int - 0x24B6) % 26) as char
    else
      match Confusable(CONFUSABLES, r)
      case Some(ascii) => ascii
      case None => r
  }

  /** One rune as the tokenizer sees it: dropped, a gap between words, or a
      letter or digit. */
  datatype Symbol = Skip | Gap | Emit(c: char)

  function Read(lower: char -> char, c: char): Symbol {
    var r := lower(c);
    if IsInvisible(r) then Skip
    else if IsASCIIAlnum(FoldRune(r)) then Emit(FoldRune(r))
    else Gap
  }

  function Symbols(lower: char -> char, text: string): seq<Symbol> {
    seq(|text|, i requires 0 <= i < |text| => Read(lower, text[i]))
  }

  lemma {:induction false} NotListed(groups: seq<(char, string)>, r: char)
    requires forall i :: 0 <= i < |groups| ==> r !in groups[i].1
    ensures Confusable(groups, r) == None
  {
    if groups != [] {
      NotListed(groups[1..], r);
    }
  }

  /** No look-alike is itself an ASCII letter, digit or white space. */
  lemma AsciiNotListed(r: char)
    requires r < '\U{0080}'
    ensures Confusable(CONFUSABLES, r) == None
  {
    NotListed(CONFUSABLES, r);
  }

  /** Letters and digits read as themselves, blanks and newlines as gaps. */
  lemma ReadPlain(lower: char -> char, c: char)
    requires LowerFacts(lower)
    ensures IsASCIIAlnum(c) ==> Read(lower, c) == Emit(c)
    ensures c == ' ' || c == '\n' ==> Read(lower, c) == Gap
  {
    if c < '\U{0080}' {
      AsciiNotListed(c);
    }
  }
}
