/** The ordered catalog of (pattern, name) entries that drives the lexer.
    Each regular expression is modelled as a small recognizer over ASCII text;
    `\b` is the word boundary with word characters `[A-Za-z0-9_]`. */
module TokenPatterns {
  import opened Outcomes

  predicate IsAsciiLetter(c: char) { 'a' <= c <= 'z' || 'A' <= c <= 'Z' }

  predicate IsDigit(c: char) { '0' <= c <= '9' }

  /** `\w` on ASCII text */
  predicate IsWordChar(c: char) { IsAsciiLetter(c) || IsDigit(c) || c == '_' }

  /** `[a-zA-Z_]`, the first character of an identifier */
  predicate IsIdentStart(c: char) { IsAsciiLetter(c) || c == '_' }

  predicate IsAscii(s: string) { forall k :: 0 <= k < |s| ==> s[k] as int < 128 }

  /** `\b` at position `j` (between `s[j-1]` and `s[j]`) */
  predicate AtBoundary(s: string, j: nat)
    requires j <= |s|
  {
    (0 < j && IsWordChar(s[j - 1])) != (j < |s| && IsWordChar(s[j]))
  }

  /** The characters the UNKNOWN class `[^a-zA-Z0-9_ \t\n,'"]` leaves out. */
  predicate IsUnknownClassExcluded(c: char)
  {
    IsWordChar(c) || c == ' ' || c == '\t' || c == '\n' || c == ',' || c == '\'' || c == '"'
  }

  /** A keyword pattern's word: letters, digits and underscores, starting with a letter. */
  type Keyword = w: string | 0 < |w| && IsAsciiLetter(w[0]) && forall k :: 0 <= k < |w| ==> IsWordChar(w[k])
    witness "a"

  datatype Pattern =
    | WholeWord(word: Keyword)     // \bword\b
    | IdentifierPattern            // \b[a-zA-Z_][a-zA-Z0-9_]*\b
    | DigitsPattern                // \d+
    | CharPattern(c: char)         // one literal character: , \( \) :
    | QuotedPattern(quote: char)   // '[^']*' and "[^"]*"
    | OtherCharPattern             // [^a-zA-Z0-9_ \t\n,'"]

  datatype Entry = Entry(pattern: Pattern, name: string)

  /** `TokenPatterns.get_patterns()`: 13 entries; order is precedence. */
  function GetPatterns(): (r: seq<Entry>)
    ensures |r| == 13
  {
    [ Entry(WholeWord("para"), "FOR"),
      Entry(WholeWord("no"), "IN"),
      Entry(WholeWord("intervalo"), "RANGE"),
      Entry(WholeWord("escreva"), "PRINT"),
      Entry(IdentifierPattern, "IDENTIFIER"),
      Entry(DigitsPattern, "INTEGER"),
      Entry(CharPattern(','), "COMMA"),
      Entry(QuotedPattern('\''), "STRING"),
      Entry(QuotedPattern('"'), "STRING"),
      Entry(CharPattern('('), "LPAREN"),
      Entry(CharPattern(')'), "RPAREN"),
      Entry(CharPattern(':'), "COLON"),
      Entry(OtherCharPattern, "UNKNOWN") ]
  }

  /** The order that decides the language: the four keywords come before
      IDENTIFIER, so a keyword is never read as a name, and UNKNOWN comes last,
      so it only takes what no other entry matches. */
  lemma CatalogOrder()
    ensures forall e :: 0 <= e < 4 ==> GetPatterns()[e].pattern.WholeWord? && GetPatterns()[e].name != "IDENTIFIER"
    ensures GetPatterns()[4] == Entry(IdentifierPattern, "IDENTIFIER")
    ensures GetPatterns()[12] == Entry(OtherCharPattern, "UNKNOWN")
    ensures forall e :: 0 <= e < 12 ==> GetPatterns()[e].name != "UNKNOWN"
  {
  }

  /** End of the run of word characters starting at `j` (greedy `[a-zA-Z0-9_]*`). */
  function WordEnd(s: string, j: nat): (e: nat)
    requires j <= |s|
    ensures j <= e <= |s|
    ensures forall k :: j <= k < e ==> IsWordChar(s[k])
    ensures e == |s| || !IsWordChar(s[e])
    decreases |s| - j
  {
    if j < |s| && IsWordChar(s[j]) then WordEnd(s, j + 1) else j
  }

  /** End of the run of digits starting at `j` (greedy `\d*`). */
  function DigitsEnd(s: string, j: nat): (e: nat)
    requires j <= |s|
    ensures j <= e <= |s|
    ensures forall k :: j <= k < e ==> IsDigit(s[k])
    ensures e == |s| || !IsDigit(s[e])
    decreases |s| - j
  {
    if j < |s| && IsDigit(s[j]) then DigitsEnd(s, j + 1) else j
  }

  /** The first occurrence of `q` at or after `j`. */
  function FindQuote(s: string, q: char, j: nat): (r: Option<nat>)
    requires j <= |s|
    ensures r.Some? ==> j <= r.value < |s| && s[r.value] == q
    ensures r.Some? ==> forall k :: j <= k < r.value ==> s[k] != q
    ensures r.None? ==> forall k :: j <= k < |s| ==> s[k] != q
    decreases |s| - j
  {
    if j == |s| then None
    else if s[j] == q then Some(j)
    else FindQuote(s, q, j + 1)
  }

  /** `\bw\b` matches at `i` */
  predicate WholeWordAt(s: string, i: nat, w: string)
  {
    i + |w| <= |s| && s[i..i + |w|] == w && AtBoundary(s, i) && AtBoundary(s, i + |w|)
  }

  /** The length of the match of `p` that starts at `i`, or None. No catalog
      pattern matches the empty string, so a match is never empty. */
  function MatchLength(p: Pattern, s: string, i: nat): (r: Option<nat>)
    requires i < |s|
    ensures r.Some? ==> 0 < r.value <= |s| - i
  {
    match p
    case WholeWord(w) =>
      if WholeWordAt(s, i, w) then Some(|w|) else None
    case IdentifierPattern =>
      if AtBoundary(s, i) && IsIdentStart(s[i]) then
        var e := WordEnd(s, i + 1);
        // the greedy end is the only candidate end at which \b holds (IdentifierEnd)
        if AtBoundary(s, e) then Some(e - i) else None
      else None
    case DigitsPattern =>
      if IsDigit(s[i]) then Some(DigitsEnd(s, i + 1) - i) else None
    case CharPattern(c) =>
      if s[i] == c then Some(1) else None
    case QuotedPattern(q) =>
      if s[i] == q then
        match FindQuote(s, q, i + 1)
        case Some(j) => Some(j + 1 - i)
        case None => None
      else None
    case OtherCharPattern =>
      if IsUnknownClassExcluded(s[i]) then None else Some(1)
  }

  /** Backtracking cannot shorten an identifier match: `\b` holds at the end of
      the greedy run and at no earlier position inside it. */
  lemma IdentifierEnd(s: string, i: nat)
    requires i < |s| && IsIdentStart(s[i])
    ensures AtBoundary(s, WordEnd(s, i + 1))
    ensures forall k :: i < k < WordEnd(s, i + 1) ==> !AtBoundary(s, k)
  {
  }

  /** UNKNOWN matches exactly one character outside `[a-zA-Z0-9_ \t\n,'"]`:
      `#`, `+`, `=` and a carriage return are examples. */
  lemma UnknownClass(s: string, i: nat)
    requires i < |s|
    ensures s[i] in {'#', '+', '=', '\r', '(', ')', ':'} ==> MatchLength(OtherCharPattern, s, i) == Some(1)
    ensures s[i] in {' ', '\t', '\n', ',', '\'', '"', '_'} ==> MatchLength(OtherCharPattern, s, i) == None
  {
  }
}
