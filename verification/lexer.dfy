/** `Lexer.scanner`: a left-to-right scan that tries the catalog entries in
    order at each position and stops at the first UNKNOWN character. */
module Lexer {
  import opened Outcomes
  import opened TokenTypes
  import opened Tokens
  import opened TokenPatterns

  /** The catalog entry that matched at a position and the length of its match. */
  datatype Hit = Hit(entry: nat, length: nat)

  /** Entry `e` of the catalog, looked up one comparison at a time. This is
      the same list as `GetPatterns()`, written as a chain of comparisons so
      that a proof about one entry meets only that entry instead of the whole
      thirteen-element sequence; `EntryAtCatalog` ties the two together. */
  function EntryAt(e: nat): Entry
    requires e < 13
  {
    if e == 0 then Entry(WholeWord("para"), "FOR")
    else if e == 1 then Entry(WholeWord("no"), "IN")
    else if e == 2 then Entry(WholeWord("intervalo"), "RANGE")
    else if e == 3 then Entry(WholeWord("escreva"), "PRINT")
    else if e == 4 then Entry(IdentifierPattern, "IDENTIFIER")
    else if e == 5 then Entry(DigitsPattern, "INTEGER")
    else if e == 6 then Entry(CharPattern(','), "COMMA")
    else if e == 7 then Entry(QuotedPattern('\''), "STRING")
    else if e == 8 then Entry(QuotedPattern('"'), "STRING")
    else if e == 9 then Entry(CharPattern('('), "LPAREN")
    else if e == 10 then Entry(CharPattern(')'), "RPAREN")
    else if e == 11 then Entry(CharPattern(':'), "COLON")
    else Entry(OtherCharPattern, "UNKNOWN")
  }

  /** The lookup agrees with the catalog, entry by entry. */
  lemma EntryAtCatalog(e: nat)
    requires e < 13
    ensures EntryAt(e) == GetPatterns()[e]
  {
  }

  /** The combined pattern is an alternation: at position `i` the first entry
      (from `from` on) whose pattern matches wins. */
  function FirstMatch(s: string, i: nat, from: nat): (r: Option<Hit>)
    requires i < |s| && from <= 13
    ensures r.Some? ==> from <= r.value.entry < 13
    decreases 13 - from
  {
    if from == 13 then None
    else match MatchLength(EntryAt(from).pattern, s, i)
      case Some(n) => Some(Hit(from, n))
      case None => FirstMatch(s, i, from + 1)
  }

  /** The search returns a matching entry, and no entry before it matches;
      it finds nothing only when no entry from `from` on matches. */
  lemma {:induction false} FirstMatchIsFirst(s: string, i: nat, from: nat)
    requires i < |s| && from <= 13
    ensures var r := FirstMatch(s, i, from);
      (r.Some? ==> MatchLength(EntryAt(r.value.entry).pattern, s, i) == Some(r.value.length)) &&
      (r.Some? ==> forall e :: from <= e < r.value.entry ==> MatchLength(EntryAt(e).pattern, s, i).None?) &&
      (r.None? ==> forall e :: from <= e < 13 ==> MatchLength(EntryAt(e).pattern, s, i).None?)
    decreases 13 - from
  {
    if from < 13 {
      FirstMatchIsFirst(s, i, from + 1);
    }
  }

  /** `str(n)` */
  function Decimal(n: nat): (r: string)
    ensures |r| > 0 && forall k :: 0 <= k < |r| ==> IsDigit(r[k])
  {
    if n < 10 then [('0' as int + n) as char]
    else Decimal(n / 10) + [('0' as int + n % 10) as char]
  }

  /** The group name of entry `e` in the combined pattern: name, `_`, position counted from 1. */
  function GroupName(e: nat): string
    requires e < 13
  {
    EntryAt(e).name + "_" + Decimal(e + 1)
  }

  /** `g.split('_')[0]` */
  function BeforeUnderscore(g: string): (r: string)
    ensures |r| <= |g| && r == g[..|r|]
    ensures |r| == |g| || g[|r|] == '_'
    ensures '_' !in r
  {
    if g == [] || g[0] == '_' then [] else [g[0]] + BeforeUnderscore(g[1..])
  }

  /** `g.upper()` on ASCII text */
  function Upper(g: string): (r: string)
    ensures |r| == |g|
  {
    seq(|g|, k requires 0 <= k < |g| => if 'a' <= g[k] <= 'z' then (g[k] as int - 32) as char else g[k])
  }

  /** `g.startswith(prefix)` */
  predicate StartsWith(g: string, prefix: string)
  {
    |prefix| <= |g| && g[..|prefix|] == prefix
  }

  /** What the scanner does with the group that matched: a group whose name
      starts with UNKNOWN raises (None); any other is looked up as a kind by the
      part of its name before `_`, in upper case. */
  function GroupKind(g: string): Option<TokenKind>
  {
    if StartsWith(g, "UNKNOWN") then None else Lookup(Upper(BeforeUnderscore(g)))
  }

  /** The outcome of trying the catalog at one position. */
  datatype Recognized =
    | Skip                                // nothing matches here: finditer moves on by one
    | Emit(kind: TokenKind, length: nat)  // a token of this kind and length
    | Halt                                // UNKNOWN matched: the scan stops

  /** The entry that matches first decides: UNKNOWN halts, any other entry
      gives a token of its kind as long as its match. */
  function Recognize(s: string, i: nat): (r: Recognized)
    requires i < |s|
    ensures r.Emit? ==> 0 < r.length <= |s| - i
  {
    match FirstMatch(s, i, 0)
    case None => Skip
    case Some(h) => if h.entry == 12 then Halt else Emit(EntryKind(h.entry), h.length)
  }

  /* ---------- the group names decode to the catalog's own names ---------- */

  lemma {:induction false} BeforeUnderscoreOf(name: string, rest: string)
    requires '_' !in name
    ensures BeforeUnderscore(name + "_" + rest) == name
    decreases |name|
  {
    if name == [] {
      assert (name + "_" + rest)[0] == '_';
    } else {
      assert (name + "_" + rest)[1..] == name[1..] + "_" + rest;
      BeforeUnderscoreOf(name[1..], rest);
      assert [name[0]] + name[1..] == name;
    }
  }

  lemma UpperOfUpper(g: string)
    requires forall k :: 0 <= k < |g| ==> 'A' <= g[k] <= 'Z'
    ensures Upper(g) == g
  {
  }

  /** A group name decodes to the catalog name it was built from, when that
      name is upper case and does not start with `U`... */
  lemma NamedGroupKind(name: string, rest: string)
    requires 0 < |name| && forall k :: 0 <= k < |name| ==> 'A' <= name[k] <= 'Z'
    requires name[0] != 'U'
    ensures GroupKind(name + "_" + rest) == Lookup(name)
  {
    var g := name + "_" + rest;
    assert !StartsWith(g, "UNKNOWN") by {
      if 7 <= |g| {
        assert g[..7][0] == g[0] == name[0];
      }
    }
    BeforeUnderscoreOf(name, rest);
    UpperOfUpper(name);
  }

  /** ... and the UNKNOWN group yields no kind. */
  lemma UnknownGroupKind(rest: string)
    ensures GroupKind("UNKNOWN" + "_" + rest) == None
  {
    var g := "UNKNOWN" + "_" + rest;
    assert g[..7] == "UNKNOWN";
  }

  /** The group of entry `e` yields the kind its catalog name names, and only
      the UNKNOWN entry yields none. */
  lemma GroupKindOfEntry(e: nat)
    requires e < 13
    ensures GroupKind(GroupName(e)) == if e == 12 then None else Some(EntryKind(e))
  {
    if e == 12 {
      UnknownGroupKind(Decimal(e + 1));
    } else {
      EntryNameShape(e);
      NamedGroupKind(EntryAt(e).name, Decimal(e + 1));
      EntryKindName(e);
    }
  }

  /** The names of the entries other than UNKNOWN are upper case and do not start with `U`. */
  lemma EntryNameShape(e: nat)
    requires e < 12
    ensures 0 < |EntryAt(e).name| && EntryAt(e).name[0] != 'U'
    ensures forall k :: 0 <= k < |EntryAt(e).name| ==> 'A' <= EntryAt(e).name[k] <= 'Z'
  {
  }

  lemma EntryKindName(e: nat)
    requires e < 12
    ensures Lookup(EntryAt(e).name) == Some(EntryKind(e))
  {
  }

  /** The kind each entry produces, in catalog order. */
  function EntryKind(e: nat): TokenKind
    requires e < 12
  {
    if e < 4 then [FOR, IN, RANGE, PRINT][e]
    else if e == 4 then IDENTIFIER
    else if e == 5 then INTEGER
    else if e == 6 then COMMA
    else if e < 9 then STRING
    else if e == 9 then LPAREN
    else if e == 10 then RPAREN
    else COLON
  }

  /* ---------- what the ordered catalog recognizes, character class by character class ---------- */

  /** The kind of a whole word: one of the four keywords, else IDENTIFIER. Case matters. */
  function WordKind(w: string): TokenKind
  {
    if w == "para" then FOR
    else if w == "no" then IN
    else if w == "intervalo" then RANGE
    else if w == "escreva" then PRINT
    else IDENTIFIER
  }

  predicate IsSymbol(c: char) { c == ',' || c == '(' || c == ')' || c == ':' }

  function SymbolKind(c: char): TokenKind
    requires IsSymbol(c)
  {
    if c == ',' then COMMA else if c == '(' then LPAREN else if c == ')' then RPAREN else COLON
  }

  /** Space, tab and newline: no pattern matches them and UNKNOWN excludes them. */
  predicate IsBlank(c: char) { c == ' ' || c == '\t' || c == '\n' }

  /** A character that only the UNKNOWN entry matches. */
  predicate IsUnknownChar(c: char) { !IsUnknownClassExcluded(c) && !IsSymbol(c) }

  /** A reference lexer written per character class, independent of the catalog's order. */
  function Expected(s: string, i: nat): (r: Recognized)
    requires i < |s|
    ensures r.Emit? ==> 0 < r.length && i + r.length <= |s|
    ensures r.Emit? ==> r.kind != PLUS && r.kind != ASSIGN
  {
    var c := s[i];
    if IsDigit(c) then Emit(INTEGER, DigitsEnd(s, i + 1) - i)
    else if IsIdentStart(c) then
      if AtBoundary(s, i) then
        var e := WordEnd(s, i + 1);
        Emit(WordKind(s[i..e]), e - i)
      else Skip  // glued to a preceding word character: nothing matches here
    else if c == '\'' || c == '"' then
      match FindQuote(s, c, i + 1)
      case Some(j) => Emit(STRING, j + 1 - i)
      case None => Skip  // an unpaired quote
    else if IsSymbol(c) then Emit(SymbolKind(c), 1)
    else if IsBlank(c) then Skip
    else Halt
  }

  /** At a word start a keyword entry matches exactly when the whole word is that keyword. */
  lemma WholeWordAtWordStart(s: string, i: nat, w: Keyword)
    requires i < |s| && IsIdentStart(s[i]) && AtBoundary(s, i)
    ensures MatchLength(WholeWord(w), s, i).Some? <==> s[i..WordEnd(s, i + 1)] == w
  {
    if WholeWordAt(s, i, w) {
      WholeWordIsRun(s, i, w);
    }
    if s[i..WordEnd(s, i + 1)] == w {
      RunIsWholeWord(s, i, w);
    }
  }

  lemma WholeWordIsRun(s: string, i: nat, w: Keyword)
    requires i < |s| && WholeWordAt(s, i, w)
    ensures s[i..WordEnd(s, i + 1)] == w
  {
    var f := i + |w|;
    forall k | i + 1 <= k < f ensures IsWordChar(s[k]) {
      assert s[k] == s[i..f][k - i] == w[k - i];
    }
    assert IsWordChar(s[f - 1]) by { assert s[f - 1] == s[i..f][|w| - 1] == w[|w| - 1]; }
    WordEndUnique(s, i + 1, f);
  }

  lemma RunIsWholeWord(s: string, i: nat, w: Keyword)
    requires i < |s| && IsIdentStart(s[i]) && AtBoundary(s, i)
    requires s[i..WordEnd(s, i + 1)] == w
    ensures WholeWordAt(s, i, w)
  {
    var e := WordEnd(s, i + 1);
    assert IsWordChar(s[e - 1]);
  }

  /** The end of a word run is the first non-word position. */
  lemma {:induction false} WordEndUnique(s: string, j: nat, f: nat)
    requires j <= f <= |s|
    requires forall k :: j <= k < f ==> IsWordChar(s[k])
    requires f == |s| || !IsWordChar(s[f])
    ensures WordEnd(s, j) == f
    decreases f - j
  {
    if j < f {
      WordEndUnique(s, j + 1, f);
    }
  }

  /** The four keywords, in catalog order. */
  function KeywordOf(e: nat): Keyword
    requires e < 4
  {
    if e == 0 then "para" else if e == 1 then "no" else if e == 2 then "intervalo" else "escreva"
  }

  /** At a word start, keyword entry `e` matches exactly when the word is its keyword. */
  lemma KeywordEntry(s: string, i: nat, e: nat)
    requires i < |s| && IsIdentStart(s[i]) && AtBoundary(s, i) && e < 4
    ensures EntryAt(e).pattern == WholeWord(KeywordOf(e))
    ensures s[i..WordEnd(s, i + 1)] == KeywordOf(e) ==>
      MatchLength(EntryAt(e).pattern, s, i) == Some(WordEnd(s, i + 1) - i)
    ensures s[i..WordEnd(s, i + 1)] != KeywordOf(e) ==> MatchLength(EntryAt(e).pattern, s, i) == None
  {
    WholeWordAtWordStart(s, i, KeywordOf(e));
  }

  /** At a word start, the search passes the keyword entries that differ from the word. */
  lemma {:induction false} KeywordsBefore(s: string, i: nat, e: nat)
    requires i < |s| && IsIdentStart(s[i]) && AtBoundary(s, i) && e <= 4
    requires forall d :: 0 <= d < e ==> s[i..WordEnd(s, i + 1)] != KeywordOf(d)
    ensures FirstMatch(s, i, 0) == FirstMatch(s, i, e)
    decreases e
  {
    if e > 0 {
      KeywordsBefore(s, i, e - 1);
      KeywordEntry(s, i, e - 1);
      assert FirstMatch(s, i, e - 1) == FirstMatch(s, i, e);
    }
  }

  /** A letter or underscore at a word start: the first four entries decide
      between the keywords, then IDENTIFIER takes the whole word. */
  lemma RecognizeWordStart(s: string, i: nat)
    requires i < |s| && IsIdentStart(s[i]) && AtBoundary(s, i)
    ensures Recognize(s, i) == Expected(s, i)
  {
    var word := s[i..WordEnd(s, i + 1)];
    if word == "para" {
      RecognizeKeyword(s, i, 0);
    } else if word == "no" {
      RecognizeKeyword(s, i, 1);
    } else if word == "intervalo" {
      RecognizeKeyword(s, i, 2);
    } else if word == "escreva" {
      RecognizeKeyword(s, i, 3);
    } else {
      KeywordsBefore(s, i, 4);
      IdentifierHit(s, i);
      RecognizeHit(s, i, Hit(4, WordEnd(s, i + 1) - i));
    }
  }

  /** The outcome at `i` once the search's winner is known. */
  lemma RecognizeHit(s: string, i: nat, h: Hit)
    requires i < |s| && FirstMatch(s, i, 0) == Some(h)
    ensures h.entry < 13
    ensures Recognize(s, i) == if h.entry == 12 then Halt else Emit(EntryKind(h.entry), h.length)
  {
  }

  /** Where no entry matches, the scan moves on. */
  lemma RecognizeMiss(s: string, i: nat)
    requires i < |s| && FirstMatch(s, i, 0) == None
    ensures Recognize(s, i) == Skip
  {
  }

  /** The keywords differ in length, so a word is at most one of them. */
  lemma KeywordsDiffer(d: nat, e: nat)
    requires d < e < 4
    ensures |KeywordOf(d)| != |KeywordOf(e)|
  {
  }

  lemma RecognizeKeyword(s: string, i: nat, e: nat)
    requires i < |s| && IsIdentStart(s[i]) && AtBoundary(s, i) && e < 4
    requires s[i..WordEnd(s, i + 1)] == KeywordOf(e)
    ensures Recognize(s, i) == Emit(EntryKind(e), WordEnd(s, i + 1) - i)
  {
    forall d | 0 <= d < e ensures s[i..WordEnd(s, i + 1)] != KeywordOf(d) {
      KeywordsDiffer(d, e);
    }
    KeywordsBefore(s, i, e);
    KeywordEntry(s, i, e);
    FirstMatchStep(s, i, e);
    RecognizeHit(s, i, Hit(e, WordEnd(s, i + 1) - i));
  }

  /** No keyword entry matches where no letter stands: the search goes on at IDENTIFIER. */
  lemma KeywordsPassed(s: string, i: nat)
    requires i < |s| && !(IsAsciiLetter(s[i]) && AtBoundary(s, i))
    ensures FirstMatch(s, i, 0) == FirstMatch(s, i, 4)
  {
    KeywordPassed(s, i, 0);
    KeywordPassed(s, i, 1);
    KeywordPassed(s, i, 2);
    KeywordPassed(s, i, 3);
  }

  /** Keyword entry `e` does not match where no letter starts a word. */
  lemma KeywordPassed(s: string, i: nat, e: nat)
    requires i < |s| && !(IsAsciiLetter(s[i]) && AtBoundary(s, i)) && e < 4
    ensures FirstMatch(s, i, e) == FirstMatch(s, i, e + 1)
  {
    NoWholeWordHere(s, i, KeywordOf(e));
    FirstMatchStep(s, i, e);
    assert EntryAt(e).pattern == WholeWord(KeywordOf(e));
  }

  /** `\bw\b` needs a letter starting a word. */
  lemma NoWholeWordHere(s: string, i: nat, w: Keyword)
    requires i < |s| && !(IsAsciiLetter(s[i]) && AtBoundary(s, i))
    ensures !WholeWordAt(s, i, w)
  {
    if i + |w| <= |s| {
      assert s[i..i + |w|][0] == s[i];
    }
  }

  /** One step of the search: entry `e` wins if its pattern matches, else the search goes on. */
  lemma FirstMatchStep(s: string, i: nat, e: nat)
    requires i < |s| && e < 13
    ensures FirstMatch(s, i, e) ==
      match MatchLength(EntryAt(e).pattern, s, i)
      case Some(n) => Some(Hit(e, n))
      case None => FirstMatch(s, i, e + 1)
  {
  }

  // The entries after the keywords, each taken on its own.

  /** IDENTIFIER matches the whole word at a word start... */
  lemma IdentifierHit(s: string, i: nat)
    requires i < |s| && AtBoundary(s, i) && IsIdentStart(s[i])
    ensures FirstMatch(s, i, 4) == Some(Hit(4, WordEnd(s, i + 1) - i))
  {
    FirstMatchStep(s, i, 4);
    IdentifierMatch(s, i);
  }

  /** ... and nothing elsewhere. */
  lemma IdentifierPassed(s: string, i: nat)
    requires i < |s| && !(AtBoundary(s, i) && IsIdentStart(s[i]))
    ensures FirstMatch(s, i, 4) == FirstMatch(s, i, 5)
  {
    FirstMatchStep(s, i, 4);
    IdentifierMiss(s, i);
  }

  lemma IdentifierMatch(s: string, i: nat)
    requires i < |s| && AtBoundary(s, i) && IsIdentStart(s[i])
    ensures MatchLength(EntryAt(4).pattern, s, i) == Some(WordEnd(s, i + 1) - i)
  {
    assert EntryAt(4).pattern == IdentifierPattern;
    IdentifierEnd(s, i);
    assert MatchLength(IdentifierPattern, s, i) == Some(WordEnd(s, i + 1) - i);
  }

  lemma IdentifierMiss(s: string, i: nat)
    requires i < |s| && !(AtBoundary(s, i) && IsIdentStart(s[i]))
    ensures MatchLength(EntryAt(4).pattern, s, i) == None
  {
    assert EntryAt(4).pattern == IdentifierPattern;
  }

  /** INTEGER matches the run of digits at a digit. */
  lemma DigitsEntry(s: string, i: nat)
    requires i < |s|
    ensures FirstMatch(s, i, 5) == if IsDigit(s[i]) then Some(Hit(5, DigitsEnd(s, i + 1) - i)) else FirstMatch(s, i, 6)
  {
    assert EntryAt(5).pattern == DigitsPattern;
  }

  /** The one-character entries `,`, `(`, `)` and `:`. */
  lemma SymbolEntry(s: string, i: nat, e: nat)
    requires i < |s| && (e == 6 || 9 <= e <= 11)
    ensures EntryAt(e).pattern.CharPattern?
    ensures FirstMatch(s, i, e) == if s[i] == EntryAt(e).pattern.c then Some(Hit(e, 1)) else FirstMatch(s, i, e + 1)
  {
  }

  /** The two quoted-string entries: a quote up to the next quote of its kind. */
  lemma QuoteEntry(s: string, i: nat, e: nat)
    requires i < |s| && 7 <= e <= 8
    ensures EntryAt(e).pattern == QuotedPattern(if e == 7 then '\'' else '"')
    ensures var q := EntryAt(e).pattern.quote;
      FirstMatch(s, i, e) ==
        if s[i] == q && FindQuote(s, q, i + 1).Some? then Some(Hit(e, FindQuote(s, q, i + 1).value + 1 - i))
        else FirstMatch(s, i, e + 1)
  {
  }

  /** UNKNOWN, the last entry, takes one character outside its excluded class. */
  lemma UnknownEntry(s: string, i: nat)
    requires i < |s|
    ensures FirstMatch(s, i, 12) == if IsUnknownClassExcluded(s[i]) then None else Some(Hit(12, 1))
  {
    assert EntryAt(12).pattern == OtherCharPattern;
    assert FirstMatch(s, i, 13) == None;
  }

  /** Where no word character stands, the search goes on at COMMA. */
  lemma WordEntriesPassed(s: string, i: nat)
    requires i < |s| && !IsWordChar(s[i])
    ensures FirstMatch(s, i, 0) == FirstMatch(s, i, 6)
  {
    KeywordsPassed(s, i);
    IdentifierPassed(s, i);
    DigitsEntry(s, i);
  }

  /** Where none of `,'"():` stands, the search goes on at UNKNOWN. */
  lemma CharEntriesPassed(s: string, i: nat)
    requires i < |s| && !IsSymbol(s[i]) && s[i] != '\'' && s[i] != '"'
    ensures FirstMatch(s, i, 6) == FirstMatch(s, i, 12)
  {
    SymbolEntry(s, i, 6);
    QuoteEntry(s, i, 7);
    QuoteEntry(s, i, 8);
    SymbolEntry(s, i, 9);
    SymbolEntry(s, i, 10);
    SymbolEntry(s, i, 11);
  }

  /** A letter, digit or underscore glued to a preceding word character matches nothing. */
  lemma RecognizeInsideWord(s: string, i: nat)
    requires i < |s| && IsIdentStart(s[i]) && !AtBoundary(s, i)
    ensures Recognize(s, i) == Skip
  {
    KeywordsPassed(s, i);
    IdentifierPassed(s, i);
    DigitsEntry(s, i);
    CharEntriesPassed(s, i);
    UnknownEntry(s, i);
  }

  /** A digit: INTEGER takes the maximal run of digits. */
  lemma RecognizeDigit(s: string, i: nat)
    requires i < |s| && IsDigit(s[i])
    ensures Recognize(s, i) == Emit(INTEGER, DigitsEnd(s, i + 1) - i)
  {
    KeywordsPassed(s, i);
    IdentifierPassed(s, i);
    DigitsEntry(s, i);
  }

  /** A quote: STRING up to the next quote of the same kind, or nothing when it is unpaired. */
  lemma RecognizeQuote(s: string, i: nat)
    requires i < |s| && (s[i] == '\'' || s[i] == '"')
    ensures Recognize(s, i) == Expected(s, i)
  {
    WordEntriesPassed(s, i);
    SymbolEntry(s, i, 6);
    QuoteEntry(s, i, 7);
    QuoteEntry(s, i, 8);
    if FindQuote(s, s[i], i + 1).None? {
      CharEntriesRest(s, i);
    }
  }

  /** Past the quote entries, a character that is none of `():` and is
      excluded from UNKNOWN matches nothing at all. */
  lemma CharEntriesRest(s: string, i: nat)
    requires i < |s| && !IsSymbol(s[i]) && IsUnknownClassExcluded(s[i])
    ensures FirstMatch(s, i, 9) == None
  {
    SymbolEntry(s, i, 9);
    SymbolEntry(s, i, 10);
    SymbolEntry(s, i, 11);
    UnknownEntry(s, i);
  }

  /** One of `,():` gives its one-character token. */
  lemma RecognizeSymbol(s: string, i: nat)
    requires i < |s| && IsSymbol(s[i])
    ensures Recognize(s, i) == Emit(SymbolKind(s[i]), 1)
  {
    WordEntriesPassed(s, i);
    SymbolEntry(s, i, 6);
    QuoteEntry(s, i, 7);
    QuoteEntry(s, i, 8);
    SymbolEntry(s, i, 9);
    SymbolEntry(s, i, 10);
    SymbolEntry(s, i, 11);
  }

  /** Space, tab and newline match nothing. */
  lemma RecognizeBlank(s: string, i: nat)
    requires i < |s| && IsBlank(s[i])
    ensures Recognize(s, i) == Skip
  {
    WordEntriesPassed(s, i);
    CharEntriesPassed(s, i);
    UnknownEntry(s, i);
  }

  /** Any other character is matched by UNKNOWN only, and the scan halts. */
  lemma RecognizeUnknown(s: string, i: nat)
    requires i < |s| && IsUnknownChar(s[i])
    ensures Recognize(s, i) == Halt
  {
    WordEntriesPassed(s, i);
    CharEntriesPassed(s, i);
    UnknownEntry(s, i);
  }

  /** The ordered catalog recognizes exactly what the reference lexer `Expected`
      describes, at every position of every text. */
  lemma RecognizeMeetsExpected(s: string, i: nat)
    requires i < |s|
    ensures Recognize(s, i) == Expected(s, i)
  {
    var c := s[i];
    if IsDigit(c) {
      RecognizeDigit(s, i);
    } else if IsIdentStart(c) {
      if AtBoundary(s, i) {
        RecognizeWordStart(s, i);
      } else {
        RecognizeInsideWord(s, i);
      }
    } else if c == '\'' || c == '"' {
      RecognizeQuote(s, i);
    } else if IsSymbol(c) {
      RecognizeSymbol(s, i);
    } else if IsBlank(c) {
      RecognizeBlank(s, i);
    } else {
      RecognizeUnknown(s, i);
    }
  }

  /* ---------- the scan: finditer over the whole text ---------- */

  /** The verdict at every position of the text from `i` on, as the reference
      lexer gives it (the catalog gives the same, by `RecognizeMeetsExpected`). */
  function Verdicts(s: string, i: nat): (rs: seq<Recognized>)
    requires i <= |s|
    ensures |rs| == |s| - i && Fits(rs)
    decreases |s| - i
  {
    if i == |s| then [] else [Expected(s, i)] + Verdicts(s, i + 1)
  }

  lemma {:induction false} VerdictAt(s: string, i: nat, k: nat)
    requires i + k < |s|
    ensures Verdicts(s, i)[k] == Expected(s, i + k)
    decreases k
  {
    if k > 0 {
      VerdictAt(s, i + 1, k - 1);
    }
  }

  /** Every match ends inside the text. */
  predicate Fits(rs: seq<Recognized>)
  {
    forall i :: 0 <= i < |rs| && rs[i].Emit? ==> 0 < rs[i].length <= |rs| - i
  }

  /** A token found by the scan, as the span of text it covers. */
  datatype Lexeme = Lexeme(kind: TokenKind, start: nat, end: nat)

  /** What a scan started at some position produces: the spans it emits, in
      order, and where it stops. */
  datatype Trace = Trace(lexemes: seq<Lexeme>, stop: nat)

  /** After a match the scan goes on at the match's end, where nothing matches
      it moves on by one character, and UNKNOWN ends it. */
  function Run(rs: seq<Recognized>, i: nat): (t: Trace)
    requires Fits(rs) && i <= |rs|
    ensures i <= t.stop <= |rs|
    ensures InRange(t.lexemes, i, t.stop) && Ordered(t.lexemes)
    decreases |rs| - i
  {
    if i == |rs| then Trace([], i)
    else match rs[i]
      case Skip => Run(rs, i + 1)
      case Halt => Trace([], i)
      case Emit(k, n) =>
        var rest := Run(rs, i + n);
        Trace([Lexeme(k, i, i + n)] + rest.lexemes, rest.stop)
  }

  /** Every span is non-empty and lies between `lo` and `hi`. */
  predicate InRange(ls: seq<Lexeme>, lo: nat, hi: nat)
  {
    forall k :: 0 <= k < |ls| ==> lo <= ls[k].start < ls[k].end <= hi
  }

  /** The spans follow one another without overlapping. */
  predicate Ordered(ls: seq<Lexeme>)
  {
    forall a, b :: 0 <= a < b < |ls| ==> ls[a].end <= ls[b].start
  }

  /** Every span is a match of its kind and length at its start. */
  predicate AreMatches(rs: seq<Recognized>, ls: seq<Lexeme>)
  {
    forall k :: 0 <= k < |ls| ==>
      ls[k].start <= ls[k].end && ls[k].start < |rs| &&
      rs[ls[k].start] == Emit(ls[k].kind, ls[k].end - ls[k].start)
  }

  /** Position `j` lies inside one of the spans. */
  ghost predicate Covered(ls: seq<Lexeme>, j: nat)
  {
    exists k :: 0 <= k < |ls| && ls[k].start <= j < ls[k].end
  }

  /** Every position from `lo` to `hi` that no span covers is one where nothing matches. */
  ghost predicate GapsSkip(rs: seq<Recognized>, ls: seq<Lexeme>, lo: nat, hi: nat)
    requires hi <= |rs|
  {
    forall j :: lo <= j < hi && !Covered(ls, j) ==> rs[j] == Skip
  }

  /** A trace described by what it must satisfy rather than how it is built:
      the spans lie in order between `i` and the stop, each is a match at its
      start, every uncovered position before the stop is one where nothing
      matches, and the stop is the end of the text or an UNKNOWN match. */
  ghost predicate IsTraceOf(rs: seq<Recognized>, i: nat, t: Trace)
  {
    i <= t.stop <= |rs| &&
    (t.stop < |rs| ==> rs[t.stop] == Halt) &&
    InRange(t.lexemes, i, t.stop) &&
    Ordered(t.lexemes) &&
    AreMatches(rs, t.lexemes) &&
    GapsSkip(rs, t.lexemes, i, t.stop)
  }

  /** The scan satisfies the description. */
  lemma RunIsTrace(rs: seq<Recognized>, i: nat)
    requires Fits(rs) && i <= |rs|
    ensures IsTraceOf(rs, i, Run(rs, i))
  {
    RunStops(rs, i);
    RunMatches(rs, i);
    RunGaps(rs, i);
  }

  lemma {:induction false} RunStops(rs: seq<Recognized>, i: nat)
    requires Fits(rs) && i <= |rs|
    ensures Run(rs, i).stop < |rs| ==> rs[Run(rs, i).stop] == Halt
    decreases |rs| - i
  {
    if i < |rs| && !rs[i].Halt? {
      RunStops(rs, if rs[i].Skip? then i + 1 else i + rs[i].length);
    }
  }

  lemma {:induction false} RunMatches(rs: seq<Recognized>, i: nat)
    requires Fits(rs) && i <= |rs|
    ensures AreMatches(rs, Run(rs, i).lexemes)
    decreases |rs| - i
  {
    if i < |rs| && !rs[i].Halt? {
      RunMatches(rs, if rs[i].Skip? then i + 1 else i + rs[i].length);
    }
  }

  lemma {:induction false} RunGaps(rs: seq<Recognized>, i: nat)
    requires Fits(rs) && i <= |rs|
    ensures GapsSkip(rs, Run(rs, i).lexemes, i, Run(rs, i).stop)
    decreases |rs| - i
  {
    if i < |rs| {
      match rs[i]
      case Halt =>
      case Skip =>
        RunGaps(rs, i + 1);
      case Emit(k, n) =>
        var rest := Run(rs, i + n);
        RunGaps(rs, i + n);
        var ls := Run(rs, i).lexemes;
        assert ls == [Lexeme(k, i, i + n)] + rest.lexemes;
        assert ls[1..] == rest.lexemes;
        assert Run(rs, i).stop == rest.stop;
        forall j | i <= j < rest.stop && !Covered(ls, j) ensures rs[j] == Skip {
          CoveredByParts(ls, j);
        }
    }
  }

  /** The description fixes the trace: there is exactly one. */
  lemma {:induction false} TraceUnique(rs: seq<Recognized>, i: nat, t1: Trace, t2: Trace)
    requires i <= |rs| && IsTraceOf(rs, i, t1) && IsTraceOf(rs, i, t2)
    ensures t1 == t2
    decreases |rs| - i
  {
    if i == |rs| {
      SpanCount(t1.lexemes, i, i);
      SpanCount(t2.lexemes, i, i);
    } else {
      match rs[i]
      case Halt =>
        NotCoveredAtStart(rs, i, t1);
        NotCoveredAtStart(rs, i, t2);
      case Skip =>
        NotCoveredAtStart(rs, i, t1);
        NotCoveredAtStart(rs, i, t2);
        TraceUnique(rs, i + 1, t1, t2);
      case Emit(k, n) =>
        var r1 := TailTrace(rs, i, t1);
        var r2 := TailTrace(rs, i, t2);
        TraceUnique(rs, i + n, r1, r2);
        SameHeadSameTrace(t1, t2);
    }
  }

  /** Two traces with the same first span and the same rest are the same. */
  lemma SameHeadSameTrace(t1: Trace, t2: Trace)
    requires 0 < |t1.lexemes| && 0 < |t2.lexemes| && t1.lexemes[0] == t2.lexemes[0]
    requires Trace(t1.lexemes[1..], t1.stop) == Trace(t2.lexemes[1..], t2.stop)
    ensures t1 == t2
  {
    assert t1.lexemes == [t1.lexemes[0]] + t1.lexemes[1..];
    assert t2.lexemes == [t2.lexemes[0]] + t2.lexemes[1..];
  }

  /** Ordered non-empty spans between `lo` and `hi` number at most `hi - lo`. */
  lemma {:induction false} SpanCount(ls: seq<Lexeme>, lo: nat, hi: nat)
    requires lo <= hi && InRange(ls, lo, hi) && Ordered(ls)
    ensures |ls| <= hi - lo
    decreases |ls|
  {
    if |ls| > 0 {
      DropFirstSpan(ls, lo, hi);
      SpanCount(ls[1..], ls[0].end, hi);
    }
  }

  /** A position covered by the first span, or by one of the others, is covered. */
  lemma CoveredByParts(ls: seq<Lexeme>, j: nat)
    requires 0 < |ls|
    ensures ls[0].start <= j < ls[0].end ==> Covered(ls, j)
    ensures Covered(ls[1..], j) ==> Covered(ls, j)
  {
    if Covered(ls[1..], j) {
      var k :| 0 <= k < |ls[1..]| && ls[1..][k].start <= j < ls[1..][k].end;
      assert ls[k + 1] == ls[1..][k];
    }
  }

  /** Where no match starts at `i`, the trace from `i` is also one from `i + 1`
      (or stops at `i`, on an UNKNOWN match). */
  lemma NotCoveredAtStart(rs: seq<Recognized>, i: nat, t: Trace)
    requires i < |rs| && !rs[i].Emit? && IsTraceOf(rs, i, t)
    ensures rs[i].Halt? ==> t == Trace([], i)
    ensures rs[i].Skip? ==> IsTraceOf(rs, i + 1, t)
  {
    var ls := t.lexemes;
    forall k | 0 <= k < |ls| ensures i + 1 <= ls[k].start {
      assert ls[k].start != i by { assert rs[ls[k].start].Emit?; }
    }
    assert !Covered(ls, i);
    if rs[i].Halt? {
      assert t.stop == i;
      SpanCount(ls, i, i);
    } else {
      assert t.stop != i;
    }
  }

  /** Where a match of length `n` starts at `i`, the trace from `i` begins with
      that span and goes on with a trace from `i + n`. */
  lemma TailTrace(rs: seq<Recognized>, i: nat, t: Trace) returns (rest: Trace)
    requires i < |rs| && rs[i].Emit? && IsTraceOf(rs, i, t)
    ensures 0 < |t.lexemes| && t.lexemes[0] == Lexeme(rs[i].kind, i, i + rs[i].length)
    ensures rest == Trace(t.lexemes[1..], t.stop)
    ensures IsTraceOf(rs, i + rs[i].length, rest)
  {
    FirstSpan(rs, i, t);
    rest := Trace(t.lexemes[1..], t.stop);
    DropFirstSpan(t.lexemes, i, t.stop);
    DropFirstMatch(rs, t.lexemes);
    DropFirstGaps(rs, t.lexemes, i, t.stop);
  }

  /** Without its first span, an ordered list of spans lies after that span. */
  lemma DropFirstSpan(ls: seq<Lexeme>, lo: nat, hi: nat)
    requires 0 < |ls| && InRange(ls, lo, hi) && Ordered(ls)
    ensures InRange(ls[1..], ls[0].end, hi) && Ordered(ls[1..])
  {
    forall k | 0 <= k < |ls[1..]| ensures ls[0].end <= ls[1..][k].start {
      assert ls[1..][k] == ls[k + 1];
    }
    forall a, b | 0 <= a < b < |ls[1..]| ensures ls[1..][a].end <= ls[1..][b].start {
      assert ls[1..][a] == ls[a + 1] && ls[1..][b] == ls[b + 1];
    }
  }

  lemma DropFirstMatch(rs: seq<Recognized>, ls: seq<Lexeme>)
    requires 0 < |ls| && AreMatches(rs, ls)
    ensures AreMatches(rs, ls[1..])
  {
    forall k | 0 <= k < |ls[1..]|
      ensures ls[1..][k].start <= ls[1..][k].end && ls[1..][k].start < |rs|
      ensures rs[ls[1..][k].start] == Emit(ls[1..][k].kind, ls[1..][k].end - ls[1..][k].start)
    {
      assert ls[1..][k] == ls[k + 1];
    }
  }

  /** Past the first span, a position no other span covers is covered by none. */
  lemma DropFirstGaps(rs: seq<Recognized>, ls: seq<Lexeme>, lo: nat, hi: nat)
    requires 0 < |ls| && hi <= |rs| && GapsSkip(rs, ls, lo, hi) && lo <= ls[0].end
    ensures GapsSkip(rs, ls[1..], ls[0].end, hi)
  {
    forall j | ls[0].end <= j < hi && !Covered(ls[1..], j) ensures rs[j] == Skip {
      CoveredSplit(ls, j);
    }
  }

  /** A covered position is covered by the first span or by one of the others. */
  lemma CoveredSplit(ls: seq<Lexeme>, j: nat)
    requires 0 < |ls|
    ensures Covered(ls, j) <==> (ls[0].start <= j < ls[0].end || Covered(ls[1..], j))
  {
    if Covered(ls, j) {
      var k :| 0 <= k < |ls| && ls[k].start <= j < ls[k].end;
      if k > 0 {
        assert ls[1..][k - 1] == ls[k];
      }
    }
    CoveredByParts(ls, j);
  }

  /** Where a match starts at `i`, the first span of the trace from `i` is that match. */
  lemma FirstSpan(rs: seq<Recognized>, i: nat, t: Trace)
    requires i < |rs| && rs[i].Emit? && IsTraceOf(rs, i, t)
    ensures 0 < |t.lexemes| && t.lexemes[0] == Lexeme(rs[i].kind, i, i + rs[i].length)
  {
    var ls := t.lexemes;
    assert t.stop != i;
    assert Covered(ls, i);
    var k :| 0 <= k < |ls| && ls[k].start <= i < ls[k].end;
    assert ls[0].start <= ls[k].start;
    assert ls[0].start == i;
  }

  /** The tokens the spans stand for: kind and matched text. */
  function TokensOf(s: string, ls: seq<Lexeme>): (r: seq<Token>)
    requires InRange(ls, 0, |s|)
    ensures |r| == |ls|
    ensures forall k :: 0 <= k < |ls| ==> r[k] == Token(ls[k].kind, s[ls[k].start..ls[k].end])
  {
    seq(|ls|, k requires 0 <= k < |ls| => Token(ls[k].kind, s[ls[k].start..ls[k].end]))
  }

  /** `Lexer.scanner(expression)`: the tokens found before the end of the text
      or the first UNKNOWN character the scan reaches, whichever comes first. */
  function Scan(s: string): (r: seq<Token>)
    ensures |r| <= |s|
    ensures forall k :: 0 <= k < |r| ==> r[k].text != []
  {
    var ls := Run(Verdicts(s, 0), 0).lexemes;
    SpanCount(ls, 0, |s|);
    TokensOf(s, ls)
  }

  /** `Lexer.scanner` as the source runs it: `finditer` over the combined
      pattern, moving on by one character where nothing matches and past the
      match where something does; a group named UNKNOWN ends the scan with
      the tokens found so far. */
  method Scanner(expression: string) returns (tokens: seq<Token>)
    ensures tokens == Scan(expression)
  {
    ghost var done: seq<Lexeme> := [];
    tokens := [];
    var i := 0;
    ScanStart(expression);
    while i < |expression|
      invariant Scanned(expression, i, done, tokens)
      decreases |expression| - i
    {
      var r := ScanAt(expression, i);
      match r
      case Skip =>
        ScanSkip(expression, i, done, tokens);
        i := i + 1;
      case Halt =>
        ScanStop(expression, i, done, tokens);
        return;
      case Emit(kind, n) =>
        ScanEmit(expression, i, done, tokens, kind, n);
        tokens := tokens + [Token(kind, expression[i..i + n])];
        done := done + [Lexeme(kind, i, i + n)];
        i := i + n;
    }
    ScanStop(expression, i, done, tokens);
  }

  /** What the scan has established once it reaches `i`: the spans found so
      far lie before `i`, the whole scan is those spans followed by the scan
      from `i`, and the tokens are the spans' tokens. */
  ghost predicate Scanned(s: string, i: nat, done: seq<Lexeme>, tokens: seq<Token>)
  {
    i <= |s| && InRange(done, 0, i) &&
    Run(Verdicts(s, 0), 0).lexemes == done + Run(Verdicts(s, 0), i).lexemes &&
    tokens == TokensOf(s, done)
  }

  lemma ScanStart(s: string)
    ensures Scanned(s, 0, [], [])
  {
  }

  /** Where nothing matches, the scan moves on by one character. */
  lemma ScanSkip(s: string, i: nat, done: seq<Lexeme>, tokens: seq<Token>)
    requires Scanned(s, i, done, tokens) && i < |s| && Expected(s, i) == Skip
    ensures Scanned(s, i + 1, done, tokens)
  {
    VerdictAt(s, 0, i);
    RunStep(Verdicts(s, 0), i);
  }

  /** A match adds its span and its token and the scan goes on past it. */
  lemma ScanEmit(s: string, i: nat, done: seq<Lexeme>, tokens: seq<Token>, kind: TokenKind, n: nat)
    requires Scanned(s, i, done, tokens) && i < |s| && Expected(s, i) == Emit(kind, n)
    ensures 0 < n && i + n <= |s|
    ensures Scanned(s, i + n, done + [Lexeme(kind, i, i + n)], tokens + [Token(kind, s[i..i + n])])
  {
    var rs := Verdicts(s, 0);
    VerdictAt(s, 0, i);
    var l := Lexeme(kind, i, i + n);
    RunEmit(rs, done, l);
    InRangeSnoc(done, l, 0);
    assert InRange(done, 0, |s|);
    TokensOfSnoc(s, done, l);
    assert TokensOf(s, done + [l]) == tokens + [Token(kind, s[i..i + n])];
  }

  lemma InRangeSnoc(ls: seq<Lexeme>, l: Lexeme, lo: nat)
    requires InRange(ls, lo, l.start) && lo <= l.start < l.end
    ensures InRange(ls + [l], lo, l.end)
  {
    forall k | 0 <= k < |ls + [l]| ensures lo <= (ls + [l])[k].start < (ls + [l])[k].end <= l.end {
      if k < |ls| {
        assert (ls + [l])[k] == ls[k];
      }
    }
  }

  /** At the end of the text or at an UNKNOWN character the tokens found are all there are. */
  lemma ScanStop(s: string, i: nat, done: seq<Lexeme>, tokens: seq<Token>)
    requires Scanned(s, i, done, tokens) && (i == |s| || (i < |s| && Expected(s, i) == Halt))
    ensures tokens == Scan(s)
  {
    if i < |s| {
      VerdictAt(s, 0, i);
    }
    RunDone(Verdicts(s, 0), i, done);
  }

  /** One step of the scan. */
  lemma RunStep(rs: seq<Recognized>, i: nat)
    requires Fits(rs) && i < |rs|
    ensures rs[i].Skip? ==> Run(rs, i) == Run(rs, i + 1)
    ensures rs[i].Halt? ==> Run(rs, i).lexemes == []
    ensures rs[i].Emit? ==>
      Run(rs, i).lexemes == [Lexeme(rs[i].kind, i, i + rs[i].length)] + Run(rs, i + rs[i].length).lexemes
  {
  }

  /** Where the scan stops, the spans found so far are all there are. */
  lemma RunDone(rs: seq<Recognized>, i: nat, done: seq<Lexeme>)
    requires Fits(rs) && i <= |rs| && (i == |rs| || rs[i].Halt?)
    requires Run(rs, 0).lexemes == done + Run(rs, i).lexemes
    ensures Run(rs, 0).lexemes == done
  {
    assert done + [] == done;
  }

  /** A match at `l.start` adds its span to those found so far. */
  lemma RunEmit(rs: seq<Recognized>, done: seq<Lexeme>, l: Lexeme)
    requires Fits(rs) && l.start < l.end && l.start < |rs| && rs[l.start] == Emit(l.kind, l.end - l.start)
    requires Run(rs, 0).lexemes == done + Run(rs, l.start).lexemes
    ensures Run(rs, 0).lexemes == (done + [l]) + Run(rs, l.end).lexemes
  {
    RunStep(rs, l.start);
    assert done + ([l] + Run(rs, l.end).lexemes) == (done + [l]) + Run(rs, l.end).lexemes;
  }

  /** The body of the scanner's inner loop at one position: the group that
      took part in the match, if any, and what its name says to do. */
  method ScanAt(expression: string, i: nat) returns (r: Recognized)
    requires i < |expression|
    ensures r == Expected(expression, i)
  {
    RecognizeMeetsExpected(expression, i);
    var hit := MatchAt(expression, i);
    if hit.None? {
      return Skip;
    }
    var name := GroupName(hit.value.entry);
    GroupKindOfEntry(hit.value.entry);
    if StartsWith(name, "UNKNOWN") {
      return Halt;
    }
    var kind := Lookup(Upper(BeforeUnderscore(name)));
    if kind.None? {
      return Halt;
    }
    return Emit(kind.value, hit.value.length);
  }

  lemma TokensOfSnoc(s: string, ls: seq<Lexeme>, l: Lexeme)
    requires l.start < l.end <= |s| && InRange(ls, 0, |s|)
    ensures InRange(ls + [l], 0, |s|)
    ensures TokensOf(s, ls + [l]) == TokensOf(s, ls) + [Token(l.kind, s[l.start..l.end])]
  {
  }

  /** The match at one position: the catalog's entries are tried in order and
      the first whose pattern matches is the group that took part. */
  method MatchAt(s: string, i: nat) returns (hit: Option<Hit>)
    requires i < |s|
    ensures hit == FirstMatch(s, i, 0)
  {
    var patterns := GetPatterns();
    var e := 0;
    while e < |patterns|
      invariant 0 <= e <= 13
      invariant FirstMatch(s, i, 0) == FirstMatch(s, i, e)
    {
      EntryAtCatalog(e);
      var m := MatchLength(patterns[e].pattern, s, i);
      if m.Some? {
        return Some(Hit(e, m.value));
      }
      e := e + 1;
    }
    return None;
  }

  /* ---------- what the scan promises about its tokens ---------- */

  /** Letters, digits and underscores, not starting with a digit. */
  predicate IsWord(x: string)
  {
    0 < |x| && IsIdentStart(x[0]) && forall k :: 0 <= k < |x| ==> IsWordChar(x[k])
  }

  /** What the text of a token of each kind looks like. No text makes a PLUS
      or an ASSIGN token: the catalog has no pattern for them. */
  predicate WellFormed(t: Token)
  {
    var x := t.text;
    match t.kind
    case FOR => x == "para"
    case IN => x == "no"
    case RANGE => x == "intervalo"
    case PRINT => x == "escreva"
    case IDENTIFIER => IsWord(x) && WordKind(x) == IDENTIFIER
    case INTEGER => 0 < |x| && forall k :: 0 <= k < |x| ==> IsDigit(x[k])
    case STRING =>
      2 <= |x| && (x[0] == '\'' || x[0] == '"') && x[|x| - 1] == x[0] &&
      forall k :: 0 < k < |x| - 1 ==> x[k] != x[0]
    case COMMA => x == ","
    case LPAREN => x == "("
    case RPAREN => x == ")"
    case COLON => x == ":"
    case PLUS => false
    case ASSIGN => false
  }

  /** Every token the reference lexer emits is well formed, and words and
      numbers are taken whole: the character after them cannot extend them. */
  lemma ExpectedWellFormed(s: string, i: nat)
    requires i < |s| && Expected(s, i).Emit?
    ensures i + Expected(s, i).length <= |s|
    ensures WellFormed(Token(Expected(s, i).kind, s[i..i + Expected(s, i).length]))
    ensures Expected(s, i).kind == INTEGER ==>
      i + Expected(s, i).length == |s| || !IsDigit(s[i + Expected(s, i).length])
    ensures Expected(s, i).kind in {FOR, IN, RANGE, PRINT, IDENTIFIER} ==>
      AtBoundary(s, i) && (i + Expected(s, i).length == |s| || !IsWordChar(s[i + Expected(s, i).length]))
  {
    var c := s[i];
    var n := Expected(s, i).length;
    var x := s[i..i + n];
    if IsDigit(c) {
      assert forall k :: 0 <= k < |x| ==> x[k] == s[i + k];
    } else if IsIdentStart(c) {
      assert forall k :: 0 <= k < |x| ==> x[k] == s[i + k];
    } else if c == '\'' || c == '"' {
      assert forall k :: 0 <= k < |x| ==> x[k] == s[i + k];
    }
  }

  /** The positions the scan passes over without a token. */
  predicate Skipped(s: string, i: nat)
    requires i < |s|
  {
    IsBlank(s[i])
    || ((s[i] == '\'' || s[i] == '"') && FindQuote(s, s[i], i + 1).None?)
    || (IsIdentStart(s[i]) && !AtBoundary(s, i))
  }

  /** Nothing matches exactly at blanks, unpaired quotes and letters glued to
      a preceding word character; UNKNOWN matches exactly the characters
      outside `[a-zA-Z0-9_ \t\n,'"():]`. */
  lemma ExpectedSkipOrHalt(s: string, i: nat)
    requires i < |s|
    ensures Expected(s, i) == Skip <==> Skipped(s, i)
    ensures Expected(s, i) == Halt <==> IsUnknownChar(s[i])
  {
  }

  /** The tokens of `Scan(s)`: each is well formed and is the match the
      catalog makes where it starts; between them lie only skipped
      positions; the scan ends at the end of the text or at an UNKNOWN
      character. */
  lemma ScanFacts(s: string)
    ensures var t := Run(Verdicts(s, 0), 0);
      (forall k :: 0 <= k < |t.lexemes| ==>
         t.lexemes[k].start < |s| &&
         Recognize(s, t.lexemes[k].start) == Emit(t.lexemes[k].kind, t.lexemes[k].end - t.lexemes[k].start)) &&
      (forall j :: 0 <= j < t.stop && !Covered(t.lexemes, j) ==> Skipped(s, j)) &&
      (t.stop < |s| ==> IsUnknownChar(s[t.stop]))
  {
    var rs := Verdicts(s, 0);
    var t := Run(rs, 0);
    RunMatches(rs, 0);
    forall k | 0 <= k < |t.lexemes|
      ensures Recognize(s, t.lexemes[k].start) == Emit(t.lexemes[k].kind, t.lexemes[k].end - t.lexemes[k].start)
    {
      VerdictRecognized(s, t.lexemes[k].start);
    }
    RunGaps(rs, 0);
    forall j | 0 <= j < t.stop && !Covered(t.lexemes, j) ensures Skipped(s, j) {
      VerdictRecognized(s, j);
      ExpectedSkipOrHalt(s, j);
    }
    RunStops(rs, 0);
    if t.stop < |s| {
      VerdictRecognized(s, t.stop);
      ExpectedSkipOrHalt(s, t.stop);
    }
  }

  /** The verdict at `j` is what the catalog recognizes there. */
  lemma VerdictRecognized(s: string, j: nat)
    requires j < |s|
    ensures Verdicts(s, 0)[j] == Expected(s, j) == Recognize(s, j)
  {
    VerdictAt(s, 0, j);
    RecognizeMeetsExpected(s, j);
  }

  /** Every token of `Scan(s)` is well formed; in particular none is a PLUS
      or an ASSIGN. */
  lemma ScanWellFormed(s: string)
    ensures forall t :: t in Scan(s) ==> WellFormed(t) && t.kind != PLUS && t.kind != ASSIGN
  {
    var ls := Run(Verdicts(s, 0), 0).lexemes;
    RunMatches(Verdicts(s, 0), 0);
    forall k | 0 <= k < |ls| ensures WellFormed(Scan(s)[k]) {
      SpanWellFormed(s, ls[k]);
    }
  }

  /** A span the verdicts call a match stands for a well-formed token. */
  lemma SpanWellFormed(s: string, l: Lexeme)
    requires l.start < l.end <= |s| && l.start < |Verdicts(s, 0)|
    requires Verdicts(s, 0)[l.start] == Emit(l.kind, l.end - l.start)
    ensures WellFormed(Token(l.kind, s[l.start..l.end]))
  {
    VerdictAt(s, 0, l.start);
    EmitWellFormed(s, l.start, l.kind, l.end - l.start);
    assert l.start + (l.end - l.start) == l.end;
  }

  /** The same, for a verdict named by its kind and length. */
  lemma EmitWellFormed(s: string, i: nat, kind: TokenKind, n: nat)
    requires i < |s| && Expected(s, i) == Emit(kind, n)
    ensures i + n <= |s| && WellFormed(Token(kind, s[i..i + n]))
  {
    ExpectedWellFormed(s, i);
  }

  /** An empty text has no tokens. */
  lemma EmptyScan()
    ensures Scan("") == []
  {
  }

  /** Keywords are case-sensitive: `Para` is a name, `para` the keyword. */
  lemma KeywordCase()
    ensures Scan("para") == [Token(FOR, "para")]
    ensures Scan("Para") == [Token(IDENTIFIER, "Para")]
  {
    LowerKeyword();
    UpperKeyword();
  }

  lemma LowerKeyword()
    ensures Scan("para") == [Token(FOR, "para")]
  {
    WordEndUnique("para", 1, 4);
    VerdictAt("para", 0, 0);
    assert "para"[0..4] == "para";
    assert Run(Verdicts("para", 0), 0) == Trace([Lexeme(FOR, 0, 4)], 4);
  }

  lemma UpperKeyword()
    ensures Scan("Para") == [Token(IDENTIFIER, "Para")]
  {
    WordEndUnique("Para", 1, 4);
    VerdictAt("Para", 0, 0);
    assert "Para"[0..4] == "Para";
    assert Run(Verdicts("Para", 0), 0) == Trace([Lexeme(IDENTIFIER, 0, 4)], 4);
  }

  /** An UNKNOWN character ends the scan: the tokens before it are kept and
      nothing after it is read. */
  lemma UnknownEndsScan()
    ensures Scan("x # y") == [Token(IDENTIFIER, "x")]
  {
    var s := "x # y";
    WordEndUnique(s, 1, 1);
    var rs := Verdicts(s, 0);
    VerdictAt(s, 0, 0);
    VerdictAt(s, 0, 1);
    VerdictAt(s, 0, 2);
    assert rs[0] == Emit(IDENTIFIER, 1);
    assert rs[1] == Skip;
    assert rs[2] == Halt;
    assert Run(rs, 1) == Run(rs, 2) == Trace([], 2);
    assert Run(rs, 0) == Trace([Lexeme(IDENTIFIER, 0, 1)], 2);
    assert s[0..1] == "x";
  }

  /** A word of the text, from `i` up to the next non-word character `e`,
      standing on its own: the scan emits it with the kind `WordKind` gives. */
  lemma ScanWord(s: string, i: nat, e: nat, done: seq<Lexeme>, tokens: seq<Token>)
    requires Scanned(s, i, done, tokens) && i < e <= |s| && IsIdentStart(s[i])
    requires i == 0 || !IsWordChar(s[i - 1])
    requires forall k :: i < k < e ==> IsWordChar(s[k])
    requires e == |s| || !IsWordChar(s[e])
    ensures Scanned(s, e, done + [Lexeme(WordKind(s[i..e]), i, e)], tokens + [Token(WordKind(s[i..e]), s[i..e])])
  {
    WordEndUnique(s, i + 1, e);
    assert AtBoundary(s, i);
    assert Expected(s, i) == Emit(WordKind(s[i..e]), e - i);
    ScanEmit(s, i, done, tokens, WordKind(s[i..e]), e - i);
  }

  /** `para x no intervalo 5 : escreva x` scans to the eight tokens of a
      counted loop. */
  lemma ScanCountedLoop()
    ensures Scan("para x no intervalo 5 : escreva x") ==
      [Token(FOR, "para"), Token(IDENTIFIER, "x"), Token(IN, "no"), Token(RANGE, "intervalo"),
       Token(INTEGER, "5"), Token(COLON, ":"), Token(PRINT, "escreva"), Token(IDENTIFIER, "x")]
  {
    LoopTextHead();
    LoopTextRange();
    LoopTextTail();
    CountedLoopScans(LoopText);
  }

  /** The example text. */
  const LoopText: string := "para x no intervalo 5 : escreva x"

  /** Where its first three words and blanks stand. */
  lemma LoopTextHead()
    ensures |LoopText| == 33
    ensures LoopText[0..4] == "para" && LoopText[4] == ' ' && LoopText[5..6] == "x" && LoopText[6] == ' '
    ensures LoopText[7..9] == "no" && LoopText[9] == ' '
  {
    var s := LoopText;
    assert s[5] == 'x' && s[7] == 'n' && s[8] == 'o';
  }

  /** Where `intervalo` stands. */
  lemma LoopTextRange()
    ensures |LoopText| == 33
    ensures LoopText[10..19] == "intervalo" && LoopText[19] == ' '
  {
    var s := LoopText;
    assert s[10] == 'i';
    assert s[11] == 'n';
    assert s[12] == 't';
    assert s[13] == 'e';
    assert s[14] == 'r';
    assert s[15] == 'v';
    assert s[16] == 'a';
    assert s[17] == 'l';
    assert s[18] == 'o';
  }

  /** Where the rest stands. */
  lemma LoopTextTail()
    ensures |LoopText| == 33
    ensures LoopText[20] == '5' && LoopText[21] == ' ' && LoopText[22] == ':' && LoopText[23] == ' '
    ensures LoopText[24..31] == "escreva" && LoopText[31] == ' ' && LoopText[32..33] == "x"
  {
    var s := LoopText;
    assert s[24] == 'e' && s[25] == 's' && s[26] == 'c' && s[27] == 'r' && s[28] == 'e' && s[29] == 'v' && s[30] == 'a';
    assert s[32] == 'x';
  }

  /** The spans of `para x no intervalo 5 : escreva x`, and their tokens. */
  const LoopSpans: seq<Lexeme> :=
    [Lexeme(FOR, 0, 4), Lexeme(IDENTIFIER, 5, 6), Lexeme(IN, 7, 9), Lexeme(RANGE, 10, 19),
     Lexeme(INTEGER, 20, 21), Lexeme(COLON, 22, 23), Lexeme(PRINT, 24, 31), Lexeme(IDENTIFIER, 32, 33)]
  const LoopTokens: seq<Token> :=
    [Token(FOR, "para"), Token(IDENTIFIER, "x"), Token(IN, "no"), Token(RANGE, "intervalo"),
     Token(INTEGER, "5"), Token(COLON, ":"), Token(PRINT, "escreva"), Token(IDENTIFIER, "x")]

  /** The scan of a text spelled like that one, one token at a time. */
  lemma CountedLoopScans(s: string)
    requires |s| == 33
    requires s[0..4] == "para" && s[4] == ' ' && s[5..6] == "x" && s[6] == ' ' && s[7..9] == "no" && s[9] == ' '
    requires s[10..19] == "intervalo" && s[19] == ' ' && s[20] == '5' && s[21] == ' ' && s[22] == ':' && s[23] == ' '
    requires s[24..31] == "escreva" && s[31] == ' ' && s[32..33] == "x"
    ensures Scan(s) == LoopTokens
  {
    ScanStart(s);
    assert LoopSpans[..0] == [] && LoopTokens[..0] == [];
    LoopPara(s);
    LoopName(s);
    LoopIn(s);
    LoopRange(s);
    LoopLength(s);
    LoopColon(s);
    LoopPrint(s);
    LoopPrinted(s);
    ScanStop(s, 33, LoopSpans, LoopTokens);
  }

  lemma LoopPara(s: string)
    requires |s| == 33 && s[0..4] == "para" && s[4] == ' '
    requires Scanned(s, 0, LoopSpans[..0], LoopTokens[..0])
    ensures Scanned(s, 4, LoopSpans[..1], LoopTokens[..1])
  {
    ScanWordAt(s, 0, "para", LoopSpans[..0], LoopTokens[..0]);
    assert LoopSpans[..0] + [LoopSpans[0]] == LoopSpans[..1];
    assert LoopTokens[..0] + [LoopTokens[0]] == LoopTokens[..1];
  }

  lemma LoopName(s: string)
    requires |s| == 33 && s[4] == ' ' && s[5..6] == "x" && s[6] == ' '
    requires Scanned(s, 4, LoopSpans[..1], LoopTokens[..1])
    ensures Scanned(s, 6, LoopSpans[..2], LoopTokens[..2])
  {
    assert Expected(s, 4) == Skip;
    ScanSkip(s, 4, LoopSpans[..1], LoopTokens[..1]);
    ScanWordAt(s, 5, "x", LoopSpans[..1], LoopTokens[..1]);
    assert LoopSpans[..1] + [LoopSpans[1]] == LoopSpans[..2];
    assert LoopTokens[..1] + [LoopTokens[1]] == LoopTokens[..2];
  }

  lemma LoopIn(s: string)
    requires |s| == 33 && s[6] == ' ' && s[7..9] == "no" && s[9] == ' '
    requires Scanned(s, 6, LoopSpans[..2], LoopTokens[..2])
    ensures Scanned(s, 9, LoopSpans[..3], LoopTokens[..3])
  {
    assert Expected(s, 6) == Skip;
    ScanSkip(s, 6, LoopSpans[..2], LoopTokens[..2]);
    ScanWordAt(s, 7, "no", LoopSpans[..2], LoopTokens[..2]);
    assert LoopSpans[..2] + [LoopSpans[2]] == LoopSpans[..3];
    assert LoopTokens[..2] + [LoopTokens[2]] == LoopTokens[..3];
  }

  lemma LoopRange(s: string)
    requires |s| == 33 && s[9] == ' ' && s[10..19] == "intervalo" && s[19] == ' '
    requires Scanned(s, 9, LoopSpans[..3], LoopTokens[..3])
    ensures Scanned(s, 19, LoopSpans[..4], LoopTokens[..4])
  {
    assert Expected(s, 9) == Skip;
    ScanSkip(s, 9, LoopSpans[..3], LoopTokens[..3]);
    ScanWordAt(s, 10, "intervalo", LoopSpans[..3], LoopTokens[..3]);
    assert LoopSpans[..3] + [LoopSpans[3]] == LoopSpans[..4];
    assert LoopTokens[..3] + [LoopTokens[3]] == LoopTokens[..4];
  }

  lemma LoopLength(s: string)
    requires |s| == 33 && s[19] == ' ' && s[20] == '5' && s[21] == ' '
    requires Scanned(s, 19, LoopSpans[..4], LoopTokens[..4])
    ensures Scanned(s, 21, LoopSpans[..5], LoopTokens[..5])
  {
    ScanBlankChar(s, 19, LoopSpans[..4], LoopTokens[..4], INTEGER);
    assert s[20..21] == "5";
    assert LoopSpans[..4] + [LoopSpans[4]] == LoopSpans[..5];
    assert LoopTokens[..4] + [LoopTokens[4]] == LoopTokens[..5];
  }

  lemma LoopColon(s: string)
    requires |s| == 33 && s[21] == ' ' && s[22] == ':' && s[23] == ' '
    requires Scanned(s, 21, LoopSpans[..5], LoopTokens[..5])
    ensures Scanned(s, 23, LoopSpans[..6], LoopTokens[..6])
  {
    ScanBlankChar(s, 21, LoopSpans[..5], LoopTokens[..5], COLON);
    assert s[22..23] == ":";
    assert LoopSpans[..5] + [LoopSpans[5]] == LoopSpans[..6];
    assert LoopTokens[..5] + [LoopTokens[5]] == LoopTokens[..6];
  }

  lemma LoopPrint(s: string)
    requires |s| == 33 && s[23] == ' ' && s[24..31] == "escreva" && s[31] == ' '
    requires Scanned(s, 23, LoopSpans[..6], LoopTokens[..6])
    ensures Scanned(s, 31, LoopSpans[..7], LoopTokens[..7])
  {
    assert Expected(s, 23) == Skip;
    ScanSkip(s, 23, LoopSpans[..6], LoopTokens[..6]);
    ScanWordAt(s, 24, "escreva", LoopSpans[..6], LoopTokens[..6]);
    assert LoopSpans[..6] + [LoopSpans[6]] == LoopSpans[..7];
    assert LoopTokens[..6] + [LoopTokens[6]] == LoopTokens[..7];
  }

  lemma LoopPrinted(s: string)
    requires |s| == 33 && s[31] == ' ' && s[32..33] == "x"
    requires Scanned(s, 31, LoopSpans[..7], LoopTokens[..7])
    ensures Scanned(s, 33, LoopSpans, LoopTokens)
  {
    assert Expected(s, 31) == Skip;
    ScanSkip(s, 31, LoopSpans[..7], LoopTokens[..7]);
    ScanWordAt(s, 32, "x", LoopSpans[..7], LoopTokens[..7]);
    assert LoopSpans[..7] + [LoopSpans[7]] == LoopSpans;
    assert LoopTokens[..7] + [LoopTokens[7]] == LoopTokens;
  }

  /** The word `w` at `i`, standing on its own. */
  lemma ScanWordAt(s: string, i: nat, w: string, done: seq<Lexeme>, tokens: seq<Token>)
    requires Scanned(s, i, done, tokens) && 0 < |w| && i + |w| <= |s| && s[i..i + |w|] == w
    requires IsIdentStart(w[0]) && forall k :: 0 < k < |w| ==> IsWordChar(w[k])
    requires i == 0 || !IsWordChar(s[i - 1])
    requires i + |w| == |s| || !IsWordChar(s[i + |w|])
    ensures Scanned(s, i + |w|, done + [Lexeme(WordKind(w), i, i + |w|)], tokens + [Token(WordKind(w), w)])
  {
    forall k | i < k < i + |w| ensures IsWordChar(s[k]) {
      assert s[k] == s[i..i + |w|][k - i];
    }
    assert s[i] == w[0];
    ScanWord(s, i, i + |w|, done, tokens);
  }

  /** A blank, then a character that stands alone as a token of `kind`: a
      digit followed by a blank, or a symbol. */
  lemma ScanBlankChar(s: string, i: nat, done: seq<Lexeme>, tokens: seq<Token>, kind: TokenKind)
    requires Scanned(s, i, done, tokens) && i + 2 < |s| && s[i] == ' ' && s[i + 2] == ' '
    requires (kind == INTEGER && IsDigit(s[i + 1])) || (kind == COLON && s[i + 1] == ':')
    ensures Scanned(s, i + 2, done + [Lexeme(kind, i + 1, i + 2)], tokens + [Token(kind, s[i + 1..i + 2])])
  {
    assert Expected(s, i) == Skip;
    ScanSkip(s, i, done, tokens);
    assert Expected(s, i + 1) == Emit(kind, 1);
    ScanEmit(s, i + 1, done, tokens, kind, 1);
  }
}
