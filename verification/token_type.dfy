/** The closed set of token kinds (`TokenType`, an `Enum` whose members get `auto()` values). */
module TokenTypes {
  import opened Outcomes

  /** The thirteen kinds, in declaration order. PLUS and ASSIGN are declared but
      no catalog entry produces them. There is no UNKNOWN kind. */
  datatype TokenKind =
    | FOR | IN | RANGE | PRINT | IDENTIFIER | INTEGER | STRING
    | PLUS | ASSIGN | LPAREN | RPAREN | COLON | COMMA

  /** Every kind, in declaration order. */
  const AllKinds: seq<TokenKind> :=
    [FOR, IN, RANGE, PRINT, IDENTIFIER, INTEGER, STRING, PLUS, ASSIGN, LPAREN, RPAREN, COLON, COMMA]

  /** `TokenType.X.name` */
  function Name(k: TokenKind): (r: string)
    ensures 2 <= |r| && forall i :: 0 <= i < |r| ==> 'A' <= r[i] <= 'Z'
  {
    match k
    case FOR => "FOR"
    case IN => "IN"
    case RANGE => "RANGE"
    case PRINT => "PRINT"
    case IDENTIFIER => "IDENTIFIER"
    case INTEGER => "INTEGER"
    case STRING => "STRING"
    case PLUS => "PLUS"
    case ASSIGN => "ASSIGN"
    case LPAREN => "LPAREN"
    case RPAREN => "RPAREN"
    case COLON => "COLON"
    case COMMA => "COMMA"
  }

  /** `TokenType.X.value`: `auto()` numbers the members 1, 2, ... in declaration order. */
  function Ordinal(k: TokenKind): (r: nat)
    ensures 1 <= r <= |AllKinds| && AllKinds[r - 1] == k
  {
    match k
    case FOR => 1
    case IN => 2
    case RANGE => 3
    case PRINT => 4
    case IDENTIFIER => 5
    case INTEGER => 6
    case STRING => 7
    case PLUS => 8
    case ASSIGN => 9
    case LPAREN => 10
    case RPAREN => 11
    case COLON => 12
    case COMMA => 13
  }

  /** `TokenType[name]`: the member with that name, or None where Python raises KeyError. */
  function Lookup(name: string): (r: Option<TokenKind>)
    ensures r.Some? ==> Name(r.value) == name
    ensures r.None? ==> forall k :: Name(k) != name
  {
    if name == "FOR" then Some(FOR)
    else if name == "IN" then Some(IN)
    else if name == "RANGE" then Some(RANGE)
    else if name == "PRINT" then Some(PRINT)
    else if name == "IDENTIFIER" then Some(IDENTIFIER)
    else if name == "INTEGER" then Some(INTEGER)
    else if name == "STRING" then Some(STRING)
    else if name == "PLUS" then Some(PLUS)
    else if name == "ASSIGN" then Some(ASSIGN)
    else if name == "LPAREN" then Some(LPAREN)
    else if name == "RPAREN" then Some(RPAREN)
    else if name == "COLON" then Some(COLON)
    else if name == "COMMA" then Some(COMMA)
    else None
  }

  /** The kind set is closed: thirteen pairwise distinct kinds and nothing else. */
  lemma KindsClosed(k: TokenKind)
    ensures k in AllKinds
    ensures |AllKinds| == 13
    ensures forall i, j :: 0 <= i < j < |AllKinds| ==> AllKinds[i] != AllKinds[j]
  {
  }

  /** Distinct `auto()` values: kind equality, value equality and name equality coincide. */
  lemma KindsDistinct(a: TokenKind, b: TokenKind)
    ensures Ordinal(a) == Ordinal(b) <==> a == b
    ensures Name(a) == Name(b) <==> a == b
  {
  }

  /** No kind is called UNKNOWN, so the catalog's UNKNOWN entry names no kind. */
  lemma NoUnknownKind()
    ensures Lookup("UNKNOWN") == None
    ensures forall k :: Name(k) != "UNKNOWN"
  {
  }

  /** Looking a kind up by its own name gives it back. */
  lemma LookupName(k: TokenKind)
    ensures Lookup(Name(k)) == Some(k)
  {
  }
}
