/** `Syntactic`: a recursive-descent parser from the token list to the syntax
    tree. The functions give the meaning of each parsing routine from a token
    index; the `Parser` class performs them with a moving cursor and is proved
    to agree with them. */
module Syntactic {
  import opened Outcomes
  import opened TokenTypes
  import opened Tokens
  import opened SyntaxTree

  /** Why parsing stopped. `UnexpectedToken(i)` is the `TokenException` raised
      on the token at index `i`; `OutOfTokens` is the `IndexError` of reading
      past the last token; `NoLength(e)` is the `TypeError` of asking the
      length of the single node `e` after `intervalo` in a loop header. */
  datatype ParseError = UnexpectedToken(index: nat) | OutOfTokens | NoLength(node: Node)

  /** A routine's result and the index of the first token it did not consume. */
  datatype Parsed = Parsed(node: Node, next: nat)

  type ParseResult = Result<Parsed, ParseError>

  /** What every routine promises about its outcome from index `i`: success
      consumes at least one token and stays inside the list, and a rejected
      token lies between `i` and the end of the list. */
  predicate Consumes(ts: seq<Token>, i: nat, r: ParseResult)
  {
    (r.Ok? ==> i < r.value.next <= |ts|) &&
    (r.Err? && r.error.UnexpectedToken? ==> i <= r.error.index < |ts|)
  }

  // ---------------------------------------------------------------------
  // The shapes the parser builds

  /** Trees an expression can produce: literals, identifiers, ranges, print
      statements and parenthesised pairs of these. */
  predicate IsExpression(e: Node)
  {
    match e
    case IntLit(_) => true
    case StrLit(_) => true
    case Ident(_) => true
    case Range(a, b) => IsExpression(a) && IsExpression(b)
    case Print(a) => IsExpression(a)
    case Pair(a, b) => IsExpression(a) && IsExpression(b)
    case _ => false
  }

  /** What a loop can iterate over: an expression, or a range from the
      implicit start `0` to an integer literal. */
  predicate IsIterable(e: Node)
  {
    IsExpression(e) || (e.Range? && e.start == Generic("INTEGER", "0") && e.end.IntLit?)
  }

  /** Trees a statement can produce: a loop, a range or a print. */
  predicate IsStatement(s: Node)
  {
    match s
    case ForLoop(_, it, body) => IsIterable(it) && IsStatement(body)
    case Range(a, b) => IsExpression(a) && IsExpression(b)
    case Print(a) => IsExpression(a)
    case _ => false
  }

  // ---------------------------------------------------------------------
  // The meaning of each parsing routine, from a token index

  /** `__match`: the token at `i` when it has the expected kind. */
  function Expect(ts: seq<Token>, i: nat, kind: TokenKind): (r: Result<Token, ParseError>)
    ensures r.Ok? <==> i < |ts| && ts[i].kind == kind
    ensures r.Ok? ==> r.value == ts[i]
    ensures r.Err? ==> r.error == if i < |ts| then UnexpectedToken(i) else OutOfTokens
  {
    if i >= |ts| then Err(OutOfTokens)
    else if ts[i].kind == kind then Ok(ts[i])
    else Err(UnexpectedToken(i))
  }

  /** `__parse_statement`: a loop, a range or a print, chosen by the first token. */
  function Statement(ts: seq<Token>, i: nat): (r: ParseResult)
    requires i <= |ts|
    ensures Consumes(ts, i, r) && (r.Ok? ==> IsStatement(r.value.node))
    decreases |ts| - i, 2
  {
    if i == |ts| then Err(OutOfTokens)
    else if ts[i].kind == FOR then ForLoopStatement(ts, i)
    else if ts[i].kind == RANGE then RangeForm(ts, i)
    else if ts[i].kind == PRINT then PrintStatement(ts, i)
    else Err(UnexpectedToken(i))
  }

  /** `__parse_for_loop`: `para` identifier `no` iterable `:` statement. */
  function ForLoopStatement(ts: seq<Token>, i: nat): (r: ParseResult)
    requires i <= |ts|
    ensures Consumes(ts, i, r) && (r.Ok? ==> r.value.node.ForLoop? && IsStatement(r.value.node))
    decreases |ts| - i, 1
  {
    match Expect(ts, i, FOR)
    case Err(e) => Err(e)
    case Ok(_) =>
      match Expect(ts, i + 1, IDENTIFIER)
      case Err(e) => Err(e)
      case Ok(v) =>
        match Expect(ts, i + 2, IN)
        case Err(e) => Err(e)
        case Ok(_) =>
          match LoopIterable(ts, i + 3)
          case Err(e) => Err(e)
          case Ok(Parsed(it, j)) =>
            match Expect(ts, j, COLON)
            case Err(e) => Err(e)
            case Ok(_) =>
              match Statement(ts, j + 1)
              case Err(e) => Err(e)
              case Ok(Parsed(body, k)) => Ok(Parsed(ForLoop(v.text, it, body), k))
  }

  /** The iterable of a loop header. After `intervalo`, an integer literal `n`
      stands for the range from `0` to `n` and a pair for the range between
      its parts; any other single node has no length, and a pair always has
      two parts, so the source's branch for fewer than two never runs. Without
      `intervalo`, the iterable is any expression. */
  function LoopIterable(ts: seq<Token>, i: nat): (r: ParseResult)
    requires i <= |ts|
    ensures Consumes(ts, i, r) && (r.Ok? ==> IsIterable(r.value.node))
    decreases |ts| - i, 3
  {
    if i == |ts| then Err(OutOfTokens)
    else if ts[i].kind == RANGE then
      match Expression(ts, i + 1)
      case Err(e) => Err(e)
      case Ok(Parsed(e, j)) =>
        if e.IntLit? then Ok(Parsed(Range(Generic("INTEGER", "0"), e), j))
        else if e.Pair? then Ok(Parsed(Range(e.first, e.second), j))
        else Err(NoLength(e))
    else Expression(ts, i)
  }

  /** `__parse_range_statement` and `__parse_range`: `intervalo` expression `:` expression. */
  function RangeForm(ts: seq<Token>, i: nat): (r: ParseResult)
    requires i <= |ts|
    ensures Consumes(ts, i, r) && (r.Ok? ==> r.value.node.Range? && IsExpression(r.value.node))
    decreases |ts| - i, 1
  {
    match Expect(ts, i, RANGE)
    case Err(e) => Err(e)
    case Ok(_) =>
      match Expression(ts, i + 1)
      case Err(e) => Err(e)
      case Ok(Parsed(a, j)) =>
        match Expect(ts, j, COLON)
        case Err(e) => Err(e)
        case Ok(_) =>
          match Expression(ts, j + 1)
          case Err(e) => Err(e)
          case Ok(Parsed(b, k)) => Ok(Parsed(Range(a, b), k))
  }

  /** `__parse_print_statement`: `escreva` expression. */
  function PrintStatement(ts: seq<Token>, i: nat): (r: ParseResult)
    requires i <= |ts|
    ensures Consumes(ts, i, r) && (r.Ok? ==> r.value.node.Print? && IsExpression(r.value.node))
    decreases |ts| - i, 1
  {
    match Expect(ts, i, PRINT)
    case Err(e) => Err(e)
    case Ok(_) =>
      match Expression(ts, i + 1)
      case Err(e) => Err(e)
      case Ok(Parsed(a, j)) => Ok(Parsed(Print(a), j))
  }

  /** `__parse_expression`: chosen by the first token; a literal or an
      identifier is one token. */
  function Expression(ts: seq<Token>, i: nat): (r: ParseResult)
    requires i <= |ts|
    ensures Consumes(ts, i, r) && (r.Ok? ==> IsExpression(r.value.node))
    decreases |ts| - i, 2
  {
    if i == |ts| then Err(OutOfTokens)
    else
      var t := ts[i];
      if t.kind == LPAREN then Parenthesized(ts, i)
      else if t.kind == INTEGER || t.kind == STRING || t.kind == IDENTIFIER then Literal(ts, i, t.kind)
      else if t.kind == RANGE then RangeForm(ts, i)
      else if t.kind == PRINT then PrintStatement(ts, i)
      else Err(UnexpectedToken(i))
  }

  /** The leaf node a literal or identifier token stands for. */
  function Leaf(t: Token): Node
  {
    if t.kind == INTEGER then IntLit(t.text)
    else if t.kind == STRING then StrLit(t.text)
    else Ident(t.text)
  }

  /** `__parse_integer`, `__parse_string` and `__parse_identifier`: one token
      of the given kind, as a leaf. */
  function Literal(ts: seq<Token>, i: nat, kind: TokenKind): (r: ParseResult)
    ensures Consumes(ts, i, r) && (r.Ok? ==> r.value.next == i + 1 && IsExpression(r.value.node))
    ensures r.Ok? <==> i < |ts| && ts[i].kind == kind
  {
    match Expect(ts, i, kind)
    case Err(e) => Err(e)
    case Ok(t) => Ok(Parsed(Leaf(t), i + 1))
  }

  /** `__parse_parenthesized_expression`: `(` expression `)` is the inner
      expression itself; `(` expression `,` expression `)` is a pair. */
  function Parenthesized(ts: seq<Token>, i: nat): (r: ParseResult)
    requires i <= |ts|
    ensures Consumes(ts, i, r) && (r.Ok? ==> IsExpression(r.value.node))
    decreases |ts| - i, 1
  {
    match Expect(ts, i, LPAREN)
    case Err(e) => Err(e)
    case Ok(_) =>
      match Expression(ts, i + 1)
      case Err(e) => Err(e)
      case Ok(Parsed(a, j)) =>
        if j == |ts| then Err(OutOfTokens)
        else if ts[j].kind == COMMA then
          match Expression(ts, j + 1)
          case Err(e) => Err(e)
          case Ok(Parsed(b, k)) =>
            match Expect(ts, k, RPAREN)
            case Err(e) => Err(e)
            case Ok(_) => Ok(Parsed(Pair(a, b), k + 1))
        else
          match Expect(ts, j, RPAREN)
          case Err(e) => Err(e)
          case Ok(_) => Ok(Parsed(a, j + 1))
  }

  /** `__parse_program`: statements one after another until the tokens run out. */
  function StatementsFrom(ts: seq<Token>, i: nat): (r: Result<seq<Node>, ParseError>)
    requires i <= |ts|
    ensures r.Ok? ==> forall k :: 0 <= k < |r.value| ==> IsStatement(r.value[k])
    ensures r.Ok? ==> (i == |ts| <==> r.value == [])
    ensures r.Err? && r.error.UnexpectedToken? ==> i <= r.error.index < |ts|
    decreases |ts| - i
  {
    if i == |ts| then Ok([])
    else
      match Statement(ts, i)
      case Err(e) => Err(e)
      case Ok(Parsed(s, j)) =>
        match StatementsFrom(ts, j)
        case Err(e) => Err(e)
        case Ok(ss) => Ok([s] + ss)
  }

  /** `Syntactic.parse`: the program node holding every statement of the list. */
  function ProgramOf(ts: seq<Token>): (r: Result<Node, ParseError>)
    ensures r.Ok? ==> r.value.Program? && forall k :: 0 <= k < |r.value.statements| ==> IsStatement(r.value.statements[k])
  {
    match StatementsFrom(ts, 0)
    case Err(e) => Err(e)
    case Ok(ss) => Ok(Program(ss))
  }
  // ---------------------------------------------------------------------
  // Spelling trees as tokens: every shape the parser builds is read back

  /** The implicit-start range `intervalo n` builds in a loop header. */
  predicate IsZeroStart(e: Node)
  {
    e.Range? && e.start == Generic("INTEGER", "0") && e.end.IntLit?
  }

  /** Number of tokens in the canonical spelling of an expression. */
  function Width(e: Node): nat
  {
    match e
    case Range(a, b) => 1 + Width(a) + 1 + Width(b)
    case Print(a) => 1 + Width(a)
    case Pair(a, b) => 1 + Width(a) + 1 + Width(b) + 1
    case _ => 1
  }

  /** Number of tokens in the canonical spelling of a loop iterable. */
  function IterableWidth(e: Node): nat
  {
    if IsZeroStart(e) then 2
    else if e.Range? then 1 + Width(Pair(e.start, e.end))
    else Width(e)
  }

  /** Number of tokens in the canonical spelling of a statement. */
  function StatementWidth(s: Node): nat
  {
    match s
    case ForLoop(_, it, body) => 3 + IterableWidth(it) + 1 + StatementWidth(body)
    case _ => Width(s)
  }

  /** The token at `i` has kind `kind`. */
  predicate KindAt(ts: seq<Token>, i: nat, kind: TokenKind)
  {
    i < |ts| && ts[i].kind == kind
  }

  /** The tokens from `i` on spell the expression `e`: literals and
      identifiers by kind and text, keywords and punctuation by kind alone;
      `(a, b)` spells a pair and nothing spells a bare parenthesised
      expression, since the parser drops those parentheses. */
  predicate Spells(ts: seq<Token>, i: nat, e: Node)
    decreases e
  {
    i < |ts| &&
    match e
    case IntLit(t) => ts[i] == Token(INTEGER, t)
    case StrLit(t) => ts[i] == Token(STRING, t)
    case Ident(t) => ts[i] == Token(IDENTIFIER, t)
    case Range(a, b) =>
      ts[i].kind == RANGE && Spells(ts, i + 1, a) &&
      KindAt(ts, i + 1 + Width(a), COLON) && Spells(ts, i + 1 + Width(a) + 1, b)
    case Print(a) => ts[i].kind == PRINT && Spells(ts, i + 1, a)
    case Pair(a, b) =>
      ts[i].kind == LPAREN && Spells(ts, i + 1, a) &&
      KindAt(ts, i + 1 + Width(a), COMMA) && Spells(ts, i + 1 + Width(a) + 1, b) &&
      KindAt(ts, i + 1 + Width(a) + 1 + Width(b), RPAREN)
    case _ => false
  }

  /** The tokens from `i` on spell the loop iterable `e`: `intervalo n` for
      the implicit start, `intervalo (a, b)` for any other range, the
      expression itself otherwise. */
  predicate SpellsIterable(ts: seq<Token>, i: nat, e: Node)
  {
    if IsZeroStart(e) then KindAt(ts, i, RANGE) && i + 1 < |ts| && ts[i + 1] == Token(INTEGER, e.end.text)
    else if e.Range? then KindAt(ts, i, RANGE) && Spells(ts, i + 1, Pair(e.start, e.end))
    else Spells(ts, i, e)
  }

  /** The tokens from `i` on spell the statement `s`. */
  predicate SpellsStatement(ts: seq<Token>, i: nat, s: Node)
    decreases s
  {
    match s
    case ForLoop(v, it, body) =>
      KindAt(ts, i, FOR) && i + 1 < |ts| && ts[i + 1] == Token(IDENTIFIER, v) && KindAt(ts, i + 2, IN) &&
      SpellsIterable(ts, i + 3, it) && KindAt(ts, i + 3 + IterableWidth(it), COLON) &&
      SpellsStatement(ts, i + 3 + IterableWidth(it) + 1, body)
    case Range(_, _) => Spells(ts, i, s)
    case Print(_) => Spells(ts, i, s)
    case _ => false
  }

  /** A spelling fits inside the list; it starts with `intervalo` exactly
      when it spells a range. */
  lemma {:induction false} SpellsBound(ts: seq<Token>, i: nat, e: Node)
    requires Spells(ts, i, e)
    ensures i + Width(e) <= |ts|
    ensures ts[i].kind == RANGE <==> e.Range?
    decreases e
  {
    match e
    case Range(a, b) => SpellsBound(ts, i + 1 + Width(a) + 1, b);
    case Print(a) => SpellsBound(ts, i + 1, a);
    case Pair(a, b) =>
    case _ =>
  }

  // Single parsing steps, each taken on its own so that the proofs below
  // never unfold more than one routine at a time.

  lemma RangeFormSteps(ts: seq<Token>, i: nat, a: Node, j: nat, b: Node, k: nat)
    requires i < |ts| && ts[i].kind == RANGE && Expression(ts, i + 1) == Ok(Parsed(a, j))
    requires j < |ts| && ts[j].kind == COLON && Expression(ts, j + 1) == Ok(Parsed(b, k))
    ensures RangeForm(ts, i) == Ok(Parsed(Range(a, b), k))
    ensures Expression(ts, i) == RangeForm(ts, i) && Statement(ts, i) == RangeForm(ts, i)
  {
  }

  lemma PairSteps(ts: seq<Token>, i: nat, a: Node, j: nat, b: Node, k: nat)
    requires i < |ts| && ts[i].kind == LPAREN && Expression(ts, i + 1) == Ok(Parsed(a, j))
    requires j < |ts| && ts[j].kind == COMMA && Expression(ts, j + 1) == Ok(Parsed(b, k))
    requires k < |ts| && ts[k].kind == RPAREN
    ensures Expression(ts, i) == Parenthesized(ts, i) == Ok(Parsed(Pair(a, b), k + 1))
  {
  }

  lemma PrintSteps(ts: seq<Token>, i: nat, a: Node, j: nat)
    requires i < |ts| && ts[i].kind == PRINT && Expression(ts, i + 1) == Ok(Parsed(a, j))
    ensures PrintStatement(ts, i) == Ok(Parsed(Print(a), j))
    ensures Expression(ts, i) == PrintStatement(ts, i) && Statement(ts, i) == PrintStatement(ts, i)
  {
  }

  lemma ForLoopSteps(ts: seq<Token>, i: nat, it: Node, j: nat, body: Node, k: nat)
    requires i + 2 < |ts| && ts[i].kind == FOR && ts[i + 1].kind == IDENTIFIER && ts[i + 2].kind == IN
    requires LoopIterable(ts, i + 3) == Ok(Parsed(it, j))
    requires j < |ts| && ts[j].kind == COLON && Statement(ts, j + 1) == Ok(Parsed(body, k))
    ensures Statement(ts, i) == ForLoopStatement(ts, i) == Ok(Parsed(ForLoop(ts[i + 1].text, it, body), k))
  {
  }

  lemma ZeroStartSteps(ts: seq<Token>, i: nat)
    requires i + 1 < |ts| && ts[i].kind == RANGE && ts[i + 1].kind == INTEGER
    ensures LoopIterable(ts, i) == Ok(Parsed(Range(Generic("INTEGER", "0"), IntLit(ts[i + 1].text)), i + 2))
  {
  }

  lemma RangePairSteps(ts: seq<Token>, i: nat, a: Node, b: Node, j: nat)
    requires i < |ts| && ts[i].kind == RANGE && Expression(ts, i + 1) == Ok(Parsed(Pair(a, b), j))
    ensures LoopIterable(ts, i) == Ok(Parsed(Range(a, b), j))
  {
  }

  lemma PlainIterableSteps(ts: seq<Token>, i: nat)
    requires i < |ts| && ts[i].kind != RANGE
    ensures LoopIterable(ts, i) == Expression(ts, i)
  {
  }

  /** Completeness for expressions: wherever the tokens spell an expression,
      parsing from there yields it and stops right after its spelling. */
  lemma {:induction false} ExpressionFromSpelling(e: Node, ts: seq<Token>, i: nat)
    requires Spells(ts, i, e)
    ensures Expression(ts, i) == Ok(Parsed(e, i + Width(e)))
    decreases e, 1
  {
    match e
    case Range(a, b) => RangeFromSpelling(a, b, ts, i);
    case Print(a) => PrintFromSpelling(a, ts, i);
    case Pair(a, b) => PairFromSpelling(a, b, ts, i);
    case _ =>
  }

  lemma {:induction false} RangeFromSpelling(a: Node, b: Node, ts: seq<Token>, i: nat)
    requires Spells(ts, i, Range(a, b))
    ensures RangeForm(ts, i) == Ok(Parsed(Range(a, b), i + Width(Range(a, b))))
    ensures Expression(ts, i) == RangeForm(ts, i) && Statement(ts, i) == RangeForm(ts, i)
    decreases Range(a, b), 0
  {
    ExpressionFromSpelling(a, ts, i + 1);
    ExpressionFromSpelling(b, ts, i + 1 + Width(a) + 1);
    RangeFormSteps(ts, i, a, i + 1 + Width(a), b, i + 1 + Width(a) + 1 + Width(b));
  }

  lemma {:induction false} PrintFromSpelling(a: Node, ts: seq<Token>, i: nat)
    requires Spells(ts, i, Print(a))
    ensures PrintStatement(ts, i) == Ok(Parsed(Print(a), i + Width(Print(a))))
    ensures Expression(ts, i) == PrintStatement(ts, i) && Statement(ts, i) == PrintStatement(ts, i)
    decreases Print(a), 0
  {
    ExpressionFromSpelling(a, ts, i + 1);
    PrintSteps(ts, i, a, i + 1 + Width(a));
  }

  lemma {:induction false} PairFromSpelling(a: Node, b: Node, ts: seq<Token>, i: nat)
    requires Spells(ts, i, Pair(a, b))
    ensures Expression(ts, i) == Ok(Parsed(Pair(a, b), i + Width(Pair(a, b))))
    decreases Pair(a, b), 0
  {
    ExpressionFromSpelling(a, ts, i + 1);
    ExpressionFromSpelling(b, ts, i + 1 + Width(a) + 1);
    PairSteps(ts, i, a, i + 1 + Width(a), b, i + 1 + Width(a) + 1 + Width(b));
    assert Width(Pair(a, b)) == 1 + Width(a) + 1 + Width(b) + 1;
  }

  /** Completeness for loop iterables. */
  lemma IterableFromSpelling(e: Node, ts: seq<Token>, i: nat)
    requires SpellsIterable(ts, i, e)
    ensures LoopIterable(ts, i) == Ok(Parsed(e, i + IterableWidth(e)))
  {
    if IsZeroStart(e) {
      ZeroStartSteps(ts, i);
    } else if e.Range? {
      PairFromSpelling(e.start, e.end, ts, i + 1);
      RangePairSteps(ts, i, e.start, e.end, i + 1 + Width(Pair(e.start, e.end)));
    } else {
      SpellsBound(ts, i, e);
      ExpressionFromSpelling(e, ts, i);
      PlainIterableSteps(ts, i);
    }
  }

  /** Completeness for statements. */
  lemma {:induction false} StatementFromSpelling(s: Node, ts: seq<Token>, i: nat)
    requires SpellsStatement(ts, i, s)
    ensures Statement(ts, i) == Ok(Parsed(s, i + StatementWidth(s)))
    decreases s, 1
  {
    match s
    case ForLoop(v, it, body) => ForLoopFromSpelling(v, it, body, ts, i);
    case Range(a, b) => RangeFromSpelling(a, b, ts, i);
    case Print(a) => PrintFromSpelling(a, ts, i);
  }

  lemma {:induction false} ForLoopFromSpelling(v: string, it: Node, body: Node, ts: seq<Token>, i: nat)
    requires SpellsStatement(ts, i, ForLoop(v, it, body))
    ensures Statement(ts, i) == Ok(Parsed(ForLoop(v, it, body), i + StatementWidth(ForLoop(v, it, body))))
    decreases ForLoop(v, it, body), 0
  {
    IterableFromSpelling(it, ts, i + 3);
    StatementFromSpelling(body, ts, i + 3 + IterableWidth(it) + 1);
    ForLoopSteps(ts, i, it, i + 3 + IterableWidth(it), body, i + 3 + IterableWidth(it) + 1 + StatementWidth(body));
  }

  // ---------------------------------------------------------------------
  // Rendering: the canonical token list of a tree

  /** Canonical tokens of an expression. */
  function Render(e: Node): seq<Token>
  {
    match e
    case IntLit(t) => [Token(INTEGER, t)]
    case StrLit(t) => [Token(STRING, t)]
    case Ident(t) => [Token(IDENTIFIER, t)]
    case Range(a, b) => [Token(RANGE, "intervalo")] + (Render(a) + ([Token(COLON, ":")] + Render(b)))
    case Print(a) => [Token(PRINT, "escreva")] + Render(a)
    case Pair(a, b) =>
      [Token(LPAREN, "(")] + (Render(a) + ([Token(COMMA, ",")] + (Render(b) + [Token(RPAREN, ")")])))
    case _ => []
  }

  /** Canonical tokens of a loop iterable. */
  function RenderIterable(e: Node): seq<Token>
  {
    if IsZeroStart(e) then [Token(RANGE, "intervalo"), Token(INTEGER, e.end.text)]
    else if e.Range? then [Token(RANGE, "intervalo")] + Render(Pair(e.start, e.end))
    else Render(e)
  }

  /** Canonical tokens of a statement. */
  function RenderStatement(s: Node): seq<Token>
  {
    match s
    case ForLoop(v, it, body) =>
      [Token(FOR, "para")] + ([Token(IDENTIFIER, v)] + ([Token(IN, "no")] +
      (RenderIterable(it) + ([Token(COLON, ":")] + RenderStatement(body)))))
    case _ => Render(s)
  }

  /** Canonical tokens of a list of statements, one after another. */
  function RenderProgram(ss: seq<Node>): seq<Token>
  {
    if ss == [] then [] else RenderStatement(ss[0]) + RenderProgram(ss[1..])
  }

  /** `ts` holds `piece` from index `i` on. */
  predicate HoldsAt(ts: seq<Token>, i: nat, piece: seq<Token>)
    decreases piece
  {
    if piece == [] then i <= |ts| else i < |ts| && ts[i] == piece[0] && HoldsAt(ts, i + 1, piece[1..])
  }

  lemma {:induction false} HoldsAtBound(ts: seq<Token>, i: nat, piece: seq<Token>)
    requires HoldsAt(ts, i, piece)
    ensures i + |piece| <= |ts|
    decreases piece
  {
    if piece != [] {
      HoldsAtBound(ts, i + 1, piece[1..]);
    }
  }

  lemma {:induction false} HoldsAtParts(ts: seq<Token>, i: nat, a: seq<Token>, b: seq<Token>)
    requires HoldsAt(ts, i, a + b)
    ensures HoldsAt(ts, i, a) && HoldsAt(ts, i + |a|, b)
    decreases a
  {
    if a == [] {
      assert a + b == b;
      HoldsAtBound(ts, i, b);
    } else {
      assert (a + b)[1..] == a[1..] + b;
      HoldsAtParts(ts, i + 1, a[1..], b);
    }
  }

  lemma HoldsAtToken(ts: seq<Token>, i: nat, t: Token)
    requires HoldsAt(ts, i, [t])
    ensures i < |ts| && ts[i] == t
  {
  }

  /** A list holds its own tail from any index on. */
  lemma {:induction false} HoldsAtSuffix(ts: seq<Token>, i: nat)
    requires i <= |ts|
    ensures HoldsAt(ts, i, ts[i..])
    decreases |ts| - i
  {
    if i < |ts| {
      assert ts[i..][1..] == ts[i + 1..];
      HoldsAtSuffix(ts, i + 1);
    }
  }

  /** An expression renders to `Width` tokens. */
  lemma {:induction false} RenderWidth(e: Node)
    ensures IsExpression(e) ==> |Render(e)| == Width(e)
    decreases e
  {
    match e
    case Range(a, b) => RenderWidth(a); RenderWidth(b);
    case Print(a) => RenderWidth(a);
    case Pair(a, b) => RenderWidth(a); RenderWidth(b);
    case _ =>
  }

  /** The rendering of an expression spells it. */
  lemma {:induction false} RenderSpells(e: Node, ts: seq<Token>, i: nat)
    requires IsExpression(e) && HoldsAt(ts, i, Render(e))
    ensures Spells(ts, i, e)
    decreases e, 1
  {
    match e
    case IntLit(t) => HoldsAtToken(ts, i, Token(INTEGER, t));
    case StrLit(t) => HoldsAtToken(ts, i, Token(STRING, t));
    case Ident(t) => HoldsAtToken(ts, i, Token(IDENTIFIER, t));
    case Range(a, b) => RangeRenderSpells(a, b, ts, i);
    case Print(a) => PrintRenderSpells(a, ts, i);
    case Pair(a, b) => PairRenderSpells(a, b, ts, i);
  }

  lemma {:induction false} RangeRenderSpells(a: Node, b: Node, ts: seq<Token>, i: nat)
    requires IsExpression(a) && IsExpression(b)
    requires HoldsAt(ts, i, [Token(RANGE, "intervalo")] + (Render(a) + ([Token(COLON, ":")] + Render(b))))
    ensures Spells(ts, i, Range(a, b))
    decreases Range(a, b), 0
  {
    RenderWidth(a);
    Around(ts, i, Token(RANGE, "intervalo"), Render(a), Width(a), Token(COLON, ":"), Render(b));
    RenderSpells(a, ts, i + 1);
    RenderSpells(b, ts, i + 1 + Width(a) + 1);
  }

  lemma {:induction false} PrintRenderSpells(a: Node, ts: seq<Token>, i: nat)
    requires IsExpression(a) && HoldsAt(ts, i, [Token(PRINT, "escreva")] + Render(a))
    ensures Spells(ts, i, Print(a))
    decreases Print(a), 0
  {
    HoldsAtParts(ts, i, [Token(PRINT, "escreva")], Render(a));
    HoldsAtToken(ts, i, Token(PRINT, "escreva"));
    RenderSpells(a, ts, i + 1);
  }

  lemma {:induction false} PairRenderSpells(a: Node, b: Node, ts: seq<Token>, i: nat)
    requires IsExpression(a) && IsExpression(b)
    requires HoldsAt(ts, i, [Token(LPAREN, "(")] + (Render(a) + ([Token(COMMA, ",")] + (Render(b) + [Token(RPAREN, ")")]))))
    ensures Spells(ts, i, Pair(a, b))
    decreases Pair(a, b), 0
  {
    RenderWidth(a);
    RenderWidth(b);
    Around(ts, i, Token(LPAREN, "("), Render(a), Width(a), Token(COMMA, ","), Render(b) + [Token(RPAREN, ")")]);
    HoldsAtParts(ts, i + 1 + Width(a) + 1, Render(b), [Token(RPAREN, ")")]);
    HoldsAtToken(ts, i + 1 + Width(a) + 1 + Width(b), Token(RPAREN, ")"));
    RenderSpells(a, ts, i + 1);
    RenderSpells(b, ts, i + 1 + Width(a) + 1);
  }

  /** Where the parts of `[x] + a + [y] + b` stand, `a` being `w` tokens long. */
  lemma Around(ts: seq<Token>, i: nat, x: Token, a: seq<Token>, w: nat, y: Token, b: seq<Token>)
    requires |a| == w && HoldsAt(ts, i, [x] + (a + ([y] + b)))
    ensures i < |ts| && ts[i] == x && HoldsAt(ts, i + 1, a)
    ensures i + 1 + w < |ts| && ts[i + 1 + w] == y && HoldsAt(ts, i + 1 + w + 1, b)
  {
    HoldsAtParts(ts, i, [x], a + ([y] + b));
    HoldsAtToken(ts, i, x);
    HoldsAtParts(ts, i + 1, a, [y] + b);
    HoldsAtParts(ts, i + 1 + |a|, [y], b);
    HoldsAtToken(ts, i + 1 + |a|, y);
  }

  /** A loop iterable renders to `IterableWidth` tokens. */
  lemma RenderIterableWidth(e: Node)
    ensures IsIterable(e) ==> |RenderIterable(e)| == IterableWidth(e)
  {
    RenderWidth(e);
    if e.Range? {
      RenderWidth(Pair(e.start, e.end));
    }
  }

  /** A statement renders to `StatementWidth` tokens. */
  lemma {:induction false} RenderStatementWidth(s: Node)
    ensures IsStatement(s) ==> |RenderStatement(s)| == StatementWidth(s)
    decreases s
  {
    match s
    case ForLoop(_, it, body) => RenderIterableWidth(it); RenderStatementWidth(body);
    case _ => RenderWidth(s);
  }

  /** The rendering of a loop iterable spells it. */
  lemma RenderIterableSpells(e: Node, ts: seq<Token>, i: nat)
    requires IsIterable(e) && HoldsAt(ts, i, RenderIterable(e))
    ensures SpellsIterable(ts, i, e)
  {
    if IsZeroStart(e) {
      HoldsAtParts(ts, i, [Token(RANGE, "intervalo")], [Token(INTEGER, e.end.text)]);
      HoldsAtToken(ts, i, Token(RANGE, "intervalo"));
      HoldsAtToken(ts, i + 1, Token(INTEGER, e.end.text));
    } else if e.Range? {
      HoldsAtParts(ts, i, [Token(RANGE, "intervalo")], Render(Pair(e.start, e.end)));
      HoldsAtToken(ts, i, Token(RANGE, "intervalo"));
      RenderSpells(Pair(e.start, e.end), ts, i + 1);
    } else {
      RenderSpells(e, ts, i);
    }
  }

  /** The rendering of a statement spells it. */
  lemma {:induction false} RenderStatementSpells(s: Node, ts: seq<Token>, i: nat)
    requires IsStatement(s) && HoldsAt(ts, i, RenderStatement(s))
    ensures SpellsStatement(ts, i, s)
    decreases s, 1
  {
    match s
    case Range(_, _) => RenderSpells(s, ts, i);
    case Print(_) => RenderSpells(s, ts, i);
    case ForLoop(v, it, body) => ForLoopRenderSpells(v, it, body, ts, i);
  }

  lemma {:induction false} ForLoopRenderSpells(v: string, it: Node, body: Node, ts: seq<Token>, i: nat)
    requires IsIterable(it) && IsStatement(body)
    requires HoldsAt(ts, i, [Token(FOR, "para")] + ([Token(IDENTIFIER, v)] + ([Token(IN, "no")] +
      (RenderIterable(it) + ([Token(COLON, ":")] + RenderStatement(body))))))
    ensures SpellsStatement(ts, i, ForLoop(v, it, body))
    decreases ForLoop(v, it, body), 0
  {
    RenderIterableWidth(it);
    LoopHeader(ts, i, v, RenderIterable(it), IterableWidth(it), RenderStatement(body));
    RenderIterableSpells(it, ts, i + 3);
    RenderStatementSpells(body, ts, i + 3 + IterableWidth(it) + 1);
  }

  /** Where the parts of a rendered loop stand, its iterable being `w` tokens long. */
  lemma LoopHeader(ts: seq<Token>, i: nat, v: string, ri: seq<Token>, w: nat, rb: seq<Token>)
    requires |ri| == w
    requires HoldsAt(ts, i, [Token(FOR, "para")] + ([Token(IDENTIFIER, v)] + ([Token(IN, "no")] + (ri + ([Token(COLON, ":")] + rb)))))
    ensures KindAt(ts, i, FOR) && i + 1 < |ts| && ts[i + 1] == Token(IDENTIFIER, v) && KindAt(ts, i + 2, IN)
    ensures HoldsAt(ts, i + 3, ri) && KindAt(ts, i + 3 + w, COLON) && HoldsAt(ts, i + 3 + w + 1, rb)
  {
    var rest := ri + ([Token(COLON, ":")] + rb);
    HoldsAtParts(ts, i, [Token(FOR, "para")], [Token(IDENTIFIER, v)] + ([Token(IN, "no")] + rest));
    HoldsAtParts(ts, i + 1, [Token(IDENTIFIER, v)], [Token(IN, "no")] + rest);
    HoldsAtParts(ts, i + 2, [Token(IN, "no")], rest);
    HoldsAtToken(ts, i, Token(FOR, "para"));
    HoldsAtToken(ts, i + 1, Token(IDENTIFIER, v));
    HoldsAtToken(ts, i + 2, Token(IN, "no"));
    HoldsAtParts(ts, i + 3, ri, [Token(COLON, ":")] + rb);
    HoldsAtParts(ts, i + 3 + |ri|, [Token(COLON, ":")], rb);
    HoldsAtToken(ts, i + 3 + |ri|, Token(COLON, ":"));
  }

  /** Rendered statements, one after another, parse back to the same list. */
  lemma {:induction false} StatementsRoundTrip(ss: seq<Node>, ts: seq<Token>, i: nat)
    requires forall k :: 0 <= k < |ss| ==> IsStatement(ss[k])
    requires i + |RenderProgram(ss)| == |ts| && HoldsAt(ts, i, RenderProgram(ss))
    ensures StatementsFrom(ts, i) == Ok(ss)
    decreases ss
  {
    if ss != [] {
      var first, rest := RenderStatement(ss[0]), RenderProgram(ss[1..]);
      HoldsAtParts(ts, i, first, rest);
      RenderStatementWidth(ss[0]);
      RenderStatementSpells(ss[0], ts, i);
      StatementFromSpelling(ss[0], ts, i);
      StatementsRoundTrip(ss[1..], ts, i + StatementWidth(ss[0]));
      assert [ss[0]] + ss[1..] == ss;
    }
  }

  /** Parsing inverts rendering: the canonical tokens of any list of
      statements the parser can build parse back to that program. */
  lemma ParseRender(ss: seq<Node>)
    requires forall k :: 0 <= k < |ss| ==> IsStatement(ss[k])
    ensures ProgramOf(RenderProgram(ss)) == Ok(Program(ss))
  {
    HoldsAtSuffix(RenderProgram(ss), 0);
    StatementsRoundTrip(ss, RenderProgram(ss), 0);
  }

  // ---------------------------------------------------------------------
  // The parser object: a token list and a cursor into it

  /** A routine's outcome paired with where the cursor stopped. */
  function Lift(r: Result<Node, ParseError>, next: nat): ParseResult
  {
    match r
    case Ok(n) => Ok(Parsed(n, next))
    case Err(e) => Err(e)
  }

  /** A routine's error or its statements prefixed by `done`. */
  function Prefixed(done: seq<Node>, r: Result<seq<Node>, ParseError>): Result<seq<Node>, ParseError>
  {
    match r
    case Ok(ss) => Ok(done + ss)
    case Err(e) => Err(e)
  }

  lemma PrefixedNothing(r: Result<seq<Node>, ParseError>)
    ensures Prefixed([], r) == r
  {
    if r.Ok? {
      assert [] + r.value == r.value;
    }
  }

  /** One statement, then the rest of the program. */
  lemma StatementsStep(ts: seq<Token>, i: nat, done: seq<Node>, s: Node, j: nat)
    requires i < |ts| && Statement(ts, i) == Ok(Parsed(s, j))
    ensures Prefixed(done, StatementsFrom(ts, i)) == Prefixed(done + [s], StatementsFrom(ts, j))
  {
    match StatementsFrom(ts, j)
    case Err(e) =>
    case Ok(ss) =>
      assert done + ([s] + ss) == (done + [s]) + ss;
  }

  class Parser {
    const tokens: seq<Token>
    var index: nat

    /** The cursor never passes the end of the list. */
    predicate Valid()
      reads this
    {
      index <= |tokens|
    }

    constructor(tokens: seq<Token>)
      ensures this.tokens == tokens && index == 0 && Valid()
    {
      this.tokens := tokens;
      index := 0;
    }

    /** `__match`: takes the current token when it has the expected kind. */
    method Match(kind: TokenKind) returns (r: Result<Token, ParseError>)
      requires Valid()
      modifies this
      ensures Valid()
      ensures r == Expect(tokens, old(index), kind)
      ensures index == if r.Ok? then old(index) + 1 else old(index)
    {
      if index == |tokens| {
        return Err(OutOfTokens);
      }
      var current := tokens[index];
      if current.kind == kind {
        index := index + 1;
        return Ok(current);
      }
      return Err(UnexpectedToken(index));
    }

    /** `__parse_program`: statements until the tokens run out. */
    method ParseProgram() returns (r: Result<Node, ParseError>)
      requires Valid()
      modifies this
      ensures Valid()
      ensures r.Ok? ==> r.value.Program? && StatementsFrom(tokens, old(index)) == Ok(r.value.statements)
      ensures r.Err? ==> StatementsFrom(tokens, old(index)) == Err(r.error)
      ensures r.Ok? ==> index == |tokens|
    {
      var children: seq<Node> := [];
      ghost var start := index;
      while index < |tokens|
        invariant Valid()
        invariant Prefixed([], StatementsFrom(tokens, start)) == Prefixed(children, StatementsFrom(tokens, index))
        decreases |tokens| - index
      {
        ghost var before := index;
        var statement :- ParseStatement();
        StatementsStep(tokens, before, children, statement, index);
        children := children + [statement];
      }
      assert children + [] == children;
      PrefixedNothing(StatementsFrom(tokens, start));
      return Ok(Program(children));
    }

    /** `__parse_statement` */
    method ParseStatement() returns (r: Result<Node, ParseError>)
      requires Valid()
      modifies this
      ensures Valid()
      ensures Lift(r, index) == Statement(tokens, old(index))
      decreases |tokens| - index, 2
    {
      if index == |tokens| {
        return Err(OutOfTokens);
      }
      var current := tokens[index];
      if current.kind == FOR {
        r := ParseForLoop();
      } else if current.kind == RANGE {
        r := ParseRangeStatement();
      } else if current.kind == PRINT {
        r := ParsePrintStatement();
      } else {
        r := Err(UnexpectedToken(index));
      }
    }

    /** `__parse_for_loop` */
    method ParseForLoop() returns (r: Result<Node, ParseError>)
      requires Valid()
      modifies this
      ensures Valid()
      ensures Lift(r, index) == ForLoopStatement(tokens, old(index))
      decreases |tokens| - index, 1
    {
      var _ :- Match(FOR);
      var variable :- Match(IDENTIFIER);
      var _ :- Match(IN);
      if index == |tokens| {
        return Err(OutOfTokens);
      }
      var iterable: Node;
      if tokens[index].kind == RANGE {
        var _ := Match(RANGE);
        var start :- ParseExpression();
        if start.IntLit? {
          iterable := Range(Generic("INTEGER", "0"), start);
        } else if start.Pair? {
          iterable := Range(start.first, start.second);
        } else {
          return Err(NoLength(start));
        }
      } else {
        iterable :- ParseExpression();
      }
      var _ :- Match(COLON);
      var body :- ParseStatement();
      return Ok(ForLoop(variable.text, iterable, body));
    }

    /** `__parse_range_statement` */
    method ParseRangeStatement() returns (r: Result<Node, ParseError>)
      requires Valid()
      modifies this
      ensures Valid()
      ensures Lift(r, index) == RangeForm(tokens, old(index))
      decreases |tokens| - index, 1
    {
      r := ParseRange();
    }

    /** `__parse_print_statement` */
    method ParsePrintStatement() returns (r: Result<Node, ParseError>)
      requires Valid()
      modifies this
      ensures Valid()
      ensures Lift(r, index) == PrintStatement(tokens, old(index))
      decreases |tokens| - index, 1
    {
      var _ :- Match(PRINT);
      var expression :- ParseExpression();
      return Ok(Print(expression));
    }

    /** `__parse_expression` */
    method ParseExpression() returns (r: Result<Node, ParseError>)
      requires Valid()
      modifies this
      ensures Valid()
      ensures Lift(r, index) == Expression(tokens, old(index))
      decreases |tokens| - index, 2
    {
      if index == |tokens| {
        return Err(OutOfTokens);
      }
      var current := tokens[index];
      if current.kind == LPAREN {
        r := ParseParenthesized();
      } else if current.kind == INTEGER {
        r := ParseInteger();
      } else if current.kind == STRING {
        r := ParseString();
      } else if current.kind == IDENTIFIER {
        r := ParseIdentifier();
      } else if current.kind == RANGE {
        r := ParseRange();
      } else if current.kind == PRINT {
        r := ParsePrintStatement();
      } else {
        r := Err(UnexpectedToken(index));
      }
    }

    /** `__parse_parenthesized_expression` */
    method ParseParenthesized() returns (r: Result<Node, ParseError>)
      requires Valid()
      modifies this
      ensures Valid()
      ensures Lift(r, index) == Parenthesized(tokens, old(index))
      decreases |tokens| - index, 1
    {
      var _ :- Match(LPAREN);
      var expression :- ParseExpression();
      if index == |tokens| {
        return Err(OutOfTokens);
      }
      if tokens[index].kind == COMMA {
        var _ := Match(COMMA);
        var second :- ParseExpression();
        expression := Pair(expression, second);
      }
      var _ :- Match(RPAREN);
      return Ok(expression);
    }

    /** `__parse_integer`: an INTEGER token becomes an integer literal. */
    method ParseInteger() returns (r: Result<Node, ParseError>)
      requires Valid()
      modifies this
      ensures Valid()
      ensures Lift(r, index) == Literal(tokens, old(index), INTEGER)
    {
      var token :- Match(INTEGER);
      return Ok(IntLit(token.text));
    }

    /** `__parse_string`: a STRING token becomes a string literal. */
    method ParseString() returns (r: Result<Node, ParseError>)
      requires Valid()
      modifies this
      ensures Valid()
      ensures Lift(r, index) == Literal(tokens, old(index), STRING)
    {
      var token :- Match(STRING);
      return Ok(StrLit(token.text));
    }

    /** `__parse_identifier`: an IDENTIFIER token becomes an identifier node. */
    method ParseIdentifier() returns (r: Result<Node, ParseError>)
      requires Valid()
      modifies this
      ensures Valid()
      ensures Lift(r, index) == Literal(tokens, old(index), IDENTIFIER)
    {
      var token :- Match(IDENTIFIER);
      return Ok(Ident(token.text));
    }

    /** `__parse_range` */
    method ParseRange() returns (r: Result<Node, ParseError>)
      requires Valid()
      modifies this
      ensures Valid()
      ensures Lift(r, index) == RangeForm(tokens, old(index))
      decreases |tokens| - index, 0
    {
      var _ :- Match(RANGE);
      var start :- ParseExpression();
      var _ :- Match(COLON);
      var end :- ParseExpression();
      return Ok(Range(start, end));
    }
  }

  /** `Syntactic.parse`: a fresh parser over the tokens, run from the start. */
  method Parse(tokens: seq<Token>) returns (r: Result<Node, ParseError>)
    ensures r == ProgramOf(tokens)
  {
    var parser := new Parser(tokens);
    r := parser.ParseProgram();
  }

  // ---------------------------------------------------------------------
  // Worked examples

  /** `intervalo 1 , 10` is rejected at the comma, where `:` must stand. */
  lemma CommaRangeRejected()
    ensures ProgramOf([Token(RANGE, "intervalo"), Token(INTEGER, "1"), Token(COMMA, ","), Token(INTEGER, "10")])
      == Err(UnexpectedToken(2))
  {
  }

  /** In a loop header `intervalo 1 , 10` is rejected at the comma: the
      integer after `intervalo` is taken as the length and `:` must follow. */
  lemma LoopCommaRejected()
    ensures ProgramOf([Token(FOR, "para"), Token(IDENTIFIER, "x"), Token(IN, "no"), Token(RANGE, "intervalo"),
                       Token(INTEGER, "1"), Token(COMMA, ","), Token(INTEGER, "10"), Token(COLON, ":"),
                       Token(PRINT, "escreva"), Token(IDENTIFIER, "x")])
      == Err(UnexpectedToken(5))
  {
  }

  /** A loop header whose `intervalo` is followed by an identifier has no
      length to take. */
  lemma IdentifierRangeRejected()
    ensures ProgramOf([Token(FOR, "para"), Token(IDENTIFIER, "x"), Token(IN, "no"), Token(RANGE, "intervalo"),
                       Token(IDENTIFIER, "n"), Token(COLON, ":"), Token(PRINT, "escreva"), Token(IDENTIFIER, "x")])
      == Err(NoLength(Ident("n")))
  {
  }

  /** A statement cut short runs out of tokens. */
  lemma TruncatedRejected()
    ensures ProgramOf([Token(PRINT, "escreva")]) == Err(OutOfTokens)
  {
  }

  /** No tokens, no statements. */
  lemma EmptyProgram()
    ensures ProgramOf([]) == Ok(Program([]))
  {
  }

  /** Parentheses around a single expression leave no trace in the tree. */
  lemma ParenthesesDropped()
    ensures ProgramOf([Token(PRINT, "escreva"), Token(LPAREN, "("), Token(IDENTIFIER, "x"), Token(RPAREN, ")")])
      == Ok(Program([Print(Ident("x"))]))
  {
    var ts := [Token(PRINT, "escreva"), Token(LPAREN, "("), Token(IDENTIFIER, "x"), Token(RPAREN, ")")];
    assert Expression(ts, 2) == Ok(Parsed(Ident("x"), 3));
    assert Expression(ts, 1) == Ok(Parsed(Ident("x"), 4));
    assert Statement(ts, 0) == Ok(Parsed(Print(Ident("x")), 4));
    assert StatementsFrom(ts, 4) == Ok([]);
    assert [Print(Ident("x"))] + [] == [Print(Ident("x"))];
  }
}
