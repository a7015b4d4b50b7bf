/** The stages chained as the entry script chains them: the text is scanned,
    the token list parsed, the tree printed, the tree analysed, and the
    records turned into Python source. */
module Pipeline {
  import opened Outcomes
  import opened Tokens
  import opened TokenTypes
  import opened SyntaxTree
  import Lexer
  import Syntactic
  import Semantic
  import CodeGenerator

  /** The stage that stopped the translation, with its error. `TreeNotPrintable`
      is the `TypeError` raised when the entry script prints the parse tree
      and meets a tuple in it. */
  datatype Failure =
    | Syntax(parseError: Syntactic.ParseError)
    | TreeNotPrintable
    | Semantics(semanticError: Semantic.SemanticError)
    | Generation(generationError: CodeGenerator.GenerationError)

  /** The dictionaries the analysis hands to the generator. */
  function Entries(records: seq<Semantic.Record>): (r: seq<CodeGenerator.Entry>)
    ensures |r| == |records| && forall k :: 0 <= k < |records| ==> r[k] == CodeGenerator.EntryOf(records[k])
  {
    seq(|records|, k requires 0 <= k < |records| => CodeGenerator.EntryOf(records[k]))
  }

  /** Parse, print the tree, analyse, generate, each stage with its result
      shown as the entry script asks. A syntax failure is reported exactly
      when the parser fails; the run stops at the printing of the tree exactly
      when the parsed tree holds a tuple; and a translation only comes out of
      a tuple-free tree whose every statement is a print or loops around one. */
  function TranslateTokens(tokens: seq<Token>): (r: Result<string, Failure>)
    ensures Syntactic.ProgramOf(tokens).Err? <==> r.Err? && r.error.Syntax?
    ensures r.Err? && r.error.TreeNotPrintable? <==>
              Syntactic.ProgramOf(tokens).Ok? && !PairFree(Syntactic.ProgramOf(tokens).value)
    ensures r.Ok? ==> Syntactic.ProgramOf(tokens).Ok? && PairFree(Syntactic.ProgramOf(tokens).value) &&
                      Semantic.AllSupported(Children(Syntactic.ProgramOf(tokens).value))
  {
    match Syntactic.ProgramOf(tokens)
    case Err(e) => Err(Syntax(e))
    case Ok(tree) =>
      SyntaxTree.ReprDefined(tree, 1);
      if SyntaxTree.Repr(tree, 1).None? then Err(TreeNotPrintable)
      else match Semantic.AnalysisOf(tree)
      case Err(e) => Err(Semantics(e))
      case Ok(records) =>
        match CodeGenerator.Generated(Entries(records))
        case Err(e) => Err(Generation(e))
        case Ok(code) => Ok(code)
  }

  /** The entry script: scan the text, then parse, print the tree, analyse,
      generate. An empty text becomes an empty program. */
  function Translate(text: string): (r: Result<string, Failure>)
    ensures text == "" ==> r == Ok("")
    ensures Syntactic.ProgramOf(Lexer.Scan(text)).Err? <==> r.Err? && r.error.Syntax?
    ensures r.Err? && r.error.TreeNotPrintable? <==>
              Syntactic.ProgramOf(Lexer.Scan(text)).Ok? && !PairFree(Syntactic.ProgramOf(Lexer.Scan(text)).value)
  {
    if text == "" then
      Lexer.EmptyScan();
      Syntactic.EmptyProgram();
      TranslateTokens(Lexer.Scan(text))
    else TranslateTokens(Lexer.Scan(text))
  }

  /** The tokens of `para v no intervalo n : escreva v`. */
  function CountedLoop(v: string, n: string): seq<Token>
  {
    [Token(FOR, "para"), Token(IDENTIFIER, v), Token(IN, "no"), Token(RANGE, "intervalo"),
     Token(INTEGER, n), Token(COLON, ":"), Token(PRINT, "escreva"), Token(IDENTIFIER, v)]
  }

  /** The tree of `para v no intervalo n : escreva v`. */
  function CountedLoopTree(v: string, n: string): Node
  {
    ForLoop(v, Range(Generic("INTEGER", "0"), IntLit(n)), Print(Ident(v)))
  }

  /** The Python source it should become. */
  function CountedLoopCode(v: string, n: string): string
  {
    "for " + v + " in range(0, " + n + "):\n    print(" + v + ")"
  }

  lemma CountedLoopParses(v: string, n: string)
    ensures Syntactic.ProgramOf(CountedLoop(v, n)) == Ok(Program([CountedLoopTree(v, n)]))
  {
    var s := CountedLoopTree(v, n);
    Syntactic.ParseRender([s]);
    assert [s][1..] == [];
    assert Syntactic.RenderIterable(s.iterable) == [Token(RANGE, "intervalo"), Token(INTEGER, n)];
    assert Syntactic.Render(Ident(v)) == [Token(IDENTIFIER, v)];
    assert Syntactic.Render(s.body) == [Token(PRINT, "escreva")] + [Token(IDENTIFIER, v)];
    assert Syntactic.RenderStatement(s.body) == [Token(PRINT, "escreva")] + [Token(IDENTIFIER, v)];
    assert Syntactic.RenderProgram([s]) == Syntactic.RenderStatement(s) + [];
    assert Syntactic.RenderStatement(s) == CountedLoop(v, n);
    assert Syntactic.RenderProgram([s]) == CountedLoop(v, n);
  }

  lemma CountedLoopAnalyses(v: string, n: string)
    ensures var s := CountedLoopTree(v, n);
      Semantic.AnalysisOf(Program([s])) == Ok([Semantic.Record(v, s.iterable, s.body)])
  {
    var s := CountedLoopTree(v, n);
    var tree := Program([s]);
    Semantic.AnalysisAgrees(tree);
    assert Children(tree) == [s];
    assert [s][1..] == [];
    assert Semantic.AllSupported([s]);
    assert Semantic.ExpressionNames(s.iterable) == [] + [];
    assert Semantic.StatementNames(s.body) == [v];
    assert Semantic.StatementNames(s) == [v] + (([] + []) + [v]);
    assert Semantic.ProgramNames([s]) == [v, v];
    assert Semantic.Agree({}, [v, v]);
    assert Semantic.StatementRecords(s) == [Semantic.Record(v, s.iterable, s.body)] + [];
    assert Semantic.ProgramRecords([s]) == [Semantic.Record(v, s.iterable, s.body)] + [] + [];
    assert Semantic.ProgramRecords([s]) == [Semantic.Record(v, s.iterable, s.body)];
  }

  /** The loop record of `para v no intervalo n : escreva v` renders as the
      header `for v in range(0, n):` and the line `print(v)` under it. */
  lemma CountedLoopLines(v: string, n: string)
    ensures var s := CountedLoopTree(v, n);
      var e := CodeGenerator.EntryOf(Semantic.Record(v, s.iterable, s.body));
      CodeGenerator.Renders(e) &&
      CodeGenerator.HeaderLine(e) == "for " + v + " in range(0, " + n + "):" &&
      CodeGenerator.PrintLine(e) == "    print(" + v + ")"
  {
    CodeGenerator.RangeText(Generic("INTEGER", "0"), IntLit(n));
    var printed := [Ident(v)];
    assert printed[1..] == [];
    assert [v] + [] == [v];
    assert CodeGenerator.Texts(printed) == Some([v]);
    assert CodeGenerator.Expression(Print(Ident(v))) == Ok(v);
  }

  lemma CountedLoopGenerates(v: string, n: string)
    ensures var s := CountedLoopTree(v, n);
      CodeGenerator.Generated(Entries([Semantic.Record(v, s.iterable, s.body)])) == Ok(CountedLoopCode(v, n))
  {
    var s := CountedLoopTree(v, n);
    var entry := CodeGenerator.EntryOf(Semantic.Record(v, s.iterable, s.body));
    assert Entries([Semantic.Record(v, s.iterable, s.body)]) == [entry];
    CountedLoopLines(v, n);
    CodeGenerator.SingleEntry(entry);
    CountedLoopJoined(v, n);
  }

  /** The two lines joined by a newline spell the expected source. */
  lemma CountedLoopJoined(v: string, n: string)
    ensures ("for " + v + " in range(0, " + n + "):") + "\n" + ("    print(" + v + ")") == CountedLoopCode(v, n)
  {
    var head := "for " + v + " in range(0, " + n;
    assert "):" + "\n" + "    print(" == "):\n    print(";
    assert (head + "):") + "\n" + ("    print(" + v + ")") == head + ("):" + "\n" + "    print(") + v + ")";
  }

  /** Every loop of the form `para v no intervalo n : escreva v` becomes a
      Python loop over `range(0, n)` printing `v`. */
  lemma CountedLoopTranslates(v: string, n: string)
    ensures TranslateTokens(CountedLoop(v, n)) == Ok(CountedLoopCode(v, n))
  {
    CountedLoopParses(v, n);
    CountedLoopPairFree(v, n);
    CountedLoopAnalyses(v, n);
    CountedLoopGenerates(v, n);
  }

  /** The tree of `para v no intervalo n : escreva v` holds no tuple, so the
      script prints it and goes on. */
  lemma CountedLoopPairFree(v: string, n: string)
    ensures PairFree(Program([CountedLoopTree(v, n)]))
  {
    var s := CountedLoopTree(v, n);
    assert PairFree(Generic("INTEGER", "0")) && PairFree(IntLit(n)) && PairFree(Ident(v));
    assert Children(s.iterable) == [Generic("INTEGER", "0"), IntLit(n)];
    assert PairFree(s.iterable);
    assert Children(s.body) == [Ident(v)];
    assert PairFree(s.body);
    assert Children(s) == [s.iterable, s.body];
    assert PairFree(s);
    assert Children(Program([s])) == [s];
  }

  /** The text `para x no intervalo 5 : escreva x` becomes a Python loop
      over `range(0, 5)` printing `x`. */
  lemma CountedLoopTextTranslates()
    ensures Translate("para x no intervalo 5 : escreva x") == Ok(CountedLoopCode("x", "5"))
  {
    Lexer.ScanCountedLoop();
    assert Lexer.Scan("para x no intervalo 5 : escreva x") == CountedLoop("x", "5");
    CountedLoopTranslates("x", "5");
  }

  /** The tokens of `escreva (1, 2)`. */
  const PairPrint: seq<Token> :=
    [Token(PRINT, "escreva"), Token(LPAREN, "("), Token(INTEGER, "1"), Token(COMMA, ","),
               Token(INTEGER, "2"), Token(RPAREN, ")")]

  /** The tokens of `para x no (1, 2) : escreva x`. */
  const PairLoop: seq<Token> :=
    [Token(FOR, "para"), Token(IDENTIFIER, "x"), Token(IN, "no"), Token(LPAREN, "("),
               Token(INTEGER, "1"), Token(COMMA, ","), Token(INTEGER, "2"), Token(RPAREN, ")"),
               Token(COLON, ":"), Token(PRINT, "escreva"), Token(IDENTIFIER, "x")]

  /** `escreva (1, 2)` parses, but the script stops when it prints the tree:
      the tuple in it has no indented representation. */
  lemma PairPrintStops()
    ensures TranslateTokens(PairPrint) == Err(TreeNotPrintable)
  {
    var pair := Pair(IntLit("1"), IntLit("2"));
    PairPrintParses(PairPrint);
    NotPairFree(Program([Print(pair)]), Print(pair), pair);
  }

  lemma PairPrintParses(ts: seq<Token>)
    requires ts == PairPrint
    ensures Syntactic.ProgramOf(ts) == Ok(Program([Print(Pair(IntLit("1"), IntLit("2")))]))
  {
    var pair := Pair(IntLit("1"), IntLit("2"));
    var s := Print(pair);
    assert Syntactic.Render(pair) == PairPrint[1..];
    assert Syntactic.RenderStatement(s) == PairPrint;
    assert [s][1..] == [];
    assert Syntactic.RenderProgram([s]) == ts;
    Syntactic.ParseRender([s]);
  }

  /** `para x no (1, 2) : escreva x` stops at the same point, before the
      generator could reject the tuple. */
  lemma PairLoopStops()
    ensures TranslateTokens(PairLoop) == Err(TreeNotPrintable)
  {
    var pair := Pair(IntLit("1"), IntLit("2"));
    var s := ForLoop("x", pair, Print(Ident("x")));
    PairLoopParses(PairLoop);
    NotPairFree(Program([s]), s, pair);
  }

  lemma PairLoopParses(ts: seq<Token>)
    requires ts == PairLoop
    ensures Syntactic.ProgramOf(ts) ==
      Ok(Program([ForLoop("x", Pair(IntLit("1"), IntLit("2")), Print(Ident("x")))]))
  {
    var pair := Pair(IntLit("1"), IntLit("2"));
    var s := ForLoop("x", pair, Print(Ident("x")));
    assert Syntactic.RenderIterable(pair) == PairLoop[3..8];
    assert Syntactic.RenderStatement(Print(Ident("x"))) == PairLoop[9..];
    assert Syntactic.RenderStatement(s) == PairLoop;
    assert [s][1..] == [];
    assert Syntactic.RenderProgram([s]) == ts;
    Syntactic.ParseRender([s]);
  }

  /** A program whose one statement has a tuple as its first child is not
      tuple-free. */
  lemma NotPairFree(tree: Node, s: Node, pair: Node)
    requires tree == Program([s]) && !s.Pair? && pair.Pair? && |Children(s)| > 0 && Children(s)[0] == pair
    ensures !PairFree(tree)
  {
    assert !PairFree(s);
    assert Children(tree)[0] == s;
  }
}
