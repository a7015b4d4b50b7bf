# A verified model of the `para … no intervalo … : escreva …` translator

The system translates one line of a tiny language with Portuguese keywords
into Python source. `para` is *for*, `no` is *in*, `intervalo` is *range* and
`escreva` is *print*. For example, `para x no intervalo 5 : escreva x` becomes

```
for x in range(0, 5):
    print(x)
```

The translation runs in four stages, and the model keeps each stage's own shape:

- **Lexer** (`lexer.dfy`, with `token_type.dfy`, `token.dfy` and
  `token_patterns.dfy`). It scans the text against an ordered catalog of
  thirteen patterns. Each regular expression is modelled as a recognizer
  over ASCII text.
  - `Lexer.Scanner` is the source's loop, written as a `while` loop.
  - It is proved equal to `Lexer.Scan`, which is defined from a
    per-character reference lexer (`Lexer.Expected`).
  - `Lexer.RecognizeMeetsExpected` proves that this reference lexer agrees
    with the catalog's first-match-wins order at every position.
  - `Lexer.TraceUnique` shows that the scan is the only sequence of spans
    meeting its declarative description.
- **Syntactic** (`syntactic.dfy`, with the tree in `syntax_tree.dfy`). A
  recursive-descent parser over the token list.
  - Its routines are given as functions from a token index.
  - The `Syntactic.Parser` class runs them with a moving cursor, as the
    source does. Each method is proved to agree with its function.
  - `Syntactic.ParseRender` shows that parsing inverts a canonical rendering
    of every tree the parser can build.
- **Semantic** (`semantic.dfy`). It walks the tree, checks each name against
  a set of declared variables, and records every loop it meets.
  - The `Semantic.Analyzer` class holds the set and the records.
  - `Semantic.AnalysisAgrees` characterises the outcome: which programs pass,
    and which records they yield.
- **CodeGenerator** (`code_generator.dfy`). It turns the loop records into
  two Python lines each.
  - The `CodeGenerator.Generator` class appends lines, as the source does.
  - `CodeGenerator.GeneratedAgrees` and `CodeGenerator.OutputLines`
    characterise the result.

`pipeline.dfy` chains the stages as the entry script does: `Pipeline.Translate`
scans the text, then parses, prints the tree, analyses and generates. The
script runs each stage with its result shown, and printing a parsed tree that
holds a tuple raises a `TypeError`. So `escreva (1, 2)` and
`para x no (1, 2) : escreva x` stop right after parsing, with the failure
`TreeNotPrintable` (`Pipeline.PairPrintStops`, `Pipeline.PairLoopStops`).
It proves that every
token list spelling `para v no intervalo n : escreva v` becomes the Python loop
above, and that the text `para x no intervalo 5 : escreva x` is scanned into
that token list and so becomes `for x in range(0, 5):` / `    print(x)`.
`outcomes.dfy` holds the `Option`, `Result` and `Outcome` wrappers that stand
for Python's `None` and for raised exceptions. `strings.dfy` holds the few
string operations used: tabs, join, split and counting.

Where the code and the language's documentation disagree, the model follows
the code:

- Keywords are case-sensitive: `Para` is an identifier (`Lexer.KeywordCase`).
- An unknown character does not make scanning fail. The scanner catches its
  own exception, keeps the tokens found before the character and returns
  them (`Lexer.UnknownEndsScan`).
- `intervalo 1 , 10` is not a two-argument range. In a loop header the
  integer after `intervalo` is taken as the length and a `:` must follow, so
  the comma is rejected; the pair has to be written `intervalo (1, 10)`
  (`Syntactic.LoopCommaRejected`). At the top level the range rule reads
  `intervalo a : b`, and the comma is rejected there too
  (`Syntactic.CommaRangeRejected`).
- In a loop header, `intervalo` followed by anything other than an integer
  literal or a parenthesised pair fails. The source asks for the length of a
  single node, which raises a `TypeError`; the model's error for this is
  `NoLength` (`Syntactic.IdentifierRangeRejected`). A pair always has two
  parts, so the source's branch for fewer than two arguments never runs.
- Parentheses around a single expression leave no trace in the tree
  (`Syntactic.ParenthesesDropped`).
- The declared set takes in only the first name it is asked about. A
  second loop over a different variable is therefore rejected
  (`Semantic.SecondVariableRejected`).
- A `print` at the top level is accepted and produces no record. A range at
  the top level is rejected (`Semantic.TopLevelPrintAccepted`,
  `Semantic.TopLevelRangeRejected`).
- A range inside a range has no text to join, so generating it fails
  (`CodeGenerator.ExpressionsRejected`).
- A nested loop gives two records. The first fails in the generator on its
  non-print body, after its header line was emitted
  (`Semantic.NestedLoopRecords`, `CodeGenerator.NonPrintBodyRejected`).

## Model

| member | source | states |
|---|---|---|
| TokenTypes.Name | utils/token_type.py:9-21 | a kind's name is its upper-case identifier, at least two letters long |
| TokenTypes.Ordinal | utils/token_type.py:9-21 | `auto()` numbers the kinds 1 to 13; the value is the kind's position in declaration order |
| TokenTypes.Lookup | utils/token_type.py:3-21 | `TokenType[name]` gives the kind with that name, and nothing (Python's `KeyError`) when no kind has it |
| TokenTypes.KindsClosed | utils/token_type.py:3-21 | exactly thirteen pairwise distinct kinds, and every kind is one of them |
| TokenTypes.KindsDistinct | utils/token_type.py:9-21 | two kinds have equal values, and equal names, exactly when they are the same kind |
| TokenTypes.NoUnknownKind | utils/token_type.py:9-21 | no kind is called UNKNOWN, so looking UNKNOWN up fails |
| TokenTypes.LookupName | utils/token_type.py:3-21 | looking a kind up by its own name gives it back |
| Tokens.Repr | utils/token.py:21-32 | the repr starts with `level` tabs and no more, and ends with `')` |
| Tokens.ReprLayout | utils/token.py:21-32 | after the tabs the repr reads `Token(type=NAME, value='TEXT')`; the level defaults to 0 |
| Tokens.ReprInjective | utils/token.py:10-32 | equal reprs come from equal tokens at equal levels |
| TokenPatterns.GetPatterns | utils/token_patterns.py:8-30 | the catalog has thirteen entries |
| TokenPatterns.CatalogOrder | utils/token_patterns.py:16-30 | the four keyword entries come before IDENTIFIER, and UNKNOWN is last and only last |
| TokenPatterns.WordEnd | utils/token_patterns.py:21 | the greedy run of word characters: all word characters, ending at the text's end or a non-word character |
| TokenPatterns.DigitsEnd | utils/token_patterns.py:22 | the greedy run of digits: all digits, ending at the text's end or a non-digit |
| TokenPatterns.FindQuote | utils/token_patterns.py:24-25 | the first occurrence of the closing quote, or none when no quote follows |
| TokenPatterns.MatchLength | utils/token_patterns.py:17-29 | no pattern matches the empty string, and a match stays inside the text |
| TokenPatterns.IdentifierEnd | utils/token_patterns.py:21 | `\b` holds at the end of the greedy identifier run and nowhere inside it, so backtracking cannot shorten the match |
| TokenPatterns.UnknownClass | utils/token_patterns.py:29 | UNKNOWN matches one character such as `#`, `+`, `=` or a carriage return, and never blanks, commas, quotes or `_` |
| Lexer.FirstMatch | analyzers/lexer.py:24-25 | the alternation's winner is one of the entries tried |
| Lexer.FirstMatchIsFirst | analyzers/lexer.py:24-31 | the winning entry matches with the reported length and no earlier entry matches; no winner means no entry matches |
| Lexer.Decimal | analyzers/lexer.py:24 | `str(i)`, the group-name suffix, is a non-empty string of digits |
| Lexer.Recognize | analyzers/lexer.py:29-39 | a token found at a position is non-empty and ends inside the text |
| Lexer.NamedGroupKind | analyzers/lexer.py:37 | a group name `NAME_i` decodes to the kind named NAME |
| Lexer.UnknownGroupKind | analyzers/lexer.py:33-34 | the UNKNOWN group decodes to no kind: it raises |
| Lexer.GroupKindOfEntry | analyzers/lexer.py:24-38 | each entry's group yields the kind its catalog name names; only UNKNOWN yields none |
| Lexer.RecognizeWordStart | utils/token_patterns.py:17-21 | at the start of a word, the catalog gives the keyword the whole word spells, else IDENTIFIER over the whole word |
| Lexer.RecognizeKeyword | utils/token_patterns.py:17-20 | a whole word equal to a keyword becomes that keyword's token, whole |
| Lexer.RecognizeInsideWord | utils/token_patterns.py:17-21 | a letter or underscore glued to a preceding word character starts no token |
| Lexer.RecognizeDigit | utils/token_patterns.py:22 | a digit starts an INTEGER over the maximal run of digits |
| Lexer.RecognizeQuote | utils/token_patterns.py:24-25 | a quote starts a STRING up to the next quote of its kind; an unpaired quote starts nothing |
| Lexer.RecognizeSymbol | utils/token_patterns.py:23-28 | each of `,`, `(`, `)` and `:` is a one-character token of its kind |
| Lexer.RecognizeBlank | utils/token_patterns.py:29 | space, tab and newline match no entry |
| Lexer.RecognizeUnknown | analyzers/lexer.py:33-34 | any other character matches only UNKNOWN, and the scan halts |
| Lexer.RecognizeMeetsExpected | analyzers/lexer.py:24-39 | at every position of every text, the ordered catalog decides exactly as the per-character reference lexer |
| Lexer.Run | analyzers/lexer.py:29-39 | the spans found lie in order, without overlap, between the start and where the scan stops |
| Lexer.RunIsTrace | analyzers/lexer.py:29-39 | the scan satisfies its description: each span is a match at its start, every uncovered position before the stop matches nothing, and it stops at the end or at an UNKNOWN character |
| Lexer.TraceUnique | analyzers/lexer.py:29-39 | only one trace satisfies that description |
| Lexer.Scanner | analyzers/lexer.py:9-52 | the source's scanning loop returns exactly `Scan(expression)` |
| Lexer.ScanAt | analyzers/lexer.py:29-39 | the group that took part in a match, read by its name, gives the reference lexer's verdict at that position |
| Lexer.MatchAt | analyzers/lexer.py:24-31 | trying the entries in order finds the alternation's winner |
| Lexer.ExpectedWellFormed | utils/token_patterns.py:17-28 | every token has text of its kind's shape; numbers and words are taken whole, and words start at a boundary |
| Lexer.ExpectedSkipOrHalt | utils/token_patterns.py:17-29 | nothing matches exactly at blanks, unpaired quotes and letters inside a word; the scan halts exactly at characters outside the catalog's classes |
| Lexer.ScanFacts | analyzers/lexer.py:27-43 | every token of the scan is the catalog's match where it starts, only skipped positions lie between tokens, and the scan ends at the end of the text or at an UNKNOWN character |
| Lexer.ScanWellFormed | analyzers/lexer.py:9-52 | every scanned token is well formed, and none is a PLUS or an ASSIGN |
| Lexer.KeywordCase | utils/token_patterns.py:17 | `para` is the FOR keyword, and `Para` is an identifier |
| Lexer.UnknownEndsScan | analyzers/lexer.py:33-43 | an unknown character ends the scan: the tokens before it are kept, and nothing after it is read |
| Lexer.Expected | utils/token_patterns.py:17-29 | a token found at a position is non-empty and ends inside the text, and is never a PLUS or an ASSIGN |
| Lexer.Scan | analyzers/lexer.py:9-52 | there are at most as many tokens as characters, and every token's text is non-empty |
| Lexer.EmptyScan | analyzers/lexer.py:21-29 | the empty text has no tokens |
| Lexer.ScanCountedLoop | analyzers/lexer.py:9-52 | `para x no intervalo 5 : escreva x` scans to FOR, IDENTIFIER, IN, RANGE, INTEGER, COLON, PRINT, IDENTIFIER, each with its word |
| SyntaxTree.NodeViews | utils/ast_nodes.py:3-109 | each node class sets its type, its value and its children as its constructor does |
| SyntaxTree.ZeroStartIsNotALiteral | analyzers/syntactic.py:105-111 | the implicit range start matches an integer literal `0` in type, value and children, yet it is a different node |
| SyntaxTree.ReprDefined | utils/syntax_tree.py:27-43 | a tree has a representation exactly when it holds no tuple |
| SyntaxTree.ReprLines | utils/syntax_tree.py:27-43 | the representation has one line per node of the tree |
| SyntaxTree.ReprShape | utils/syntax_tree.py:27-43 | the representation starts with its node's header line and ends with a newline |
| SyntaxTree.HeaderShape | utils/syntax_tree.py:37-40 | a node's header line is `level` tabs, then the node's type, and ends with a newline |
| Syntactic.Expect | analyzers/syntactic.py:69-85 | succeeds exactly when the current token has the expected kind, and yields that token; else it rejects that token, or runs out of tokens |
| Syntactic.Statement | analyzers/syntactic.py:51-67 | a statement consumes at least one token and yields a loop, a range or a print; a failure names a token at or after the start |
| Syntactic.ForLoopStatement | analyzers/syntactic.py:87-127 | a loop statement yields a loop node whose iterable and body have the grammar's shapes |
| Syntactic.LoopIterable | analyzers/syntactic.py:101-119 | after `intervalo`, the iterable is a range from `0` to an integer literal or over a pair; otherwise it is any expression |
| Syntactic.RangeForm | analyzers/syntactic.py:129-140 | `intervalo a : b` yields a range over two expressions |
| Syntactic.PrintStatement | analyzers/syntactic.py:142-151 | `escreva e` yields a print of an expression |
| Syntactic.Expression | analyzers/syntactic.py:153-175 | an expression consumes at least one token and yields a literal, an identifier, a range, a print or a pair |
| Syntactic.Literal | analyzers/syntactic.py:197-222 | succeeds exactly when the current token has the kind, consuming that one token |
| Syntactic.Parenthesized | analyzers/syntactic.py:177-195 | `( e )` yields `e` and `( a , b )` yields a pair |
| Syntactic.StatementsFrom | analyzers/syntactic.py:36-49 | the statements parsed up to the end of the tokens, none when no tokens are left; a rejected token lies in the list |
| Syntactic.ProgramOf | analyzers/syntactic.py:14-34 | a parse yields a program node whose children are all statements |
| Syntactic.ExpressionFromSpelling | analyzers/syntactic.py:153-175 | wherever the tokens spell an expression, parsing yields it and stops just after its spelling |
| Syntactic.IterableFromSpelling | analyzers/syntactic.py:101-119 | wherever the tokens spell a loop iterable, parsing yields it |
| Syntactic.StatementFromSpelling | analyzers/syntactic.py:51-67 | wherever the tokens spell a statement, parsing yields it |
| Syntactic.StatementsRoundTrip | analyzers/syntactic.py:36-49 | rendered statements, one after another, parse back to the same list |
| Syntactic.ParseRender | analyzers/syntactic.py:14-49 | parsing the canonical tokens of any list of statements gives back that program |
| Syntactic.Parser.constructor | analyzers/syntactic.py:25-27 | a new parser holds the tokens, with its cursor at 0 |
| Syntactic.Parser.Match | analyzers/syntactic.py:69-85 | takes the current token exactly when it has the expected kind, moving the cursor by one; otherwise leaves the cursor |
| Syntactic.Parser.ParseProgram | analyzers/syntactic.py:36-49 | the loop parses statements until the tokens run out: a program of exactly `StatementsFrom`'s list, or its error; on success the cursor stands at the end of the tokens |
| Syntactic.Parser.ParseStatement | analyzers/syntactic.py:51-67 | result and final cursor are those of `Statement` |
| Syntactic.Parser.ParseForLoop | analyzers/syntactic.py:87-127 | result and final cursor are those of `ForLoopStatement` |
| Syntactic.Parser.ParseRangeStatement | analyzers/syntactic.py:129-140 | result and final cursor are those of `RangeForm` |
| Syntactic.Parser.ParsePrintStatement | analyzers/syntactic.py:142-151 | result and final cursor are those of `PrintStatement` |
| Syntactic.Parser.ParseExpression | analyzers/syntactic.py:153-175 | result and final cursor are those of `Expression` |
| Syntactic.Parser.ParseParenthesized | analyzers/syntactic.py:177-195 | result and final cursor are those of `Parenthesized` |
| Syntactic.Parser.ParseInteger | analyzers/syntactic.py:197-204 | an INTEGER token becomes an integer literal, as `Literal` says |
| Syntactic.Parser.ParseString | analyzers/syntactic.py:206-213 | a STRING token becomes a string literal, as `Literal` says |
| Syntactic.Parser.ParseIdentifier | analyzers/syntactic.py:215-222 | an IDENTIFIER token becomes an identifier node, as `Literal` says |
| Syntactic.Parser.ParseRange | analyzers/syntactic.py:224-236 | result and final cursor are those of `RangeForm` |
| Syntactic.Parse | analyzers/syntactic.py:14-34 | a fresh parser run from index 0 yields `ProgramOf(tokens)` |
| Syntactic.CommaRangeRejected | analyzers/syntactic.py:129-140 | at the top level, `intervalo 1 , 10` is rejected at the comma |
| Syntactic.LoopCommaRejected | analyzers/syntactic.py:105-121 | in a loop header, `intervalo 1 , 10` is rejected at the comma, where `:` must follow the length |
| Syntactic.IdentifierRangeRejected | analyzers/syntactic.py:101-117 | `para x no intervalo y : …` fails because the single node `y` has no length |
| Syntactic.TruncatedRejected | analyzers/syntactic.py:153-175 | `escreva` with nothing after it runs out of tokens |
| Syntactic.EmptyProgram | analyzers/syntactic.py:36-49 | no tokens parse to an empty program |
| Syntactic.ParenthesesDropped | analyzers/syntactic.py:177-195 | `escreva (x)` parses to the same tree as `escreva x` |
| Semantic.Expression | analyzers/semantic.py:89-102 | checking an expression never touches the records, and leaves a non-empty declared set as it was |
| Semantic.Statement | analyzers/semantic.py:44-56 | only a supported statement passes; it only adds records, and leaves a non-empty declared set as it was |
| Semantic.ProgramFrom | analyzers/semantic.py:34-42 | checking the statements leaves a non-empty declared set as it was |
| Semantic.AnalysisOf | analyzers/semantic.py:11-32 | a passing program has only supported statements, and a program with no statements passes with no records |
| Semantic.Declare | analyzers/semantic.py:104-117 | an empty set takes the name in; the name passes exactly when the set was empty or already held it |
| Semantic.SeenBound | analyzers/semantic.py:104-117 | the declared set never holds more than one name, and once non-empty it never changes |
| Semantic.ExpressionAgrees | analyzers/semantic.py:89-102 | an expression passes exactly when every name it holds passes in order; it leaves the records alone |
| Semantic.StatementAgrees | analyzers/semantic.py:44-87 | a statement passes exactly when it is a print or loops around one and its names pass; it appends one record per loop, outermost first |
| Semantic.ProgramAgrees | analyzers/semantic.py:34-42 | the statements pass exactly when each is supported and all names pass, statement after statement |
| Semantic.AnalysisAgrees | analyzers/semantic.py:11-32 | the analysis succeeds exactly when every top-level statement is supported and every name checked equals the first; it yields the loops' records in order |
| Semantic.DeclaredIsFirstName | analyzers/semantic.py:104-117 | after a successful analysis the declared set is empty when no name was checked, and holds just the first name otherwise |
| Semantic.EmptyAnalysis | analyzers/semantic.py:11-32 | an empty program has no records |
| Semantic.SecondVariableRejected | analyzers/semantic.py:58-67 | a second loop over a different variable fails the declared check |
| Semantic.TopLevelPrintAccepted | analyzers/semantic.py:44-56 | a print at the top level is accepted and leaves no record |
| Semantic.TopLevelRangeRejected | analyzers/semantic.py:44-56 | a range at the top level is an unsupported `RangeNode` statement |
| Semantic.NestedLoopRecords | analyzers/semantic.py:58-78 | nested loops give one record each, outermost first |
| Semantic.Analyzer.constructor | analyzers/semantic.py:23-25 | a new analyzer has an empty declared set and no records |
| Semantic.Analyzer.VariableDeclared | analyzers/semantic.py:104-117 | updates the set and answers as `Declare` does, and leaves the records alone |
| Semantic.Analyzer.AnalyzeExpression | analyzers/semantic.py:89-102 | outcome and new state are those of the expression's analysis |
| Semantic.Analyzer.AnalyzeStatement | analyzers/semantic.py:44-56 | outcome and new state are those of the statement's analysis |
| Semantic.Analyzer.AnalyzeForLoop | analyzers/semantic.py:58-78 | checks the variable, appends the record, then checks the iterable and the body |
| Semantic.Analyzer.AnalyzePrintStatement | analyzers/semantic.py:80-87 | checks the printed expression |
| Semantic.Analyzer.AnalyzeProgram | analyzers/semantic.py:34-42 | outcome and new state are those of the statements, one after another |
| Semantic.Analyze | analyzers/semantic.py:11-32 | a fresh analyzer run over the tree yields `AnalysisOf(tree)` |
| CodeGenerator.Expression | analyzers/code_generator.py:83-103 | an expression has text exactly when it is an identifier, a literal, or a print or range whose children all have text; otherwise the error is a missing text or the unsupported class |
| CodeGenerator.Generated | analyzers/code_generator.py:11-38 | generation succeeds only when every entry renders, and no entries give empty code |
| CodeGenerator.EntryLines | analyzers/code_generator.py:40-81 | an entry succeeds exactly when it renders, and then appends its header line and its print line |
| CodeGenerator.EntriesLines | analyzers/code_generator.py:29-31 | the entries succeed exactly when every one renders, and then append their lines in order |
| CodeGenerator.GeneratedAgrees | analyzers/code_generator.py:11-38 | generation succeeds exactly when every item is a dictionary that renders; the output is then the lines of the entries joined by newlines |
| CodeGenerator.LinesShape | analyzers/code_generator.py:29-33 | each entry owns two consecutive lines, its header and then its print |
| CodeGenerator.OutputLines | analyzers/code_generator.py:33 | splitting the output at newlines gives back the lines, two per entry |
| CodeGenerator.SingleEntry | analyzers/code_generator.py:57-81 | one entry becomes its header line, a newline, and its print line |
| CodeGenerator.EmptyGenerated | analyzers/code_generator.py:11-38 | no entries give empty code |
| CodeGenerator.UntypedRejected | analyzers/code_generator.py:40-55 | an entry with no type, or with a type other than `for_loop`, fails with the matching error |
| CodeGenerator.NonPrintBodyRejected | analyzers/code_generator.py:105-115 | a body that is not a print fails, after the header line was emitted |
| CodeGenerator.RangeText | analyzers/code_generator.py:100-101 | a range renders as `range(a, b)` over its children's texts, and fails exactly when a child has none |
| CodeGenerator.ZeroStartRangeText | analyzers/code_generator.py:100-101 | the implicit-start range of `intervalo 5` renders as `range(0, 5)` |
| CodeGenerator.QuotesKept | analyzers/code_generator.py:93-98 | a printed string keeps its quotes |
| CodeGenerator.ExpressionsRejected | analyzers/code_generator.py:83-103 | a pair is an unsupported `tuple` expression, and a range inside a range has no text |
| CodeGenerator.Generator.constructor | analyzers/code_generator.py:22-23 | a new generator has no code |
| CodeGenerator.Generator.GenerateEntry | analyzers/code_generator.py:40-55 | outcome and new code are those of `EntryStep` |
| CodeGenerator.Generator.GenerateForLoop | analyzers/code_generator.py:57-71 | outcome and new code are those of `ForLoopStep`: the header goes in before the body is looked at |
| CodeGenerator.Generator.GenerateStatement | analyzers/code_generator.py:105-115 | outcome and new code are those of `StatementStep` |
| CodeGenerator.Generator.GeneratePrintStatement | analyzers/code_generator.py:73-81 | outcome and new code are those of `PrintStep` |
| CodeGenerator.Generate | analyzers/code_generator.py:11-38 | a fresh generator run over the entries yields `Generated(entries)` |
| Pipeline.CountedLoopParses | analyzers/syntactic.py:87-127 | `para v no intervalo n : escreva v` parses to a loop over the range from `0` to `n` |
| Pipeline.CountedLoopAnalyses | analyzers/semantic.py:58-78 | that tree passes analysis with one record |
| Pipeline.CountedLoopLines | analyzers/code_generator.py:57-81 | that record renders as `for v in range(0, n):` and `    print(v)` |
| Pipeline.CountedLoopGenerates | analyzers/code_generator.py:11-38 | generating from that record gives the two lines joined by a newline |
| Pipeline.TranslateTokens | main.py:16-22 | a syntax failure is reported exactly when parsing fails; the run stops at the printing of the tree exactly when the parsed tree holds a tuple; a translation comes only from a tuple-free program whose statements are all supported |
| Pipeline.Translate | main.py:13-22 | the empty text translates to empty code; a syntax failure is reported exactly when parsing the scanned tokens fails; the run stops at the printing of the tree exactly when the parsed tree holds a tuple |
| Pipeline.PairPrintStops | analyzers/syntactic.py:30-32 | the tokens of `escreva (1, 2)` parse, and the run then stops with `TreeNotPrintable` |
| Pipeline.PairLoopStops | analyzers/syntactic.py:30-32 | the tokens of `para x no (1, 2) : escreva x` stop the run at the same point, before the generator sees the tuple |
| Pipeline.CountedLoopPairFree | utils/syntax_tree.py:41-42 | the tree of `para v no intervalo n : escreva v` holds no tuple, so printing it succeeds |
| Pipeline.CountedLoopTranslates | main.py:16-22 | parse, analyse and generate take the tokens of `para v no intervalo n : escreva v` to the Python loop |
| Pipeline.CountedLoopTextTranslates | main.py:13-22 | the text `para x no intervalo 5 : escreva x` translates to `for x in range(0, 5):` and `    print(x)` |

## Left out

- Reading the source file, selecting its third line, the text of every
  printed result (`show_result`) and every printed error message are left
  out: they are input and output. The one printed result that can fail, the
  parse tree's representation, is modelled as the `TreeNotPrintable` failure.
  The other printed results cannot fail on a tree that got past it.
- `Compiler.run`, which executes the generated Python, is not part of this
  model.
- `FileManager` is left out, as file I/O.
- The `__repr__` methods of `Semantic` and `CodeGenerator` only format
  printed output, and are left out.
- Exceptions are error values (`ParseError`, `SemanticError`,
  `GenerationError`). Their classes and message texts are not modelled.
  `exceptions/token_exception.py` is not part of this model.
- The lexer's catch-all `except Exception` branch is not modelled. No other
  exception can arise in the modelled scan: every group name decodes to a
  kind or to UNKNOWN.
- Regular expressions are modelled as recognizers over ASCII text. Python's
  Unicode `\b`, `\w` and `\d` are not captured: for non-ASCII letters and
  digits the model's verdicts may differ.
- The `expression` attribute of `ASTNode` is never set by the parser. It is
  left out of the node datatype.
- Python's dynamic typing is captured only through the shapes that can
  reach each stage. These are a tuple among the nodes, an item that is not
  a dictionary, and a dictionary missing a key.
- The source's scan runs `finditer` over one combined expression. The
  model tries the entries one after another at each position, which
  gives the same match because the alternation is ordered.
