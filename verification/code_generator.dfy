/** `CodeGenerator`: turns the analysis records into Python source, two lines
    per loop: the loop header and an indented `print` call. */
module CodeGenerator {
  import opened Outcomes
  import opened Strings
  import opened SyntaxTree
  import Semantic

  /** An item of the list handed to `generate`: a dictionary, each of whose
      keys `type`, `variable`, `iterable` and `body` may be absent, or
      something that is not a dictionary at all. */
  datatype Entry =
    | Dict(kind: Option<string>, variable: Option<string>, iterable: Option<Node>, body: Option<Node>)
    | NotADict

  /** The dictionary the analysis builds for a loop. */
  function EntryOf(r: Semantic.Record): (e: Entry)
    ensures e.Dict? && e.kind == Some("for_loop")
    ensures e.variable == Some(r.variable) && e.iterable == Some(r.iterable) && e.body == Some(r.body)
  {
    Dict(Some("for_loop"), Some(r.variable), Some(r.iterable), Some(r.body))
  }

  /** Why generation stopped: the `SemanticException`s the generator raises
      (the input is not a list of dictionaries, an entry has no type or an
      unknown one, an expression or a loop body of an unsupported class), the
      `KeyError` of a missing key, and the error of joining a child that has
      no text value (a tuple, or a node whose value is `None`). */
  datatype GenerationError =
    | NotAListOfDicts
    | MissingType
    | UnsupportedEntry(kind: string)
    | MissingKey(key: string)
    | UnsupportedExpression(className: string)
    | UnsupportedBody(body: Node)
    | NotText

  // ---------------------------------------------------------------------
  // Expressions

  /** `expr.value` as a string, for a child being joined: a tuple has no
      value attribute and a `None` value is not a string. */
  function TextOf(n: Node): Option<string>
  {
    if n.Pair? then None else Value(n)
  }

  /** The text values of `nodes`, when every one has one. */
  function Texts(nodes: seq<Node>): (r: Option<seq<string>>)
    ensures r.Some? <==> forall k :: 0 <= k < |nodes| ==> TextOf(nodes[k]).Some?
    ensures r.Some? ==> |r.value| == |nodes| && forall k :: 0 <= k < |nodes| ==> r.value[k] == TextOf(nodes[k]).value
  {
    if nodes == [] then Some([])
    else
      match (TextOf(nodes[0]), Texts(nodes[1..]))
      case (Some(t), Some(ts)) => Some([t] + ts)
      case _ => None
  }

  /** `', '.join(expr.value for expr in parent.children)` */
  function JoinedChildren(parent: Node): Result<string, GenerationError>
    requires !parent.Pair?
  {
    match Texts(Children(parent))
    case None => Err(NotText)
    case Some(ts) => Ok(Join(ts, ", "))
  }

  /** `__generate_expression`: a leaf is its own text, a print the text of
      its child, a range a call to `range` with its children's texts as
      arguments; any other class is unsupported. */
  function Expression(e: Node): (r: Result<string, GenerationError>)
    ensures r.Ok? <==> (e.Ident? || e.IntLit? || e.StrLit? ||
                        ((e.Print? || e.Range?) && forall k :: 0 <= k < |Children(e)| ==> TextOf(Children(e)[k]).Some?))
    ensures r.Err? ==> r.error == NotText || r.error == UnsupportedExpression(ClassName(e))
  {
    match e
    case Ident(t) => Ok(t)
    case IntLit(t) => Ok(t)
    case StrLit(t) => Ok(t)
    case Print(_) => JoinedChildren(e)
    case Range(_, _) =>
      (match JoinedChildren(e)
       case Err(err) => Err(err)
       case Ok(args) => Ok("range(" + args + ")"))
    case _ => Err(UnsupportedExpression(ClassName(e)))
  }

  // ---------------------------------------------------------------------
  // Entries: the lines each one appends to the code, and how it fails

  /** The new code and the outcome of a step. */
  datatype Step = Step(code: seq<string>, outcome: Outcome<GenerationError>)

  /** `__generate_entry` */
  function EntryStep(code: seq<string>, e: Entry): Step
    requires e.Dict?
  {
    if e.kind.None? then Step(code, Fail(MissingType))
    else if e.kind.value != "for_loop" then Step(code, Fail(UnsupportedEntry(e.kind.value)))
    else ForLoopStep(code, e)
  }

  /** `__generate_for_loop`: the header goes in before the body is looked at. */
  function ForLoopStep(code: seq<string>, e: Entry): Step
    requires e.Dict?
  {
    if e.variable.None? then Step(code, Fail(MissingKey("variable")))
    else if e.iterable.None? then Step(code, Fail(MissingKey("iterable")))
    else
      match Expression(e.iterable.value)
      case Err(err) => Step(code, Fail(err))
      case Ok(it) => StatementStep(code + ["for " + e.variable.value + " in " + it + ":"], e)
  }

  /** `__generate_statement`: only a print body is supported. */
  function StatementStep(code: seq<string>, e: Entry): Step
    requires e.Dict?
  {
    if e.body.None? then Step(code, Fail(MissingKey("body")))
    else if e.body.value.Print? then PrintStep(code, e)
    else Step(code, Fail(UnsupportedBody(e.body.value)))
  }

  /** `__generate_print_statement`: four spaces, then `print` of the body's text. */
  function PrintStep(code: seq<string>, e: Entry): Step
    requires e.Dict? && e.body.Some?
  {
    match Expression(e.body.value)
    case Err(err) => Step(code, Fail(err))
    case Ok(x) => Step(code + ["    print(" + x + ")"], Pass)
  }

  /** The entries from the `k`-th on, each after the one before, stopping at
      the first failure. */
  function EntriesFrom(code: seq<string>, entries: seq<Entry>, k: nat): Step
    requires k <= |entries| && forall j :: 0 <= j < |entries| ==> entries[j].Dict?
    decreases |entries| - k
  {
    if k == |entries| then Step(code, Pass)
    else
      var step := EntryStep(code, entries[k]);
      if step.outcome.Fail? then step else EntriesFrom(step.code, entries, k + 1)
  }

  /** Every item is a dictionary. */
  predicate AllDicts(entries: seq<Entry>)
  {
    forall j :: 0 <= j < |entries| ==> entries[j].Dict?
  }

  /** `CodeGenerator.generate`: the lines of every entry joined by newlines. */
  function Generated(entries: seq<Entry>): (r: Result<string, GenerationError>)
    ensures r.Ok? ==> AllRender(entries)
    ensures entries == [] ==> r == Ok("")
  {
    if !AllDicts(entries) then Err(NotAListOfDicts)
    else
      EntriesLines([], entries, 0);
      var step := EntriesFrom([], entries, 0);
      match step.outcome
      case Fail(err) => Err(err)
      case Pass => Ok(Join(step.code, "\n"))
  }

  // ---------------------------------------------------------------------
  // A reference description: which entries render, and to what

  /** An entry the generator turns into code: a loop dictionary with every
      key, whose iterable has a text and whose body is a print with one. */
  predicate Renders(e: Entry)
  {
    e.Dict? && e.kind == Some("for_loop") && e.variable.Some? &&
    e.iterable.Some? && Expression(e.iterable.value).Ok? &&
    e.body.Some? && e.body.value.Print? && Expression(e.body.value).Ok?
  }

  /** `for V in E:` */
  function HeaderLine(e: Entry): string
    requires Renders(e)
  {
    "for " + e.variable.value + " in " + Expression(e.iterable.value).value + ":"
  }

  /** Four spaces, then `print(X)`. */
  function PrintLine(e: Entry): string
    requires Renders(e)
  {
    "    print(" + Expression(e.body.value).value + ")"
  }

  /** Every entry renders. */
  predicate AllRender(entries: seq<Entry>)
  {
    forall j :: 0 <= j < |entries| ==> Renders(entries[j])
  }

  /** The two lines of each entry, entry after entry. */
  function Lines(entries: seq<Entry>): seq<string>
    requires AllRender(entries)
  {
    if entries == [] then [] else [HeaderLine(entries[0]), PrintLine(entries[0])] + Lines(entries[1..])
  }

  /** An entry succeeds exactly when it renders, and then appends its two lines. */
  lemma EntryLines(code: seq<string>, e: Entry)
    requires e.Dict?
    ensures EntryStep(code, e).outcome.Pass? <==> Renders(e)
    ensures Renders(e) ==> EntryStep(code, e).code == code + [HeaderLine(e), PrintLine(e)]
  {
    if Renders(e) {
      assert code + [HeaderLine(e)] + [PrintLine(e)] == code + [HeaderLine(e), PrintLine(e)];
    }
  }

  /** The entries from the `k`-th on succeed exactly when every one of them
      renders, and then append their lines in order. */
  lemma {:induction false} EntriesLines(code: seq<string>, entries: seq<Entry>, k: nat)
    requires k <= |entries| && AllDicts(entries)
    ensures EntriesFrom(code, entries, k).outcome.Pass? <==> forall j :: k <= j < |entries| ==> Renders(entries[j])
    ensures (forall j :: k <= j < |entries| ==> Renders(entries[j])) ==>
      EntriesFrom(code, entries, k).code == code + Lines(entries[k..])
    decreases |entries| - k
  {
    if k == |entries| {
      assert entries[k..] == [];
      assert code + [] == code;
    } else {
      EntryLines(code, entries[k]);
      var step := EntryStep(code, entries[k]);
      EntriesLines(step.code, entries, k + 1);
      if forall j :: k <= j < |entries| ==> Renders(entries[j]) {
        LinesFrom(entries, k);
      }
    }
  }

  /** The lines from the `k`-th entry on: that entry's two, then the rest. */
  lemma LinesFrom(entries: seq<Entry>, k: nat)
    requires k < |entries| && forall j :: k <= j < |entries| ==> Renders(entries[j])
    ensures AllRender(entries[k..]) && AllRender(entries[k + 1..])
    ensures Lines(entries[k..]) == [HeaderLine(entries[k]), PrintLine(entries[k])] + Lines(entries[k + 1..])
  {
    var rest := entries[k..];
    assert rest[0] == entries[k] && rest[1..] == entries[k + 1..];
    assert forall j :: 0 <= j < |rest| ==> rest[j] == entries[k + j];
  }

  /** What `generate` comes to: it succeeds exactly when every item is a
      dictionary that renders, and its output is then the lines of the
      entries, in order, joined by newlines. */
  lemma GeneratedAgrees(entries: seq<Entry>)
    ensures Generated(entries).Ok? <==> forall j :: 0 <= j < |entries| ==> Renders(entries[j])
    ensures (forall j :: 0 <= j < |entries| ==> Renders(entries[j])) ==>
      Generated(entries) == Ok(Join(Lines(entries), "\n"))
  {
    if AllDicts(entries) {
      EntriesLines([], entries, 0);
      assert entries[0..] == entries;
      if forall j :: 0 <= j < |entries| ==> Renders(entries[j]) {
        assert [] + Lines(entries) == Lines(entries);
      }
    } else {
      var j :| 0 <= j < |entries| && !entries[j].Dict?;
      assert !Renders(entries[j]);
    }
  }

  /** Each entry owns two consecutive lines: its header, then its print. */
  lemma LinesShape(entries: seq<Entry>)
    requires forall j :: 0 <= j < |entries| ==> Renders(entries[j])
    ensures |Lines(entries)| == 2 * |entries|
    ensures forall j :: 0 <= j < |entries| ==>
      Lines(entries)[2 * j] == HeaderLine(entries[j]) && Lines(entries)[2 * j + 1] == PrintLine(entries[j])
  {
    LinesLength(entries);
    forall j | 0 <= j < |entries|
      ensures Lines(entries)[2 * j] == HeaderLine(entries[j]) && Lines(entries)[2 * j + 1] == PrintLine(entries[j])
    {
      LinesAt(entries, j);
    }
  }

  lemma {:induction false} LinesLength(entries: seq<Entry>)
    requires forall j :: 0 <= j < |entries| ==> Renders(entries[j])
    ensures |Lines(entries)| == 2 * |entries|
    decreases |entries|
  {
    if entries != [] {
      LinesLength(entries[1..]);
    }
  }

  /** The `j`-th entry's lines are at `2 * j` and `2 * j + 1`. */
  lemma {:induction false} LinesAt(entries: seq<Entry>, j: nat)
    requires forall j :: 0 <= j < |entries| ==> Renders(entries[j])
    requires j < |entries|
    ensures 2 * j + 1 < |Lines(entries)|
    ensures Lines(entries)[2 * j] == HeaderLine(entries[j]) && Lines(entries)[2 * j + 1] == PrintLine(entries[j])
    decreases j
  {
    var rest := entries[1..];
    LinesLength(rest);
    if j > 0 {
      LinesAt(rest, j - 1);
      assert rest[j - 1] == entries[j];
    }
  }

  /** No line holds a newline when no header or print line does. */
  lemma {:induction false} LinesOneLine(entries: seq<Entry>)
    requires forall j :: 0 <= j < |entries| ==> Renders(entries[j])
    requires forall j :: 0 <= j < |entries| ==> '\n' !in HeaderLine(entries[j]) && '\n' !in PrintLine(entries[j])
    ensures forall k :: 0 <= k < |Lines(entries)| ==> '\n' !in Lines(entries)[k]
    decreases |entries|
  {
    if entries != [] {
      var rest := entries[1..];
      assert forall j :: 0 <= j < |rest| ==> rest[j] == entries[j + 1];
      LinesOneLine(rest);
    }
  }

  /** Splitting the output at newlines gives back the lines, two per entry,
      when no line holds a newline of its own. */
  lemma OutputLines(entries: seq<Entry>)
    requires |entries| > 0 && forall j :: 0 <= j < |entries| ==> Renders(entries[j])
    requires forall j :: 0 <= j < |entries| ==> '\n' !in HeaderLine(entries[j]) && '\n' !in PrintLine(entries[j])
    ensures Generated(entries).Ok?
    ensures Split(Generated(entries).value, '\n') == Lines(entries)
    ensures |Split(Generated(entries).value, '\n')| == 2 * |entries|
  {
    GeneratedAgrees(entries);
    LinesLength(entries);
    LinesOneLine(entries);
    SplitJoin(Lines(entries), '\n');
  }

  /** A single loop entry that renders becomes exactly its header line and
      its print line, joined by one newline. */
  lemma SingleEntry(e: Entry)
    requires Renders(e)
    ensures Generated([e]) == Ok(HeaderLine(e) + "\n" + PrintLine(e))
  {
    GeneratedAgrees([e]);
    assert [e][1..] == [];
    var lines := [HeaderLine(e), PrintLine(e)];
    assert Lines([e]) == lines + [];
    assert lines + [] == lines && lines[1..] == [PrintLine(e)];
  }

  /** No entries, no code. */
  lemma EmptyGenerated()
    ensures Generated([]) == Ok("")
  {
  }

  /** An entry without a type, or with a type other than `for_loop`, fails. */
  lemma UntypedRejected(code: seq<string>, e: Entry)
    requires e.Dict? && (e.kind.None? || e.kind.value != "for_loop")
    ensures EntryStep(code, e).outcome == Fail(if e.kind.None? then MissingType else UnsupportedEntry(e.kind.value))
  {
  }

  /** A loop whose iterable renders but whose body is not a print fails on
      the body, with the header already emitted: so does every record of a
      nested loop. */
  lemma NonPrintBodyRejected(code: seq<string>, e: Entry)
    requires e.Dict? && e.kind == Some("for_loop") && e.variable.Some? && e.iterable.Some?
    requires Expression(e.iterable.value).Ok? && e.body.Some? && !e.body.value.Print?
    ensures EntryStep(code, e).outcome == Fail(UnsupportedBody(e.body.value))
    ensures |EntryStep(code, e).code| == |code| + 1
  {
  }

  /** A range renders as a call of `range` on its two children's texts, and
      fails when either child has none. */
  lemma RangeText(a: Node, b: Node)
    ensures Expression(Range(a, b)).Ok? <==> TextOf(a).Some? && TextOf(b).Some?
    ensures Expression(Range(a, b)).Ok? ==>
      Expression(Range(a, b)).value == "range(" + TextOf(a).value + ", " + TextOf(b).value + ")"
  {
    var ts := Texts([a, b]);
    assert [a, b][0] == a && [a, b][1] == b;
    if ts.Some? {
      var ta, tb := TextOf(a).value, TextOf(b).value;
      assert ts.value == [ta, tb];
      assert ts.value[1..] == [tb];
      assert Join(ts.value, ", ") == ta + ", " + tb;
      assert "range(" + (ta + ", " + tb) + ")" == "range(" + ta + ", " + tb + ")";
    }
  }

  /** The implicit-start range of `intervalo 5` becomes `range(0, 5)`. */
  lemma ZeroStartRangeText()
    ensures Expression(Range(Generic("INTEGER", "0"), IntLit("5"))) == Ok("range(0, 5)")
  {
    RangeText(Generic("INTEGER", "0"), IntLit("5"));
    assert "range(" + "0" + ", " + "5" + ")" == "range(0, 5)";
  }

  /** A string keeps its quotes. */
  lemma QuotesKept()
    ensures Expression(Print(StrLit("\"oi\""))) == Ok("\"oi\"")
  {
    var quoted := [StrLit("\"oi\"")];
    assert quoted[1..] == [];
    assert ["\"oi\""] + [] == ["\"oi\""];
    assert Texts(quoted) == Some(["\"oi\""]);
  }

  /** A pair is not an expression the generator knows, and a range inside a
      range has no text to join. */
  lemma ExpressionsRejected()
    ensures Expression(Pair(IntLit("1"), IntLit("2"))) == Err(UnsupportedExpression("tuple"))
    ensures Expression(Range(Range(IntLit("1"), IntLit("2")), IntLit("3"))) == Err(NotText)
  {
    RangeText(Range(IntLit("1"), IntLit("2")), IntLit("3"));
  }

  // ---------------------------------------------------------------------
  // The generator object: a buffer of lines, appended to in place

  class Generator {
    var code: seq<string>

    constructor()
      ensures code == []
    {
      code := [];
    }

    /** `__generate_entry` */
    method GenerateEntry(e: Entry) returns (r: Outcome<GenerationError>)
      requires e.Dict?
      modifies this
      ensures Step(code, r) == EntryStep(old(code), e)
    {
      if e.kind.None? {
        return Fail(MissingType);
      }
      if e.kind.value == "for_loop" {
        r := GenerateForLoop(e);
      } else {
        r := Fail(UnsupportedEntry(e.kind.value));
      }
    }

    /** `__generate_for_loop` */
    method GenerateForLoop(e: Entry) returns (r: Outcome<GenerationError>)
      requires e.Dict?
      modifies this
      ensures Step(code, r) == ForLoopStep(old(code), e)
    {
      if e.variable.None? {
        return Fail(MissingKey("variable"));
      }
      if e.iterable.None? {
        return Fail(MissingKey("iterable"));
      }
      var iterable := Expression(e.iterable.value);
      if iterable.Err? {
        return Fail(iterable.error);
      }
      code := code + ["for " + e.variable.value + " in " + iterable.value + ":"];
      r := GenerateStatement(e);
    }

    /** `__generate_statement` */
    method GenerateStatement(e: Entry) returns (r: Outcome<GenerationError>)
      requires e.Dict?
      modifies this
      ensures Step(code, r) == StatementStep(old(code), e)
    {
      if e.body.None? {
        return Fail(MissingKey("body"));
      }
      if e.body.value.Print? {
        r := GeneratePrintStatement(e);
      } else {
        r := Fail(UnsupportedBody(e.body.value));
      }
    }

    /** `__generate_print_statement` */
    method GeneratePrintStatement(e: Entry) returns (r: Outcome<GenerationError>)
      requires e.Dict? && e.body.Some?
      modifies this
      ensures Step(code, r) == PrintStep(old(code), e)
    {
      var expression := Expression(e.body.value);
      if expression.Err? {
        return Fail(expression.error);
      }
      code := code + ["    print(" + expression.value + ")"];
      return Pass;
    }
  }

  /** `CodeGenerator.generate`: a fresh generator run over every entry, its
      lines joined by newlines. */
  method Generate(entries: seq<Entry>) returns (r: Result<string, GenerationError>)
    ensures r == Generated(entries)
  {
    if exists j :: 0 <= j < |entries| && entries[j].NotADict? {
      return Err(NotAListOfDicts);
    }
    var generator := new Generator();
    for k := 0 to |entries|
      invariant EntriesFrom([], entries, 0) == EntriesFrom(generator.code, entries, k)
    {
      var outcome := generator.GenerateEntry(entries[k]);
      if outcome.Fail? {
        return Err(outcome.error);
      }
    }
    return Ok(Join(generator.code, "\n"));
  }
}
