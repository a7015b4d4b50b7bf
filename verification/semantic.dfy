/** `Semantic`: walks the syntax tree, checks every name against a set of
    declared variables and records each loop it meets. The set starts empty;
    the first name checked is declared by being checked, so the set never
    holds more than that one name. */
module Semantic {
  import opened Outcomes
  import opened SyntaxTree

  /** The dictionary `{'type': 'for_loop', 'variable': v, 'iterable': it,
      'body': body}` the analysis appends for each loop; the iterable and the
      body are the loop's own child nodes. */
  datatype Record = Record(variable: string, iterable: Node, body: Node)

  /** The `SemanticException`s: a loop variable or a name in an expression
      that fails the declared check, and a statement of a class the analysis
      does not handle. */
  datatype SemanticError =
    | UndeclaredLoopVariable(name: string)
    | UndeclaredVariable(name: string)
    | UnsupportedStatement(className: string)

  /** The analyzer's state: the declared set and the records so far. */
  datatype State = State(declared: set<string>, records: seq<Record>)

  type Analysis = Result<State, SemanticError>

  // ---------------------------------------------------------------------
  // The meaning of each analysis routine, on a state value

  /** `__variable_declared`: an empty set first takes the name in; the name
      passes when it is then in the set. */
  function Declare(declared: set<string>, name: string): (r: (set<string>, bool))
    ensures r.1 <==> (declared == {} || name in declared)
    ensures r.0 == (if declared == {} then {name} else declared)
  {
    var now := if declared == {} then {name} else declared;
    (now, name in now)
  }

  /** `__analyze_expression`: an identifier is checked, a range checks its
      children in order, anything else passes unchecked. */
  function Expression(st: State, e: Node): (r: Analysis)
    ensures r.Ok? ==> r.value.records == st.records
    ensures r.Ok? && st.declared != {} ==> r.value.declared == st.declared
    decreases e, 1
  {
    match e
    case Ident(v) =>
      var (now, ok) := Declare(st.declared, v);
      if ok then Ok(State(now, st.records)) else Err(UndeclaredVariable(v))
    case Range(_, _) => ChildExpressions(st, e, 0)
    case _ => Ok(st)
  }

  /** The children of `parent` from the `k`-th on, each as an expression. */
  function ChildExpressions(st: State, parent: Node, k: nat): (r: Analysis)
    requires !parent.Pair? && k <= |Children(parent)|
    ensures r.Ok? ==> r.value.records == st.records
    ensures r.Ok? && st.declared != {} ==> r.value.declared == st.declared
    decreases parent, 0, |Children(parent)| - k
  {
    if k == |Children(parent)| then Ok(st)
    else
      match Expression(st, Children(parent)[k])
      case Err(e) => Err(e)
      case Ok(next) => ChildExpressions(next, parent, k + 1)
  }

  /** `__analyze_statement`, `__analyze_for_loop` and
      `__analyze_print_statement`: a loop checks its variable, appends its
      record, then checks its iterable and its body; a print checks its
      expression; any other node is unsupported. */
  function Statement(st: State, s: Node): (r: Analysis)
    ensures r.Ok? ==> Supported(s) && st.records <= r.value.records
    ensures r.Ok? && st.declared != {} ==> r.value.declared == st.declared
    decreases s
  {
    match s
    case ForLoop(v, it, body) =>
      var (now, ok) := Declare(st.declared, v);
      if !ok then Err(UndeclaredLoopVariable(v))
      else
        (match Expression(State(now, st.records + [Record(v, it, body)]), it)
         case Err(e) => Err(e)
         case Ok(next) => Statement(next, body))
    case Print(e) => Expression(st, e)
    case _ => Err(UnsupportedStatement(ClassName(s)))
  }

  /** `__analyze_program`: the children of the root from the `k`-th on, each
      as a statement. */
  function ProgramFrom(st: State, program: Node, k: nat): (r: Analysis)
    requires !program.Pair? && k <= |Children(program)|
    ensures r.Ok? && st.declared != {} ==> r.value.declared == st.declared
    decreases |Children(program)| - k
  {
    if k == |Children(program)| then Ok(st)
    else
      match Statement(st, Children(program)[k])
      case Err(e) => Err(e)
      case Ok(next) => ProgramFrom(next, program, k + 1)
  }

  /** `Semantic.analyze`: the records of a fresh analysis of the whole tree. */
  function AnalysisOf(tree: Node): (r: Result<seq<Record>, SemanticError>)
    requires !tree.Pair?
    ensures r.Ok? ==> AllSupported(Children(tree))
    ensures Children(tree) == [] ==> r == Ok([])
  {
    ProgramAgrees({}, [], tree, 0);
    assert Children(tree)[0..] == Children(tree);
    match ProgramFrom(State({}, []), tree, 0)
    case Err(e) => Err(e)
    case Ok(st) => Ok(st.records)
  }

  // ---------------------------------------------------------------------
  // A reference description: which names are checked, which shapes are
  // handled, which records are made

  /** The names an expression checks, in order. */
  function ExpressionNames(e: Node): seq<string>
  {
    match e
    case Ident(v) => [v]
    case Range(a, b) => ExpressionNames(a) + ExpressionNames(b)
    case _ => []
  }

  /** The names a statement checks, in order. */
  function StatementNames(s: Node): seq<string>
  {
    match s
    case ForLoop(v, it, body) => [v] + (ExpressionNames(it) + StatementNames(body))
    case Print(e) => ExpressionNames(e)
    case _ => []
  }

  /** A statement the analysis handles: a print, or loops nested around one. */
  predicate Supported(s: Node)
  {
    match s
    case ForLoop(_, _, body) => Supported(body)
    case Print(_) => true
    case _ => false
  }

  /** The records of a statement: one per loop, outermost first. */
  function StatementRecords(s: Node): seq<Record>
  {
    match s
    case ForLoop(v, it, body) => [Record(v, it, body)] + StatementRecords(body)
    case _ => []
  }

  /** The statements of the root from the `k`-th on: all supported, their
      names one after another, their records one after another. */
  predicate AllSupported(ss: seq<Node>)
  {
    forall k :: 0 <= k < |ss| ==> Supported(ss[k])
  }

  function ProgramNames(ss: seq<Node>): seq<string>
  {
    if ss == [] then [] else StatementNames(ss[0]) + ProgramNames(ss[1..])
  }

  function ProgramRecords(ss: seq<Node>): seq<Record>
  {
    if ss == [] then [] else StatementRecords(ss[0]) + ProgramRecords(ss[1..])
  }

  /** The declared set after checking `names`: an empty set takes the first
      of them, a non-empty one never changes. */
  function Seen(declared: set<string>, names: seq<string>): set<string>
  {
    if declared == {} && names != [] then {names[0]} else declared
  }

  /** Every name passes the check, given the set before them. */
  predicate Agree(declared: set<string>, names: seq<string>)
  {
    forall k :: 0 <= k < |names| ==> names[k] in Seen(declared, names)
  }

  /** The declared set holds at most one name, and keeps that bound. */
  lemma SeenBound(declared: set<string>, names: seq<string>)
    requires |declared| <= 1
    ensures |Seen(declared, names)| <= 1
    ensures declared != {} ==> Seen(declared, names) == declared
  {
  }

  /** Checking two runs of names is checking the first, then the second
      from the set the first leaves. */
  lemma AgreeAppend(declared: set<string>, a: seq<string>, b: seq<string>)
    ensures Agree(declared, a + b) <==> Agree(declared, a) && Agree(Seen(declared, a), b)
    ensures Seen(declared, a + b) == Seen(Seen(declared, a), b)
  {
    if declared == {} && a == [] {
      assert a + b == b;
    } else if declared == {} {
      var d := {a[0]};
      assert (a + b)[0] == a[0];
      if Agree(declared, a + b) {
        assert forall k :: 0 <= k < |a| ==> a[k] == (a + b)[k];
        assert forall k :: 0 <= k < |b| ==> b[k] == (a + b)[|a| + k];
      }
      if Agree(declared, a) && Agree(Seen(declared, a), b) {
        forall k | 0 <= k < |a + b|
          ensures (a + b)[k] in d
        {
          if k < |a| {
            assert (a + b)[k] == a[k];
          } else {
            assert (a + b)[k] == b[k - |a|];
          }
        }
      }
    } else {
      if Agree(declared, a + b) {
        assert forall k :: 0 <= k < |a| ==> a[k] == (a + b)[k];
        assert forall k :: 0 <= k < |b| ==> b[k] == (a + b)[|a| + k];
      }
      if Agree(declared, a) && Agree(Seen(declared, a), b) {
        forall k | 0 <= k < |a + b|
          ensures (a + b)[k] in declared
        {
          if k < |a| {
            assert (a + b)[k] == a[k];
          } else {
            assert (a + b)[k] == b[k - |a|];
          }
        }
      }
    }
  }

  /** One name checked against the set. */
  lemma DeclareAgrees(declared: set<string>, v: string)
    ensures Declare(declared, v).1 <==> Agree(declared, [v])
    ensures Declare(declared, v).0 == Seen(declared, [v])
  {
    var names := [v];
    assert names[0] == v;
    if declared != {} && v !in declared {
      assert names[0] !in Seen(declared, names);
    }
  }

  /** An expression passes exactly when its names agree; it leaves the
      records alone and the set as `Seen` says. */
  lemma {:induction false} ExpressionAgrees(d: set<string>, rs: seq<Record>, e: Node)
    ensures Expression(State(d, rs), e).Ok? <==> Agree(d, ExpressionNames(e))
    ensures Expression(State(d, rs), e).Ok? ==> Expression(State(d, rs), e).value == State(Seen(d, ExpressionNames(e)), rs)
    decreases e
  {
    match e
    case Ident(v) => DeclareAgrees(d, v);
    case Range(a, b) =>
      assert Children(e) == [a, b];
      ExpressionAgrees(d, rs, a);
      var d1 := Seen(d, ExpressionNames(a));
      ExpressionAgrees(d1, rs, b);
      AgreeAppend(d, ExpressionNames(a), ExpressionNames(b));
      RangeSteps(State(d, rs), a, b);
    case _ =>
  }

  /** A range checks its start, then its end. */
  lemma RangeSteps(st: State, a: Node, b: Node)
    ensures Expression(st, Range(a, b)) ==
      match Expression(st, a)
      case Err(e) => Err(e)
      case Ok(next) => Expression(next, b)
  {
    var e := Range(a, b);
    assert Children(e) == [a, b];
    match Expression(st, a)
    case Err(_) =>
    case Ok(next) =>
      assert ChildExpressions(st, e, 0) == ChildExpressions(next, e, 1);
      match Expression(next, b)
      case Err(_) =>
      case Ok(last) =>
        assert ChildExpressions(next, e, 1) == ChildExpressions(last, e, 2) == Ok(last);
  }

  /** A statement passes exactly when it is supported and its names agree;
      it then appends its records, outermost loop first. */
  lemma {:induction false} StatementAgrees(d: set<string>, rs: seq<Record>, s: Node)
    ensures Statement(State(d, rs), s).Ok? <==> Supported(s) && Agree(d, StatementNames(s))
    ensures Statement(State(d, rs), s).Ok? ==>
      Statement(State(d, rs), s).value == State(Seen(d, StatementNames(s)), rs + StatementRecords(s))
    decreases s
  {
    match s
    case ForLoop(v, it, body) =>
      DeclareAgrees(d, v);
      var d1 := Seen(d, [v]);
      var rs1 := rs + [Record(v, it, body)];
      ExpressionAgrees(d1, rs1, it);
      var d2 := Seen(d1, ExpressionNames(it));
      StatementAgrees(d2, rs1, body);
      AgreeAppend(d1, ExpressionNames(it), StatementNames(body));
      AgreeAppend(d, [v], ExpressionNames(it) + StatementNames(body));
      assert rs1 + StatementRecords(body) == rs + StatementRecords(s);
    case Print(e) => ExpressionAgrees(d, rs, e);
    case _ =>
  }

  /** The statements of the root from the `k`-th on pass exactly when all
      are supported and all their names agree. */
  lemma {:induction false} ProgramAgrees(d: set<string>, rs: seq<Record>, program: Node, k: nat)
    requires !program.Pair? && k <= |Children(program)|
    ensures var ss := Children(program)[k..];
      ProgramFrom(State(d, rs), program, k).Ok? <==> AllSupported(ss) && Agree(d, ProgramNames(ss))
    ensures var ss := Children(program)[k..];
      ProgramFrom(State(d, rs), program, k).Ok? ==>
      ProgramFrom(State(d, rs), program, k).value == State(Seen(d, ProgramNames(ss)), rs + ProgramRecords(ss))
    decreases |Children(program)| - k
  {
    var ss := Children(program)[k..];
    if k == |Children(program)| {
      assert ss == [];
      assert rs + [] == rs;
    } else {
      var s := Children(program)[k];
      assert ss[0] == s && ss[1..] == Children(program)[k + 1..];
      StatementAgrees(d, rs, s);
      var d1 := Seen(d, StatementNames(s));
      var rs1 := rs + StatementRecords(s);
      ProgramAgrees(d1, rs1, program, k + 1);
      AgreeAppend(d, StatementNames(s), ProgramNames(ss[1..]));
      assert rs1 + ProgramRecords(ss[1..]) == rs + ProgramRecords(ss);
      assert AllSupported(ss) <==> Supported(s) && AllSupported(ss[1..]);
    }
  }

  /** What the analysis of a whole tree comes to: it succeeds exactly when
      every top-level statement is a print or loops around one and every
      name it checks equals the first; its records are then the loops of the
      tree, outermost first, statement after statement. */
  lemma AnalysisAgrees(tree: Node)
    requires !tree.Pair?
    ensures AnalysisOf(tree).Ok? <==> AllSupported(Children(tree)) && Agree({}, ProgramNames(Children(tree)))
    ensures AnalysisOf(tree).Ok? ==> AnalysisOf(tree).value == ProgramRecords(Children(tree))
  {
    ProgramAgrees({}, [], tree, 0);
    assert Children(tree)[0..] == Children(tree);
    assert [] + ProgramRecords(Children(tree)) == ProgramRecords(Children(tree));
  }

  /** After a successful analysis the declared set is empty when no name
      was checked and holds just the first name checked otherwise. */
  lemma DeclaredIsFirstName(tree: Node)
    requires !tree.Pair?
    ensures var r := ProgramFrom(State({}, []), tree, 0); var names := ProgramNames(Children(tree));
      r.Ok? ==> r.value.declared == (if names == [] then {} else {names[0]})
  {
    ProgramAgrees({}, [], tree, 0);
    assert Children(tree)[0..] == Children(tree);
  }

  // ---------------------------------------------------------------------
  // Worked examples

  /** An empty program has no records. */
  lemma EmptyAnalysis()
    ensures AnalysisOf(Program([])) == Ok([])
  {
  }

  /** A second loop over a different variable fails the declared check. */
  lemma SecondVariableRejected()
    ensures AnalysisOf(Program([
      ForLoop("x", Range(Generic("INTEGER", "0"), IntLit("5")), Print(Ident("x"))),
      ForLoop("y", Range(Generic("INTEGER", "0"), IntLit("3")), Print(Ident("y")))]))
      == Err(UndeclaredLoopVariable("y"))
  {
  }

  /** A print at the top level is checked and accepted, and leaves no record. */
  lemma TopLevelPrintAccepted()
    ensures AnalysisOf(Program([Print(Ident("x"))])) == Ok([])
  {
  }

  /** A range at the top level is not a statement the analysis handles. */
  lemma TopLevelRangeRejected()
    ensures AnalysisOf(Program([Range(IntLit("1"), IntLit("2"))])) == Err(UnsupportedStatement("RangeNode"))
  {
  }

  /** Nested loops over the same variable give one record each, outermost first. */
  lemma NestedLoopRecords()
    ensures var inner := ForLoop("x", Ident("x"), Print(Ident("x")));
      var outer := ForLoop("x", Range(IntLit("1"), IntLit("3")), inner);
      AnalysisOf(Program([outer])) == Ok([Record("x", Range(IntLit("1"), IntLit("3")), inner), Record("x", Ident("x"), Print(Ident("x")))])
  {
    var inner := ForLoop("x", Ident("x"), Print(Ident("x")));
    var outer := ForLoop("x", Range(IntLit("1"), IntLit("3")), inner);
    AnalysisAgrees(Program([outer]));
    assert Children(Program([outer])) == [outer];
    assert AllSupported([outer]);
    assert ProgramNames([outer]) == ["x", "x", "x", "x"];
    assert Agree({}, ["x", "x", "x", "x"]);
    assert ProgramRecords([outer]) == StatementRecords(outer) + [];
    var records := [Record("x", Range(IntLit("1"), IntLit("3")), inner), Record("x", Ident("x"), Print(Ident("x")))];
    assert StatementRecords(outer) == [records[0]] + ([records[1]] + []);
    assert ProgramRecords([outer]) == records;
  }

  // ---------------------------------------------------------------------
  // The analyzer object: the declared set and the records, updated in place

  /** A routine's outcome paired with the state it left. */
  function Settle(o: Outcome<SemanticError>, st: State): Analysis
  {
    match o
    case Pass => Ok(st)
    case Fail(e) => Err(e)
  }

  class Analyzer {
    var declared: set<string>
    var records: seq<Record>

    /** The declared set never holds more than one name. */
    predicate Valid()
      reads this
    {
      |declared| <= 1
    }

    function Snapshot(): State
      reads this
    {
      State(declared, records)
    }

    constructor()
      ensures declared == {} && records == [] && Valid()
    {
      declared := {};
      records := [];
    }

    /** `__variable_declared` */
    method VariableDeclared(name: string) returns (ok: bool)
      requires Valid()
      modifies this
      ensures Valid()
      ensures (declared, ok) == Declare(old(declared), name) && records == old(records)
    {
      if declared == {} {
        declared := declared + {name};
      }
      ok := name in declared;
    }

    /** `__analyze_expression` */
    method AnalyzeExpression(e: Node) returns (r: Outcome<SemanticError>)
      requires Valid()
      modifies this
      ensures Valid()
      ensures Settle(r, Snapshot()) == Expression(old(Snapshot()), e)
      decreases e
    {
      if e.Ident? {
        var ok := VariableDeclared(e.name);
        if !ok {
          return Fail(UndeclaredVariable(e.name));
        }
      } else if e.Range? {
        var children := Children(e);
        for k := 0 to |children|
          invariant Valid()
          invariant ChildExpressions(old(Snapshot()), e, 0) == ChildExpressions(Snapshot(), e, k)
        {
          r := AnalyzeExpression(children[k]);
          if r.Fail? {
            return;
          }
        }
      }
      return Pass;
    }

    /** `__analyze_statement` */
    method AnalyzeStatement(s: Node) returns (r: Outcome<SemanticError>)
      requires Valid()
      modifies this
      ensures Valid()
      ensures Settle(r, Snapshot()) == Statement(old(Snapshot()), s)
      decreases s, 1
    {
      if s.ForLoop? {
        r := AnalyzeForLoop(s);
      } else if s.Print? {
        r := AnalyzePrintStatement(s);
      } else {
        r := Fail(UnsupportedStatement(ClassName(s)));
      }
    }

    /** `__analyze_for_loop`: the record goes in before the iterable and the
        body are checked. */
    method AnalyzeForLoop(node: Node) returns (r: Outcome<SemanticError>)
      requires node.ForLoop? && Valid()
      modifies this
      ensures Valid()
      ensures Settle(r, Snapshot()) == Statement(old(Snapshot()), node)
      decreases node, 0
    {
      var variable := node.variable;
      var ok := VariableDeclared(variable);
      if !ok {
        return Fail(UndeclaredLoopVariable(variable));
      }
      var children := Children(node);
      records := records + [Record(variable, children[0], children[1])];
      r := AnalyzeExpression(children[0]);
      if r.Fail? {
        return;
      }
      r := AnalyzeStatement(children[1]);
    }

    /** `__analyze_print_statement` */
    method AnalyzePrintStatement(node: Node) returns (r: Outcome<SemanticError>)
      requires node.Print? && Valid()
      modifies this
      ensures Valid()
      ensures Settle(r, Snapshot()) == Statement(old(Snapshot()), node)
      decreases node, 0
    {
      r := AnalyzeExpression(Children(node)[0]);
    }

    /** `__analyze_program` */
    method AnalyzeProgram(program: Node) returns (r: Outcome<SemanticError>)
      requires !program.Pair? && Valid()
      modifies this
      ensures Valid()
      ensures Settle(r, Snapshot()) == ProgramFrom(old(Snapshot()), program, 0)
    {
      var statements := Children(program);
      for k := 0 to |statements|
        invariant Valid()
        invariant ProgramFrom(old(Snapshot()), program, 0) == ProgramFrom(Snapshot(), program, k)
      {
        r := AnalyzeStatement(statements[k]);
        if r.Fail? {
          return;
        }
      }
      return Pass;
    }
  }

  /** `Semantic.analyze`: a fresh analyzer run over the tree. */
  method Analyze(tree: Node) returns (r: Result<seq<Record>, SemanticError>)
    requires !tree.Pair?
    ensures r == AnalysisOf(tree)
  {
    var analyzer := new Analyzer();
    var outcome := analyzer.AnalyzeProgram(tree);
    if outcome.Fail? {
      return Err(outcome.error);
    }
    return Ok(analyzer.records);
  }
}
