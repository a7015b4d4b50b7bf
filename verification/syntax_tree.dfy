/** `ASTNode` and its subclasses: the syntax tree the parser builds, the
    generic view every node offers (type, value, children) and its indented
    text representation. */
module SyntaxTree {
  import opened Outcomes
  import opened Strings

  /** A syntax-tree node. `Generic` is a plain `ASTNode` built directly (the
      parser makes one, an INTEGER with value `0`, as the implicit start of a
      one-argument range). `Pair` is the tuple `(a, b)` a parenthesised pair
      yields: it is not an `ASTNode` and has none of the node attributes. */
  datatype Node =
    | Program(statements: seq<Node>)
    | ForLoop(variable: string, iterable: Node, body: Node)
    | Print(expression: Node)
    | Range(start: Node, end: Node)
    | Ident(name: string)
    | IntLit(text: string)
    | StrLit(text: string)
    | Generic(nodeType: string, value: string)
    | Pair(first: Node, second: Node)

  /** `type(node).__name__`: the Python class a node is an instance of. The
      program root and the implicit range start are plain `ASTNode`s. */
  function ClassName(n: Node): string
  {
    match n
    case Program(_) => "ASTNode"
    case ForLoop(_, _, _) => "ForLoopNode"
    case Print(_) => "PrintNode"
    case Range(_, _) => "RangeNode"
    case Ident(_) => "IdentifierNode"
    case IntLit(_) => "IntegerNode"
    case StrLit(_) => "StringNode"
    case Generic(_, _) => "ASTNode"
    case Pair(_, _) => "tuple"
  }

  /** `node.node_type` */
  function NodeType(n: Node): string
    requires !n.Pair?
  {
    match n
    case Program(_) => "PROGRAM"
    case ForLoop(_, _, _) => "FOR_LOOP"
    case Print(_) => "PRINT"
    case Range(_, _) => "RANGE"
    case Ident(_) => "IDENTIFIER"
    case IntLit(_) => "INTEGER"
    case StrLit(_) => "STRING"
    case Generic(t, _) => t
  }

  /** `node.value`, None standing for Python's `None` */
  function Value(n: Node): Option<string>
    requires !n.Pair?
  {
    match n
    case ForLoop(v, _, _) => Some(v)
    case Ident(v) => Some(v)
    case IntLit(v) => Some(v)
    case StrLit(v) => Some(v)
    case Generic(_, v) => Some(v)
    case _ => None
  }

  /** `node.children`, in order */
  function Children(n: Node): (r: seq<Node>)
    requires !n.Pair?
    ensures forall c :: c in r ==> c < n
  {
    match n
    case Program(ss) => ss
    case ForLoop(_, i, b) => [i, b]
    case Print(e) => [e]
    case Range(s, e) => [s, e]
    case _ => []
  }

  /** The node attributes each subclass constructor sets: a for loop keeps
      its variable as value and iterable then body as children; print, range
      and the program have no value; identifiers and literals have a value and
      no children. */
  lemma NodeViews(v: string, a: Node, b: Node, ss: seq<Node>)
    ensures NodeType(ForLoop(v, a, b)) == "FOR_LOOP" && Value(ForLoop(v, a, b)) == Some(v)
    ensures Children(ForLoop(v, a, b)) == [a, b]
    ensures NodeType(Print(a)) == "PRINT" && Value(Print(a)) == None && Children(Print(a)) == [a]
    ensures NodeType(Range(a, b)) == "RANGE" && Value(Range(a, b)) == None && Children(Range(a, b)) == [a, b]
    ensures NodeType(Ident(v)) == "IDENTIFIER" && Value(Ident(v)) == Some(v) && Children(Ident(v)) == []
    ensures NodeType(IntLit(v)) == "INTEGER" && Value(IntLit(v)) == Some(v) && Children(IntLit(v)) == []
    ensures NodeType(StrLit(v)) == "STRING" && Value(StrLit(v)) == Some(v) && Children(StrLit(v)) == []
    ensures NodeType(Program(ss)) == "PROGRAM" && Value(Program(ss)) == None && Children(Program(ss)) == ss
  {
  }

  /** The implicit range start and an INTEGER literal `0` look alike through
      every node attribute, yet they are different nodes: only the literal is
      an `IntegerNode`. */
  lemma ZeroStartIsNotALiteral()
    ensures NodeType(Generic("INTEGER", "0")) == NodeType(IntLit("0"))
    ensures Value(Generic("INTEGER", "0")) == Value(IntLit("0"))
    ensures Children(Generic("INTEGER", "0")) == Children(IntLit("0"))
    ensures Generic("INTEGER", "0") != IntLit("0")
  {
  }

  /** First line of `node.__repr__(level)`: `level` tabs, the type, a space,
      the value in parentheses when there is one, and a newline. */
  function Header(n: Node, level: nat): string
    requires !n.Pair?
  {
    Tabs(level) + NodeType(n) + " " + (match Value(n) case Some(v) => "(" + v + ")" case None => "") + "\n"
  }

  /** `node.__repr__(level)`: the header, then each child's representation one
      level deeper. A tuple child has no `__repr__(level)`, so a tree holding
      one has no representation (None). */
  function Repr(n: Node, level: nat): Option<string>
    requires !n.Pair?
    decreases n, 1
  {
    match ReprChildren(n, 0, level + 1)
    case None => None
    case Some(rest) => Some(Header(n, level) + rest)
  }

  /** The representations of the children from the `k`-th on, concatenated. */
  function ReprChildren(parent: Node, k: nat, level: nat): Option<string>
    requires !parent.Pair? && k <= |Children(parent)|
    decreases parent, 0, |Children(parent)| - k
  {
    if k == |Children(parent)| then Some("")
    else
      var c := Children(parent)[k];
      if c.Pair? then None
      else match Repr(c, level)
        case None => None
        case Some(a) =>
          match ReprChildren(parent, k + 1, level)
          case None => None
          case Some(b) => Some(a + b)
  }

  /** No tuple anywhere in the tree. */
  predicate PairFree(n: Node)
  {
    !n.Pair? && forall k :: 0 <= k < |Children(n)| ==> PairFree(Children(n)[k])
  }

  /** Every node of the tree is printable on one line: no tuple, and no type
      or value holds a newline. */
  predicate OneLineEach(n: Node)
  {
    !n.Pair? && '\n' !in NodeType(n) &&
    (Value(n).Some? ==> '\n' !in Value(n).value) &&
    forall k :: 0 <= k < |Children(n)| ==> OneLineEach(Children(n)[k])
  }

  /** Number of nodes in the tree. */
  function Size(n: Node): nat
    requires !n.Pair?
    decreases n, 1
  {
    1 + SizeFrom(n, 0)
  }

  function SizeFrom(parent: Node, k: nat): nat
    requires !parent.Pair? && k <= |Children(parent)|
    decreases parent, 0, |Children(parent)| - k
  {
    if k == |Children(parent)| then 0
    else
      var c := Children(parent)[k];
      (if c.Pair? then 0 else Size(c)) + SizeFrom(parent, k + 1)
  }

  /** A tree has a representation exactly when it holds no tuple. */
  lemma {:induction false} ReprDefined(n: Node, level: nat)
    requires !n.Pair?
    ensures Repr(n, level).Some? <==> PairFree(n)
    decreases n, 1
  {
    ReprChildrenDefined(n, 0, level + 1);
  }

  lemma {:induction false} ReprChildrenDefined(parent: Node, k: nat, level: nat)
    requires !parent.Pair? && k <= |Children(parent)|
    ensures ReprChildren(parent, k, level).Some? <==>
      forall j :: k <= j < |Children(parent)| ==> PairFree(Children(parent)[j])
    decreases parent, 0, |Children(parent)| - k
  {
    if k < |Children(parent)| {
      var c := Children(parent)[k];
      ReprChildrenDefined(parent, k + 1, level);
      if !c.Pair? {
        ReprDefined(c, level);
      }
    }
  }

  /** The representation has one line per node: its newlines number the
      nodes of the tree, provided no type or value holds a newline. */
  lemma {:induction false} ReprLines(n: Node, level: nat)
    requires OneLineEach(n)
    ensures Repr(n, level).Some? && Count(Repr(n, level).value, '\n') == Size(n)
    decreases n, 1
  {
    ReprChildrenLines(n, 0, level + 1);
    HeaderLines(n, level);
    CountConcat(Header(n, level), ReprChildren(n, 0, level + 1).value, '\n');
  }

  lemma {:induction false} ReprChildrenLines(parent: Node, k: nat, level: nat)
    requires !parent.Pair? && k <= |Children(parent)|
    requires forall j :: 0 <= j < |Children(parent)| ==> OneLineEach(Children(parent)[j])
    ensures ReprChildren(parent, k, level).Some?
    ensures Count(ReprChildren(parent, k, level).value, '\n') == SizeFrom(parent, k)
    decreases parent, 0, |Children(parent)| - k
  {
    if k < |Children(parent)| {
      var c := Children(parent)[k];
      ReprLines(c, level);
      ReprChildrenLines(parent, k + 1, level);
      CountConcat(Repr(c, level).value, ReprChildren(parent, k + 1, level).value, '\n');
    }
  }

  /** The header is a single line. */
  lemma HeaderLines(n: Node, level: nat)
    requires !n.Pair? && '\n' !in NodeType(n) && (Value(n).Some? ==> '\n' !in Value(n).value)
    ensures Count(Header(n, level), '\n') == 1
  {
    var v := match Value(n) case Some(v) => "(" + v + ")" case None => "";
    assert '\n' !in v;
    var line := Tabs(level) + NodeType(n) + " " + v;
    assert '\n' !in line;
    CountAbsent(line, '\n');
    CountConcat(line, "\n", '\n');
  }

  /** The header is `level` tabs, then the node's type, and ends with a
      newline. */
  lemma HeaderShape(n: Node, level: nat)
    requires !n.Pair?
    ensures var h := Header(n, level);
      |h| > level + |NodeType(n)| && h[|h| - 1] == '\n' &&
      (forall k :: 0 <= k < level ==> h[k] == '\t') &&
      h[level..level + |NodeType(n)|] == NodeType(n)
  {
    var h := Header(n, level);
    assert h == Tabs(level) + (NodeType(n) + (" " + (match Value(n) case Some(v) => "(" + v + ")" case None => "") + "\n"));
  }

  /** A representation starts with its node's header and ends with a newline. */
  lemma {:induction false} ReprShape(n: Node, level: nat)
    requires !n.Pair? && Repr(n, level).Some?
    ensures Header(n, level) <= Repr(n, level).value
    ensures var r := Repr(n, level).value; |r| > 0 && r[|r| - 1] == '\n'
    decreases n, 1
  {
    ReprChildrenShape(n, 0, level + 1);
  }

  lemma {:induction false} ReprChildrenShape(parent: Node, k: nat, level: nat)
    requires !parent.Pair? && k <= |Children(parent)|
    requires ReprChildren(parent, k, level).Some?
    ensures var r := ReprChildren(parent, k, level).value; r == [] || r[|r| - 1] == '\n'
    decreases parent, 0, |Children(parent)| - k
  {
    if k < |Children(parent)| {
      var c := Children(parent)[k];
      assert !c.Pair? && Repr(c, level).Some? && ReprChildren(parent, k + 1, level).Some?;
      var a := Repr(c, level).value;
      var b := ReprChildren(parent, k + 1, level).value;
      assert ReprChildren(parent, k, level).value == a + b;
      ReprShape(c, level);
      ReprChildrenShape(parent, k + 1, level);
      assert (a + b)[|a + b| - 1] == if b == [] then a[|a| - 1] else b[|b| - 1];
    }
  }
}
