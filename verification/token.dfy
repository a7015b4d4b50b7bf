/** `Token`: an immutable (kind, text) pair and its indented `repr`. */
module Tokens {
  import opened TokenTypes
  import opened Strings

  /** `Token(type, value)`: the constructor stores both unchanged. */
  datatype Token = Token(kind: TokenKind, text: string)

  /** `Token.__repr__(level=0)`: `level` tabs, then `Token(type=NAME, value='TEXT')`,
      with no trailing newline. */
  function Repr(t: Token, level: nat := 0): (r: string)
    ensures |r| > level + 2 && r[..level] == Tabs(level) && r[level] != '\t'
    ensures r[|r| - 2..] == "')"
  {
    Tabs(level) + "Token(type=" + Fields(t)
  }

  /** The layout of a token's repr, piece by piece. */
  lemma ReprLayout(t: Token, level: nat)
    ensures Repr(t, level)[level..] == "Token(type=" + Name(t.kind) + ", value='" + t.text + "')"
    ensures Repr(t) == Repr(t, 0) && Repr(t)[0] == 'T'
  {
  }

  /** The repr determines the token and the level: the kind name has no comma,
      so it ends at the first comma, and the text is what remains before `')`. */
  lemma {:induction false} ReprInjective(a: Token, la: nat, b: Token, lb: nat)
    requires Repr(a, la) == Repr(b, lb)
    ensures a == b && la == lb
  {
    ReprLevel(a, la, b, lb);
    var head := Tabs(la) + "Token(type=";
    assert Repr(a, la) == head + Fields(a);
    assert Repr(b, la) == head + Fields(b);
    assert Fields(a) == Repr(a, la)[|head|..];
    FieldsInjective(a, b);
  }

  /** What follows `Token(type=` in the repr. */
  function Fields(t: Token): string
  {
    Name(t.kind) + ", value='" + t.text + "')"
  }

  /** The level is the number of leading tabs. */
  lemma ReprLevel(a: Token, la: nat, b: Token, lb: nat)
    requires Repr(a, la) == Repr(b, lb)
    ensures la == lb
  {
    var ra, rb := Repr(a, la), Repr(b, lb);
    if la < lb {
      assert false;
    } else if lb < la {
      assert false;
    }
  }

  lemma FieldsInjective(a: Token, b: Token)
    requires Fields(a) == Fields(b)
    ensures a == b
  {
    var na, nb := Name(a.kind), Name(b.kind);
    var ta, tb := Fields(a), Fields(b);
    FieldsLayout(a);
    FieldsLayout(b);
    if |na| < |nb| {
      assert false;
    } else if |nb| < |na| {
      assert false;
    }
    assert na == ta[..|na|] == tb[..|nb|] == nb;
    KindsDistinct(a.kind, b.kind);
    var mid := |na| + |", value='"|;
    assert a.text == ta[mid..|ta| - 2];
    assert b.text == tb[mid..|tb| - 2];
  }

  /** In the fields, the kind name comes first and is followed by a comma. */
  lemma FieldsLayout(t: Token)
    ensures |Fields(t)| > |Name(t.kind)| && Fields(t)[|Name(t.kind)|] == ','
    ensures forall k :: 0 <= k < |Name(t.kind)| ==> Fields(t)[k] == Name(t.kind)[k]
  {
  }
}
