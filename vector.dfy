/** Column vectors and the filter conditions their operators build.
    Every operator stringifies its operands at once, so a condition holds three
    strings and renders as `(lhs op rhs)`. */
module Vectors {
  import opened Strings

  /** A column of a table; `str(v)` is the column name. */
  datatype Vector = Vector(name: string)

  /** A filter condition node: `FilterCond(lhs, op, rhs)` after `str()` of both operands. */
  datatype Cond = Cond(lhs: string, op: string, rhs: string)

  /** What may stand on the right of an operator: a literal (rendered by Python's `str`), a column or a condition. */
  datatype Operand = Text(text: string) | Column(v: Vector) | Filter(c: Cond)

  /** The comparison and arithmetic operators a vector or condition overloads. */
  datatype Op = Lt | Le | Gt | Ge | Eq | Ne | Add | Sub | Mul | Div | Mod | LShift | RShift

  function Symbol(op: Op): (r: string)
    ensures 1 <= |r| <= 2
    ensures forall i :: 0 <= i < |r| ==> r[i] != '(' && r[i] != ')'
  {
    match op
    case Lt => "<"
    case Le => "<="
    case Gt => ">"
    case Ge => ">="
    case Eq => "=="
    case Ne => "!="
    case Add => "+"
    case Sub => "-"
    case Mul => "*"
    case Div => "/"
    case Mod => "%"
    case LShift => "<<"
    case RShift => ">>"
  }

  predicate IsComparison(op: Op)
  {
    op in {Lt, Le, Gt, Ge, Eq, Ne}
  }

  /** The operator Python tries on the right operand when the left one declines a comparison. */
  function Mirror(op: Op): (r: Op)
    requires IsComparison(op)
    ensures IsComparison(r)
  {
    match op
    case Lt => Gt
    case Le => Ge
    case Gt => Lt
    case Ge => Le
    case Eq => Eq
    case Ne => Ne
  }

  /** `FilterCond.__str__` */
  function Render(c: Cond): string
  {
    "(" + c.lhs + " " + c.op + " " + c.rhs + ")"
  }

  /** `str(other)` for each kind of operand. */
  function Str(x: Operand): string
  {
    match x
    case Text(t) => t
    case Column(v) => v.name
    case Filter(c) => Render(c)
  }

  /** `Vector.__lt__` ... `Vector.__rshift__`: the column name on the left, `str(other)` on the right. */
  function VectorOp(v: Vector, op: Op, other: Operand): Cond
  {
    Cond(v.name, Symbol(op), Str(other))
  }

  /** `FilterCond.__lt__` ... `FilterCond.__rshift__`: the rendered condition nests as the left operand. */
  function CondOp(c: Cond, op: Op, other: Operand): Cond
  {
    Cond(Render(c), Symbol(op), Str(other))
  }

  /** `FilterCond.__and__` */
  function And(c: Cond, other: Operand): Cond
  {
    Cond(Render(c), "and", Str(other))
  }

  /** `FilterCond.__or__` */
  function Or(c: Cond, other: Operand): Cond
  {
    Cond(Render(c), "or", Str(other))
  }

  /** `__floordiv__` as written: the divisor is never looked at. */
  function FloorDivAsWritten(self: Operand, other: Operand): Cond
  {
    Cond("int(", Str(self), ")")
  }

  /** `__floordiv__` with the divisor kept: `int(` around the quotient. */
  function FloorDiv(self: Operand, other: Operand): Cond
  {
    Cond("int(", Render(Cond(Str(self), "/", Str(other))), ")")
  }

  // ---------------------------------------------------------------------------
  // Python's evaluation of an operator expression
  // ---------------------------------------------------------------------------

  /** An expression as written in Python over columns, literals and the overloaded operators. */
  datatype Expr =
    | Col(name: string)
    | Lit(text: string)
    | Bin(l: Expr, op: Op, r: Expr)
    | Logic(l: Expr, conj: bool, r: Expr)   // `&` when conj, `|` otherwise
    | IntDiv(l: Expr, r: Expr)              // `//`

  /** One binary operator applied by Python's dispatch: the left operand's overload, else the reflected
      comparison of the right operand; None is the TypeError Python raises. `/` finds no `__truediv__`.
      Two literals are computed by Python itself, without a vector or a condition; that case is not
      modelled and also gives None. */
  function Apply(x: Operand, op: Op, y: Operand): (r: Option<Operand>)
    ensures r.None? <==> op == Div || (x.Text? && (!IsComparison(op) || y.Text?))
    ensures r.Some? ==> r.value.Filter?
    ensures r.Some? && !x.Text? ==> r.value.c == Cond(Str(x), Symbol(op), Str(y))
    ensures r.Some? && x.Text? ==> IsComparison(op) && r.value.c == Cond(Str(y), Symbol(Mirror(op)), Str(x))
    decreases if x.Text? then 1 else 0
  {
    if op == Div then None
    else match x
      case Column(v) => Some(Filter(VectorOp(v, op, y)))
      case Filter(c) => Some(Filter(CondOp(c, op, y)))
      case Text(_) => if IsComparison(op) && !y.Text? then Apply(y, Mirror(op), x) else None
  }

  /** The value Python computes for an expression; None when it raises. */
  function Build(e: Expr): (r: Option<Operand>)
  {
    match e
    case Col(n) => Some(Column(Vector(n)))
    case Lit(t) => Some(Text(t))
    case Bin(l, op, rt) =>
      var a, b := Build(l), Build(rt);
      if a.None? || b.None? then None else Apply(a.value, op, b.value)
    case Logic(l, conj, rt) =>
      var a, b := Build(l), Build(rt);
      if a.None? || b.None? || !a.value.Filter? then None
      else Some(Filter(if conj then And(a.value.c, b.value) else Or(a.value.c, b.value)))
    case IntDiv(l, rt) =>
      var a, b := Build(l), Build(rt);
      if a.None? || b.None? || a.value.Text? then None
      else Some(Filter(FloorDivAsWritten(a.value, b.value)))
  }

  /** The infix text of an expression, fully parenthesised, operands in written order; `l // r`
      shows as `int(` around `l` alone, since `__floordiv__` never reads its divisor. */
  function Show(e: Expr): string
  {
    match e
    case Col(n) => n
    case Lit(t) => t
    case Bin(l, op, r) => "(" + Show(l) + " " + Symbol(op) + " " + Show(r) + ")"
    case Logic(l, conj, r) => "(" + Show(l) + (if conj then " and " else " or ") + Show(r) + ")"
    case IntDiv(l, r) => "(int( " + Show(l) + " ))"
  }

  /** Every operator has a column or a condition on its left, `&`/`|` a condition, and no `/`. */
  predicate WellFormed(e: Expr)
  {
    match e
    case Col(_) => true
    case Lit(_) => true
    case Bin(l, op, r) => !l.Lit? && op != Div && WellFormed(l) && WellFormed(r)
    case Logic(l, _, r) => !l.Lit? && !l.Col? && WellFormed(l) && WellFormed(r)
    case IntDiv(l, r) => !l.Lit? && WellFormed(l) && WellFormed(r)
  }

  lemma ShowBin(l: Expr, op: Op, r: Expr)
    ensures Show(Bin(l, op, r)) == Render(Cond(Show(l), Symbol(op), Show(r)))
  {
  }

  lemma ShowLogic(l: Expr, conj: bool, r: Expr)
    ensures Show(Logic(l, conj, r)) == Render(Cond(Show(l), if conj then "and" else "or", Show(r)))
  {
    var w := if conj then "and" else "or";
    assert " " + w + " " == (if conj then " and " else " or ");
    InfixText(Show(l), w, Show(r));
  }

  /** A rendered condition is its operator, with a space on each side, between its operands. */
  lemma InfixText(a: string, w: string, b: string)
    ensures Render(Cond(a, w, b)) == "(" + a + (" " + w + " ") + b + ")"
  {
  }

  lemma ShowIntDiv(l: Expr, r: Expr)
    ensures Show(IntDiv(l, r)) == Render(Cond("int(", Show(l), ")"))
  {
  }

  /** The text of `int(` around a quotient. */
  lemma IntDivText(s: string, t: string)
    ensures Render(Cond("int(", Render(Cond(s, "/", t)), ")")) == "(int( (" + s + " / " + t + ") ))"
  {
    var m := "(" + s + " " + "/" + " " + t + ")";
    assert Render(Cond(s, "/", t)) == m;
    assert Render(Cond("int(", m, ")")) == "(" + "int(" + " " + m + " " + ")" + ")";
    assert "(" + "int(" + " " + m + " " + ")" + ")" == "(int( " + m + " ))";
    assert m == "(" + s + " / " + t + ")";
  }

  /** Evaluating the operators one at a time, each stringifying its operands, yields the
      fully parenthesised infix text of the whole expression. */
  lemma {:induction false} BuildShows(e: Expr)
    requires WellFormed(e)
    ensures Build(e).Some?
    ensures Str(Build(e).value) == Show(e)
    ensures !e.Col? && !e.Lit? ==> Build(e).value.Filter?
  {
    match e
    case Col(_) =>
    case Lit(_) =>
    case Bin(l, op, r) =>
      BuildShows(l);
      BuildShows(r);
      ShowBin(l, op, r);
    case Logic(l, conj, r) =>
      BuildShows(l);
      BuildShows(r);
      ShowLogic(l, conj, r);
    case IntDiv(l, r) =>
      BuildShows(l);
      BuildShows(r);
      ShowIntDiv(l, r);
  }

  /** A literal on the left of a comparison is handed to the right operand's mirrored comparison. */
  lemma ReflectedComparison(t: string, op: Op, r: Expr)
    requires IsComparison(op) && !r.Lit?
    ensures Build(Bin(Lit(t), op, r)) == Build(Bin(r, Mirror(op), Lit(t)))
  {
  }

  /** Python raises for arithmetic with a literal on the left, for `&`/`|` on a bare column, and for `/`,
      as long as a column or a condition takes part. */
  lemma {:induction false} BuildRefuses(e: Expr)
    requires
      || (e.Bin? && e.l.Lit? && !e.r.Lit? && !IsComparison(e.op))
      || (e.Bin? && e.op == Div && !(e.l.Lit? && e.r.Lit?))
      || (e.Logic? && (e.l.Col? || e.l.Lit?) && !(e.l.Lit? && e.r.Lit?))
      || (e.IntDiv? && e.l.Lit? && !e.r.Lit?)
    ensures Build(e).None?
  {
  }

  // ---------------------------------------------------------------------------
  // Parentheses: every rendered node is one closed group
  // ---------------------------------------------------------------------------

  function Delta(c: char): int
  {
    if c == '(' then 1 else if c == ')' then -1 else 0
  }

  /** Open minus closed parentheses. */
  function Depth(s: string): int
  {
    if s == [] then 0 else Depth(s[..|s| - 1]) + Delta(s[|s| - 1])
  }

  predicate Balanced(s: string)
  {
    Depth(s) == 0 && forall k :: 0 <= k <= |s| ==> Depth(s[..k]) >= 0
  }

  /** The first '(' is closed by the last ')' and by no earlier one. */
  predicate Wrapped(s: string)
  {
    && |s| >= 2 && s[0] == '(' && s[|s| - 1] == ')'
    && Depth(s) == 0
    && forall k :: 1 <= k < |s| ==> Depth(s[..k]) >= 1
  }

  predicate NoParens(s: string)
  {
    forall i :: 0 <= i < |s| ==> s[i] != '(' && s[i] != ')'
  }

  lemma {:induction false} DepthAppend(a: string, b: string)
    ensures Depth(a + b) == Depth(a) + Depth(b)
    decreases |b|
  {
    if b != [] {
      var b' := b[..|b| - 1];
      assert (a + b)[..|a + b| - 1] == a + b';
      assert (a + b)[|a + b| - 1] == b[|b| - 1];
      DepthAppend(a, b');
    } else {
      assert a + b == a;
    }
  }

  lemma {:induction false} NoParensDepth(s: string)
    requires NoParens(s)
    ensures Depth(s) == 0
    decreases |s|
  {
    if s != [] {
      var t := s[..|s| - 1];
      assert NoParens(t) by {
        forall i | 0 <= i < |t| ensures t[i] != '(' && t[i] != ')' {
          assert t[i] == s[i];
        }
      }
      NoParensDepth(s[..|s| - 1]);
    }
  }

  lemma NoParensBalanced(s: string)
    requires NoParens(s)
    ensures Balanced(s)
  {
    forall k | 0 <= k <= |s| ensures Depth(s[..k]) == 0 {
      assert NoParens(s[..k]) by {
        forall i | 0 <= i < k ensures s[..k][i] != '(' && s[..k][i] != ')' {
          assert s[..k][i] == s[i];
        }
      }
      NoParensDepth(s[..k]);
    }
    NoParensDepth(s);
  }

  lemma BalancedAppend(a: string, b: string)
    requires Balanced(a) && Balanced(b)
    ensures Balanced(a + b)
  {
    DepthAppend(a, b);
    forall k | 0 <= k <= |a + b| ensures Depth((a + b)[..k]) >= 0 {
      if k <= |a| {
        assert (a + b)[..k] == a[..k];
      } else {
        assert (a + b)[..k] == a + b[..k - |a|];
        DepthAppend(a, b[..k - |a|]);
      }
    }
  }

  /** Parenthesising a balanced text gives one closed group. */
  lemma WrapBalanced(x: string)
    requires Balanced(x)
    ensures Wrapped("(" + x + ")")
  {
    var s := "(" + x + ")";
    DepthAppend("(" + x, ")");
    DepthAppend("(", x);
    assert Depth("(") == 1 by { assert "("[..0] == ""; }
    assert Depth(")") == -1 by { assert ")"[..0] == ""; }
    forall k | 1 <= k < |s| ensures Depth(s[..k]) >= 1 {
      assert s[..k] == "(" + x[..k - 1];
      DepthAppend("(", x[..k - 1]);
    }
  }

  lemma WrappedBalanced(s: string)
    requires Wrapped(s)
    ensures Balanced(s)
  {
    assert s[..0] == "";
    assert s[..|s|] == s;
  }

  /** Rendering a condition whose operands are balanced gives one closed group, so nesting it inside
      another condition can never regroup it. */
  lemma RenderWrapped(c: Cond)
    requires Balanced(c.lhs) && NoParens(c.op) && Balanced(c.rhs)
    ensures Wrapped(Render(c))
  {
    var inner := c.lhs + " " + c.op + " " + c.rhs;
    assert Balanced(inner) by {
      NoParensBalanced(" ");
      NoParensBalanced(c.op);
      BalancedAppend(c.lhs, " ");
      BalancedAppend(c.lhs + " ", c.op);
      BalancedAppend(c.lhs + " " + c.op, " ");
      BalancedAppend(c.lhs + " " + c.op + " ", c.rhs);
    }
    WrapBalanced(inner);
    assert Render(c) == "(" + inner + ")";
  }

  /** A condition on the left of an operator acts exactly as a column named by its text. */
  lemma ConditionActsAsColumn(c: Cond, op: Op, y: Operand)
    ensures CondOp(c, op, y) == VectorOp(Vector(Render(c)), op, y)
    ensures Apply(Filter(c), op, y) == Apply(Column(Vector(Render(c))), op, y)
  {
  }

  /** Combining a closed condition with `&` or `|` keeps both operands whole and gives one closed group. */
  lemma AndOrWrapped(c: Cond, y: Operand)
    requires Balanced(c.lhs) && NoParens(c.op) && Balanced(c.rhs) && Balanced(Str(y))
    ensures Wrapped(Render(And(c, y))) && Wrapped(Render(Or(c, y)))
  {
    RenderWrapped(c);
    WrappedBalanced(Render(c));
    assert NoParens("and") && NoParens("or");
    RenderWrapped(And(c, y));
    RenderWrapped(Or(c, y));
  }

  /** Every leaf text is balanced. */
  predicate LeavesBalanced(e: Expr)
  {
    match e
    case Col(n) => Balanced(n)
    case Lit(t) => Balanced(t)
    case Bin(l, _, r) => LeavesBalanced(l) && LeavesBalanced(r)
    case Logic(l, _, r) => LeavesBalanced(l) && LeavesBalanced(r)
    case IntDiv(l, r) => LeavesBalanced(l) && LeavesBalanced(r)
  }

  lemma SymbolNoParens(op: Op)
    ensures NoParens(Symbol(op))
  {
  }

  /** `int(` ... `)` around a balanced text, as `//` renders it, is one closed group. */
  lemma IntOfWrapped(q: string)
    requires Balanced(q)
    ensures Wrapped(Render(Cond("int(", q, ")")))
  {
    var inner := " " + q + " ";
    assert Balanced(inner) by {
      NoParensBalanced(" ");
      BalancedAppend(" ", q);
      BalancedAppend(" " + q, " ");
    }
    var call := "int" + ("(" + inner + ")");
    assert Balanced(call) by {
      WrapBalanced(inner);
      WrappedBalanced("(" + inner + ")");
      NoParensBalanced("int");
      BalancedAppend("int", "(" + inner + ")");
    }
    WrapBalanced(call);
    IntCallText(q);
  }

  /** `int(` ... `)` renders as `int` applied to the parenthesised, space-padded text. */
  lemma IntCallText(q: string)
    ensures Render(Cond("int(", q, ")")) == "(" + ("int" + ("(" + (" " + q + " ") + ")")) + ")"
  {
  }

  /** Every operator node of a filter expression renders as one closed group. */
  lemma {:induction false} ShowWrapped(e: Expr)
    requires LeavesBalanced(e)
    ensures Balanced(Show(e))
    ensures !e.Col? && !e.Lit? ==> Wrapped(Show(e))
  {
    match e
    case Col(_) =>
    case Lit(_) =>
    case Bin(l, op, r) =>
      ShowWrapped(l);
      ShowWrapped(r);
      SymbolNoParens(op);
      ShowBin(l, op, r);
      RenderWrapped(Cond(Show(l), Symbol(op), Show(r)));
      WrappedBalanced(Show(e));
    case Logic(l, conj, r) =>
      ShowWrapped(l);
      ShowWrapped(r);
      var w := if conj then "and" else "or";
      assert NoParens(w);
      ShowLogic(l, conj, r);
      RenderWrapped(Cond(Show(l), w, Show(r)));
      WrappedBalanced(Show(e));
    case IntDiv(l, r) =>
      ShowWrapped(l);
      ShowIntDiv(l, r);
      IntOfWrapped(Show(l));
      WrappedBalanced(Show(e));
  }

  // ---------------------------------------------------------------------------
  // The floor-division operator
  // ---------------------------------------------------------------------------

  /** As written, `//` renders the same text whatever the divisor: `v // 2` and `v // 3` coincide. */
  lemma FloorDivAsWrittenDropsDivisor(v: Vector)
    ensures Render(FloorDivAsWritten(Column(v), Text("2"))) == Render(FloorDivAsWritten(Column(v), Text("3")))
    ensures Render(FloorDivAsWritten(Column(v), Text("2"))) == "(int( " + v.name + " ))"
  {
  }

  /** For every dividend and every pair of divisors, the text as written is the same, and it is never
      the text with the divisor kept. */
  lemma FloorDivAsWrittenIgnoresDivisor(x: Operand, a: Operand, b: Operand)
    ensures Render(FloorDivAsWritten(x, a)) == Render(FloorDivAsWritten(x, b))
    ensures Render(FloorDivAsWritten(x, a)) != Render(FloorDiv(x, a))
  {
    FloorDivText(x, a);
    assert |Render(FloorDivAsWritten(x, a))| == |Str(x)| + 9;
    assert |Render(FloorDiv(x, a))| == |Str(x)| + |Str(a)| + 14;
  }

  /** With the divisor kept, the rendering determines the divisor. */
  lemma FloorDivKeepsDivisor(x: Operand, a: Operand, b: Operand)
    requires Render(FloorDiv(x, a)) == Render(FloorDiv(x, b))
    ensures Str(a) == Str(b)
  {
    FloorDivText(x, a);
    FloorDivText(x, b);
    MiddleDetermined("(int( (" + Str(x) + " / ", Str(a), Str(b), ") ))");
  }

  /** The text `//` renders with the divisor kept. */
  lemma FloorDivText(x: Operand, y: Operand)
    ensures Render(FloorDiv(x, y)) == "(int( (" + Str(x) + " / " + Str(y) + ") ))"
  {
    IntDivText(Str(x), Str(y));
  }
}
