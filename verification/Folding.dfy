/** Where folding literals at compile time gives what the machine computes at run time. */
module Folding {
  import opened Values
  import opened Sst
  import opened BigStep
  import opened Optimize

  lemma FoldNumbersSame(u: Source, op: SimpleOp, a: Value, b: Value, w: World)
    requires Folds(op) && Scalar(a) && Scalar(b) && FoldNumbers(op, AsInt(a), AsInt(b)).Some?
    ensures var q := FoldNumbers(op, AsInt(a), AsInt(b)).value;
      q.IntLit? && PrimOut(u, Simple(op), [a, b], w) == Value1(Int(q.i), w)
  {
  }

  lemma ConcatenatesStrings(u: Source, a: string, b: string, w: World)
    ensures PrimOut(u, Simple(Add), [Str(a), Str(b)], w) == Value1(Str(a + b), w)
  {
  }

  /** The literal is a character the machine reads as negative. */
  function High(l: Literal): int {
    if l.CharLit? && l.c >= 128 then 1 else 0
  }

  predicate Numeric(l: Literal) {
    Number(l).Some? && (l.CharLit? ==> l.c < 256)
  }

  /** The number the machine computes with. */
  function AtRunTime(l: Literal): int
    requires Numeric(l)
  {
    Number(l).value - 256 * High(l)
  }

  lemma NumericValue(l: Literal)
    requires Numeric(l)
    ensures Scalar(ValueOf(l)) && AsInt(ValueOf(l)) == AtRunTime(l)
  {
  }

  /** Compile time reads characters unsigned, run time signed. */
  lemma NegationFoldsExactly(u: Source, ff: FloatFolds, l: Literal, w: World, fuel: nat)
    requires Numeric(l)
    ensures EvalExpr(u, FoldUnary(ff, Neg, Lit(l)), w, fuel)
         == EvalExpr(u, Strict(Unary(Neg), ECons(Lit(l), ENil)), w, fuel)
       <==> High(l) == 0
  {
    hide EvalExpr;
    NumericValue(l);
    LiteralValue(u, l, w, fuel);
    UnaryIs(u, Neg, Lit(l), w, fuel);
    LiteralValue(u, IntLit(-Number(l).value), w, fuel);
  }

  function BinaryNode(op: SimpleOp, l: Literal, r: Literal): Expr {
    Strict(Binary(op), ECons(Lit(l), ECons(Lit(r), ENil)))
  }

  /** What the machine computes for a binary operator on two number literals; None is an
      exception. */
  lemma NumbersAtRunTime(u: Source, op: SimpleOp, l: Literal, r: Literal, w: World, fuel: nat)
    requires Numeric(l) && Numeric(r) && Folds(op)
    ensures match FoldNumbers(op, AtRunTime(l), AtRunTime(r))
      case Some(q) => q.IntLit? && EvalExpr(u, BinaryNode(op, l, r), w, fuel) == Value1(Int(q.i), w)
      case None => EvalExpr(u, BinaryNode(op, l, r), w, fuel) == Res(Raised(Str("Division by 0")), w)
  {
    hide EvalExpr, PrimOut, TruncDiv, TruncMod;
    NumericValue(l);
    NumericValue(r);
    LiteralValue(u, l, w, fuel);
    LiteralValue(u, r, w, fuel);
    BinaryIs(u, op, Lit(l), Lit(r), w, fuel);
    assert [ValueOf(l)] + [ValueOf(r)] == [ValueOf(l), ValueOf(r)];
    if FoldNumbers(op, AtRunTime(l), AtRunTime(r)).Some? {
      FoldNumbersSame(u, op, ValueOf(l), ValueOf(r), w);
    } else {
      ZeroDivisor(u, op, ValueOf(l), ValueOf(r), w);
    }
  }

  lemma ZeroDivisor(u: Source, op: SimpleOp, a: Value, b: Value, w: World)
    requires (op == Div || op == Mod) && Scalar(a) && Scalar(b) && AsInt(b) == 0
    ensures PrimOut(u, Simple(op), [a, b], w) == Res(Raised(Str("Division by 0")), w)
  {
  }

  /** Where folding two number literals keeps their value. Sums need both operands read
      alike; differences may lose the same on both sides, and products what cancels out.
      With a zero divisor nothing is folded. A quotient is right where it is zero either
      way, or where a character is divided by itself. A remainder is right where there is
      none either way, or where the two divisors that add up to 256 leave the same. */
  predicate FoldsRightly(op: SimpleOp, l: Literal, r: Literal)
    requires Numeric(l) && Numeric(r) && Folds(op)
  {
    var a, b, p, q := Number(l).value, Number(r).value, High(l), High(r);
    match op
    case Add => p == 0 && q == 0
    case Sub => p == q
    case Mlt => p * b + q * a == 256 * p * q
    case Div => b == 0 || QuotientKept(a, b, p, q)
    case Mod => b == 0 || RemainderKept(a, b, p, q)
  }

  /** The operands of a fold: what is high is a character. */
  predicate HighParts(a: int, b: int, p: int, q: int) {
    && (p == 0 || (p == 1 && 128 <= a < 256)) && (q == 0 || (q == 1 && 128 <= b < 256)) && b != 0
  }

  predicate QuotientKept(a: int, b: int, p: int, q: int) {
    || (p == 0 && q == 0)
    || (p == 1 && q == 0 && a < Abs(b) && 256 - a < Abs(b))
    || (p == 0 && q == 1 && Abs(a) < b && Abs(a) < 256 - b)
    || (p == 1 && q == 1 && a == b)
  }

  predicate RemainderKept(a: int, b: int, p: int, q: int)
    requires HighParts(a, b, p, q)
  {
    || (p == 0 && q == 0)
    || (p == 1 && q == 0 && a % Abs(b) == 0 && 256 % Abs(b) == 0)
    || (p == 0 && q == 1 && Abs(a) % b == Abs(a) % (256 - b))
    || (p == 1 && q == 1 && a == b)
  }

  lemma NumbersFoldExactly(u: Source, ff: FloatFolds, op: SimpleOp, l: Literal, r: Literal, w: World, fuel: nat)
    requires Numeric(l) && Numeric(r) && Folds(op)
    ensures EvalExpr(u, FoldOperands(ff, op, Lit(l), Lit(r)), w, fuel) == EvalExpr(u, BinaryNode(op, l, r), w, fuel)
       <==> FoldsRightly(op, l, r)
  {
    hide EvalExpr, FoldsRightly, FoldNumbers;
    NumbersAtRunTime(u, op, l, r, w, fuel);
    SameNumbersExactly(op, l, r);
    var q := FoldNumbers(op, Number(l).value, Number(r).value);
    if q.Some? { LiteralValue(u, q.value, w, fuel); }
  }

  lemma SameNumbersExactly(op: SimpleOp, l: Literal, r: Literal)
    requires Numeric(l) && Numeric(r) && Folds(op)
    ensures var q := FoldNumbers(op, Number(l).value, Number(r).value);
      && (q.Some? ==> q.value.IntLit?)
      && (q.None? ==> FoldsRightly(op, l, r))
      && (q.Some? ==> (FoldsRightly(op, l, r) <==> FoldNumbers(op, AtRunTime(l), AtRunTime(r)) == q))
  {
    hide TruncDiv, TruncMod, QuotientKept, RemainderKept;
    var a, b, p, q := Number(l).value, Number(r).value, High(l), High(r);
    match op
    case Mlt => ProductsExactly(a, b, p, q);
    case Div => if b != 0 { QuotientsExactly(a, b, p, q); }
    case Mod => if b != 0 { RemaindersExactly(a, b, p, q); }
    case _ =>
  }

  lemma ProductsExactly(a: int, b: int, p: int, q: int)
    ensures a * b == (a - 256 * p) * (b - 256 * q) <==> p * b + q * a == 256 * p * q
  {
    assert (a - 256 * p) * (b - 256 * q) == a * b - 256 * (p * b + q * a - 256 * p * q);
  }

  lemma QuotientsExactly(a: int, b: int, p: int, q: int)
    requires HighParts(a, b, p, q)
    ensures TruncDiv(a, b) == TruncDiv(a - 256 * p, b - 256 * q) <==> QuotientKept(a, b, p, q)
  {
    var x, y := Abs(a - 256 * p), Abs(b - 256 * q);
    QuotientBounds(Abs(a), Abs(b));
    QuotientBounds(x, y);
  }

  lemma RemaindersExactly(a: int, b: int, p: int, q: int)
    requires HighParts(a, b, p, q)
    ensures TruncMod(a, b) == TruncMod(a - 256 * p, b - 256 * q) <==> RemainderKept(a, b, p, q)
  {
    hide TruncMod;
    RemainderIs(a, b);
    RemainderIs(a - 256 * p, b - 256 * q);
    if p == 1 && q == 0 {
      RemaindersOfHigh(a, b);
    } else if p == 1 && q == 1 {
      QuotientBounds(a, b);
      QuotientBounds(256 - a, 256 - b);
    }
  }

  lemma RemaindersOfHigh(a: int, b: int)
    requires HighParts(a, b, 1, 0)
    ensures a % Abs(b) == -((256 - a) % Abs(b)) <==> a % Abs(b) == 0 && 256 % Abs(b) == 0
  {
    BothDivide(a, Abs(b));
  }

  /** The sign of a remainder is that of the dividend. */
  lemma RemainderIs(a: int, b: int)
    requires b != 0
    ensures TruncMod(a, b) == if a >= 0 then Abs(a) % Abs(b) else -(Abs(a) % Abs(b))
  {
    var x, y := Abs(a), Abs(b);
    var k := x / y;
    assert x == k * y + x % y;
    assert (-k) * b == k * -b && (-k) * -b == k * b;
  }

  lemma Multiples(d: int, y: nat)
    ensures d >= 1 ==> d * y >= y
    ensures d <= -1 ==> d * y + y <= 0
  {
    if d >= 1 { assert d * y == (d - 1) * y + y && (d - 1) * y >= 0; }
    if d <= -1 { assert d * y == (d + 1) * y - y && (d + 1) * y <= 0; }
  }

  lemma DivModUnique(x: int, y: nat, k: int, r: int)
    requires y > 0 && x == k * y + r && 0 <= r < y
    ensures x / y == k && x % y == r
  {
    var d := x / y - k;
    assert x == x / y * y + x % y;
    assert d * y == x / y * y - k * y;
    Multiples(d, y);
  }

  /** A quotient is zero just below the divisor, and one up to twice the divisor. */
  lemma QuotientBounds(x: nat, y: nat)
    requires y > 0
    ensures (x / y == 0 <==> x < y) && x / y >= 0
    ensures y <= x < 2 * y ==> x / y == 1 && x % y == x - y
    ensures x < y ==> x % y == x
  {
    if x < y {
      DivModUnique(x, y, 0, x);
    } else if x < 2 * y {
      DivModUnique(x, y, 1, x - y);
    } else {
      assert x == x / y * y + x % y;
    }
  }

  lemma BothDivide(a: int, y: nat)
    requires y > 0 && 0 <= a <= 256
    ensures a % y == 0 && (256 - a) % y == 0 <==> a % y == 0 && 256 % y == 0
  {
    if a % y == 0 {
      var k, n := a / y, (256 - a) / y;
      assert a == k * y;
      var r := (256 - a) % y;
      assert 256 - a == n * y + r;
      assert 256 == (n + k) * y + r;
      DivModUnique(256, y, n + k, r);
    }
  }

  /** Folded, half of the character 200 is 100; at run time it is -28. */
  lemma HalfOfHighCharacter(u: Source, ff: FloatFolds, w: World, fuel: nat)
    ensures EvalExpr(u, FoldOperands(ff, Div, Lit(CharLit(200)), Lit(IntLit(2))), w, fuel) == Value1(Int(100), w)
    ensures EvalExpr(u, BinaryNode(Div, CharLit(200), IntLit(2)), w, fuel) == Value1(Int(-28), w)
  {
    hide EvalExpr;
    NumbersAtRunTime(u, Div, CharLit(200), IntLit(2), w, fuel);
    LiteralValue(u, IntLit(100), w, fuel);
  }

  /** A negation folds rightly. */
  predicate FairNegation(x: Expr) {
    x.Lit? ==> !x.lit.FloatLit? && (x.lit.CharLit? ==> x.lit.c < 128)
  }

  /** An operator on two operands folds rightly. */
  predicate FairOperands(op: SimpleOp, x: Expr, y: Expr) {
    Folds(op) && x.Lit? && y.Lit? ==>
      && !x.lit.FloatLit? && !y.lit.FloatLit?
      && (Number(x.lit).Some? && Number(y.lit).Some? ==>
            Numeric(x.lit) && Numeric(y.lit) && FoldsRightly(op, x.lit, y.lit))
  }

  /** An expression whose evaluation does nothing but make arrays and tuples. */
  predicate Quiet(e: Expr)
    decreases e
  {
    match e
    case Lit(l) => !l.FloatLit? && !l.TypeLit?
    case Var(_) => true
    case GlobalVar(_) => true
    case Strict(ArrayLit, es) => QuietArgs(es)
    case Strict(TupleLit, es) => QuietArgs(es)
    case _ => false
  }

  predicate QuietArgs(es: Exprs)
    decreases es
  {
    es.ECons? ==> Quiet(es.head) && QuietArgs(es.tail)
  }

  /** A condition is decided rightly: no float, any character, since only whether it is
      zero counts, and arrays only if they may be dropped and are quiet. */
  predicate FairTest(arrays: bool, x: Expr) {
    && (IsArray(x) ==> arrays && Quiet(x))
    && (x.Lit? ==> !x.lit.FloatLit? && (x.lit.CharLit? ==> x.lit.c < 256))
  }

  /** Every fold and every decision in the tree is right. */
  predicate FairExpr(arrays: bool, ff: FloatFolds, e: Expr)
    decreases e
  {
    match e
    case CallExpr(_, args) => FairExprs(arrays, ff, args)
    case Strict(Unary(op), ECons(x, ENil)) =>
      && FairExpr(arrays, ff, x)
      && (op == Neg ==> FairNegation(OptExpr(ff, x))) && (op == Not ==> FairTest(arrays, OptExpr(ff, x)))
    case Strict(Binary(op), ECons(x, ECons(y, ENil))) =>
      && FairExpr(arrays, ff, x) && FairExpr(arrays, ff, y) && FairOperands(op, OptExpr(ff, x), OptExpr(ff, y))
    case NullTest(x) => FairExpr(arrays, ff, x) && FairTest(arrays, OptExpr(ff, x))
    case Logic(_, x, y) => FairExpr(arrays, ff, x) && FairExpr(arrays, ff, y)
    case Ternary(c, t, f) =>
      FairExpr(arrays, ff, c) && FairTest(arrays, OptExpr(ff, c)) && FairExpr(arrays, ff, t) && FairExpr(arrays, ff, f)
    case _ => true
  }

  predicate FairExprs(arrays: bool, ff: FloatFolds, es: Exprs)
    decreases es
  {
    es.ECons? ==> FairExpr(arrays, ff, es.head) && FairExprs(arrays, ff, es.tail)
  }

  predicate FairStmt(arrays: bool, ff: FloatFolds, s: Stmt)
    decreases s
  {
    match s
    case ReturnStmt(e, _) => FairExpr(arrays, ff, e)
    case Assign(_, e) => FairExpr(arrays, ff, e)
    case ThrowStmt(e) => FairExpr(arrays, ff, e)
    case Block(ss) => FairStmts(arrays, ff, ss)
    case IfStmt(c, t, f) =>
      && FairExpr(arrays, ff, c) && FairTest(arrays, OptExpr(ff, c)) && FairStmt(arrays, ff, t)
      && (f.Some? ==> FairStmt(arrays, ff, f.value))
    case While(c, b) => FairExpr(arrays, ff, c) && FairTest(arrays, OptExpr(ff, c)) && FairStmt(arrays, ff, b)
    case _ => true
  }

  predicate FairStmts(arrays: bool, ff: FloatFolds, ss: Stmts)
    decreases ss
  {
    ss.SCons? ==> FairStmt(arrays, ff, ss.head) && FairStmts(arrays, ff, ss.tail)
  }

  lemma DecidedIs(u: Source, ff: FloatFolds, x: Expr, w: World, fuel: nat)
    requires FairTest(true, x) && x.Lit? && Decided(ff, x).Some?
    ensures !x.lit.TypeLit? && Truthy(ValueOf(x.lit)) == Decided(ff, x).value
    ensures EvalExpr(u, x, w, fuel) == Value1(ValueOf(x.lit), w)
  {
    LiteralValue(u, x.lit, w, fuel);
  }

  lemma FoldUnarySame(u: Source, ff: FloatFolds, op: SimpleOp, x: Expr, w: World, fuel: nat)
    requires (op == Neg ==> FairNegation(x)) && (op == Not ==> FairTest(false, x))
    ensures EvalExpr(u, FoldUnary(ff, op, x), w, fuel) == EvalExpr(u, Strict(Unary(op), ECons(x, ENil)), w, fuel)
  {
    hide EvalExpr;
    UnaryIs(u, op, x, w, fuel);
    if op == Neg && x.Lit? && FoldNegation(ff, x.lit).Some? {
      LiteralValue(u, x.lit, w, fuel);
      LiteralValue(u, FoldNegation(ff, x.lit).value, w, fuel);
    } else if op == Not && x != Lit(NullLit) && Decided(ff, x).Some? {
      DecidedIs(u, ff, x, w, fuel);
      LiteralValue(u, BoolLit(!Decided(ff, x).value), w, fuel);
    }
  }

  lemma FoldNullTestSame(u: Source, x: Expr, w: World, fuel: nat)
    requires FairTest(false, x)
    ensures EvalExpr(u, FoldNullTest(x), w, fuel) == EvalExpr(u, NullTest(x), w, fuel)
  {
    if x.Lit? && !x.lit.TypeLit? {
      LiteralValue(u, x.lit, w, fuel);
      LiteralValue(u, BoolLit(x != Lit(NullLit)), w, fuel);
    }
  }

  lemma FoldOperandsSame(u: Source, ff: FloatFolds, op: SimpleOp, x: Expr, y: Expr, w: World, fuel: nat)
    requires FairOperands(op, x, y)
    ensures EvalExpr(u, FoldOperands(ff, op, x, y), w, fuel)
         == EvalExpr(u, Strict(Binary(op), ECons(x, ECons(y, ENil))), w, fuel)
  {
    hide EvalExpr, PrimOut, FoldNumbers, FoldsRightly;
    if x.Lit? && y.Lit? && FoldBinary(ff, op, x.lit, y.lit).Some? {
      if Number(x.lit).Some? && Number(y.lit).Some? {
        NumbersFoldExactly(u, ff, op, x.lit, y.lit, w, fuel);
      } else {
        LiteralValue(u, x.lit, w, fuel);
        LiteralValue(u, y.lit, w, fuel);
        LiteralValue(u, StrLit(x.lit.s + y.lit.s), w, fuel);
        BinaryIs(u, op, x, y, w, fuel);
        assert [ValueOf(x.lit)] + [ValueOf(y.lit)] == [ValueOf(x.lit), ValueOf(y.lit)];
        ConcatenatesStrings(u, x.lit.s, y.lit.s, w);
      }
    }
  }
}
