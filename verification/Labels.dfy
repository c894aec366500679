/** Labels as the strings the linker compares: different labels are written differently. */
module Labels {
  import opened Values
  import opened Instructions

  function Suffix(p: Part): string {
    match p
    case Whole => ""
    case End => "_END"
    case Else => "_ELSE"
    case False_ => "FALSE"
    case True_ => "_TRUE"
    case Begin => "_BEGIN"
    case Case(i) => "_CASE_" + Decimal(i)
    case Cond(i) => "_" + Decimal(i)
  }

  function Render(l: Label): string {
    match l
    case Jump(kind, id, part) => "_" + kind + Decimal(id) + Suffix(part)
    case Function(name) => name
    case Except(name) => "_" + name + "_EXCEPT"
  }

  predicate IsDigit(c: char) { '0' <= c <= '9' }
  predicate NoDigit(s: string) { forall i :: 0 <= i < |s| ==> !IsDigit(s[i]) }
  predicate AllDigits(s: string) { forall i :: 0 <= i < |s| ==> IsDigit(s[i]) }

  /** Jump labels start with a word without digits, function labels end with a bracket. */
  predicate WellNamed(l: Label) {
    match l
    case Jump(kind, _, _) => NoDigit(kind) && ')' !in kind
    case Function(name) => name != "" && name[|name| - 1] == ')'
    case Except(name) => name != "" && name[|name| - 1] == ')'
  }

  lemma {:induction false} DecimalDigits(n: nat)
    ensures Decimal(n) != "" && AllDigits(Decimal(n)) && ')' !in Decimal(n) && ':' !in Decimal(n)
    decreases n
  {
    if n >= 10 { DecimalDigits(n / 10); }
  }

  function {:tailrecursion false} Value10(s: string): nat
    requires AllDigits(s)
  {
    if s == "" then 0 else 10 * Value10(s[..|s| - 1]) + (s[|s| - 1] as int - '0' as int)
  }

  lemma {:induction false} DecimalValue(n: nat)
    ensures AllDigits(Decimal(n)) && Value10(Decimal(n)) == n
    decreases n
  {
    DecimalDigits(n);
    var d := Decimal(n);
    assert d[|d| - 1] == ('0' as int + n % 10) as char;
    if n >= 10 {
      DecimalValue(n / 10);
      assert d[..|d| - 1] == Decimal(n / 10);
    } else {
      assert d[..|d| - 1] == "";
    }
  }

  lemma DecimalInjective(m: nat, n: nat)
    requires Decimal(m) == Decimal(n)
    ensures m == n
  {
    DecimalValue(m);
    DecimalValue(n);
  }

  /** How many characters come before the first that satisfies stop. */
  function Span(s: string, stop: char -> bool): nat {
    if s == "" || stop(s[0]) then 0 else 1 + Span(s[1..], stop)
  }

  lemma {:induction false} SpanIs(a: string, s: string, stop: char -> bool)
    requires (forall i :: 0 <= i < |a| ==> !stop(a[i])) && (s == "" || stop(s[0]))
    ensures Span(a + s, stop) == |a|
    decreases |a|
  {
    if a == "" {
      assert a + s == s;
    } else {
      assert (a + s)[1..] == a[1..] + s;
      SpanIs(a[1..], s, stop);
    }
  }

  /** A string splits in one way into a part without stops and a part that starts with one. */
  lemma SplitsOnce(a: string, s: string, b: string, t: string, stop: char -> bool)
    requires (forall i :: 0 <= i < |a| ==> !stop(a[i])) && (s == "" || stop(s[0]))
    requires (forall i :: 0 <= i < |b| ==> !stop(b[i])) && (t == "" || stop(t[0]))
    requires a + s == b + t
    ensures a == b && s == t
  {
    SpanIs(a, s, stop);
    SpanIs(b, t, stop);
    assert a == (a + s)[..|a|] && b == (b + t)[..|b|];
    assert s == (a + s)[|a|..] && t == (b + t)[|b|..];
  }

  lemma SuffixInjective(p: Part, q: Part)
    requires Suffix(p) == Suffix(q)
    ensures p == q
  {
    if p.Case? && q.Case? {
      assert Suffix(p)[6..] == Decimal(p.i) && Suffix(q)[6..] == Decimal(q.i);
      DecimalInjective(p.i, q.i);
    } else if p.Cond? && q.Cond? {
      assert Suffix(p)[1..] == Decimal(p.i) && Suffix(q)[1..] == Decimal(q.i);
      DecimalInjective(p.i, q.i);
    } else {
      SuffixKind(p);
      SuffixKind(q);
    }
  }

  /** Suffixes of different forms differ in their first two or three characters. */
  lemma SuffixKind(p: Part)
    ensures p.Cond? ==> |Suffix(p)| >= 2 && Suffix(p)[0] == '_' && IsDigit(Suffix(p)[1])
    ensures p.Case? ==> |Suffix(p)| >= 2 && Suffix(p)[0] == '_' && Suffix(p)[1] == 'C'
    ensures !p.Cond? && !p.Case? && |Suffix(p)| >= 2 ==> Suffix(p)[1] != 'C' && !IsDigit(Suffix(p)[1])
    ensures ')' !in Suffix(p) && (Suffix(p) != "" ==> !IsDigit(Suffix(p)[0]))
  {
    match p
    case Case(i) => DecimalDigits(i);
    case Cond(i) => DecimalDigits(i);
    case _ =>
  }

  lemma JumpHasNoBracket(l: Label)
    requires l.Jump? && WellNamed(l)
    ensures ')' !in Render(l)
  {
    DecimalDigits(l.id);
    SuffixKind(l.part);
  }

  lemma FunctionsHaveBrackets(l: Label)
    requires !l.Jump? && WellNamed(l)
    ensures ')' in Render(l) && Render(l) != "" && Render(l)[|Render(l)| - 1] == if l.Function? then ')' else 'T'
  {
    var at := |l.name| - if l.Function? then 1 else 0;
    assert Render(l)[at] == ')';
  }

  lemma JumpsInjective(l: Label, m: Label)
    requires l.Jump? && m.Jump? && WellNamed(l) && WellNamed(m) && Render(l) == Render(m)
    ensures l == m
  {
    hide Suffix, Decimal;
    DecimalDigits(l.id);
    DecimalDigits(m.id);
    SuffixKind(l.part);
    SuffixKind(m.part);
    var a, s := "_" + l.kind, Decimal(l.id) + Suffix(l.part);
    var b, t := "_" + m.kind, Decimal(m.id) + Suffix(m.part);
    assert Render(l) == a + s && Render(m) == b + t;
    SplitsOnce(a, s, b, t, (c: char) => IsDigit(c));
    SplitsOnce(Decimal(l.id), Suffix(l.part), Decimal(m.id), Suffix(m.part), (c: char) => !IsDigit(c));
    assert a[1..] == l.kind && b[1..] == m.kind;
    DecimalInjective(l.id, m.id);
    SuffixInjective(l.part, m.part);
  }

  /** Labels that are written the same are the same. */
  lemma RenderInjective(l: Label, m: Label)
    requires WellNamed(l) && WellNamed(m) && Render(l) == Render(m)
    ensures l == m
  {
    hide Suffix, Decimal;
    if l.Jump? && m.Jump? {
      JumpsInjective(l, m);
    } else if l.Jump? {
      FunctionsHaveBrackets(m);
      JumpHasNoBracket(l);
    } else if m.Jump? {
      FunctionsHaveBrackets(l);
      JumpHasNoBracket(m);
    } else {
      FunctionsHaveBrackets(l);
      FunctionsHaveBrackets(m);
      if l.Except? && m.Except? {
        assert Render(l)[1..|Render(l)| - 7] == l.name && Render(m)[1..|Render(m)| - 7] == m.name;
      }
    }
  }

  /** make_function_label: the namespace path, the name and the number of parameters. */
  function FunctionName(path: seq<string>, name: string, arity: nat): string {
    Path(path) + name + "(" + Decimal(arity) + ")"
  }

  function Path(path: seq<string>): string {
    if path == [] then "" else path[0] + "::" + Path(path[1..])
  }

  predicate Identifier(s: string) { ':' !in s && '(' !in s }

  predicate Identifiers(path: seq<string>) { forall i :: 0 <= i < |path| ==> Identifier(path[i]) }

  /** Whether a path comes before the name shows at the first colon. */
  lemma NoColon(n: string, a: nat)
    requires Identifier(n)
    ensures ':' !in FunctionName([], n, a)
  {
    DecimalDigits(a);
  }

  lemma PathColon(p: seq<string>, n: string, a: nat)
    requires p != []
    ensures ':' in FunctionName(p, n, a)
    ensures FunctionName(p, n, a) == p[0] + ("::" + FunctionName(p[1..], n, a))
  {
    assert FunctionName(p, n, a)[|p[0]|] == ':';
  }

  lemma LastInjective(n: string, a: nat, m: string, b: nat)
    requires Identifier(n) && Identifier(m) && FunctionName([], n, a) == FunctionName([], m, b)
    ensures n == m && a == b
  {
    var t, u := "(" + Decimal(a) + ")", "(" + Decimal(b) + ")";
    assert FunctionName([], n, a) == n + t && FunctionName([], m, b) == m + u;
    SplitsOnce(n, t, m, u, (c: char) => c == '(');
    assert t[1..|t| - 1] == Decimal(a) && u[1..|u| - 1] == Decimal(b);
    DecimalInjective(a, b);
  }

  /** Functions of different paths, names or arities have different labels. */
  lemma {:induction false} FunctionNameInjective(p: seq<string>, n: string, a: nat, q: seq<string>, m: string, b: nat)
    requires Identifiers(p) && Identifiers(q) && Identifier(n) && Identifier(m)
    requires FunctionName(p, n, a) == FunctionName(q, m, b)
    ensures p == q && n == m && a == b
    decreases |p|
  {
    hide FunctionName, Decimal;
    if p == [] && q == [] {
      LastInjective(n, a, m, b);
    } else if p == [] {
      PathColon(q, m, b);
      NoColon(n, a);
    } else if q == [] {
      PathColon(p, n, a);
      NoColon(m, b);
    } else {
      PathColon(p, n, a);
      PathColon(q, m, b);
      var s, t := "::" + FunctionName(p[1..], n, a), "::" + FunctionName(q[1..], m, b);
      SplitsOnce(p[0], s, q[0], t, (c: char) => c == ':');
      assert s[2..] == FunctionName(p[1..], n, a) && t[2..] == FunctionName(q[1..], m, b);
      FunctionNameInjective(p[1..], n, a, q[1..], m, b);
      assert p == [p[0]] + p[1..] && q == [q[0]] + q[1..];
    }
  }
}
