/** The peephole pass over labelled code, and why rewritten code runs like the original. */
module Peephole {
  import opened Values
  import opened Instructions
  import opened Labelled

  /** What a pattern looks for at the front of the code. */
  datatype Search = Exactly(i: Asm) | Sequence(parts: seq<Search>) | Repeated(part: Search, times: nat)

  datatype Pattern = Pattern(search: Search, replace: seq<Asm>)

  /** How many instructions the search covers at the front, 0 if it does not match. */
  function Stride(s: Search, code: seq<Asm>): (n: nat)
    ensures n <= |code|
    decreases s, 1
  {
    match s
    case Exactly(i) => if code != [] && code[0] == i then 1 else 0
    case Sequence(parts) => if |code| < |parts| then 0 else StrideAll(s, 0, code)
    case Repeated(part, times) => StrideTimes(s, times, code)
  }

  function StrideAll(s: Search, i: nat, code: seq<Asm>): (n: nat)
    requires s.Sequence? && i <= |s.parts|
    ensures n <= |code|
    decreases s, 0, |s.parts| - i
  {
    if i == |s.parts| then 0
    else
      var step := Stride(s.parts[i], code);
      if step == 0 then 0
      else if i + 1 == |s.parts| then step
      else
        var rest := StrideAll(s, i + 1, code[step..]);
        if rest == 0 then 0 else step + rest
  }

  function StrideTimes(s: Search, times: nat, code: seq<Asm>): (n: nat)
    requires s.Repeated?
    ensures n <= |code|
    decreases s, 0, times
  {
    if times == 0 then 0
    else
      var step := Stride(s.part, code);
      if step == 0 then 0
      else if times == 1 then step
      else
        var rest := StrideTimes(s, times - 1, code[step..]);
        if rest == 0 then 0 else step + rest
  }

  const PUSH_NULL: Asm := Prim(Simple(Nvll))
  const NULL_AND_RETURN: Search := Sequence([Exactly(PUSH_NULL), Exactly(Return)])

  function Loads(): seq<Pattern> {
    seq(4, k requires 0 <= k < 4 => Pattern(Exactly(LoadX(k)), [LoadK(k)]))
  }

  function Stores(): seq<Pattern> {
    seq(4, k requires 0 <= k < 4 => Pattern(Exactly(StoreX(k)), [StoreK(k)]))
  }

  function Steps(): seq<Pattern> {
    [ Pattern(Sequence([Exactly(Prim(NewI(1))), Exactly(Prim(Simple(Add)))]), [Prim(Simple(Inc))]),
      Pattern(Sequence([Exactly(Prim(NewI(1))), Exactly(Prim(Simple(Sub)))]), [Prim(Simple(Dec))]) ]
  }

  function Returns(): seq<Pattern> {
    [ Pattern(Repeated(NULL_AND_RETURN, 2), [ReturnNull]),
      Pattern(Sequence([Exactly(Return), NULL_AND_RETURN]), [Return]),
      Pattern(NULL_AND_RETURN, [ReturnNull]) ]
  }

  /** The thirteen patterns in the order in which they are tried. */
  function Patterns(): seq<Pattern> { Loads() + (Stores() + (Steps() + Returns())) }

  /** The stride and the replacement of the first pattern that matches. */
  function FirstMatch(patterns: seq<Pattern>, code: seq<Asm>): (r: (nat, seq<Asm>))
    requires code != []
    ensures 0 < r.0 <= |code|
  {
    if patterns == [] then (1, [code[0]])
    else if Stride(patterns[0].search, code) > 0 then (Stride(patterns[0].search, code), patterns[0].replace)
    else FirstMatch(patterns[1..], code)
  }

  /** The rewritten code. */
  function Rewrite(code: seq<Asm>): seq<Asm> {
    if code == [] then []
    else
      var (n, out) := FirstMatch(Patterns(), code);
      out + Rewrite(code[n..])
  }

  predicate StartsWith(code: seq<Asm>, i: Asm, j: Asm) { |code| >= 2 && code[0] == i && code[1] == j }

  /** What the table of patterns does at the front of the code, spelled out. */
  datatype Found = Copy | Short | IncDec(op: SimpleOp) | NullReturns | ReturnTwice | NullReturn

  function Kind(code: seq<Asm>): Found
    requires code != []
  {
    var i := code[0];
    if (i.LoadX? || i.StoreX?) && i.addr < 4 then Short
    else if StartsWith(code, Prim(NewI(1)), Prim(Simple(Add))) then IncDec(Inc)
    else if StartsWith(code, Prim(NewI(1)), Prim(Simple(Sub))) then IncDec(Dec)
    else if StartsWith(code, PUSH_NULL, Return) && StartsWith(code[2..], PUSH_NULL, Return) then NullReturns
    else if i == Return && StartsWith(code[1..], PUSH_NULL, Return) then ReturnTwice
    else if StartsWith(code, PUSH_NULL, Return) then NullReturn
    else Copy
  }

  function Effect(code: seq<Asm>): (nat, seq<Asm>)
    requires code != []
  {
    match Kind(code)
    case Copy => (1, [code[0]])
    case Short => (1, [if code[0].LoadX? then LoadK(code[0].addr) else StoreK(code[0].addr)])
    case IncDec(op) => (2, [Prim(Simple(op))])
    case NullReturns => (4, [ReturnNull])
    case ReturnTwice => (3, [Return])
    case NullReturn => (2, [ReturnNull])
  }

  lemma PairStride(i: Asm, j: Asm, code: seq<Asm>)
    ensures Stride(Sequence([Exactly(i), Exactly(j)]), code) == if StartsWith(code, i, j) then 2 else 0
  {
    var s := Sequence([Exactly(i), Exactly(j)]);
    if |code| >= 2 {
      assert Stride(s.parts[0], code) == if code[0] == i then 1 else 0;
      assert code[1..][0] == code[1];
      assert StrideAll(s, 1, code[1..]) == Stride(s.parts[1], code[1..]);
    }
  }

  lemma NullReturnsStride(code: seq<Asm>)
    ensures Stride(Repeated(NULL_AND_RETURN, 2), code) ==
      if StartsWith(code, PUSH_NULL, Return) && StartsWith(code[2..], PUSH_NULL, Return) then 4 else 0
  {
    var s := Repeated(NULL_AND_RETURN, 2);
    PairStride(PUSH_NULL, Return, code);
    if |code| >= 2 {
      PairStride(PUSH_NULL, Return, code[2..]);
      assert StrideTimes(s, 1, code[2..]) == Stride(NULL_AND_RETURN, code[2..]);
    }
    assert StrideTimes(s, 2, code) == Stride(s, code);
  }

  lemma ReturnTwiceStride(code: seq<Asm>)
    ensures Stride(Sequence([Exactly(Return), NULL_AND_RETURN]), code) ==
      if |code| >= 1 && code[0] == Return && StartsWith(code[1..], PUSH_NULL, Return) then 3 else 0
  {
    var s := Sequence([Exactly(Return), NULL_AND_RETURN]);
    if |code| >= 2 {
      assert Stride(s.parts[0], code) == if code[0] == Return then 1 else 0;
      PairStride(PUSH_NULL, Return, code[1..]);
      assert StrideAll(s, 1, code[1..]) == Stride(s.parts[1], code[1..]);
    }
  }

  lemma {:induction false} FirstMatchSkips(patterns: seq<Pattern>, code: seq<Asm>, k: nat)
    requires code != [] && k <= |patterns|
    requires forall j :: 0 <= j < k ==> Stride(patterns[j].search, code) == 0
    ensures FirstMatch(patterns, code) == FirstMatch(patterns[k..], code)
    decreases k
  {
    if k > 0 {
      FirstMatchSkips(patterns[1..], code, k - 1);
      assert patterns[1..][k - 1..] == patterns[k..];
    } else {
      assert patterns[0..] == patterns;
    }
  }

  /** A list of patterns, then another: the second is tried if the first does not match. */
  lemma {:induction false} FirstMatchConcat(a: seq<Pattern>, b: seq<Pattern>, code: seq<Asm>)
    requires code != []
    ensures (forall j :: 0 <= j < |a| ==> Stride(a[j].search, code) == 0) ==>
        FirstMatch(a + b, code) == FirstMatch(b, code)
    ensures (exists j :: 0 <= j < |a| && Stride(a[j].search, code) > 0) ==>
        FirstMatch(a + b, code) == FirstMatch(a, code)
    decreases |a|
  {
    if a == [] {
      assert a + b == b;
    } else {
      assert (a + b)[1..] == a[1..] + b;
      if Stride(a[0].search, code) == 0 {
        FirstMatchConcat(a[1..], b, code);
        if exists j :: 0 <= j < |a| && Stride(a[j].search, code) > 0 {
          var j :| 0 <= j < |a| && Stride(a[j].search, code) > 0;
          assert Stride(a[1..][j - 1].search, code) > 0;
        }
      }
    }
  }

  lemma LoadsEffect(rest: seq<Pattern>, code: seq<Asm>)
    requires code != []
    ensures FirstMatch(Loads() + rest, code) ==
      if code[0].LoadX? && code[0].addr < 4 then (1, [LoadK(code[0].addr)]) else FirstMatch(rest, code)
  {
    var ps := Loads();
    FirstMatchConcat(ps, rest, code);
    forall j | 0 <= j < 4 ensures Stride(ps[j].search, code) == if code[0] == LoadX(j) then 1 else 0 {
      assert ps[j].search == Exactly(LoadX(j));
    }
    hide Stride;
    if code[0].LoadX? && code[0].addr < 4 {
      var j := code[0].addr;
      FirstMatchSkips(ps, code, j);
      assert ps[j..][0] == ps[j];
      assert ps[j].replace == [LoadK(j)];
    }
  }

  lemma StoresEffect(rest: seq<Pattern>, code: seq<Asm>)
    requires code != []
    ensures FirstMatch(Stores() + rest, code) ==
      if code[0].StoreX? && code[0].addr < 4 then (1, [StoreK(code[0].addr)]) else FirstMatch(rest, code)
  {
    var ps := Stores();
    FirstMatchConcat(ps, rest, code);
    forall j | 0 <= j < 4 ensures Stride(ps[j].search, code) == if code[0] == StoreX(j) then 1 else 0 {
      assert ps[j].search == Exactly(StoreX(j));
    }
    hide Stride;
    if code[0].StoreX? && code[0].addr < 4 {
      var j := code[0].addr;
      FirstMatchSkips(ps, code, j);
      assert ps[j..][0] == ps[j];
      assert ps[j].replace == [StoreK(j)];
    }
  }

  lemma StepsEffect(rest: seq<Pattern>, code: seq<Asm>)
    requires code != []
    ensures FirstMatch(Steps() + rest, code) ==
      if StartsWith(code, Prim(NewI(1)), Prim(Simple(Add))) then (2, [Prim(Simple(Inc))])
      else if StartsWith(code, Prim(NewI(1)), Prim(Simple(Sub))) then (2, [Prim(Simple(Dec))])
      else FirstMatch(rest, code)
  {
    var ps := Steps();
    FirstMatchConcat(ps, rest, code);
    PairStride(Prim(NewI(1)), Prim(Simple(Add)), code);
    PairStride(Prim(NewI(1)), Prim(Simple(Sub)), code);
    hide Stride;
    assert ps[1..] == [ps[1]];
  }

  lemma ReturnsEffect(code: seq<Asm>)
    requires code != []
    ensures FirstMatch(Returns(), code) ==
      if StartsWith(code, PUSH_NULL, Return) && StartsWith(code[2..], PUSH_NULL, Return) then (4, [ReturnNull])
      else if code[0] == Return && StartsWith(code[1..], PUSH_NULL, Return) then (3, [Return])
      else if StartsWith(code, PUSH_NULL, Return) then (2, [ReturnNull])
      else (1, [code[0]])
  {
    var ps := Returns();
    PairStride(PUSH_NULL, Return, code);
    NullReturnsStride(code);
    ReturnTwiceStride(code);
    hide Stride;
    assert ps[1..] == [ps[1], ps[2]] && ps[1..][1..] == [ps[2]] && ps[1..][1..][1..] == [];
    assert FirstMatch([ps[2]], code)
        == if Stride(ps[2].search, code) > 0 then (Stride(ps[2].search, code), ps[2].replace) else (1, [code[0]]) by {
      assert [ps[2]][1..] == [];
    }
  }

  /** The table of patterns does what Effect says. */
  lemma TableEffect(code: seq<Asm>)
    requires code != []
    ensures FirstMatch(Patterns(), code) == Effect(code)
  {
    hide FirstMatch, Loads, Stores, Steps, Returns;
    LoadsEffect(Stores() + (Steps() + Returns()), code);
    StoresEffect(Steps() + Returns(), code);
    StepsEffect(Returns(), code);
    ReturnsEffect(code);
  }

  /** The search as it runs: the span shrinks while the stride grows. */
  method FindStride(s: Search, code: seq<Asm>) returns (stride: nat)
    ensures stride == Stride(s, code)
    decreases s
  {
    match s
    case Exactly(i) =>
      stride := if code != [] && code[0] == i then 1 else 0;
    case Sequence(parts) =>
      stride := 0;
      if |code| < |parts| { return; }
      var i, span := 0, code;
      while i < |parts|
        invariant i <= |parts|
        invariant i < |parts| ==>
          StrideAll(s, 0, code) == if StrideAll(s, i, span) == 0 then 0 else stride + StrideAll(s, i, span)
        invariant i == |parts| ==> StrideAll(s, 0, code) == stride
      {
        var step := FindStride(parts[i], span);
        if step == 0 { return 0; }
        span, stride, i := span[step..], stride + step, i + 1;
      }
    case Repeated(part, times) =>
      stride := 0;
      var i, span := 0, code;
      while i < times
        invariant i <= times
        invariant i < times ==>
          StrideTimes(s, times, code) ==
            if StrideTimes(s, times - i, span) == 0 then 0 else stride + StrideTimes(s, times - i, span)
        invariant i == times ==> StrideTimes(s, times, code) == stride
      {
        var step := FindStride(part, span);
        if step == 0 { return 0; }
        span, stride, i := span[step..], stride + step, i + 1;
      }
  }

  /** apply_pattern: the first pattern that matches, or one instruction copied. */
  method ApplyPattern(span: seq<Asm>) returns (rest: seq<Asm>, out: seq<Asm>)
    requires span != []
    ensures var (n, replacement) := FirstMatch(Patterns(), span); rest == span[n..] && out == replacement
  {
    hide Stride;
    var patterns := Patterns();
    var i := 0;
    while i < |patterns|
      invariant i <= |patterns|
      invariant FirstMatch(patterns, span) == FirstMatch(patterns[i..], span)
    {
      var steps := FindStride(patterns[i].search, span);
      assert patterns[i..][0] == patterns[i] && patterns[i..][1..] == patterns[i + 1..];
      if steps > 0 { return span[steps..], patterns[i].replace; }
      i := i + 1;
    }
    return span[1..], [span[0]];
  }

  /** transform: patterns are applied until the input is used up. */
  method Transform(input: seq<Asm>) returns (output: seq<Asm>)
    ensures output == Rewrite(input)
  {
    output := [];
    var span := input;
    while span != []
      invariant output + Rewrite(span) == Rewrite(input)
      decreases |span|
    {
      var rest, out := ApplyPattern(span);
      output, span := output + out, rest;
    }
  }

  /** The positions where a pattern, or a copied instruction, starts; and the end. */
  ghost predicate Starts(code: seq<Asm>, i: nat) {
    i == 0 || (code != [] && var n := Effect(code).0; n <= i && n <= |code| && Starts(code[n..], i - n))
  }

  /** Where a start goes in the rewritten code. */
  function NewPos(code: seq<Asm>, i: nat): nat {
    if i == 0 || code == [] then 0
    else
      var (n, out) := Effect(code);
      |out| + if i < n || n > |code| then 0 else NewPos(code[n..], i - n)
  }

  lemma EffectFits(code: seq<Asm>)
    requires code != []
    ensures 0 < Effect(code).0 <= |code| && |Effect(code).1| == 1
    ensures Rewrite(code) == Effect(code).1 + Rewrite(code[Effect(code).0..])
  {
    TableEffect(code);
  }

  /** Starts beyond the first pattern are the starts of the rest. */
  lemma StartsBeyond(code: seq<Asm>, k: nat)
    requires code != [] && Starts(code[Effect(code).0..], k)
    ensures Starts(code, Effect(code).0 + k)
        && NewPos(code, Effect(code).0 + k) == 1 + NewPos(code[Effect(code).0..], k)
  {
    EffectFits(code);
    hide Effect, Rewrite;
    var n := Effect(code).0;
    assert n + k - n == k;
  }

  lemma StartsFirst(code: seq<Asm>)
    ensures Starts(code, 0) && NewPos(code, 0) == 0
  {
  }

  /** At a start, the rewritten code has what the pattern there gives. */
  lemma {:induction false} RewriteAt(code: seq<Asm>, i: nat)
    requires Starts(code, i)
    ensures i <= |code| && NewPos(code, i) <= |Rewrite(code)|
    ensures i == |code| ==> NewPos(code, i) == |Rewrite(code)|
    ensures i < |code| ==> var (n, out) := Effect(code[i..]);
      && i + n <= |code| && Starts(code, i + n) && NewPos(code, i + n) == NewPos(code, i) + 1
      && NewPos(code, i) < |Rewrite(code)| && Rewrite(code)[NewPos(code, i)] == out[0]
    decreases |code|
  {
    hide Effect;
    if code == [] {
    } else if i == 0 {
      EffectFits(code);
      hide Rewrite;
      assert code[0..] == code;
      StartsFirst(code[Effect(code).0..]);
      StartsBeyond(code, 0);
    } else {
      RewriteLater(code, i);
    }
  }

  lemma {:induction false} RewriteLater(code: seq<Asm>, i: nat)
    requires Starts(code, i) && 0 < i && code != []
    ensures i <= |code| && NewPos(code, i) <= |Rewrite(code)|
    ensures i == |code| ==> NewPos(code, i) == |Rewrite(code)|
    ensures i < |code| ==> var (n, out) := Effect(code[i..]);
      && i + n <= |code| && Starts(code, i + n) && NewPos(code, i + n) == NewPos(code, i) + 1
      && NewPos(code, i) < |Rewrite(code)| && Rewrite(code)[NewPos(code, i)] == out[0]
    decreases |code|, 0
  {
    hide Effect, Rewrite;
    EffectFits(code);
    var (n, out) := Effect(code);
    var rest, k := code[n..], i - n;
    RewriteAt(rest, k);
    StartsBeyond(code, k);
    assert rest[k..] == code[i..];
    hide Starts, NewPos;
    if i < |code| {
      EffectFits(code[i..]);
      var m := Effect(code[i..]).0;
      StartsBeyond(code, k + m);
      assert n + (k + m) == i + m;
      assert Rewrite(code)[1 + NewPos(rest, k)] == Rewrite(rest)[NewPos(rest, k)];
    }
  }

  /** Labels and exits are never inside a pattern. */
  lemma {:induction false} AloneAreStarts(code: seq<Asm>, i: nat)
    requires i < |code| && (code[i].Mark? || code[i].Exit?)
    ensures Starts(code, i) && Effect(code[i..]) == (1, [code[i]])
    decreases |code|
  {
    if i == 0 {
      assert code[0..] == code;
    } else {
      EffectFits(code);
      PatternEnds(code, i);
      hide Effect, Rewrite;
      var n := Effect(code).0;
      AloneAreStarts(code[n..], i - n);
      StartsBeyond(code, i - n);
      assert code[n..][i - n..] == code[i..];
    }
  }

  lemma PatternEnds(code: seq<Asm>, i: nat)
    requires 0 < i < |code| && (code[i].Mark? || code[i].Exit?)
    ensures Effect(code).0 <= i
  {
    if Kind(code).NullReturns? { assert code[2..][0] == code[2] && code[2..][1] == code[3]; }
    if Kind(code).ReturnTwice? { assert code[1..][0] == code[1] && code[1..][1] == code[2]; }
  }

  /** The rewritten code has the same labels, each where its instruction went. */
  lemma {:induction false} FindMoves(code: seq<Asm>, l: Label)
    ensures Find(Rewrite(code), l) == NewPos(code, Find(code, l)) && Starts(code, Find(code, l))
    decreases |code|
  {
    if code != [] {
      hide Effect, Rewrite, Starts, NewPos, Find;
      EffectFits(code);
      FindMoves(code[Effect(code).0..], l);
      FindFurther(code, l);
    }
  }

  /** The first instruction or pattern, then the rest. */
  lemma FindFurther(code: seq<Asm>, l: Label)
    requires code != [] && Effect(code).0 <= |code|
    requires var rest := code[Effect(code).0..];
      Find(Rewrite(rest), l) == NewPos(rest, Find(rest, l)) && Starts(rest, Find(rest, l))
    ensures Find(Rewrite(code), l) == NewPos(code, Find(code, l)) && Starts(code, Find(code, l))
  {
    hide Effect, Rewrite, Starts, NewPos, Find;
    EffectFits(code);
    var (n, out) := Effect(code);
    var rest := code[n..];
    StartsFirst(code);
    StartsBeyond(code, Find(rest, l));
    assert code == code[..n] + rest;
    FindConcat(code[..n], rest, l);
    FindConcat(out, Rewrite(rest), l);
    PatternLabels(code, l);
  }

  lemma {:induction false} FindConcat(a: seq<Asm>, b: seq<Asm>, l: Label)
    ensures Find(a + b, l) == if Find(a, l) < |a| then Find(a, l) else |a| + Find(b, l)
    decreases |a|
  {
    if a == [] {
      assert a + b == b;
    } else {
      assert (a + b)[1..] == a[1..] + b;
      FindConcat(a[1..], b, l);
    }
  }

  lemma EffectMarks(code: seq<Asm>, l: Label)
    requires code != [] && Effect(code).0 <= |code|
    ensures forall i :: 0 <= i < Effect(code).0 && code[i] == Mark(l) ==> i == 0 && Effect(code) == (1, [code[0]])
    ensures forall i :: 0 <= i < |Effect(code).1| && Effect(code).1[i] == Mark(l) ==> Effect(code) == (1, [code[0]])
    ensures code[0] == Mark(l) ==> Effect(code) == (1, [code[0]])
  {
    hide Rewrite;
  }

  /** A pattern and its replacement define the same labels: none, unless one is copied. */
  lemma PatternLabels(code: seq<Asm>, l: Label)
    requires code != []
    ensures var (n, out) := Effect(code);
      n <= |code| && if code[0] == Mark(l) then n == 1 && Find(code[..n], l) == 0 && Find(out, l) == 0
      else Find(code[..n], l) == n && Find(out, l) == |out|
  {
    EffectFits(code);
    var (n, out) := Effect(code);
    EffectMarks(code, l);
    hide Rewrite, Effect, Kind;
    var k := Find(code[..n], l);
    if k < n { assert code[..n][k] == Mark(l); }
    var j := Find(out, l);
    if j < |out| { assert out[j] == Mark(l); }
  }
}
