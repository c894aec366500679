/** The machine that fetches its instructions from bytes, and why it does what the
    labelled code does. */
module ByteMachine {
  import opened Binary
  import opened Instructions
  import opened Machine
  import opened Labelled
  import opened Bytecode
  import opened Relocation
  import opened Linking

  datatype ByteProgram = ByteProgram(code: seq<Byte>, pool: seq<string>, env: Env)

  function ByteStep(p: ByteProgram, s: State): Result {
    match Fetch(p.code, p.pool, s.pc)
    case None => Wrong(BadAddress)
    case Some((i, next)) => Exec(p.env, i, next, s)
  }

  function ByteRun(p: ByteProgram, s: State, n: nat): Result
    decreases n
  {
    if n == 0 then Next(s)
    else match ByteStep(p, s)
      case Next(t) => ByteRun(p, t, n - 1)
      case r => r
  }

  /** Labelled code as it is loaded: assembled, addresses as offsets. */
  function Image(code: seq<Asm>, env: Env, pool: seq<string>): ByteProgram {
    ByteProgram(Assembled(code, env.fns, pool), pool, MapEnv(env, ToOffset(code)))
  }

  lemma {:induction false} OffsetPast(code: seq<Asm>, k: nat)
    requires k >= |code|
    ensures Offset(code, k) == Offset(code, |code|)
    decreases |code|
  {
    if code != [] { OffsetPast(code[1..], k - 1); }
  }

  lemma LabelStep(code: seq<Asm>, env: Env, s: State)
    requires s.pc < |code| && code[s.pc].Mark?
    ensures Step(Load(code, env), s) == Next(s.(pc := s.pc + 1))
    ensures MapState(s.(pc := s.pc + 1), ToOffset(code)) == MapState(s, ToOffset(code))
  {
    hide Offset, Find;
    OffsetStep(code, s.pc);
  }

  /** Labels take steps in labelled code but no bytes. */
  lemma {:induction false} SkipLabels(code: seq<Asm>, env: Env, s: State) returns (j: nat, t: State)
    ensures Run(Load(code, env), s, j) == Next(t) && MapState(t, ToOffset(code)) == MapState(s, ToOffset(code))
    ensures t.pc >= |code| || !code[t.pc].Mark?
    decreases |code| - s.pc
  {
    hide Offset, Find, Step, Exec, Load, MapState, ToOffset;
    if s.pc >= |code| || !code[s.pc].Mark? {
      j, t := 0, s;
    } else {
      LabelStep(code, env, s);
      j, t := SkipLabels(code, env, s.(pc := s.pc + 1));
      j := j + 1;
    }
  }

  /** One step of the byte machine at an instruction is one step of labelled code. */
  lemma StepMatches(code: seq<Asm>, env: Env, pool: seq<string>, s: State)
    requires FitsFormat(code, env.fns, pool) && (s.pc >= |code| || !code[s.pc].Mark?)
    ensures ByteStep(Image(code, env, pool), MapState(s, ToOffset(code)))
        == MapResult(Step(Load(code, env), s), ToOffset(code))
  {
    hide Exec, Fetch, FitsFormat, Offset, ResolveInst, MapOp, Assembled, MapEnv;
    if s.pc >= |code| {
      FetchEnd(code, env.fns, pool);
      OffsetPast(code, s.pc);
    } else {
      FetchPlaced(code, env.fns, pool, s.pc);
      ExecMap(env, ResolveInst(code, env.fns, code[s.pc]), s.pc + 1, s, ToOffset(code));
    }
  }

  /** Every run of the byte machine is a run of the labelled code, which takes at least as
      many steps. */
  lemma {:induction false} ByteRuns(code: seq<Asm>, env: Env, pool: seq<string>, s: State, m: nat) returns (k: nat)
    requires FitsFormat(code, env.fns, pool)
    ensures k >= m
    ensures ByteRun(Image(code, env, pool), MapState(s, ToOffset(code)), m)
        == MapResult(Run(Load(code, env), s, k), ToOffset(code))
    decreases m
  {
    hide Exec, Fetch, FitsFormat, Offset, Load, Step, ByteStep, MapState, Assembled, MapEnv;
    if m == 0 {
      k := 0;
      return;
    }
    var p, g := Load(code, env), ToOffset(code);
    var j, t := SkipLabels(code, env, s);
    StepMatches(code, env, pool, t);
    match Step(p, t)
    case Next(t2) =>
      var b := ByteRuns(code, env, pool, t2, m - 1);
      k := j + (1 + b);
      RunAdd(p, s, j, 1 + b);
    case _ =>
      k := j + m;
      RunAdd(p, s, j, m);
  }
}
