/** Compiling a well-nested body preserves its meaning, in both directions. */
module StoredProcCorrectness {
  import opened StoredProcSyntax
  import opened StoredProcLink
  import opened StoredProcPlacement
  import opened StoredProcFlat
  import opened StoredProcStructured
  import opened StoredProcSimulation

  /** The flat run of `code` from position 0 ends with `o` in state `end`. */
  ghost predicate Runs(eng: Engine, code: seq<Instr>, flags: seq<bool>, st: State, o: Outcome, end: State) {
    exists k: nat :: Steps(eng, code, k, Running(0, flags, st)) == Halted(o, end)
  }

  ghost predicate RunsForever(eng: Engine, code: seq<Instr>, flags: seq<bool>, st: State) {
    forall k: nat :: Steps(eng, code, k, Running(0, flags, st)).Running?
  }

  /** Entries of the loop stack that belong to other procedures change nothing. */
  lemma {:induction false} StaleLoops(b: Block, base: nat, own: seq<nat>, stale: seq<nat>)
    requires BlockOk(b, |own|)
    ensures BlockOk(b, |own + stale|)
    ensures CodeBlock(b, base, own + stale) == CodeBlock(b, base, own)
    decreases b
  {
    match b
    case Empty =>
    case Then(h, t) =>
      StaleLoopsStmt(h, base, own, stale);
      StaleLoops(t, base + StmtSize(h), own, stale);
  }

  lemma {:induction false} StaleLoopsStmt(s: Stmt, base: nat, own: seq<nat>, stale: seq<nat>)
    requires StmtOk(s, |own|)
    ensures StmtOk(s, |own + stale|)
    ensures CodeStmt(s, base, own + stale) == CodeStmt(s, base, own)
    decreases s
  {
    match s
    case If(c, body, arms) =>
      StaleLoops(body, base + 1, own, stale);
      StaleLoopsArms(arms, base + 1 + BlockSize(body), base, own, stale);
    case Loop(head, body) =>
      assert [base] + (own + stale) == ([base] + own) + stale;
      StaleLoops(body, base + 1, [base] + own, stale);
    case _ =>
  }

  lemma {:induction false} StaleLoopsArms(a: Arms, base: nat, first: nat, own: seq<nat>, stale: seq<nat>)
    requires ArmsOk(a, |own|)
    ensures ArmsOk(a, |own + stale|)
    ensures CodeArms(a, base, first, own + stale) == CodeArms(a, base, first, own)
    decreases a
  {
    match a
    case EndIf =>
    case Arm(g, body, rest) =>
      StaleLoops(body, base + 1, own, stale);
      StaleLoopsArms(rest, base + 1 + BlockSize(body), first, own, stale);
  }

  predicate TargetsInRange(code: seq<Instr>) {
    forall i :: 0 <= i < |code| ==> code[i].nextIf < |code| && code[i].related < |code|
  }

  lemma {:induction false} BlockTargets(b: Block, base: nat, loops: seq<nat>, size: nat)
    requires BlockOk(b, |loops|) && base + BlockSize(b) <= size
    requires forall i :: 0 <= i < |loops| ==> loops[i] < size
    ensures Bounded(CodeBlock(b, base, loops), size)
    decreases b
  {
    match b
    case Empty =>
    case Then(h, t) =>
      StmtTargets(h, base, loops, size);
      BlockTargets(t, base + StmtSize(h), loops, size);
  }

  predicate Bounded(code: seq<Instr>, size: nat) {
    forall i :: 0 <= i < |code| ==> code[i].nextIf < size && code[i].related < size
  }

  lemma BoundedJoin(a: seq<Instr>, b: seq<Instr>, c: seq<Instr>, size: nat)
    requires Bounded(a, size) && Bounded(b, size) && Bounded(c, size)
    ensures Bounded(a + b + c, size)
  {
  }

  lemma {:induction false} StmtTargets(s: Stmt, base: nat, loops: seq<nat>, size: nat)
    requires StmtOk(s, |loops|) && base + StmtSize(s) <= size
    requires forall i :: 0 <= i < |loops| ==> loops[i] < size
    ensures Bounded(CodeStmt(s, base, loops), size)
    decreases s
  {
    match s
    case If(c, body, arms) =>
      var next := base + 1 + BlockSize(body);
      BlockTargets(body, base + 1, loops, size);
      ArmsTargets(arms, next, base, loops, size);
      BoundedJoin([Instr(OpIf(c), next, 0)], CodeBlock(body, base + 1, loops), CodeArms(arms, next, base, loops), size);
    case Loop(head, body) =>
      BlockTargets(body, base + 1, [base] + loops, size);
      BoundedJoin([Instr(OpLoop(head), 0, base + 1 + BlockSize(body))], CodeBlock(body, base + 1, [base] + loops),
                  [Instr(OpEndLoop, 0, base)], size);
    case _ =>
  }

  lemma {:induction false} ArmsTargets(a: Arms, base: nat, first: nat, loops: seq<nat>, size: nat)
    requires ArmsOk(a, |loops|) && base + ArmsSize(a) <= size && first < size
    requires forall i :: 0 <= i < |loops| ==> loops[i] < size
    ensures Bounded(CodeArms(a, base, first, loops), size)
    decreases a
  {
    match a
    case EndIf =>
    case Arm(g, body, rest) =>
      BlockTargets(body, base + 1, loops, size);
      ArmsTargets(rest, base + 1 + BlockSize(body), first, loops, size);
  }

  /** The link pass accepts every well-nested body whatever the two global stacks
      held before, leaves both as found, and keeps every jump inside the array. */
  lemma LinkSucceeds(b: Block, ifs: seq<IfBlock>, loops: seq<nat>)
    requires BlockOk(b, 0)
    ensures var code := CodeBlock(b, 0, []);
            LinkAll(Linking([], ifs, loops), FlattenBlock(b)) == Linked(Linking(code, ifs, loops))
            && |code| == BlockSize(b) && TargetsInRange(code)
  {
    var s := Linking([], ifs, loops);
    assert [] + loops == loops;
    StaleLoops(b, 0, [], loops);
    LinkBlock(s, b);
    assert [] + CodeBlock(b, 0, loops) == CodeBlock(b, 0, loops);
    BlockTargets(b, 0, [], BlockSize(b));
  }

  lemma RunMatches(eng: Engine, b: Block, flags: seq<bool>, st: State, fuel: nat) returns (k: nat)
    requires BlockOk(b, 0) && |flags| == BlockSize(b)
    ensures var code := CodeBlock(b, 0, []);
            Matches(eng, code, k, Running(0, flags, st), ExecBlock(eng, b, 0, st, fuel), fuel, [], 0, |code|)
  {
    var code := CodeBlock(b, 0, []);
    assert code[0..0 + |code|] == code;
    PlaceBlock(code, b, 0, []);
    k := SimBlock(eng, code, b, 0, [], flags, st, fuel);
  }

  /** If the structured run is over, so is the flat one, with the same result. */
  lemma FlatFollows(eng: Engine, b: Block, flags: seq<bool>, st: State, fuel: nat) returns (k: nat)
    requires BlockOk(b, 0) && |flags| == BlockSize(b)
    ensures var c1 := Steps(eng, CodeBlock(b, 0, []), k, Running(0, flags, st));
            var r := ExecBlock(eng, b, 0, st, fuel);
            if r.signal.OutOfFuel? then k >= fuel && c1.Running?
            else c1.Halted? && EndsWith(r, c1.outcome, c1.st)
  {
    var code := CodeBlock(b, 0, []);
    k := RunMatches(eng, b, flags, st, fuel);
    var c := Running(0, flags, st);
    if ExecBlock(eng, b, 0, st, fuel).signal.Proceeds? {
      StepOnce(eng, code, Steps(eng, code, k, c));
      StepsAdd(eng, code, k, 1, c);
      k := k + 1;
    }
  }

  lemma HaltsOnce(eng: Engine, code: seq<Instr>, i: nat, j: nat, c: Config)
    requires Steps(eng, code, i, c).Halted? && i <= j
    ensures Steps(eng, code, j, c) == Steps(eng, code, i, c)
  {
  }

  /** Compiler correctness. Whatever the flags hold from an earlier run, the flat
      run ends with an outcome and a state (variables, tables, cursors, and the
      order of all evaluations) exactly when the structured meaning does. */
  lemma CompilerCorrect(eng: Engine, b: Block, flags: seq<bool>, st: State, o: Outcome, end: State)
    requires BlockOk(b, 0) && |flags| == BlockSize(b)
    ensures Means(eng, b, st, o, end) <==> Runs(eng, CodeBlock(b, 0, []), flags, st, o, end)
  {
    var code, c := CodeBlock(b, 0, []), Running(0, flags, st);
    if Means(eng, b, st, o, end) {
      var fuel: nat :| EndsWith(ExecBlock(eng, b, 0, st, fuel), o, end);
      var k := FlatFollows(eng, b, flags, st, fuel);
      assert Steps(eng, code, k, c) == Halted(o, end);
    }
    if Runs(eng, code, flags, st, o, end) {
      var k: nat :| Steps(eng, code, k, c) == Halted(o, end);
      var k1 := FlatFollows(eng, b, flags, st, k + 1);
      HaltsOnce(eng, code, k, if k1 > k then k1 else k, c);
      if k1 < k {
        HaltsOnce(eng, code, k1, k, c);
      }
      assert EndsWith(ExecBlock(eng, b, 0, st, k + 1), o, end);
    }
  }

  /** And it runs forever exactly when the structured meaning never ends. */
  lemma DivergenceCorrect(eng: Engine, b: Block, flags: seq<bool>, st: State)
    requires BlockOk(b, 0) && |flags| == BlockSize(b)
    ensures Diverges(eng, b, st) <==> RunsForever(eng, CodeBlock(b, 0, []), flags, st)
  {
    var code, c := CodeBlock(b, 0, []), Running(0, flags, st);
    if Diverges(eng, b, st) {
      forall k: nat ensures Steps(eng, code, k, c).Running? {
        var k1 := FlatFollows(eng, b, flags, st, k);
        if Steps(eng, code, k, c).Halted? {
          HaltsOnce(eng, code, k, k1, c);
        }
      }
    }
    if RunsForever(eng, code, flags, st) {
      forall fuel: nat ensures ExecBlock(eng, b, 0, st, fuel).signal.OutOfFuel? {
        var k1 := FlatFollows(eng, b, flags, st, fuel);
      }
    }
  }
}
