/** The flat run and the structured meaning go hand in hand. */
module StoredProcSimulation {
  import opened StoredProcSyntax
  import opened StoredProcPlacement
  import opened StoredProcFlat
  import opened StoredProcStructured

  predicate LoopsOk(code: seq<Instr>, loops: seq<nat>) {
    forall i :: 0 <= i < |loops| ==> loops[i] < |code|
  }

  /** Where the flat run stands once the structured run `r` is over. */
  predicate Lands(code: seq<Instr>, r: Result, loops: seq<nat>, next: nat, c: Config) {
    match r.signal
    case Proceeds => c.Running? && c.pos == next && c.st == r.st
    case Breaks(i) =>
      i < |loops| && loops[i] < |code| && c.Running? && c.pos == code[loops[i]].related + 1 && c.st == r.st
    case Continues(i) => i < |loops| && c.Running? && c.pos == loops[i] && c.st == r.st
    case Stops(o) => c == Halted(o, r.st)
    case OutOfFuel => c.Running?
  }

  /** Only flags of positions in [lo, hi) may differ. */
  predicate Framed(flags: seq<bool>, c: Config, lo: nat, hi: nat) {
    c.Running? ==>
      |c.flags| == |flags| && forall i :: 0 <= i < |flags| && !(lo <= i < hi) ==> c.flags[i] == flags[i]
  }

  /** `k` flat rounds from `c` match the structured result `r`, and the flat run
      takes at least one round for each unit of fuel the structured one used. */
  predicate Matches(eng: Engine, code: seq<Instr>, k: nat, c: Config, r: Result, fuel: nat,
                    loops: seq<nat>, lo: nat, hi: nat)
    requires c.Running?
  {
    var c1 := Steps(eng, code, k, c);
    Lands(code, r, loops, hi, c1) && Framed(c.flags, c1, lo, hi) && k + r.fuel >= fuel
  }

  /** A matching run after `k0` rounds gives one from the start. */
  lemma Chain(eng: Engine, code: seq<Instr>, k0: nat, c: Config, fuel0: nat, k1: nat, c1: Config, r: Result,
              fuel1: nat, loops: seq<nat>, lo: nat, lo1: nat, hi: nat)
    requires c.Running? && c1.Running? && c1 == Steps(eng, code, k0, c)
    requires Matches(eng, code, k1, c1, r, fuel1, loops, lo1, hi)
    requires lo <= lo1 && Framed(c.flags, c1, lo, hi) && k0 + fuel1 >= fuel0
    ensures Matches(eng, code, k0 + k1, c, r, fuel0, loops, lo, hi)
  {
    StepsAdd(eng, code, k0, k1, c);
  }

  /** A larger frame, for every way of ending that does not fall through. */
  lemma Widen(code: seq<Instr>, r: Result, loops: seq<nat>, next: nat, hi: nat, flags: seq<bool>, c: Config,
              lo: nat, lower: nat)
    requires Lands(code, r, loops, next, c) && Framed(flags, c, lo, next) && lower <= lo && next <= hi
    ensures Framed(flags, c, lower, hi)
    ensures !r.signal.Proceeds? ==> Lands(code, r, loops, hi, c)
  {
  }

  lemma StepOnce(eng: Engine, code: seq<Instr>, c: Config)
    ensures Steps(eng, code, 1, c) == Step(eng, code, c)
  {
  }

  lemma {:induction false} SimBlock(eng: Engine, code: seq<Instr>, b: Block, base: nat, loops: seq<nat>,
                                    flags: seq<bool>, st: State, fuel: nat) returns (k: nat)
    requires LoopsOk(code, loops) && |flags| == |code| && BlockAt(code, b, base, loops)
    ensures Matches(eng, code, k, Running(base, flags, st), ExecBlock(eng, b, base, st, fuel), fuel,
                    loops, base, base + BlockSize(b))
    decreases fuel, b, 2
  {
    match b
    case Empty =>
      k := 0;
    case Then(h, t) =>
      k := SimStmt(eng, code, h, base, loops, flags, st, fuel);
      var r := ExecStmt(eng, h, base, st, fuel);
      var c := Running(base, flags, st);
      var c1 := Steps(eng, code, k, c);
      var mid, hi := base + StmtSize(h), base + BlockSize(b);
      Widen(code, r, loops, mid, hi, flags, c1, base, base);
      if r.signal.Proceeds? {
        var k2 := SimBlock(eng, code, t, mid, loops, c1.flags, r.st, r.fuel);
        Chain(eng, code, k, c, fuel, k2, c1, ExecBlock(eng, t, mid, r.st, r.fuel), r.fuel, loops, base, mid, hi);
        k := k + k2;
      }
  }

  lemma {:induction false} SimStmt(eng: Engine, code: seq<Instr>, s: Stmt, base: nat, loops: seq<nat>,
                                   flags: seq<bool>, st: State, fuel: nat) returns (k: nat)
    requires LoopsOk(code, loops) && |flags| == |code| && StmtAt(code, s, base, loops)
    ensures Matches(eng, code, k, Running(base, flags, st), ExecStmt(eng, s, base, st, fuel), fuel,
                    loops, base, base + StmtSize(s))
    decreases fuel, s, 2
  {
    match s
    case If(_, _, _) =>
      k := SimIf(eng, code, s, base, loops, flags, st, fuel);
    case Loop(head, body) =>
      k := SimLoop(eng, code, head, body, base, loops, flags, st, fuel);
    case _ =>
      StepOnce(eng, code, Running(base, flags, st));
      k := 1;
  }

  lemma {:induction false} SimIf(eng: Engine, code: seq<Instr>, s: Stmt, base: nat, loops: seq<nat>,
                                 flags: seq<bool>, st: State, fuel: nat) returns (k: nat)
    requires LoopsOk(code, loops) && |flags| == |code| && s.If? && StmtAt(code, s, base, loops)
    ensures Matches(eng, code, k, Running(base, flags, st), ExecStmt(eng, s, base, st, fuel), fuel,
                    loops, base, base + StmtSize(s))
    decreases fuel, s, 1
  {
    var next, hi := base + 1 + BlockSize(s.body), base + StmtSize(s);
    var c := Running(base, flags, st);
    StepOnce(eng, code, c);
    match Choose(eng, When(s.cond), base, st)
    case Broken(rc, st1) =>
      k := 1;
    case Taken(st1) =>
      var c1 := Running(base + 1, flags[base := true], st1);
      var k1 := SimArmBody(eng, code, s.body, s.arms, base + 1, base, loops, c1.flags, st1, fuel);
      Chain(eng, code, 1, c, fuel, k1, c1, ExecBlock(eng, s.body, base + 1, st1, fuel), fuel, loops, base, base, hi);
      k := 1 + k1;
    case Passed(st1) =>
      var c1 := Running(next, flags[base := false], st1);
      var k1 := SimArms(eng, code, s.arms, next, base, loops, c1.flags, st1, fuel);
      Chain(eng, code, 1, c, fuel, k1, c1, ExecArms(eng, s.arms, next, st1, fuel), fuel, loops, base, base, hi);
      k := 1 + k1;
  }

  /** While the EXECUTED flag is set, every further arm is jumped over. */
  lemma {:induction false} SkipArms(eng: Engine, code: seq<Instr>, a: Arms, base: nat, first: nat, loops: seq<nat>,
                                    flags: seq<bool>, st: State) returns (k: nat)
    requires |flags| == |code| && first < |flags| && flags[first] && ArmsAt(code, a, base, first, loops)
    ensures Steps(eng, code, k, Running(base, flags, st)) == Running(base + ArmsSize(a), flags, st)
    decreases a
  {
    var c := Running(base, flags, st);
    StepOnce(eng, code, c);
    match a
    case EndIf =>
      k := 1;
    case Arm(g, body, rest) =>
      var next := base + 1 + BlockSize(body);
      var k1 := SkipArms(eng, code, rest, next, first, loops, flags, st);
      StepsAdd(eng, code, 1, k1, c);
      k := 1 + k1;
  }

  /** A chosen body, then the rest of the chain skipped. */
  lemma {:induction false} SimArmBody(eng: Engine, code: seq<Instr>, body: Block, rest: Arms, base: nat, first: nat,
                                      loops: seq<nat>, flags: seq<bool>, st: State, fuel: nat) returns (k: nat)
    requires LoopsOk(code, loops) && |flags| == |code| && first < base && first < |flags| && flags[first]
    requires BlockAt(code, body, base, loops) && ArmsAt(code, rest, base + BlockSize(body), first, loops)
    ensures Matches(eng, code, k, Running(base, flags, st), ExecBlock(eng, body, base, st, fuel), fuel,
                    loops, first, base + BlockSize(body) + ArmsSize(rest))
    decreases fuel, body, 3
  {
    var next := base + BlockSize(body);
    k := SimBlock(eng, code, body, base, loops, flags, st, fuel);
    var c := Running(base, flags, st);
    var r := ExecBlock(eng, body, base, st, fuel);
    var c1 := Steps(eng, code, k, c);
    Widen(code, r, loops, next, next + ArmsSize(rest), flags, c1, base, first);
    if r.signal.Proceeds? {
      var k2 := SkipArms(eng, code, rest, next, first, loops, c1.flags, c1.st);
      StepsAdd(eng, code, k, k2, c);
      k := k + k2;
    }
  }

  lemma {:induction false} SimArms(eng: Engine, code: seq<Instr>, a: Arms, base: nat, first: nat, loops: seq<nat>,
                                   flags: seq<bool>, st: State, fuel: nat) returns (k: nat)
    requires LoopsOk(code, loops) && |flags| == |code| && first < base && first < |flags| && !flags[first]
    requires ArmsAt(code, a, base, first, loops)
    ensures Matches(eng, code, k, Running(base, flags, st), ExecArms(eng, a, base, st, fuel), fuel,
                    loops, first, base + ArmsSize(a))
    decreases fuel, a, 2
  {
    var c := Running(base, flags, st);
    StepOnce(eng, code, c);
    k := 1;
    if a.Arm? {
      match Choose(eng, a.guard, base, st)
      case Broken(_, _) =>
      case Taken(st1) =>
        k := SimTaken(eng, code, a, base, first, loops, flags, st, st1, fuel);
      case Passed(st1) =>
        var next, hi := base + 1 + BlockSize(a.body), base + ArmsSize(a);
        var c1 := Running(next, flags, st1);
        var k1 := SimArms(eng, code, a.rest, next, first, loops, flags, st1, fuel);
        Chain(eng, code, 1, c, fuel, k1, c1, ExecArms(eng, a.rest, next, st1, fuel), fuel, loops, first, first, hi);
        k := 1 + k1;
    }
  }

  lemma {:induction false} SimTaken(eng: Engine, code: seq<Instr>, a: Arms, base: nat, first: nat, loops: seq<nat>,
                                    flags: seq<bool>, st: State, st1: State, fuel: nat) returns (k: nat)
    requires LoopsOk(code, loops) && |flags| == |code| && first < base && first < |flags| && !flags[first]
    requires a.Arm? && ArmsAt(code, a, base, first, loops) && Choose(eng, a.guard, base, st) == Taken(st1)
    ensures Matches(eng, code, k, Running(base, flags, st), ExecArms(eng, a, base, st, fuel), fuel,
                    loops, first, base + ArmsSize(a))
    decreases fuel, a, 1
  {
    var c, c1 := Running(base, flags, st), Running(base + 1, flags[first := true], st1);
    StepOnce(eng, code, c);
    var k1 := SimArmBody(eng, code, a.body, a.rest, base + 1, first, loops, c1.flags, st1, fuel);
    Chain(eng, code, 1, c, fuel, k1, c1, ExecBlock(eng, a.body, base + 1, st1, fuel), fuel, loops, first, first,
          base + ArmsSize(a));
    k := 1 + k1;
  }

  lemma {:induction false} SimLoop(eng: Engine, code: seq<Instr>, head: Head, body: Block, base: nat, loops: seq<nat>,
                                   flags: seq<bool>, st: State, fuel: nat) returns (k: nat)
    requires LoopsOk(code, loops) && |flags| == |code|
    requires LoopAt(code, head, base, base + 1 + BlockSize(body)) && BlockAt(code, body, base + 1, [base] + loops)
    ensures Matches(eng, code, k, Running(base, flags, st), ExecLoop(eng, head, body, base, st, fuel), fuel,
                    loops, base, base + BlockSize(body) + 2)
    decreases fuel, body, 4
  {
    StepOnce(eng, code, Running(base, flags, st));
    k := 1;
    match Enter(eng, head, base, st)
    case Exhausted(_) =>
    case FetchFailed(_, _) =>
    case Row(st1) =>
      k := SimRounds(eng, code, head, body, base, loops, flags, st, st1, fuel);
  }

  lemma {:induction false} SimRounds(eng: Engine, code: seq<Instr>, head: Head, body: Block, base: nat,
                                     loops: seq<nat>, flags: seq<bool>, st: State, st1: State, fuel: nat)
    returns (k: nat)
    requires LoopsOk(code, loops) && |flags| == |code| && Enter(eng, head, base, st) == Row(st1)
    requires LoopAt(code, head, base, base + 1 + BlockSize(body)) && BlockAt(code, body, base + 1, [base] + loops)
    ensures Matches(eng, code, k, Running(base, flags, st), ExecLoop(eng, head, body, base, st, fuel), fuel,
                    loops, base, base + BlockSize(body) + 2)
    decreases fuel, body, 3, 1
  {
    var c := Running(base, flags, st);
    var r := ExecBlock(eng, body, base + 1, st1, fuel);
    k := SimRound(eng, code, head, body, base, loops, flags, st, st1, fuel);
    var c1 := Steps(eng, code, k, c);
    LoopRound(eng, head, body, base, st, st1, fuel, r);
    if Again(r) {
      var k2 := SimLoop(eng, code, head, body, base, loops, c1.flags, r.st, r.fuel - 1);
      Chain(eng, code, k, c, fuel, k2, c1, ExecLoop(eng, head, body, base, r.st, r.fuel - 1), r.fuel - 1,
            loops, base, base, base + BlockSize(body) + 2);
      k := k + k2;
    }
  }

  lemma LoopRound(eng: Engine, head: Head, body: Block, base: nat, st: State, st1: State, fuel: nat, r: Result)
    requires Enter(eng, head, base, st) == Row(st1) && r == ExecBlock(eng, body, base + 1, st1, fuel)
    ensures ExecLoop(eng, head, body, base, st, fuel)
         == if Again(r) then ExecLoop(eng, head, body, base, r.st, r.fuel - 1) else Leave(r)
  {
  }

  /** The loop head and one run of the body. If the loop goes on, the flat run is
      back at the head; otherwise it stands where the loop as a whole ends. */
  lemma {:induction false} SimRound(eng: Engine, code: seq<Instr>, head: Head, body: Block, base: nat,
                                    loops: seq<nat>, flags: seq<bool>, st: State, st1: State, fuel: nat)
    returns (k: nat)
    requires LoopsOk(code, loops) && |flags| == |code| && Enter(eng, head, base, st) == Row(st1)
    requires LoopAt(code, head, base, base + 1 + BlockSize(body)) && BlockAt(code, body, base + 1, [base] + loops)
    ensures var r := ExecBlock(eng, body, base + 1, st1, fuel);
            var c1 := Steps(eng, code, k, Running(base, flags, st));
            Framed(flags, c1, base, base + BlockSize(body) + 2) && k + r.fuel > fuel
            && (if Again(r) then c1.Running? && c1 == Running(base, c1.flags, r.st)
                else Lands(code, Leave(r), loops, base + BlockSize(body) + 2, c1))
    decreases fuel, body, 3, 0
  {
    var end := base + 1 + BlockSize(body);
    var c := Running(base, flags, st);
    StepOnce(eng, code, c);
    var r := ExecBlock(eng, body, base + 1, st1, fuel);
    var k1 := SimBlock(eng, code, body, base + 1, [base] + loops, flags, st1, fuel);
    StepsAdd(eng, code, 1, k1, c);
    k := 1 + k1;
    var c1 := Steps(eng, code, k, c);
    Widen(code, r, [base] + loops, end, end + 1, flags, c1, base + 1, base);
    if !Again(r) {
      LeaveLands(code, r, base, loops, end, c1);
    } else if r.signal.Proceeds? {
      StepOnce(eng, code, c1);
      StepsAdd(eng, code, k, 1, c);
      k := k + 1;
    }
  }

  lemma LeaveLands(code: seq<Instr>, r: Result, base: nat, loops: seq<nat>, end: nat, c: Config)
    requires base < |code| && code[base].related == end
    requires Lands(code, r, [base] + loops, end, c) && !Again(r)
    ensures Lands(code, Leave(r), loops, end + 1, c)
  {
  }
}
