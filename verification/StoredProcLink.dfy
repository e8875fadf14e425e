/** The link pass of parse_procedure_body: one sweep over the statements with a
    stack of open IF blocks and a stack of open loops. */
module StoredProcLink {
  import opened StoredProcSyntax

  /** One entry of if_stack: where the chain began and its latest arm. */
  datatype IfBlock = IfBlock(first: nat, last: nat)

  /** The command array built so far and both stacks, top first. */
  datatype Linking = Linking(code: seq<Instr>, ifs: seq<IfBlock>, loops: seq<nat>)

  /** `Rejected` is SQLITE_ERROR. `Overrun` marks a link written outside the
      array, which only a stack entry of another procedure can cause. */
  datatype LinkResult = Linked(s: Linking) | Rejected(s: Linking) | Overrun

  function SetNextIf(code: seq<Instr>, at: nat, target: nat): seq<Instr>
    requires at < |code|
  {
    code[at := code[at].(nextIf := target)]
  }

  function SetRelated(code: seq<Instr>, at: nat, target: nat): seq<Instr>
    requires at < |code|
  {
    code[at := code[at].(related := target)]
  }

  /** One round of parse_procedure_body for the statement `op`. */
  function LinkStep(s: Linking, op: Op): (r: LinkResult) {
    var pos := |s.code|;
    var added := s.(code := s.code + [Instr(op, 0, 0)]);
    match op
    case OpBasic(_) => Linked(added)
    case OpIf(_) => Linked(added.(ifs := [IfBlock(pos, pos)] + s.ifs))
    case OpArm(_) =>
      if s.ifs == [] then Rejected(added)
      else if s.ifs[0].last > pos then Overrun
      else Linked(added.(code := SetNextIf(SetRelated(added.code, pos, s.ifs[0].first), s.ifs[0].last, pos),
                         ifs := [s.ifs[0].(last := pos)] + s.ifs[1..]))
    case OpEndIf =>
      if s.ifs == [] then Rejected(added)
      else if s.ifs[0].last > pos then Overrun
      else Linked(added.(code := SetNextIf(added.code, s.ifs[0].last, pos), ifs := s.ifs[1..]))
    case OpLoop(_) => Linked(added.(loops := [pos] + s.loops))
    case OpEndLoop =>
      if s.loops == [] then Rejected(added)
      else if s.loops[0] > pos then Overrun
      else Linked(added.(code := SetRelated(SetRelated(added.code, s.loops[0], pos), pos, s.loops[0]),
                         loops := s.loops[1..]))
    case OpBreak(n) => LinkJump(s, op, n)
    case OpContinue(n) => LinkJump(s, op, n)
  }

  function LinkJump(s: Linking, op: Op, level: nat): LinkResult {
    if Reach(level) >= |s.loops| then Rejected(s.(code := s.code + [Instr(op, 0, 0)]))
    else Linked(s.(code := s.code + [Instr(op, 0, s.loops[Reach(level)])]))
  }

  /** The whole sweep. It stops at the first statement that is rejected. */
  function LinkAll(s: Linking, ops: seq<Op>): (r: LinkResult)
    decreases |ops|
  {
    if ops == [] then Linked(s)
    else
      var r := LinkStep(s, ops[0]);
      if r.Linked? then LinkAll(r.s, ops[1..]) else r
  }

  /** The linked commands of a body placed at `base` inside the loops `loops`
      (starts of the enclosing loops, innermost first), given outright. */
  function CodeBlock(b: Block, base: nat, loops: seq<nat>): (c: seq<Instr>)
    requires BlockOk(b, |loops|)
    ensures |c| == BlockSize(b)
  {
    match b
    case Empty => []
    case Then(h, t) => CodeStmt(h, base, loops) + CodeBlock(t, base + StmtSize(h), loops)
  }

  function CodeStmt(s: Stmt, base: nat, loops: seq<nat>): (c: seq<Instr>)
    requires StmtOk(s, |loops|)
    ensures |c| == StmtSize(s)
  {
    match s
    case Plain(b) => [Instr(OpBasic(b), 0, 0)]
    case If(c, body, arms) =>
      var next := base + 1 + BlockSize(body);
      [Instr(OpIf(c), next, 0)] + CodeBlock(body, base + 1, loops) + CodeArms(arms, next, base, loops)
    case Loop(head, body) =>
      [Instr(OpLoop(head), 0, base + 1 + BlockSize(body))]
      + CodeBlock(body, base + 1, [base] + loops) + [Instr(OpEndLoop, 0, base)]
    case Break(n) => [Instr(OpBreak(n), 0, loops[Reach(n)])]
    case Continue(n) => [Instr(OpContinue(n), 0, loops[Reach(n)])]
  }

  function CodeArms(a: Arms, base: nat, first: nat, loops: seq<nat>): (c: seq<Instr>)
    requires ArmsOk(a, |loops|)
    ensures |c| == ArmsSize(a)
  {
    match a
    case EndIf => [Instr(OpEndIf, 0, 0)]
    case Arm(g, body, rest) =>
      var next := base + 1 + BlockSize(body);
      [Instr(OpArm(g), next, first)] + CodeBlock(body, base + 1, loops) + CodeArms(rest, next, first, loops)
  }

  lemma {:induction false} LinkAppend(s: Linking, xs: seq<Op>, ys: seq<Op>)
    ensures LinkAll(s, xs + ys) ==
            var r := LinkAll(s, xs); if r.Linked? then LinkAll(r.s, ys) else r
    decreases |xs|
  {
    if xs == [] {
      assert xs + ys == ys;
    } else {
      assert (xs + ys)[1..] == xs[1..] + ys;
      var r := LinkStep(s, xs[0]);
      if r.Linked? {
        LinkAppend(r.s, xs[1..], ys);
      }
    }
  }

  lemma LinkOne(s: Linking, op: Op)
    ensures LinkAll(s, [op]) == LinkStep(s, op)
  {
  }

  lemma LinkTwo(s: Linking, xs: seq<Op>, s1: Linking, ys: seq<Op>)
    requires LinkAll(s, xs) == Linked(s1)
    ensures LinkAll(s, xs + ys) == LinkAll(s1, ys)
  {
    LinkAppend(s, xs, ys);
  }

  lemma LinkThree(s: Linking, op: Op, s1: Linking, ops: seq<Op>, s2: Linking, rest: seq<Op>)
    requires LinkStep(s, op) == Linked(s1) && LinkAll(s1, ops) == Linked(s2)
    ensures LinkAll(s, [op] + ops + rest) == LinkAll(s2, rest)
  {
    LinkOne(s, op);
    LinkAppend(s, [op], ops);
    LinkAppend(s, [op] + ops, rest);
  }

  /** The state after linking code `part` with both stacks left alone. */
  function Grown(s: Linking, part: seq<Instr>): Linking {
    s.(code := s.code + part)
  }

  lemma GrownTwice(s: Linking, a: seq<Instr>, b: seq<Instr>)
    ensures Grown(Grown(s, a), b) == Grown(s, a + b)
  {
  }

  /** The link pass of a well-nested body appends exactly the code given by
      CodeBlock and leaves both stacks as it found them, whatever they held. */
  lemma {:induction false} LinkBlock(s: Linking, b: Block)
    requires BlockOk(b, |s.loops|)
    ensures LinkAll(s, FlattenBlock(b)) == Linked(Grown(s, CodeBlock(b, |s.code|, s.loops)))
    decreases b, 2
  {
    match b
    case Empty =>
      assert s.code + [] == s.code;
    case Then(h, t) =>
      var c1 := CodeStmt(h, |s.code|, s.loops);
      var s1 := Grown(s, c1);
      LinkStmt(s, h);
      LinkTwo(s, FlattenStmt(h), s1, FlattenBlock(t));
      LinkBlock(s1, t);
      GrownTwice(s, c1, CodeBlock(t, |s1.code|, s.loops));
  }

  lemma {:induction false} LinkStmt(s: Linking, h: Stmt)
    requires StmtOk(h, |s.loops|)
    ensures LinkAll(s, FlattenStmt(h)) == Linked(Grown(s, CodeStmt(h, |s.code|, s.loops)))
    decreases h, 2
  {
    match h
    case If(c, body, arms) =>
      LinkIf(s, h);
    case Loop(_, body) =>
      LinkLoop(s, h);
    case _ =>
      LinkOne(s, FlattenStmt(h)[0]);
  }

  lemma {:induction false} LinkLoop(s: Linking, h: Stmt)
    requires h.Loop? && StmtOk(h, |s.loops|)
    ensures LinkAll(s, FlattenStmt(h)) == Linked(Grown(s, CodeStmt(h, |s.code|, s.loops)))
    decreases h, 1
  {
    var pos, op := |s.code|, OpLoop(h.head);
    var s1 := s.(code := s.code + [Instr(op, 0, 0)], loops := [pos] + s.loops);
    var inner := CodeBlock(h.body, pos + 1, s1.loops);
    LinkBlock(s1, h.body);
    LinkThree(s, op, s1, FlattenBlock(h.body), Grown(s1, inner), [OpEndLoop]);
    CloseLoop(s, op, inner);
  }

  lemma CloseLoop(s: Linking, op: Op, inner: seq<Instr>)
    ensures var pos := |s.code|;
            LinkAll(Linking(s.code + [Instr(op, 0, 0)] + inner, s.ifs, [pos] + s.loops), [OpEndLoop])
            == Linked(Grown(s, [Instr(op, 0, pos + 1 + |inner|)] + inner + [Instr(OpEndLoop, 0, pos)]))
  {
  }

  lemma {:induction false} LinkIf(s: Linking, h: Stmt)
    requires h.If? && StmtOk(h, |s.loops|)
    ensures LinkAll(s, FlattenStmt(h)) == Linked(Grown(s, CodeStmt(h, |s.code|, s.loops)))
    decreases h, 1
  {
    var pos, op := |s.code|, OpIf(h.cond);
    var s1 := s.(code := s.code + [Instr(op, 0, 0)], ifs := [IfBlock(pos, pos)] + s.ifs);
    var inner := CodeBlock(h.body, pos + 1, s.loops);
    var s2 := Grown(s1, inner);
    LinkBlock(s1, h.body);
    LinkThree(s, op, s1, FlattenBlock(h.body), s2, FlattenArms(h.arms));
    LinkArms(s2, h.arms);
    assert s2.ifs[1..] == s.ifs;
    ArmPatch(s.code, Instr(op, 0, 0), inner, CodeArms(h.arms, |s2.code|, pos, s.loops));
  }

  lemma ArmPatch(code: seq<Instr>, instr: Instr, inner: seq<Instr>, rest: seq<Instr>)
    ensures var next := |code| + 1 + |inner|;
            SetNextIf(code + [instr] + inner, |code|, next) + rest
            == code + ([instr.(nextIf := next)] + inner + rest)
  {
  }

  /** The arms patch the `nextIf` of the arm before them and pop the IF block. */
  function AfterArms(s: Linking, arms: Arms): Linking
    requires ArmsOk(arms, |s.loops|)
    requires s.ifs != [] && s.ifs[0].last < |s.code|
  {
    s.(code := SetNextIf(s.code, s.ifs[0].last, |s.code|)
               + CodeArms(arms, |s.code|, s.ifs[0].first, s.loops),
       ifs := s.ifs[1..])
  }

  lemma {:induction false} LinkArms(s: Linking, arms: Arms)
    requires ArmsOk(arms, |s.loops|)
    requires s.ifs != [] && s.ifs[0].last < |s.code|
    ensures LinkAll(s, FlattenArms(arms)) == Linked(AfterArms(s, arms))
    decreases arms, 2
  {
    match arms
    case EndIf =>
      LinkOne(s, OpEndIf);
      assert SetNextIf(s.code + [Instr(OpEndIf, 0, 0)], s.ifs[0].last, |s.code|)
          == SetNextIf(s.code, s.ifs[0].last, |s.code|) + [Instr(OpEndIf, 0, 0)];
    case Arm(g, body, rest) =>
      var pos, first := |s.code|, s.ifs[0].first;
      var s1 := OpenArm(s, g);
      var inner := CodeBlock(body, pos + 1, s.loops);
      var s2 := Grown(s1, inner);
      LinkBlock(s1, body);
      LinkThree(s, OpArm(g), s1, FlattenBlock(body), s2, FlattenArms(rest));
      LinkArms(s2, rest);
      CloseArm(s, arms, s2);
  }

  lemma OpenArm(s: Linking, g: Guard) returns (s1: Linking)
    requires s.ifs != [] && s.ifs[0].last < |s.code|
    ensures var pos, first := |s.code|, s.ifs[0].first;
            s1 == s.(code := SetNextIf(s.code, s.ifs[0].last, pos) + [Instr(OpArm(g), 0, first)],
                     ifs := [IfBlock(first, pos)] + s.ifs[1..])
    ensures LinkStep(s, OpArm(g)) == Linked(s1)
  {
    var pos, first := |s.code|, s.ifs[0].first;
    var code := SetNextIf(s.code, s.ifs[0].last, pos) + [Instr(OpArm(g), 0, first)];
    assert SetNextIf(SetRelated(s.code + [Instr(OpArm(g), 0, 0)], pos, first), s.ifs[0].last, pos) == code;
    s1 := s.(code := code, ifs := [IfBlock(first, pos)] + s.ifs[1..]);
  }

  lemma CloseArm(s: Linking, arms: Arms, s2: Linking)
    requires arms.Arm? && ArmsOk(arms, |s.loops|)
    requires s.ifs != [] && s.ifs[0].last < |s.code|
    requires var pos, first := |s.code|, s.ifs[0].first;
             s2 == Linking(SetNextIf(s.code, s.ifs[0].last, pos) + [Instr(OpArm(arms.guard), 0, first)]
                           + CodeBlock(arms.body, pos + 1, s.loops),
                           [IfBlock(first, pos)] + s.ifs[1..], s.loops)
    ensures AfterArms(s2, arms.rest) == AfterArms(s, arms)
  {
    var pos, first := |s.code|, s.ifs[0].first;
    var inner := CodeBlock(arms.body, pos + 1, s.loops);
    var rest := CodeArms(arms.rest, |s2.code|, first, s.loops);
    assert s2.ifs[1..] == s.ifs[1..];
    ArmPatch(SetNextIf(s.code, s.ifs[0].last, pos), Instr(OpArm(arms.guard), 0, first), inner, rest);
  }
}
