/** Where a body lies in the flat array, as facts about single positions. */
module StoredProcPlacement {
  import opened StoredProcSyntax
  import opened StoredProcLink

  /** `part` sits in `code` at position `base`. */
  predicate At(code: seq<Instr>, base: nat, part: seq<Instr>) {
    base + |part| <= |code| && code[base..base + |part|] == part
  }

  lemma AtSplit(code: seq<Instr>, base: nat, a: seq<Instr>, b: seq<Instr>)
    requires At(code, base, a + b)
    ensures At(code, base, a) && At(code, base + |a|, b)
  {
    var whole := code[base..base + |a + b|];
    assert code[base..base + |a|] == whole[..|a|] == a;
    assert code[base + |a|..base + |a| + |b|] == whole[|a|..] == b;
  }

  lemma AtHead(code: seq<Instr>, base: nat, i: Instr)
    requires At(code, base, [i])
    ensures base < |code| && code[base] == i
  {
  }

  lemma AtSplit3(code: seq<Instr>, base: nat, i: Instr, b: seq<Instr>, c: seq<Instr>)
    requires At(code, base, [i] + b + c)
    ensures base < |code| && code[base] == i
    ensures At(code, base + 1, b) && At(code, base + 1 + |b|, c)
  {
    AtSplit(code, base, [i] + b, c);
    AtSplit(code, base, [i], b);
    AtHead(code, base, i);
  }

  /** A body laid out in `code` from `base` on, with every link resolved and in
      range. */
  predicate BlockAt(code: seq<Instr>, b: Block, base: nat, loops: seq<nat>) {
    match b
    case Empty => base <= |code|
    case Then(h, t) => StmtAt(code, h, base, loops) && BlockAt(code, t, base + StmtSize(h), loops)
  }

  predicate StmtAt(code: seq<Instr>, s: Stmt, base: nat, loops: seq<nat>) {
    base < |code| &&
    match s
    case Plain(b) => code[base].op == OpBasic(b)
    case If(c, body, arms) =>
      var next := base + 1 + BlockSize(body);
      code[base] == Instr(OpIf(c), next, 0)
      && BlockAt(code, body, base + 1, loops) && ArmsAt(code, arms, next, base, loops)
    case Loop(head, body) =>
      LoopAt(code, head, base, base + 1 + BlockSize(body)) && BlockAt(code, body, base + 1, [base] + loops)
    case Break(n) => Reach(n) < |loops| && code[base] == Instr(OpBreak(n), 0, loops[Reach(n)])
    case Continue(n) => Reach(n) < |loops| && code[base] == Instr(OpContinue(n), 0, loops[Reach(n)])
  }

  predicate LoopAt(code: seq<Instr>, head: Head, base: nat, end: nat) {
    base < end < |code| && code[base] == Instr(OpLoop(head), 0, end) && code[end] == Instr(OpEndLoop, 0, base)
  }

  predicate ArmsAt(code: seq<Instr>, a: Arms, base: nat, first: nat, loops: seq<nat>) {
    base < |code| &&
    match a
    case EndIf => code[base].op == OpEndIf
    case Arm(g, body, rest) =>
      var next := base + 1 + BlockSize(body);
      code[base] == Instr(OpArm(g), next, first)
      && BlockAt(code, body, base + 1, loops) && ArmsAt(code, rest, next, first, loops)
  }

  lemma {:induction false} PlaceBlock(code: seq<Instr>, b: Block, base: nat, loops: seq<nat>)
    requires BlockOk(b, |loops|) && At(code, base, CodeBlock(b, base, loops))
    ensures BlockAt(code, b, base, loops)
    decreases b
  {
    match b
    case Empty =>
    case Then(h, t) =>
      AtSplit(code, base, CodeStmt(h, base, loops), CodeBlock(t, base + StmtSize(h), loops));
      PlaceStmt(code, h, base, loops);
      PlaceBlock(code, t, base + StmtSize(h), loops);
  }

  lemma {:induction false} PlaceStmt(code: seq<Instr>, s: Stmt, base: nat, loops: seq<nat>)
    requires StmtOk(s, |loops|) && At(code, base, CodeStmt(s, base, loops))
    ensures StmtAt(code, s, base, loops)
    decreases s
  {
    match s
    case If(c, body, arms) =>
      var next := base + 1 + BlockSize(body);
      AtSplit3(code, base, Instr(OpIf(c), next, 0), CodeBlock(body, base + 1, loops),
               CodeArms(arms, next, base, loops));
      PlaceBlock(code, body, base + 1, loops);
      PlaceArms(code, arms, next, base, loops);
    case Loop(head, body) =>
      var end := base + 1 + BlockSize(body);
      AtSplit3(code, base, Instr(OpLoop(head), 0, end), CodeBlock(body, base + 1, [base] + loops),
               [Instr(OpEndLoop, 0, base)]);
      AtHead(code, end, Instr(OpEndLoop, 0, base));
      PlaceBlock(code, body, base + 1, [base] + loops);
    case _ =>
      AtHead(code, base, CodeStmt(s, base, loops)[0]);
  }

  lemma {:induction false} PlaceArms(code: seq<Instr>, a: Arms, base: nat, first: nat, loops: seq<nat>)
    requires ArmsOk(a, |loops|) && At(code, base, CodeArms(a, base, first, loops))
    ensures ArmsAt(code, a, base, first, loops)
    decreases a
  {
    match a
    case EndIf =>
      AtHead(code, base, Instr(OpEndIf, 0, 0));
    case Arm(g, body, rest) =>
      var next := base + 1 + BlockSize(body);
      AtSplit3(code, base, Instr(OpArm(g), next, first), CodeBlock(body, base + 1, loops),
               CodeArms(rest, next, first, loops));
      PlaceBlock(code, body, base + 1, loops);
      PlaceArms(code, rest, next, first, loops);
  }
}
