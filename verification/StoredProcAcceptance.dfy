/** Which statement lists the parser accepts, and what becomes of those among them that
    are not well nested. */
module StoredProcAcceptance {
  import opened StoredProcSyntax
  import opened StoredProcLink
  import opened StoredProcFlat
  import opened StoredProcCorrectness

  const START := Linking([], [], [])

  // ---- accepted lists ----

  /** IFs that are open after `ops`, and loops. */
  function OpenIfs(ops: seq<Op>): int {
    if ops == [] then 0
    else
      var op := ops[|ops| - 1];
      OpenIfs(ops[..|ops| - 1]) + if op.OpIf? then 1 else if op.OpEndIf? then -1 else 0
  }

  function OpenLoops(ops: seq<Op>): int {
    if ops == [] then 0
    else
      var op := ops[|ops| - 1];
      OpenLoops(ops[..|ops| - 1]) + if op.OpLoop? then 1 else if op.OpEndLoop? then -1 else 0
  }

  /** ELSEIF, ELSE and END IF need an open IF, END LOOP an open loop, and BREAK n and
      CONTINUE n more open loops than they leave. */
  predicate Fits(ops: seq<Op>, k: nat)
    requires k < |ops|
  {
    match ops[k]
    case OpArm(_) => OpenIfs(ops[..k]) > 0
    case OpEndIf => OpenIfs(ops[..k]) > 0
    case OpEndLoop => OpenLoops(ops[..k]) > 0
    case OpBreak(n) => Reach(n) < OpenLoops(ops[..k])
    case OpContinue(n) => Reach(n) < OpenLoops(ops[..k])
    case _ => true
  }

  predicate IsBranch(op: Op) { op.OpIf? || op.OpArm? }

  /** Stack entries name commands of the array, deeper ones earlier commands, and the
      last one of an IF chain is an IF, ELSEIF or ELSE. */
  predicate InArray(s: Linking) {
    (forall i :: 0 <= i < |s.ifs| ==>
       s.ifs[i].first < |s.code| && s.ifs[i].last < |s.code| && IsBranch(s.code[s.ifs[i].last].op))
    && (forall i, j :: 0 <= i < j < |s.ifs| ==> s.ifs[j].last < s.ifs[i].last)
    && (forall i :: 0 <= i < |s.loops| ==> s.loops[i] < |s.code|)
  }

  predicate IsLast(s: Linking, k: nat) {
    exists i :: 0 <= i < |s.ifs| && s.ifs[i].last == k
  }

  /** An IF or arm still waits for the next arm of its chain exactly while its link is
      0; afterwards the link leads forward. */
  predicate LinksOk(s: Linking) {
    forall k :: 0 <= k < |s.code| && IsBranch(s.code[k].op) ==>
      (if IsLast(s, k) then s.code[k].nextIf == 0 else k < s.code[k].nextIf < |s.code|)
  }

  predicate Same(s: Linking, ops: seq<Op>) {
    |s.code| == |ops| && forall k :: 0 <= k < |ops| ==> s.code[k].op == ops[k]
  }

  /** What the sweep keeps. */
  predicate Tracks(s: Linking, ops: seq<Op>) {
    InArray(s) && LinksOk(s) && Same(s, ops) && |s.ifs| == OpenIfs(ops) && |s.loops| == OpenLoops(ops)
  }

  lemma OpensIf(s: Linking, ops: seq<Op>, op: Op)
    requires Tracks(s, ops) && op.OpIf?
    ensures Tracks(LinkStep(s, op).s, ops + [op])
  {
    var t := LinkStep(s, op).s;
    assert (ops + [op])[..|ops|] == ops;
    assert t.ifs[0].last == |s.code| && forall i :: 0 < i < |t.ifs| ==> t.ifs[i] == s.ifs[i - 1];
    IfLinks(s, t, op);
  }

  lemma IfLinks(s: Linking, t: Linking, op: Op)
    requires InArray(s) && LinksOk(s) && op.OpIf? && LinkStep(s, op) == Linked(t)
    ensures LinksOk(t)
  {
    var pos := |s.code|;
    assert t.ifs[0].last == pos && forall i :: 0 < i < |t.ifs| ==> t.ifs[i] == s.ifs[i - 1];
    forall k | 0 <= k < |t.code| && IsBranch(t.code[k].op)
      ensures if IsLast(t, k) then t.code[k].nextIf == 0 else k < t.code[k].nextIf < |t.code|
    {
      if k < pos && IsLast(s, k) {
        var i :| 0 <= i < |s.ifs| && s.ifs[i].last == k;
        assert t.ifs[i + 1].last == k;
      }
    }
  }

  lemma MeetsArm(s: Linking, ops: seq<Op>, op: Op)
    requires Tracks(s, ops) && op.OpArm? && s.ifs != []
    ensures LinkStep(s, op).Linked? && Tracks(LinkStep(s, op).s, ops + [op])
  {
    var t := LinkStep(s, op).s;
    assert (ops + [op])[..|ops|] == ops;
    ArmStack(s, t, op);
    ArmLinks(s, t, op);
  }

  lemma ArmStack(s: Linking, t: Linking, op: Op)
    requires InArray(s) && op.OpArm? && s.ifs != [] && LinkStep(s, op) == Linked(t)
    ensures InArray(t)
  {
    assert t.ifs[0].last == |s.code| && forall i :: 0 < i < |t.ifs| ==> t.ifs[i] == s.ifs[i];
  }

  lemma ArmLinks(s: Linking, t: Linking, op: Op)
    requires InArray(s) && LinksOk(s) && op.OpArm? && s.ifs != [] && LinkStep(s, op) == Linked(t)
    ensures LinksOk(t)
  {
    var pos, was := |s.code|, s.ifs[0].last;
    assert t.ifs[0].last == pos && forall i :: 0 < i < |t.ifs| ==> t.ifs[i] == s.ifs[i];
    forall k | 0 <= k < |t.code| && IsBranch(t.code[k].op)
      ensures if IsLast(t, k) then t.code[k].nextIf == 0 else k < t.code[k].nextIf < |t.code|
    {
      if k < pos && k != was && IsLast(s, k) {
        var i :| 0 <= i < |s.ifs| && s.ifs[i].last == k;
        assert t.ifs[i].last == k;
      }
    }
  }

  lemma ClosesIf(s: Linking, ops: seq<Op>)
    requires Tracks(s, ops) && s.ifs != []
    ensures LinkStep(s, OpEndIf).Linked? && Tracks(LinkStep(s, OpEndIf).s, ops + [OpEndIf])
  {
    var t := LinkStep(s, OpEndIf).s;
    assert (ops + [OpEndIf])[..|ops|] == ops;
    assert forall i :: 0 <= i < |t.ifs| ==> t.ifs[i] == s.ifs[i + 1];
    EndIfLinks(s, t);
  }

  lemma EndIfLinks(s: Linking, t: Linking)
    requires InArray(s) && LinksOk(s) && s.ifs != [] && LinkStep(s, OpEndIf) == Linked(t)
    ensures LinksOk(t)
  {
    var pos, was := |s.code|, s.ifs[0].last;
    assert forall i :: 0 <= i < |t.ifs| ==> t.ifs[i] == s.ifs[i + 1];
    forall k | 0 <= k < |t.code| && IsBranch(t.code[k].op)
      ensures if IsLast(t, k) then t.code[k].nextIf == 0 else k < t.code[k].nextIf < |t.code|
    {
      if k < pos && k != was && IsLast(s, k) {
        var i :| 0 <= i < |s.ifs| && s.ifs[i].last == k;
        assert t.ifs[i - 1].last == k;
      }
    }
  }

  lemma MeetsOther(s: Linking, ops: seq<Op>, op: Op)
    requires Tracks(s, ops) && !op.OpIf? && !op.OpArm? && !op.OpEndIf? && LinkStep(s, op).Linked?
    ensures Tracks(LinkStep(s, op).s, ops + [op])
  {
    assert (ops + [op])[..|ops|] == ops;
    OtherLinks(s, LinkStep(s, op).s, op);
  }

  lemma OtherLinks(s: Linking, t: Linking, op: Op)
    requires InArray(s) && LinksOk(s) && !op.OpIf? && !op.OpArm? && !op.OpEndIf? && LinkStep(s, op) == Linked(t)
    ensures LinksOk(t)
  {
    forall k | 0 <= k < |t.code| && IsBranch(t.code[k].op)
      ensures if IsLast(t, k) then t.code[k].nextIf == 0 else k < t.code[k].nextIf < |t.code|
    {
      assert IsLast(t, k) <==> IsLast(s, k);
    }
  }

  lemma StepTracks(s: Linking, ops: seq<Op>, op: Op)
    requires Tracks(s, ops)
    ensures LinkStep(s, op).Linked? <==> Fits(ops + [op], |ops|)
    ensures LinkStep(s, op).Linked? ==> Tracks(LinkStep(s, op).s, ops + [op])
  {
    assert (ops + [op])[..|ops|] == ops;
    if op.OpIf? {
      OpensIf(s, ops, op);
    } else if op.OpArm? && s.ifs != [] {
      MeetsArm(s, ops, op);
    } else if op.OpEndIf? && s.ifs != [] {
      ClosesIf(s, ops);
    } else if LinkStep(s, op).Linked? {
      MeetsOther(s, ops, op);
    }
  }

  lemma FitsFront(ops: seq<Op>)
    requires ops != []
    ensures var m := |ops| - 1;
            (forall k :: 0 <= k < |ops| ==> Fits(ops, k))
            <==> (forall k :: 0 <= k < m ==> Fits(ops[..m], k)) && Fits(ops, m)
  {
    var m := |ops| - 1;
    forall k | 0 <= k < m ensures Fits(ops[..m], k) <==> Fits(ops, k) {
      assert ops[..m][..k] == ops[..k];
    }
  }

  /** The parser accepts a statement list if and only if every statement fits: the two
      counts of open IFs and open loops never go below zero, and no jump leaves more
      loops than are open. The counts are independent of each other. Afterwards the
      stacks hold what is still open. */
  lemma {:induction false} AcceptedIff(ops: seq<Op>)
    ensures LinkAll(START, ops).Linked? <==> forall k :: 0 <= k < |ops| ==> Fits(ops, k)
    ensures LinkAll(START, ops).Linked? ==> Tracks(LinkAll(START, ops).s, ops)
    decreases |ops|
  {
    if ops != [] {
      var m := |ops| - 1;
      AcceptedIff(ops[..m]);
      assert ops == ops[..m] + [ops[m]];
      LinkAppend(START, ops[..m], [ops[m]]);
      FitsFront(ops);
      if LinkAll(START, ops[..m]).Linked? {
        var s := LinkAll(START, ops[..m]).s;
        LinkOne(s, ops[m]);
        StepTracks(s, ops[..m], ops[m]);
      }
    }
  }

  /** Both stacks end empty if and only if in addition everything is closed. */
  lemma {:induction false} ClosedIff(ops: seq<Op>)
    ensures (var r := LinkAll(START, ops); r.Linked? && r.s.ifs == [] && r.s.loops == [])
            <==> (forall k :: 0 <= k < |ops| ==> Fits(ops, k)) && OpenIfs(ops) == 0 && OpenLoops(ops) == 0
  {
    AcceptedIff(ops);
  }

  // ---- what an unclosed IF does ----

  /** In an accepted list the link of an IF, ELSEIF or ELSE leads forward if and only if
      its chain went on; the last one of an unclosed chain leads back to the start. */
  lemma {:induction false} UnclosedIff(ops: seq<Op>, k: nat)
    requires LinkAll(START, ops).Linked? && k < |ops| && IsBranch(ops[k])
    ensures var s := LinkAll(START, ops).s;
            k < |s.code|
            && (if IsLast(s, k) then s.code[k].nextIf == 0 else k < s.code[k].nextIf < |s.code|)
  {
    AcceptedIff(ops);
  }

  /** The IF, ELSEIF or ELSE at `k` is passed over. */
  predicate Untaken(eng: Engine, code: seq<Instr>, flags: seq<bool>, k: nat, st: State)
    requires k < |code|
  {
    match code[k].op
    case OpIf(cond) => Choose(eng, When(cond), k, st).Passed?
    case OpArm(g) => (code[k].related < |flags| && flags[code[k].related]) || Choose(eng, g, k, st).Passed?
    case _ => false
  }

  /** So with an IF left open some false condition restarts the whole procedure. */
  lemma {:induction false} UnclosedIfRestarts(eng: Engine, ops: seq<Op>, st: State) returns (k: nat)
    requires LinkAll(START, ops).Linked? && OpenIfs(ops) > 0
    ensures k < |ops| && IsBranch(ops[k])
    ensures var s := LinkAll(START, ops).s;
            |s.code| == |ops|
            && forall flags: seq<bool> :: |flags| == |ops| && Untaken(eng, s.code, flags, k, st) ==>
                 var c := Step(eng, s.code, Running(k, flags, st)); c.Running? && c.pos == 0
  {
    AcceptedIff(ops);
    var s := LinkAll(START, ops).s;
    k := s.ifs[0].last;
    assert IsLast(s, k);
  }

  // ---- well-nested lists ----

  datatype Bracket = InIf | InLoop

  function LoopsIn(stack: seq<Bracket>): nat {
    if stack == [] then 0 else (if stack[0].InLoop? then 1 else 0) + LoopsIn(stack[1..])
  }

  /** One stack instead of two: what is closed is what was opened last. */
  predicate Nested(ops: seq<Op>, stack: seq<Bracket>)
    decreases |ops|
  {
    if ops == [] then stack == []
    else
      match ops[0]
      case OpBasic(_) => Nested(ops[1..], stack)
      case OpIf(_) => Nested(ops[1..], [InIf] + stack)
      case OpArm(_) => stack != [] && stack[0].InIf? && Nested(ops[1..], stack)
      case OpEndIf => stack != [] && stack[0].InIf? && Nested(ops[1..], stack[1..])
      case OpLoop(_) => Nested(ops[1..], [InLoop] + stack)
      case OpEndLoop => stack != [] && stack[0].InLoop? && Nested(ops[1..], stack[1..])
      case OpBreak(n) => Reach(n) < LoopsIn(stack) && Nested(ops[1..], stack)
      case OpContinue(n) => Reach(n) < LoopsIn(stack) && Nested(ops[1..], stack)
  }

  lemma NestedFirst(op: Op, rest: seq<Op>, stack: seq<Bracket>)
    ensures ([op] + rest)[0] == op && ([op] + rest)[1..] == rest
    ensures ([InLoop] + stack)[1..] == stack && ([InIf] + stack)[1..] == stack
    ensures LoopsIn([InLoop] + stack) == LoopsIn(stack) + 1 && LoopsIn([InIf] + stack) == LoopsIn(stack)
  {
  }

  lemma {:induction false} BlockNests(b: Block, stack: seq<Bracket>, rest: seq<Op>)
    requires BlockOk(b, LoopsIn(stack))
    ensures Nested(FlattenBlock(b) + rest, stack) <==> Nested(rest, stack)
    decreases b
  {
    match b
    case Empty =>
      assert [] + rest == rest;
    case Then(h, t) =>
      assert FlattenBlock(b) + rest == FlattenStmt(h) + (FlattenBlock(t) + rest);
      StmtNests(h, stack, FlattenBlock(t) + rest);
      BlockNests(t, stack, rest);
  }

  lemma {:induction false} StmtNests(s: Stmt, stack: seq<Bracket>, rest: seq<Op>)
    requires StmtOk(s, LoopsIn(stack))
    ensures Nested(FlattenStmt(s) + rest, stack) <==> Nested(rest, stack)
    decreases s
  {
    match s
    case If(c, body, arms) =>
      var inner := FlattenBlock(body) + (FlattenArms(arms) + rest);
      assert FlattenStmt(s) + rest == [OpIf(c)] + inner;
      NestedFirst(OpIf(c), inner, stack);
      BlockNests(body, [InIf] + stack, FlattenArms(arms) + rest);
      ArmsNest(arms, stack, rest);
    case Loop(head, body) =>
      var inner := FlattenBlock(body) + ([OpEndLoop] + rest);
      assert FlattenStmt(s) + rest == [OpLoop(head)] + inner;
      NestedFirst(OpLoop(head), inner, stack);
      BlockNests(body, [InLoop] + stack, [OpEndLoop] + rest);
      NestedFirst(OpEndLoop, rest, stack);
    case _ =>
      NestedFirst(FlattenStmt(s)[0], rest, stack);
  }

  lemma {:induction false} ArmsNest(a: Arms, stack: seq<Bracket>, rest: seq<Op>)
    requires ArmsOk(a, LoopsIn(stack))
    ensures Nested(FlattenArms(a) + rest, [InIf] + stack) <==> Nested(rest, stack)
    decreases a
  {
    match a
    case EndIf =>
      NestedFirst(OpEndIf, rest, stack);
    case Arm(g, body, more) =>
      var inner := FlattenBlock(body) + (FlattenArms(more) + rest);
      assert FlattenArms(a) + rest == [OpArm(g)] + inner;
      NestedFirst(OpArm(g), inner, stack);
      BlockNests(body, [InIf] + stack, FlattenArms(more) + rest);
      ArmsNest(more, stack, rest);
  }

  predicate Closing(ops: seq<Op>) {
    ops == [] || ops[0].OpArm? || ops[0].OpEndIf? || ops[0].OpEndLoop?
  }

  /** The longest body at the front of a list that nests. */
  lemma {:induction false} ReadBlock(ops: seq<Op>, stack: seq<Bracket>) returns (b: Block, rest: seq<Op>)
    requires Nested(ops, stack)
    ensures ops == FlattenBlock(b) + rest && BlockOk(b, LoopsIn(stack)) && Nested(rest, stack) && Closing(rest)
    decreases |ops|, 1
  {
    if Closing(ops) {
      b, rest := Empty, ops;
    } else {
      var s, r := ReadStmt(ops, stack);
      var t;
      t, rest := ReadBlock(r, stack);
      b := Then(s, t);
      assert FlattenStmt(s) + (FlattenBlock(t) + rest) == FlattenBlock(b) + rest;
    }
  }

  lemma {:induction false} ReadStmt(ops: seq<Op>, stack: seq<Bracket>) returns (s: Stmt, rest: seq<Op>)
    requires Nested(ops, stack) && !Closing(ops)
    ensures ops == FlattenStmt(s) + rest && StmtOk(s, LoopsIn(stack)) && Nested(rest, stack) && |rest| < |ops|
    decreases |ops|, 0
  {
    var op, after := ops[0], ops[1..];
    assert ops == [op] + after;
    NestedFirst(op, after, stack);
    match op {
      case OpBasic(b) => s, rest := Plain(b), after;
      case OpBreak(n) => s, rest := Break(n), after;
      case OpContinue(n) => s, rest := Continue(n), after;
      case OpIf(c) => s, rest := ReadIf(c, after, stack);
      case OpLoop(head) => s, rest := ReadLoop(head, after, stack);
    }
  }

  lemma {:induction false} ReadIf(c: string, after: seq<Op>, stack: seq<Bracket>) returns (s: Stmt, rest: seq<Op>)
    requires Nested(after, [InIf] + stack)
    ensures [OpIf(c)] + after == FlattenStmt(s) + rest && StmtOk(s, LoopsIn(stack)) && Nested(rest, stack)
    ensures |rest| < |after|
    decreases |after|, 2
  {
    NestedFirst(OpIf(c), after, stack);
    var body, r := ReadBlock(after, [InIf] + stack);
    var arms;
    arms, rest := ReadArms(r, stack);
    s := If(c, body, arms);
    assert FlattenStmt(s) + rest == [OpIf(c)] + (FlattenBlock(body) + (FlattenArms(arms) + rest));
  }

  lemma {:induction false} ReadLoop(head: Head, after: seq<Op>, stack: seq<Bracket>) returns (s: Stmt, rest: seq<Op>)
    requires Nested(after, [InLoop] + stack)
    ensures [OpLoop(head)] + after == FlattenStmt(s) + rest && StmtOk(s, LoopsIn(stack)) && Nested(rest, stack)
    ensures |rest| < |after|
    decreases |after|, 2
  {
    NestedFirst(OpLoop(head), after, stack);
    var body, r := ReadBlock(after, [InLoop] + stack);
    s, rest := Loop(head, body), r[1..];
    assert r == [OpEndLoop] + rest;
    assert FlattenStmt(s) + rest == [OpLoop(head)] + (FlattenBlock(body) + ([OpEndLoop] + rest));
  }

  lemma {:induction false} ReadArms(ops: seq<Op>, stack: seq<Bracket>) returns (a: Arms, rest: seq<Op>)
    requires Nested(ops, [InIf] + stack) && Closing(ops)
    ensures ops == FlattenArms(a) + rest && ArmsOk(a, LoopsIn(stack)) && Nested(rest, stack) && |rest| < |ops|
    decreases |ops|, 1
  {
    assert ops == [ops[0]] + ops[1..];
    NestedFirst(ops[0], ops[1..], stack);
    if ops[0].OpEndIf? {
      a, rest := EndIf, ops[1..];
    } else {
      var body, r := ReadBlock(ops[1..], [InIf] + stack);
      var more;
      more, rest := ReadArms(r, stack);
      a := Arm(ops[0].guard, body, more);
      assert FlattenArms(a) + rest == [ops[0]] + (FlattenBlock(body) + (FlattenArms(more) + rest));
    }
  }

  ghost predicate IsBody(ops: seq<Op>) {
    exists b :: ops == FlattenBlock(b) && BlockOk(b, 0)
  }

  /** A list is a well-nested body if and only if one stack accepts it. */
  lemma {:induction false} WellNestedIff(ops: seq<Op>)
    ensures IsBody(ops) <==> Nested(ops, [])
  {
    if IsBody(ops) {
      var b :| ops == FlattenBlock(b) && BlockOk(b, 0);
      BlockNests(b, [], []);
      assert ops + [] == ops;
    }
    if Nested(ops, []) {
      var b, rest := ReadBlock(ops, []);
      assert rest == [];
      assert FlattenBlock(b) + [] == FlattenBlock(b);
    }
  }

  /** Every well-nested body is accepted and closes everything, but not only those: IF
      and LOOP may cross each other around any three bodies. */
  lemma CrossingAccepted(cond: string, a: Block, b: Block, d: Block)
    requires BlockOk(a, 0) && BlockOk(b, 1) && BlockOk(d, 1)
    ensures var ops := Crossing(cond, a, b, d);
            var r := LinkAll(START, ops);
            r.Linked? && r.s.ifs == [] && r.s.loops == [] && !IsBody(ops)
  {
    CrossingLinks(cond, a, b, d);
    CrossingIsNoBody(cond, a, b, d);
  }

  function Crossing(cond: string, a: Block, b: Block, d: Block): seq<Op> {
    var inLoop := FlattenBlock(b) + ([OpEndIf] + (FlattenBlock(d) + [OpEndLoop]));
    [OpIf(cond)] + (FlattenBlock(a) + ([OpLoop(Forever)] + inLoop))
  }

  lemma LinkFirst(s: Linking, op: Op, rest: seq<Op>)
    requires LinkStep(s, op).Linked?
    ensures LinkAll(s, [op] + rest) == LinkAll(LinkStep(s, op).s, rest)
  {
    LinkOne(s, op);
    LinkAppend(s, [op], rest);
  }

  lemma LinkBody(s: Linking, b: Block, rest: seq<Op>) returns (t: Linking)
    requires BlockOk(b, |s.loops|)
    ensures LinkAll(s, FlattenBlock(b) + rest) == LinkAll(t, rest)
    ensures t.ifs == s.ifs && t.loops == s.loops && |s.code| <= |t.code|
  {
    LinkBlock(s, b);
    t := Grown(s, CodeBlock(b, |s.code|, s.loops));
    LinkTwo(s, FlattenBlock(b), t, rest);
  }

  lemma CrossingLinks(cond: string, a: Block, b: Block, d: Block)
    requires BlockOk(a, 0) && BlockOk(b, 1) && BlockOk(d, 1)
    ensures var r := LinkAll(START, Crossing(cond, a, b, d)); r.Linked? && r.s.ifs == [] && r.s.loops == []
  {
    var r3 := FlattenBlock(d) + [OpEndLoop];
    var r2 := FlattenBlock(b) + ([OpEndIf] + r3);
    var r1 := FlattenBlock(a) + ([OpLoop(Forever)] + r2);
    LinkFirst(START, OpIf(cond), r1);
    var s1 := LinkBody(LinkStep(START, OpIf(cond)).s, a, [OpLoop(Forever)] + r2);
    LinkFirst(s1, OpLoop(Forever), r2);
    var s2 := LinkBody(LinkStep(s1, OpLoop(Forever)).s, b, [OpEndIf] + r3);
    LinkFirst(s2, OpEndIf, r3);
    var s3 := LinkBody(LinkStep(s2, OpEndIf).s, d, [OpEndLoop]);
    LinkOne(s3, OpEndLoop);
  }

  lemma CrossingIsNoBody(cond: string, a: Block, b: Block, d: Block)
    requires BlockOk(a, 0) && BlockOk(b, 1) && BlockOk(d, 1)
    ensures !IsBody(Crossing(cond, a, b, d))
  {
    var r3 := FlattenBlock(d) + [OpEndLoop];
    var r2 := FlattenBlock(b) + ([OpEndIf] + r3);
    var r1 := FlattenBlock(a) + ([OpLoop(Forever)] + r2);
    var ops := Crossing(cond, a, b, d);
    WellNestedIff(ops);
    NestedFirst(OpIf(cond), r1, []);
    BlockNests(a, [InIf] + [], [OpLoop(Forever)] + r2);
    NestedFirst(OpLoop(Forever), r2, [InIf] + []);
    BlockNests(b, [InLoop] + ([InIf] + []), [OpEndIf] + r3);
    NestedFirst(OpEndIf, r3, [InIf] + []);
  }
}
