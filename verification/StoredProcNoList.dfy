/** FOREACH over a variable that holds no list: executeForeachCommand reports success
    without assigning anything, and the loop has no end of its own. */
module StoredProcNoList {
  import opened StoredProcSyntax
  import opened StoredProcLink
  import opened StoredProcFlat
  import opened StoredProcStructured
  import opened StoredProcCorrectness

  predicate HoldsList(x: string, st: State) {
    x in st.store.vars && st.store.vars[x].ListOf?
  }

  /** The head lets the body run with nothing fetched and nothing assigned if and only if
      the variable is missing or holds no list. */
  lemma EntersUnchangedIff(eng: Engine, vars: seq<string>, x: string, at: nat, st: State)
    ensures Enter(eng, Each(vars, FromVariable(x)), at, st) == Row(st) <==> !HoldsList(x, st)
  {
    if HoldsList(x, st) {
      var c, items := Cursor(st, at), st.store.vars[x].items;
      if c < |items| {
        assert |st.trace + [Fetched(at, items[c])]| == |st.trace| + 1;
      }
    }
  }

  /** No run of the body, from a state without a list in `x`, puts one there before the
      next round. */
  ghost predicate NeverList(eng: Engine, x: string, body: Block, at: nat) {
    forall st: State, fuel: nat ::
      !HoldsList(x, st) && Again(ExecBlock(eng, body, at, st, fuel)) ==>
        !HoldsList(x, ExecBlock(eng, body, at, st, fuel).st)
  }

  /** The body always falls through or ends with CONTINUE of this loop. */
  ghost predicate NeverLeaves(eng: Engine, body: Block, at: nat) {
    forall st: State, fuel: nat :: GoesOn(ExecBlock(eng, body, at, st, fuel).signal)
  }

  predicate GoesOn(s: Signal) {
    s.Proceeds? || s == Continues(0) || s.OutOfFuel?
  }

  /** While the variable holds no list, FOREACH is LOOP. */
  lemma {:induction false} NoListIsLoop(eng: Engine, vars: seq<string>, x: string, body: Block, at: nat, st: State,
                                        fuel: nat)
    requires !HoldsList(x, st) && NeverList(eng, x, body, at + 1)
    ensures ExecLoop(eng, Each(vars, FromVariable(x)), body, at, st, fuel) == ExecLoop(eng, Forever, body, at, st, fuel)
    decreases fuel
  {
    var r := ExecBlock(eng, body, at + 1, st, fuel);
    if Again(r) {
      NoListIsLoop(eng, vars, x, body, at, r.st, r.fuel - 1);
    }
  }

  lemma {:induction false} LoopNeverEnds(eng: Engine, body: Block, at: nat, st: State, fuel: nat)
    requires NeverLeaves(eng, body, at + 1)
    ensures ExecLoop(eng, Forever, body, at, st, fuel).signal.OutOfFuel?
    decreases fuel
  {
    var r := ExecBlock(eng, body, at + 1, st, fuel);
    assert GoesOn(r.signal);
    if Again(r) {
      LoopNeverEnds(eng, body, at, r.st, r.fuel - 1);
    }
  }

  /** A procedure that starts with such a loop, over a body that neither leaves it nor
      makes the variable a list, never ends, compiled or not. */
  lemma {:induction false} NoListDiverges(eng: Engine, vars: seq<string>, x: string, body: Block, rest: Block,
                                          flags: seq<bool>, st: State)
    requires !HoldsList(x, st) && NeverList(eng, x, body, 1) && NeverLeaves(eng, body, 1)
    requires var b := Then(Loop(Each(vars, FromVariable(x)), body), rest); BlockOk(b, 0) && |flags| == BlockSize(b)
    ensures var b := Then(Loop(Each(vars, FromVariable(x)), body), rest);
            Diverges(eng, b, st) && RunsForever(eng, CodeBlock(b, 0, []), flags, st)
  {
    var b := Then(Loop(Each(vars, FromVariable(x)), body), rest);
    forall fuel: nat ensures ExecBlock(eng, b, 0, st, fuel).signal.OutOfFuel? {
      NoListIsLoop(eng, vars, x, body, 0, st, fuel);
      LoopNeverEnds(eng, body, 0, st, fuel);
    }
    DivergenceCorrect(eng, b, flags, st);
  }

  function EmptyLoop(vars: seq<string>, x: string): (b: Block)
    ensures BlockOk(b, 0) && BlockSize(b) == 2
  {
    var loop := Loop(Each(vars, FromVariable(x)), Empty);
    assert BlockOk(Empty, 1) && BlockOk(Empty, 0) && BlockSize(Empty) == 0;
    assert StmtOk(loop, 0) && StmtSize(loop) == 2;
    Then(loop, Empty)
  }

  /** For instance with nothing in its body, whatever the engine and the variables are. */
  lemma EmptyLoopDiverges(eng: Engine, vars: seq<string>, x: string, flags: seq<bool>, st: State)
    requires !HoldsList(x, st) && |flags| == 2
    ensures Diverges(eng, EmptyLoop(vars, x), st)
    ensures RunsForever(eng, CodeBlock(EmptyLoop(vars, x), 0, []), flags, st)
  {
    NoListDiverges(eng, vars, x, Empty, Empty, flags, st);
  }
}
