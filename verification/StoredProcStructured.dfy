/** The structured meaning of a procedure body: IF chains, loops and multi-level
    exits by recursion on the body, with no positions to jump to and no flags.
    A statement's ordinal in the text (`at`) names its FOREACH cursor and its
    events. `fuel` bounds the number of loop rounds; the meaning is the limit. */
module StoredProcStructured {
  import opened StoredProcSyntax
  import opened StoredProcFlat

  /** How a statement ends. `Breaks(k)` and `Continues(k)` still have to leave
      `k` more loops before reaching their own. */
  datatype Signal =
    | Proceeds
    | Breaks(k: nat)
    | Continues(k: nat)
    | Stops(outcome: Outcome)
    | OutOfFuel

  datatype Result = Result(signal: Signal, st: State, fuel: nat)

  function ExecBlock(eng: Engine, b: Block, at: nat, st: State, fuel: nat): (r: Result)
    ensures r.fuel <= fuel && (r.signal.OutOfFuel? ==> r.fuel == 0)
    decreases fuel, b, 2
  {
    match b
    case Empty => Result(Proceeds, st, fuel)
    case Then(h, t) =>
      var r := ExecStmt(eng, h, at, st, fuel);
      if r.signal.Proceeds? then ExecBlock(eng, t, at + StmtSize(h), r.st, r.fuel) else r
  }

  function ExecStmt(eng: Engine, s: Stmt, at: nat, st: State, fuel: nat): (r: Result)
    ensures r.fuel <= fuel && (r.signal.OutOfFuel? ==> r.fuel == 0)
    decreases fuel, s, 2
  {
    match s
    case Plain(b) =>
      (match DoBasic(eng, b, at, st)
       case Goes(st1) => Result(Proceeds, st1, fuel)
       case Ends(o, st1) => Result(Stops(o), st1, fuel))
    case If(cond, body, arms) =>
      (match Choose(eng, When(cond), at, st)
       case Broken(rc, st1) => Result(Stops(Failed(rc)), st1, fuel)
       case Taken(st1) => ExecBlock(eng, body, at + 1, st1, fuel)
       case Passed(st1) => ExecArms(eng, arms, at + 1 + BlockSize(body), st1, fuel))
    case Loop(head, body) => ExecLoop(eng, head, body, at, st, fuel)
    case Break(n) => Result(Breaks(Reach(n)), st, fuel)
    case Continue(n) => Result(Continues(Reach(n)), st, fuel)
  }

  /** The first arm that is ELSE or whose condition holds. */
  function ExecArms(eng: Engine, a: Arms, at: nat, st: State, fuel: nat): (r: Result)
    ensures r.fuel <= fuel && (r.signal.OutOfFuel? ==> r.fuel == 0)
    decreases fuel, a, 2
  {
    match a
    case EndIf => Result(Proceeds, st, fuel)
    case Arm(g, body, rest) =>
      match Choose(eng, g, at, st)
      case Broken(rc, st1) => Result(Stops(Failed(rc)), st1, fuel)
      case Taken(st1) => ExecBlock(eng, body, at + 1, st1, fuel)
      case Passed(st1) => ExecArms(eng, rest, at + 1 + BlockSize(body), st1, fuel)
  }

  /** A LOOP or FOREACH from its head on. */
  function ExecLoop(eng: Engine, head: Head, body: Block, at: nat, st: State, fuel: nat): (r: Result)
    ensures r.fuel <= fuel && (r.signal.OutOfFuel? ==> r.fuel == 0)
    decreases fuel, body, 3
  {
    match Enter(eng, head, at, st)
    case Exhausted(st1) => Result(Proceeds, st1, fuel)
    case FetchFailed(rc, st1) => Result(Stops(Failed(rc)), st1, fuel)
    case Row(st1) =>
      var r := ExecBlock(eng, body, at + 1, st1, fuel);
      if Again(r) then ExecLoop(eng, head, body, at, r.st, r.fuel - 1) else Leave(r)
  }

  /** The body is over and the loop goes on: fall-through, or CONTINUE. */
  predicate Again(r: Result) {
    (r.signal.Proceeds? || r.signal == Continues(0)) && r.fuel > 0
  }

  /** What the loop makes of a body that does not go on. */
  function Leave(r: Result): (r1: Result)
    requires !Again(r)
    ensures r1.st == r.st && r1.fuel == r.fuel
  {
    match r.signal
    case Proceeds => r.(signal := OutOfFuel)
    case Continues(k) => r.(signal := if k == 0 then OutOfFuel else Continues(k - 1))
    case Breaks(k) => r.(signal := if k == 0 then Proceeds else Breaks(k - 1))
    case _ => r
  }

  /** The body of a procedure ends with outcome `o` in state `end`. */
  ghost predicate Means(eng: Engine, b: Block, start: State, o: Outcome, end: State) {
    exists fuel: nat :: EndsWith(ExecBlock(eng, b, 0, start, fuel), o, end)
  }

  predicate EndsWith(r: Result, o: Outcome, end: State) {
    r.st == end &&
    ((r.signal.Proceeds? && o == Completed) || (r.signal.Stops? && r.signal.outcome == o))
  }

  ghost predicate Diverges(eng: Engine, b: Block, start: State) {
    forall fuel: nat :: ExecBlock(eng, b, 0, start, fuel).signal.OutOfFuel?
  }
}
