/** The statements of a stored procedure, the values they work on, and the
    effects that the SQL engine contributes (core/stored_proc.c). */
module StoredProcSyntax {

  /** A value of a procedure variable. Lists nest. */
  datatype Value = Null | Integer(i: int) | Text(s: string) | ListOf(items: seq<Value>)

  /** Everything a statement can read or change: the procedure's variables, the
      tables, and what the engine remembers for each prepared statement. */
  datatype Store = Store(
    vars: map<string, Value>,
    tables: map<string, seq<seq<Value>>>,
    statements: map<nat, seq<seq<Value>>>)

  datatype Kind = SetKind | StatementKind | AssertKind

  /** The effect of one SQL evaluation: rc is 0 (SQLITE_OK) on success. */
  datatype Effect = Effect(store: Store, rc: int)
  datatype Verdict = Verdict(store: Store, rc: int, holds: bool)
  datatype Answer = Answer(store: Store, rc: int, row: seq<Value>)
  datatype SqlRow = SqlRow(names: seq<string>, values: seq<Value>) | SqlDone | SqlError(rc: int)
  datatype Stepped = Stepped(store: Store, row: SqlRow)

  /** The SQL engine as a deterministic but otherwise arbitrary set of functions. */
  datatype Engine = Engine(
    perform: (Kind, string, Store) -> Effect,
    test: (string, Store) -> Verdict,
    answer: (string, Store) -> Answer,
    raiseError: (string, Store) -> Effect,
    step: (nat, string, bool, Store) -> Stepped)

  datatype Source =
    | FromLiteral(items: seq<Value>)
    | FromVariable(name: string)
    | FromSelect(sql: string)

  /** Statements that neither open a block nor jump. PERFORM stands for SET,
      plain SQL and ASSERT, whose failures are treated alike. */
  datatype Basic =
    | Declare
    | Perform(kind: Kind, text: string)
    | Return(text: string)
    | Raise(text: string)

  /** LOOP, or FOREACH variables IN source. */
  datatype Head = Forever | Each(vars: seq<string>, source: Source)

  /** ELSEIF condition, or ELSE. */
  datatype Guard = When(cond: string) | Otherwise

  /** One parsed statement, as the parser meets them in the text. */
  datatype Op =
    | OpBasic(basic: Basic)
    | OpIf(cond: string)
    | OpArm(guard: Guard)
    | OpEndIf
    | OpLoop(head: Head)
    | OpEndLoop
    | OpBreak(level: nat)
    | OpContinue(level: nat)

  /** A statement with its two links, the static part of `struct command`. */
  datatype Instr = Instr(op: Op, nextIf: nat, related: nat)

  /** Well-nested procedure bodies. The parser accepts ELSEIF after ELSE, so an
      IF chain is any sequence of ELSEIF and ELSE arms closed by END IF. */
  datatype Block = Empty | Then(head: Stmt, tail: Block)
  datatype Stmt =
    | Plain(basic: Basic)
    | If(cond: string, body: Block, arms: Arms)
    | Loop(head: Head, body: Block)
    | Break(level: nat)
    | Continue(level: nat)
  datatype Arms = EndIf | Arm(guard: Guard, body: Block, rest: Arms)

  /** How far out BREAK n and CONTINUE n reach: 0 is the innermost loop. A
      missing level counts as 1, and so does level 0. */
  function Reach(level: nat): (k: nat) {
    if level <= 1 then 0 else level - 1
  }

  /** The statements of a body in text order. */
  function FlattenBlock(b: Block): (ops: seq<Op>) {
    match b
    case Empty => []
    case Then(h, t) => FlattenStmt(h) + FlattenBlock(t)
  }

  function FlattenStmt(s: Stmt): (ops: seq<Op>) {
    match s
    case Plain(b) => [OpBasic(b)]
    case If(c, body, arms) => [OpIf(c)] + FlattenBlock(body) + FlattenArms(arms)
    case Loop(head, body) => [OpLoop(head)] + FlattenBlock(body) + [OpEndLoop]
    case Break(n) => [OpBreak(n)]
    case Continue(n) => [OpContinue(n)]
  }

  function FlattenArms(a: Arms): (ops: seq<Op>) {
    match a
    case EndIf => [OpEndIf]
    case Arm(g, body, rest) => [OpArm(g)] + FlattenBlock(body) + FlattenArms(rest)
  }

  /** How many commands a body takes in the flat array. */
  function BlockSize(b: Block): nat {
    match b
    case Empty => 0
    case Then(h, t) => StmtSize(h) + BlockSize(t)
  }

  function StmtSize(s: Stmt): (n: nat)
    ensures n >= 1
  {
    match s
    case If(c, body, arms) => 1 + BlockSize(body) + ArmsSize(arms)
    case Loop(head, body) => BlockSize(body) + 2
    case _ => 1
  }

  function ArmsSize(a: Arms): (n: nat)
    ensures n >= 1
  {
    match a
    case EndIf => 1
    case Arm(g, body, rest) => 1 + BlockSize(body) + ArmsSize(rest)
  }

  /** Every BREAK and CONTINUE reaches a loop of this body or one of the
      `depth` loops around it. */
  predicate BlockOk(b: Block, depth: nat) {
    match b
    case Empty => true
    case Then(h, t) => StmtOk(h, depth) && BlockOk(t, depth)
  }

  predicate StmtOk(s: Stmt, depth: nat) {
    match s
    case Plain(_) => true
    case If(c, body, arms) => BlockOk(body, depth) && ArmsOk(arms, depth)
    case Loop(head, body) => BlockOk(body, depth + 1)
    case Break(n) => Reach(n) < depth
    case Continue(n) => Reach(n) < depth
  }

  predicate ArmsOk(a: Arms, depth: nat) {
    match a
    case EndIf => true
    case Arm(g, body, rest) => BlockOk(body, depth) && ArmsOk(rest, depth)
  }
}
