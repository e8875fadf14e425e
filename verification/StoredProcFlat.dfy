/** The flat interpreter of executeStoredProcedure: one program position, the
    EXECUTED flag of each command, and the FOREACH cursors. */
module StoredProcFlat {
  import opened StoredProcSyntax

  /** What a run records: conditions tested, statements performed, items fetched. */
  datatype Event =
    | Tested(pos: nat, cond: string)
    | Performed(pos: nat, text: string)
    | Fetched(pos: nat, item: Value)

  /** `cursors` holds `current_item` of each FOREACH command (0 when absent). */
  datatype State = State(store: Store, cursors: map<nat, nat>, trace: seq<Event>)

  /** How the procedure ends. RAISE leaves through the releasing exit with
      SQLITE_ERROR; every Failed outcome first rolls back to the savepoint. */
  datatype Outcome =
    | Completed
    | Returned(row: seq<Value>)
    | Raised
    | Failed(rc: int)
    | Overrun

  datatype Config = Running(pos: nat, flags: seq<bool>, st: State) | Halted(outcome: Outcome, st: State)

  function Cursor(st: State, pos: nat): nat {
    if pos in st.cursors then st.cursors[pos] else 0
  }

  /** executeForeachCommand. A variable that holds no list does not stop the
      loop: the call returns SQLITE_OK and the body runs with nothing assigned. */
  datatype Fetch = Row(st: State) | Exhausted(st: State) | FetchFailed(rc: int, st: State)

  datatype Items = Items(items: seq<Value>) | NotAList

  function ListOfSource(source: Source, store: Store): Items
    requires !source.FromSelect?
  {
    match source
    case FromLiteral(items) => Items(items)
    case FromVariable(name) =>
      if name in store.vars && store.vars[name].ListOf? then Items(store.vars[name].items) else NotAList
  }

  function Columns(item: Value): seq<Value> {
    if item.ListOf? then item.items else [item]
  }

  function Assign(vars: map<string, Value>, names: seq<string>, values: seq<Value>): map<string, Value>
    requires |names| == |values|
    decreases |names|
  {
    if names == [] then vars else Assign(vars[names[0] := values[0]], names[1..], values[1..])
  }

  /** The variable is not named again behind `i`. */
  predicate NamedLast(names: seq<string>, i: nat)
    requires i < |names|
  {
    forall j :: i < j < |names| ==> names[j] != names[i]
  }

  /** Each named variable holds its value, the last one if it is named more than once, and
      the others are as before. */
  ghost predicate Stores(before: map<string, Value>, after: map<string, Value>, names: seq<string>,
                         values: seq<Value>)
  {
    |names| == |values|
    && (forall x :: x in after <==> x in before || x in names)
    && (forall x :: x in before && x !in names ==> after[x] == before[x])
    && forall i :: 0 <= i < |names| && NamedLast(names, i) ==> after[names[i]] == values[i]
  }

  lemma {:induction false} AssignStores(vars: map<string, Value>, names: seq<string>, values: seq<Value>)
    requires |names| == |values|
    ensures Stores(vars, Assign(vars, names, values), names, values)
    decreases |names|
  {
    if names != [] {
      var first := vars[names[0] := values[0]];
      var after, rest := Assign(first, names[1..], values[1..]), names[1..];
      AssignStores(first, rest, values[1..]);
      assert names == [names[0]] + rest;
      forall i | 0 <= i < |names| && NamedLast(names, i) ensures after[names[i]] == values[i] {
        if i > 0 {
          assert rest[i - 1] == names[i];
          assert NamedLast(rest, i - 1) by {
            forall j | i - 1 < j < |rest| ensures rest[j] != rest[i - 1] {
              assert names[j + 1] != names[i];
            }
          }
        } else {
          forall j | 0 <= j < |rest| ensures rest[j] != names[0] {
            assert names[j + 1] != names[0];
          }
        }
      }
    }
  }

  const SQLITE_ERROR := 1

  function FetchItem(vars: seq<string>, items: seq<Value>, pos: nat, st: State): Fetch {
    var c := Cursor(st, pos);
    if c >= |items| then Exhausted(st.(cursors := st.cursors[pos := 0]))
    else
      var st1 := st.(cursors := st.cursors[pos := c + 1], trace := st.trace + [Fetched(pos, items[c])]);
      var cols := Columns(items[c]);
      if |cols| != |vars| then FetchFailed(SQLITE_ERROR, st1)
      else Row(st1.(store := st1.store.(vars := Assign(st1.store.vars, vars, cols))))
  }

  function FetchRow(eng: Engine, vars: seq<string>, sql: string, pos: nat, st: State): Fetch {
    var c := Cursor(st, pos);
    var r := eng.step(pos, sql, c == 0, st.store);
    var st1 := st.(store := r.store);
    match r.row
    case SqlDone => Exhausted(st1.(cursors := st.cursors[pos := 0]))
    case SqlError(rc) => FetchFailed(rc, st1)
    case SqlRow(names, values) =>
      var st2 := st1.(cursors := st.cursors[pos := c + 1], trace := st.trace + [Fetched(pos, ListOf(values))]);
      if vars == [] && |names| == |values| then
        Row(st2.(store := st2.store.(vars := Assign(st2.store.vars, names, values))))
      else if |values| != |vars| then FetchFailed(SQLITE_ERROR, st2)
      else Row(st2.(store := st2.store.(vars := Assign(st2.store.vars, vars, values))))
  }

  function DoFetch(eng: Engine, vars: seq<string>, source: Source, pos: nat, st: State): Fetch {
    if source.FromSelect? then FetchRow(eng, vars, source.sql, pos, st)
    else
      match ListOfSource(source, st.store)
      case NotAList => Row(st)
      case Items(items) => FetchItem(vars, items, pos, st)
  }

  datatype Test = Test(st: State, rc: int, holds: bool)

  function DoTest(eng: Engine, cond: string, pos: nat, st: State): Test {
    var v := eng.test(cond, st.store);
    Test(st.(store := v.store, trace := st.trace + [Tested(pos, cond)]), v.rc, v.holds)
  }

  datatype Done = Goes(st: State) | Ends(outcome: Outcome, st: State)

  function Note(st: State, store: Store, pos: nat, text: string): State {
    st.(store := store, trace := st.trace + [Performed(pos, text)])
  }

  /** DECLARE, SET, SQL statements, ASSERT, RETURN and RAISE. */
  function DoBasic(eng: Engine, b: Basic, pos: nat, st: State): Done {
    match b
    case Declare => Goes(st)
    case Perform(kind, text) =>
      var e := eng.perform(kind, text, st.store);
      if e.rc != 0 then Ends(Failed(e.rc), Note(st, e.store, pos, text)) else Goes(Note(st, e.store, pos, text))
    case Return(text) =>
      var a := eng.answer(text, st.store);
      Ends(if a.rc != 0 then Failed(a.rc) else Returned(a.row), Note(st, a.store, pos, text))
    case Raise(text) =>
      var e := eng.raiseError(text, st.store);
      Ends(if e.rc != 0 then Failed(e.rc) else Raised, Note(st, e.store, pos, text))
  }

  /** The head of a loop: LOOP does nothing, FOREACH fetches. */
  function Enter(eng: Engine, head: Head, pos: nat, st: State): Fetch {
    match head
    case Forever => Row(st)
    case Each(vars, source) => DoFetch(eng, vars, source, pos, st)
  }

  /** The head of an ELSEIF or ELSE arm while no arm has been taken. */
  datatype Choice = Taken(st: State) | Passed(st: State) | Broken(rc: int, st: State)

  function Choose(eng: Engine, g: Guard, pos: nat, st: State): Choice {
    match g
    case Otherwise => Taken(st)
    case When(cond) =>
      var t := DoTest(eng, cond, pos, st);
      if t.rc != 0 then Broken(t.rc, t.st) else if t.holds then Taken(t.st) else Passed(t.st)
  }

  /** One round of the `for( pos … )` loop, its final `pos++` included. */
  function Step(eng: Engine, code: seq<Instr>, c: Config): Config {
    if c.Halted? then c
    else if c.pos >= |code| then Halted(Completed, c.st)
    else
      var Running(pos, flags, st) := c;
      var cmd := code[pos];
      match cmd.op
      case OpBasic(b) => StepBasic(DoBasic(eng, b, pos, st), pos, flags)
      case OpIf(cond) => StepIf(Choose(eng, When(cond), pos, st), pos, flags, cmd.nextIf)
      case OpArm(g) =>
        if cmd.related < |flags| && flags[cmd.related] then Running(cmd.nextIf, flags, st)
        else StepArm(Choose(eng, g, pos, st), pos, flags, cmd)
      case OpEndIf => Running(pos + 1, flags, st)
      case OpLoop(head) => StepLoop(Enter(eng, head, pos, st), pos, flags, cmd.related)
      case OpEndLoop => Running(cmd.related, flags, st)
      case OpContinue(_) => Running(cmd.related, flags, st)
      case OpBreak(_) =>
        if cmd.related >= |code| then Halted(Overrun, st)
        else Running(code[cmd.related].related + 1, flags, st)
  }

  function StepBasic(d: Done, pos: nat, flags: seq<bool>): Config {
    match d
    case Goes(st) => Running(pos + 1, flags, st)
    case Ends(o, st) => Halted(o, st)
  }

  function StepIf(c: Choice, pos: nat, flags: seq<bool>, nextIf: nat): Config {
    match c
    case Broken(rc, st) => Halted(Failed(rc), st)
    case Taken(st) => if pos < |flags| then Running(pos + 1, flags[pos := true], st) else Halted(Overrun, st)
    case Passed(st) => if pos < |flags| then Running(nextIf, flags[pos := false], st) else Halted(Overrun, st)
  }

  function StepArm(c: Choice, pos: nat, flags: seq<bool>, cmd: Instr): Config {
    match c
    case Broken(rc, st) => Halted(Failed(rc), st)
    case Taken(st) =>
      if cmd.related < |flags| then Running(pos + 1, flags[cmd.related := true], st) else Halted(Overrun, st)
    case Passed(st) => Running(cmd.nextIf, flags, st)
  }

  function StepLoop(f: Fetch, pos: nat, flags: seq<bool>, related: nat): Config {
    match f
    case Row(st) => Running(pos + 1, flags, st)
    case Exhausted(st) => Running(related + 1, flags, st)
    case FetchFailed(rc, st) => Halted(Failed(rc), st)
  }

  /** `k` rounds of the loop. */
  function Steps(eng: Engine, code: seq<Instr>, k: nat, c: Config): Config
    decreases k
  {
    if k == 0 then c else Steps(eng, code, k - 1, Step(eng, code, c))
  }

  lemma {:induction false} StepsAdd(eng: Engine, code: seq<Instr>, a: nat, b: nat, c: Config)
    ensures Steps(eng, code, a + b, c) == Steps(eng, code, b, Steps(eng, code, a, c))
    decreases a
  {
    if a > 0 {
      StepsAdd(eng, code, a - 1, b, Step(eng, code, c));
    }
  }

  lemma {:induction false} HaltedStays(eng: Engine, code: seq<Instr>, k: nat, c: Config)
    requires c.Halted?
    ensures Steps(eng, code, k, c) == c
    decreases k
  {
    if k > 0 {
      HaltedStays(eng, code, k - 1, c);
    }
  }
}
