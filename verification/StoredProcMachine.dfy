/** The parser's link pass and the interpreter as they work in place: a growing
    command array, two global stacks, and a loop over `pos`. */
module StoredProcMachine {
  import opened Common
  import opened StoredProcSyntax
  import opened StoredProcLink
  import opened StoredProcFlat
  import opened StoredProcStructured
  import opened StoredProcCorrectness

  /** `struct command`: the linked statement, its EXECUTED flag, its cursor. */
  datatype Command = Command(instr: Instr, executed: bool, currentItem: nat)

  function Instrs(cs: seq<Command>): (r: seq<Instr>)
    ensures |r| == |cs| && forall i :: 0 <= i < |cs| ==> r[i] == cs[i].instr
  {
    seq(|cs|, i requires 0 <= i < |cs| => cs[i].instr)
  }

  function Flags(cs: seq<Command>): (r: seq<bool>)
    ensures |r| == |cs| && forall i :: 0 <= i < |cs| ==> r[i] == cs[i].executed
  {
    seq(|cs|, i requires 0 <= i < |cs| => cs[i].executed)
  }

  function Cursors(cs: seq<Command>): map<nat, nat> {
    map p: nat | p < |cs| :: cs[p].currentItem
  }

  lemma CursorsUpdate(cs: seq<Command>, at: nat, c: Command)
    requires at < |cs|
    ensures Cursors(cs[at := c]) == Cursors(cs)[at := c.currentItem]
    ensures Flags(cs[at := c]) == Flags(cs)[at := c.executed]
    ensures Instrs(cs[at := c]) == Instrs(cs)[at := c.instr]
  {
  }

  datatype ParseCode = ParseOk | ParseError | ParseOverrun

  /** if_stack and loop_stack, shared by all procedures. */
  class Stacks {
    var ifs: seq<IfBlock>
    var loops: seq<nat>

    constructor ()
      ensures ifs == [] && loops == []
    {
      ifs, loops := [], [];
    }
  }

  lemma StepsMore(eng: Engine, code: seq<Instr>, k: nat, c: Config)
    ensures Steps(eng, code, k + 1, c) == Step(eng, code, Steps(eng, code, k, c))
  {
    StepsAdd(eng, code, k, 1, c);
    assert Steps(eng, code, 1, Steps(eng, code, k, c)) == Step(eng, code, Steps(eng, code, k, c));
  }

  lemma StepsHalted(eng: Engine, code: seq<Instr>, k: nat, limit: nat, c: Config)
    requires k <= limit && Steps(eng, code, k, c).Halted?
    ensures Steps(eng, code, limit, c) == Steps(eng, code, k, c)
  {
    StepsAdd(eng, code, k, limit - k, c);
    HaltedStays(eng, code, limit - k, Steps(eng, code, k, c));
  }


  class Procedure {
    var cmds: array<Command>
    var numCmds: nat
    var store: Store
    ghost var trace: seq<Event>

    ghost predicate Valid()
      reads this
    {
      numCmds <= cmds.Length
    }

    ghost function Code(): seq<Instr>
      reads this, cmds
      requires Valid()
    {
      Instrs(cmds[..numCmds])
    }

    ghost function Executed(): seq<bool>
      reads this, cmds
      requires Valid()
    {
      Flags(cmds[..numCmds])
    }

    ghost function St(): State
      reads this, cmds
      requires Valid()
    {
      State(store, Cursors(cmds[..numCmds]), trace)
    }

    constructor (store: Store)
      ensures Valid() && Code() == [] && fresh(cmds) && trace == [] && this.store == store
    {
      cmds := new Command[0];
      numCmds := 0;
      this.store := store;
      trace := [];
    }

    /** new_command: the array starts with 16 slots and doubles when full. */
    method NewCommand(op: Op) returns (pos: nat)
      requires Valid()
      modifies this`cmds, this`numCmds, cmds
      ensures Valid() && (cmds == old(cmds) || fresh(cmds))
      ensures pos == old(numCmds) && numCmds == pos + 1
      ensures Code() == old(Code()) + [Instr(op, 0, 0)]
    {
      if numCmds == cmds.Length {
        Grow(if cmds.Length == 0 then 16 else 2 * cmds.Length);
      }
      pos := numCmds;
      cmds[pos] := Command(Instr(op, 0, 0), false, 0);
      numCmds := numCmds + 1;
      assert cmds[..numCmds] == cmds[..pos] + [cmds[pos]];
    }

    method Grow(size: nat)
      requires Valid() && size > cmds.Length
      modifies this`cmds
      ensures Valid() && fresh(cmds) && cmds.Length == size
      ensures cmds[..numCmds] == old(cmds[..numCmds])
    {
      var bigger := new Command[size](_ => Command(Instr(OpEndIf, 0, 0), false, 0));
      var i := 0;
      while i < numCmds
        invariant i <= numCmds && bigger[..i] == cmds[..i]
        modifies bigger
      {
        bigger[i] := cmds[i];
        i := i + 1;
      }
      cmds := bigger;
    }

    /** The array and both stacks, as the link pass sees them. */
    ghost function View(g: Stacks): Linking
      reads this, cmds, g
      requires Valid()
    {
      Linking(Code(), g.ifs, g.loops)
    }

    ghost predicate Agrees(g: Stacks, r: LinkResult, rc: ParseCode)
      reads this, cmds, g
    {
      Valid() &&
      match r
      case Linked(s) => rc == ParseOk && View(g) == s
      case Rejected(s) => rc == ParseError && View(g) == s
      case Overrun => rc == ParseOverrun
    }

    /** parse_new_command for one statement: append it, then link it. */
    method ParseCommand(g: Stacks, op: Op) returns (rc: ParseCode)
      requires Valid()
      modifies this`cmds, this`numCmds, cmds, g
      ensures cmds == old(cmds) || fresh(cmds)
      ensures Agrees(g, LinkStep(old(View(g)), op), rc)
    {
      match op
      case OpBasic(_) =>
        var pos := NewCommand(op);
        rc := ParseOk;
      case OpIf(_) =>
        var pos := NewCommand(op);
        g.ifs := [IfBlock(pos, pos)] + g.ifs;
        rc := ParseOk;
      case OpArm(_) =>
        rc := ParseArm(g, op);
      case OpEndIf =>
        rc := ParseEndIf(g);
      case OpLoop(_) =>
        var pos := NewCommand(op);
        g.loops := [pos] + g.loops;
        rc := ParseOk;
      case OpEndLoop =>
        rc := ParseEndLoop(g);
      case OpBreak(level) =>
        rc := ParseJump(g, op, level);
      case OpContinue(level) =>
        rc := ParseJump(g, op, level);
    }

    /** ELSEIF and ELSE join the IF block on top of the stack. */
    method ParseArm(g: Stacks, op: Op) returns (rc: ParseCode)
      requires Valid() && op.OpArm?
      modifies this`cmds, this`numCmds, cmds, g
      ensures cmds == old(cmds) || fresh(cmds)
      ensures Agrees(g, LinkStep(old(View(g)), op), rc)
    {
      var pos := NewCommand(op);
      if g.ifs == [] { return ParseError; }
      var ifb := g.ifs[0];
      if ifb.last > pos { return ParseOverrun; }
      Relate(pos, ifb.first);
      LinkNext(ifb.last, pos);
      g.ifs := [ifb.(last := pos)] + g.ifs[1..];
      rc := ParseOk;
    }

    method ParseEndIf(g: Stacks) returns (rc: ParseCode)
      requires Valid()
      modifies this`cmds, this`numCmds, cmds, g
      ensures cmds == old(cmds) || fresh(cmds)
      ensures Agrees(g, LinkStep(old(View(g)), OpEndIf), rc)
    {
      var pos := NewCommand(OpEndIf);
      if g.ifs == [] { return ParseError; }
      if g.ifs[0].last > pos { return ParseOverrun; }
      LinkNext(g.ifs[0].last, pos);
      g.ifs := g.ifs[1..];
      rc := ParseOk;
    }

    /** END LOOP and the loop start point at each other. */
    method ParseEndLoop(g: Stacks) returns (rc: ParseCode)
      requires Valid()
      modifies this`cmds, this`numCmds, cmds, g
      ensures cmds == old(cmds) || fresh(cmds)
      ensures Agrees(g, LinkStep(old(View(g)), OpEndLoop), rc)
    {
      var pos := NewCommand(OpEndLoop);
      if g.loops == [] { return ParseError; }
      if g.loops[0] > pos { return ParseOverrun; }
      Relate(g.loops[0], pos);
      Relate(pos, g.loops[0]);
      g.loops := g.loops[1..];
      rc := ParseOk;
    }

    /** BREAK and CONTINUE climb the loop stack one level at a time. */
    method ParseJump(g: Stacks, op: Op, level: nat) returns (rc: ParseCode)
      requires Valid() && (op == OpBreak(level) || op == OpContinue(level))
      modifies this`cmds, this`numCmds, cmds
      ensures cmds == old(cmds) || fresh(cmds)
      ensures Agrees(g, LinkStep(old(View(g)), op), rc)
    {
      var pos := NewCommand(op);
      if g.loops == [] { return ParseError; }
      var up, left: nat := 0, level;
      while left > 1
        invariant up < |g.loops| && up + Reach(left) == Reach(level)
        decreases left
        modifies {}
      {
        up := up + 1;
        if up == |g.loops| { return ParseError; }
        left := left - 1;
      }
      Relate(pos, g.loops[up]);
      rc := ParseOk;
    }

    method LinkNext(at: nat, target: nat)
      requires Valid() && at < numCmds
      modifies cmds
      ensures Code() == SetNextIf(old(Code()), at, target)
    {
      cmds[at] := cmds[at].(instr := cmds[at].instr.(nextIf := target));
    }

    method Relate(at: nat, target: nat)
      requires Valid() && at < numCmds
      modifies cmds
      ensures Code() == SetRelated(old(Code()), at, target)
    {
      cmds[at] := cmds[at].(instr := cmds[at].instr.(related := target));
    }

    /** parse_procedure_body over the statements `ops`. */
    method ParseBody(g: Stacks, ops: seq<Op>) returns (rc: ParseCode)
      requires Valid()
      modifies this`cmds, this`numCmds, cmds, g
      ensures Agrees(g, LinkAll(old(View(g)), ops), rc)
    {
      ghost var whole := LinkAll(View(g), ops);
      rc := ParseOk;
      var i := 0;
      assert ops[0..] == ops;
      while i < |ops|
        invariant 0 <= i <= |ops| && Valid() && rc == ParseOk
        invariant cmds == old(cmds) || fresh(cmds)
        invariant LinkAll(View(g), ops[i..]) == whole
      {
        assert ops[i..][1..] == ops[i + 1..];
        rc := ParseCommand(g, ops[i]);
        if rc != ParseOk { return; }
        i := i + 1;
      }
    }

    method SetExecuted(at: nat, executed: bool)
      requires Valid() && at < numCmds
      modifies cmds
      ensures Code() == old(Code()) && St() == old(St())
      ensures Executed() == old(Executed())[at := executed]
    {
      ghost var before := cmds[..numCmds];
      cmds[at] := cmds[at].(executed := executed);
      CursorsUpdate(before, at, cmds[at]);
      assert cmds[..numCmds] == before[at := cmds[at]];
      assert Cursors(before)[at := before[at].currentItem] == Cursors(before);
    }

    method SetCurrentItem(at: nat, item: nat)
      requires Valid() && at < numCmds
      modifies cmds
      ensures Code() == old(Code()) && Executed() == old(Executed())
      ensures St() == old(St()).(cursors := old(St()).cursors[at := item])
    {
      ghost var before := cmds[..numCmds];
      cmds[at] := cmds[at].(currentItem := item);
      CursorsUpdate(before, at, cmds[at]);
      assert cmds[..numCmds] == before[at := cmds[at]];
    }

    /** Store a row into variables, one by one. */
    method AssignVars(names: seq<string>, values: seq<Value>)
      requires |names| == |values|
      modifies this`store
      ensures store == old(store).(vars := Assign(old(store).vars, names, values))
      ensures Stores(old(store).vars, store.vars, names, values)
    {
      AssignStores(store.vars, names, values);
      ghost var whole := Assign(store.vars, names, values);
      var i := 0;
      assert names[0..] == names && values[0..] == values;
      while i < |names|
        invariant 0 <= i <= |names|
        invariant store == old(store).(vars := store.vars)
        invariant Assign(store.vars, names[i..], values[i..]) == whole
      {
        assert names[i..][1..] == names[i + 1..] && values[i..][1..] == values[i + 1..];
        store := store.(vars := store.vars[names[i] := values[i]]);
        i := i + 1;
      }
    }

    /** executeForeachCommand over a list. */
    method FetchFromList(vars: seq<string>, items: seq<Value>, pos: nat) returns (f: FetchCode)
      requires Valid() && pos < numCmds
      modifies this`store, this`trace, cmds
      ensures Code() == old(Code()) && Executed() == old(Executed())
      ensures f.Agrees(FetchItem(vars, items, pos, old(St())), St())
      ensures var c := old(cmds[pos].currentItem);
              f.GotRow? ==> c < |items| && Stores(old(store).vars, store.vars, vars,
                                                  if items[c].ListOf? then items[c].items else [items[c]])
    {
      var c := cmds[pos].currentItem;
      if c >= |items| {
        SetCurrentItem(pos, 0);
        return NoMore;
      }
      NoteItem(pos, c + 1, items[c]);
      var cols := Columns(items[c]);
      if |cols| != |vars| { return FetchError(SQLITE_ERROR); }
      AssignVars(vars, cols);
      f := GotRow;
    }

    /** executeForeachCommand over a SQL statement. */
    method FetchFromSelect(eng: Engine, vars: seq<string>, sql: string, pos: nat) returns (f: FetchCode)
      requires Valid() && pos < numCmds
      modifies this`store, this`trace, cmds
      ensures Code() == old(Code()) && Executed() == old(Executed())
      ensures f.Agrees(FetchRow(eng, vars, sql, pos, old(St())), St())
      ensures var r := eng.step(pos, sql, old(cmds[pos].currentItem) == 0, old(store));
              f.GotRow? ==> r.row.SqlRow? && Stores(r.store.vars, store.vars, NamesFor(vars, r.row), r.row.values)
    {
      var c := cmds[pos].currentItem;
      var r := eng.step(pos, sql, c == 0, store);
      store := r.store;
      match r.row
      case SqlDone =>
        SetCurrentItem(pos, 0);
        f := NoMore;
      case SqlError(rc) =>
        f := FetchError(rc);
      case SqlRow(names, values) =>
        NoteItem(pos, c + 1, ListOf(values));
        f := StoreRow(vars, names, values);
    }

    /** The cursor moves on, and the fetch is recorded. */
    method NoteItem(pos: nat, next: nat, item: Value)
      requires Valid() && pos < numCmds
      modifies this`trace, cmds
      ensures Code() == old(Code()) && Executed() == old(Executed())
      ensures var st := old(St());
              St() == st.(cursors := st.cursors[pos := next], trace := st.trace + [Fetched(pos, item)])
    {
      SetCurrentItem(pos, next);
      trace := trace + [Fetched(pos, item)];
    }

    /** A row goes into the listed variables, or into those of the column names. */
    method StoreRow(vars: seq<string>, names: seq<string>, values: seq<Value>) returns (f: FetchCode)
      modifies this`store
      ensures f == if (vars == [] && |names| == |values|) || |values| == |vars| then GotRow
                   else FetchError(SQLITE_ERROR)
      ensures store == if vars == [] && |names| == |values| then
                         old(store).(vars := Assign(old(store).vars, names, values))
                       else if |values| == |vars| then old(store).(vars := Assign(old(store).vars, vars, values))
                       else old(store)
      ensures f.GotRow? ==> Stores(old(store).vars, store.vars, NamesFor(vars, SqlRow(names, values)), values)
    {
      f := GotRow;
      if vars == [] && |names| == |values| {
        AssignVars(names, values);
      } else if |values| != |vars| {
        f := FetchError(SQLITE_ERROR);
      } else {
        AssignVars(vars, values);
      }
    }

    method EnterLoop(eng: Engine, head: Head, pos: nat) returns (f: FetchCode)
      requires Valid() && pos < numCmds
      modifies this`store, this`trace, cmds
      ensures Code() == old(Code()) && Executed() == old(Executed())
      ensures f.Agrees(Enter(eng, head, pos, old(St())), St())
    {
      match head
      case Forever =>
        f := GotRow;
      case Each(vars, source) =>
        if source.FromSelect? {
          f := FetchFromSelect(eng, vars, source.sql, pos);
        } else {
          var list := ListOfSource(source, store);
          match list {
            case NotAList =>
              f := GotRow;
            case Items(items) =>
              f := FetchFromList(vars, items, pos);
          }
        }
    }

    /** Evaluate the condition of an IF or ELSEIF; ELSE always holds. */
    method Decide(eng: Engine, g: Guard, pos: nat) returns (rc: int, holds: bool)
      requires Valid()
      modifies this`store, this`trace
      ensures Code() == old(Code()) && Executed() == old(Executed())
      ensures match Choose(eng, g, pos, old(St()))
              case Broken(code, st) => rc == code && rc != 0 && St() == st
              case Taken(st) => rc == 0 && holds && St() == st
              case Passed(st) => rc == 0 && !holds && St() == st
      ensures g.Otherwise? ==> rc == 0 && holds && store == old(store)
      ensures g.When? ==> var v := eng.test(g.cond, old(store));
                          rc == v.rc && holds == v.holds && store == v.store
    {
      match g
      case Otherwise =>
        rc, holds := 0, true;
      case When(cond) =>
        var v := eng.test(cond, store);
        store := v.store;
        trace := trace + [Tested(pos, cond)];
        rc, holds := v.rc, v.holds;
    }

    /** A statement that neither opens a block nor jumps. */
    method Perform(eng: Engine, b: Basic, pos: nat) returns (outcome: Option<Outcome>)
      requires Valid()
      modifies this`store, this`trace
      ensures Code() == old(Code()) && Executed() == old(Executed())
      ensures match DoBasic(eng, b, pos, old(St()))
              case Goes(st) => outcome == None && St() == st
              case Ends(o, st) => outcome == Some(o) && St() == st
    {
      outcome := None;
      match b
      case Declare =>
      case Perform(kind, text) =>
        var e := eng.perform(kind, text, store);
        store := e.store;
        trace := trace + [Performed(pos, text)];
        if e.rc != 0 { outcome := Some(Failed(e.rc)); }
      case Return(text) =>
        var a := eng.answer(text, store);
        store := a.store;
        trace := trace + [Performed(pos, text)];
        outcome := Some(if a.rc != 0 then Failed(a.rc) else Returned(a.row));
      case Raise(text) =>
        var e := eng.raiseError(text, store);
        store := e.store;
        trace := trace + [Performed(pos, text)];
        outcome := Some(if e.rc != 0 then Failed(e.rc) else Raised);
    }

    /** One round of the interpreter loop. */
    method Round(eng: Engine, pos: nat) returns (next: nat, outcome: Option<Outcome>)
      requires Valid() && pos < numCmds
      modifies this`store, this`trace, cmds
      ensures Code() == old(Code())
      ensures Step(eng, old(Code()), Running(pos, old(Executed()), old(St())))
           == if outcome.Some? then Halted(outcome.value, St()) else Running(next, Executed(), St())
    {
      var cmd := cmds[pos].instr;
      next, outcome := pos + 1, None;
      match cmd.op
      case OpBasic(b) =>
        outcome := Perform(eng, b, pos);
      case OpIf(cond) =>
        var rc, holds := Decide(eng, When(cond), pos);
        if rc != 0 { return pos, Some(Failed(rc)); }
        SetExecuted(pos, holds);
        if !holds { next := cmd.nextIf; }
      case OpArm(g) =>
        if cmd.related < numCmds && cmds[cmd.related].executed { return cmd.nextIf, None; }
        var rc, holds := Decide(eng, g, pos);
        if rc != 0 { return pos, Some(Failed(rc)); }
        if !holds { return cmd.nextIf, None; }
        if cmd.related >= numCmds { return pos, Some(Outcome.Overrun); }
        SetExecuted(cmd.related, true);
      case OpEndIf =>
      case OpLoop(head) =>
        var f := EnterLoop(eng, head, pos);
        match f {
          case GotRow =>
          case NoMore => next := cmd.related + 1;
          case FetchError(rc) => outcome := Some(Failed(rc));
        }
      case OpEndLoop =>
        next := cmd.related;
      case OpContinue(_) =>
        next := cmd.related;
      case OpBreak(_) =>
        if cmd.related >= numCmds { return pos, Some(Outcome.Overrun); }
        next := cmds[cmd.related].instr.related + 1;
    }

    /** The loop of executeStoredProcedure, cut off after `limit` rounds. */
    method Execute(eng: Engine, limit: nat) returns (outcome: Option<Outcome>)
      requires Valid()
      modifies this`store, this`trace, cmds
      ensures Code() == old(Code())
      ensures match Steps(eng, old(Code()), limit, Running(0, old(Executed()), old(St())))
              case Halted(o, st) => outcome == Some(o) && St() == st
              case Running(_, flags, st) => outcome == None && St() == st && Executed() == flags
    {
      ghost var code, start := Code(), Running(0, Executed(), St());
      var pos: nat, rounds: nat := 0, 0;
      while rounds < limit
        invariant rounds <= limit && Code() == code
        invariant Steps(eng, code, rounds, start) == Running(pos, Executed(), St())
      {
        ghost var here := Running(pos, Executed(), St());
        var next;
        if pos >= numCmds {
          next, outcome := pos, Some(Completed);
        } else {
          next, outcome := Round(eng, pos);
        }
        StepsMore(eng, code, rounds, start);
        rounds := rounds + 1;
        if outcome.Some? {
          StepsHalted(eng, code, rounds, limit, start);
          return;
        }
        pos := next;
      }
      outcome := None;
    }

    /** Parse a well-nested body into an empty procedure: it is always accepted,
        and both global stacks end up as they were, whatever they held. */
    method Compile(g: Stacks, b: Block) returns (rc: ParseCode)
      requires Valid() && Code() == [] && BlockOk(b, 0)
      modifies this`cmds, this`numCmds, cmds, g
      ensures rc == ParseOk && Valid() && Code() == CodeBlock(b, 0, [])
      ensures g.ifs == old(g.ifs) && g.loops == old(g.loops)
    {
      LinkSucceeds(b, g.ifs, g.loops);
      rc := ParseBody(g, FlattenBlock(b));
    }

    /** Run a compiled body. Whatever ends within the limit is the meaning of the
        body, from the variables, cursors and stale flags it started with. */
    method Run(eng: Engine, ghost b: Block, limit: nat) returns (outcome: Option<Outcome>)
      requires Valid() && BlockOk(b, 0) && Code() == CodeBlock(b, 0, [])
      modifies this`store, this`trace, cmds
      ensures Code() == old(Code())
      ensures outcome.Some? ==> Means(eng, b, old(St()), outcome.value, St())
    {
      ghost var flags, start := Executed(), St();
      outcome := Execute(eng, limit);
      if outcome.Some? {
        assert Steps(eng, old(Code()), limit, Running(0, flags, start)) == Halted(outcome.value, St());
        CompilerCorrect(eng, b, flags, start, outcome.value, St());
      }
    }
  }

  /** The listed variables, or those named by the columns when none are listed. */
  function NamesFor(vars: seq<string>, row: SqlRow): seq<string>
    requires row.SqlRow?
  {
    if vars == [] && |row.names| == |row.values| then row.names else vars
  }

  datatype FetchCode = GotRow | NoMore | FetchError(rc: int) {
    ghost predicate Agrees(f: Fetch, st: State) {
      match f
      case Row(s) => GotRow? && st == s
      case Exhausted(s) => NoMore? && st == s
      case FetchFailed(rc, s) => this == FetchError(rc) && st == s
    }
  }
}
