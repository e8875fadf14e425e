/** What the statements of a body do, in terms of the engine alone: which arm of an IF
    runs, what a row assigns, how far BREAK and CONTINUE reach. */
module StoredProcMeaning {
  import opened StoredProcSyntax
  import opened StoredProcLink
  import opened StoredProcFlat
  import opened StoredProcStructured
  import opened StoredProcCorrectness
  import opened StoredProcForEach

  // ---- IF, ELSEIF, ELSE ----

  /** The condition was evaluated at statement `at`. */
  function Evaluated(eng: Engine, cond: string, at: nat, st: State): State {
    st.(store := eng.test(cond, st.store).store, trace := st.trace + [Tested(at, cond)])
  }

  /** An arm and the place of its head in the text. */
  datatype Placed = Placed(guard: Guard, body: Block, at: nat)

  function ArmsFrom(a: Arms, at: nat): seq<Placed> {
    match a
    case EndIf => []
    case Arm(g, body, rest) => [Placed(g, body, at)] + ArmsFrom(rest, at + 1 + BlockSize(body))
  }

  /** An IF chain with all its arms, the first one included. */
  function Chain(cond: string, body: Block, arms: Arms, at: nat): seq<Placed> {
    [Placed(When(cond), body, at)] + ArmsFrom(arms, at + 1 + BlockSize(body))
  }

  /** The state after the heads of the first `k` arms were evaluated. */
  function Heads(eng: Engine, arms: seq<Placed>, k: nat, st: State): State
    requires k <= |arms|
  {
    if k == 0 then st
    else
      var before := Heads(eng, arms, k - 1, st);
      match arms[k - 1].guard
      case Otherwise => before
      case When(cond) => Evaluated(eng, cond, arms[k - 1].at, before)
  }

  /** The condition of arm `k` is evaluated without an error and does not hold. */
  predicate Fails(eng: Engine, arms: seq<Placed>, k: nat, st: State)
    requires k < |arms|
  {
    arms[k].guard.When? &&
    var v := eng.test(arms[k].guard.cond, Heads(eng, arms, k, st).store); v.rc == 0 && !v.holds
  }

  /** Arm `k` is ELSE, or its condition holds. */
  predicate Holds(eng: Engine, arms: seq<Placed>, k: nat, st: State)
    requires k < |arms|
  {
    arms[k].guard.Otherwise? ||
    var v := eng.test(arms[k].guard.cond, Heads(eng, arms, k, st).store); v.rc == 0 && v.holds
  }

  /** What a chain does when its first `k` arms have failed and the next one, if there is
      one, does not: the body of that arm runs, an error stops, the end is passed. */
  function FromArm(eng: Engine, arms: seq<Placed>, k: nat, st: State, fuel: nat): Result
    requires k <= |arms| && (k < |arms| ==> !Fails(eng, arms, k, st))
  {
    if k == |arms| then Result(Proceeds, Heads(eng, arms, k, st), fuel)
    else if Holds(eng, arms, k, st) then ExecBlock(eng, arms[k].body, arms[k].at + 1, Heads(eng, arms, k + 1, st), fuel)
    else
      var rc := eng.test(arms[k].guard.cond, Heads(eng, arms, k, st).store).rc;
      Result(Stops(Failed(rc)), Heads(eng, arms, k + 1, st), fuel)
  }

  lemma {:induction false} HeadsLater(eng: Engine, arms: seq<Placed>, k: nat, st: State)
    requires arms != [] && k < |arms|
    ensures Heads(eng, arms, k + 1, st) == Heads(eng, arms[1..], k, Heads(eng, arms, 1, st))
    decreases k
  {
    if k > 0 {
      HeadsLater(eng, arms, k - 1, st);
    }
  }

  /** The chain behind its first arm, seen from the state that arm leaves. */
  lemma LaterArms(eng: Engine, arms: seq<Placed>, k: nat, st: State)
    requires arms != [] && k < |arms| && (forall j :: 0 <= j <= k ==> Fails(eng, arms, j, st))
    ensures var rest, st1 := arms[1..], Heads(eng, arms, 1, st);
            (forall j :: 0 <= j < k ==> Fails(eng, rest, j, st1))
            && (k < |rest| ==> (Fails(eng, rest, k, st1) <==> Fails(eng, arms, k + 1, st)))
            && (k < |rest| ==> (Holds(eng, rest, k, st1) <==> Holds(eng, arms, k + 1, st)))
  {
    var rest, st1 := arms[1..], Heads(eng, arms, 1, st);
    forall j | 0 <= j < k ensures Fails(eng, rest, j, st1) {
      HeadsLater(eng, arms, j, st);
      assert Fails(eng, arms, j + 1, st) && rest[j] == arms[j + 1];
    }
    HeadsLater(eng, arms, k, st);
  }

  lemma LaterResult(eng: Engine, arms: seq<Placed>, k: nat, st: State, fuel: nat)
    requires arms != [] && k < |arms| && (forall j :: 0 <= j <= k ==> Fails(eng, arms, j, st))
    requires k + 1 < |arms| ==> !Fails(eng, arms, k + 1, st)
    ensures var rest, st1 := arms[1..], Heads(eng, arms, 1, st);
            (k < |rest| ==> !Fails(eng, rest, k, st1))
            && FromArm(eng, rest, k, st1, fuel) == FromArm(eng, arms, k + 1, st, fuel)
  {
    LaterArms(eng, arms, k, st);
    HeadsLater(eng, arms, k, st);
    if k + 1 < |arms| {
      HeadsLater(eng, arms, k + 1, st);
    }
  }

  /** The arms of a chain: when the first `k` fail, the rest goes on from there. */
  lemma {:induction false} ArmsTakeFirst(eng: Engine, a: Arms, at: nat, st: State, fuel: nat, k: nat)
    requires k <= |ArmsFrom(a, at)| && forall j :: 0 <= j < k ==> Fails(eng, ArmsFrom(a, at), j, st)
    requires k < |ArmsFrom(a, at)| ==> !Fails(eng, ArmsFrom(a, at), k, st)
    ensures ExecArms(eng, a, at, st, fuel) == FromArm(eng, ArmsFrom(a, at), k, st, fuel)
    decreases a
  {
    var arms := ArmsFrom(a, at);
    if k > 0 {
      var next := at + 1 + BlockSize(a.body);
      var st1 := Heads(eng, arms, 1, st);
      assert Fails(eng, arms, 0, st) && arms[1..] == ArmsFrom(a.rest, next);
      LaterArms(eng, arms, k - 1, st);
      LaterResult(eng, arms, k - 1, st, fuel);
      ArmsTakeFirst(eng, a.rest, next, st1, fuel, k - 1);
      assert Heads(eng, arms, 0, st) == st;
    }
  }

  /** An IF takes the first arm whose condition holds, or ELSE; conditions are evaluated in
      order up to that one, each in the state the ones before it left, and no others. */
  lemma IfTakesFirst(eng: Engine, cond: string, body: Block, arms: Arms, at: nat, st: State, fuel: nat, k: nat)
    requires var chain := Chain(cond, body, arms, at);
             k <= |chain| && (forall j :: 0 <= j < k ==> Fails(eng, chain, j, st))
             && (k < |chain| ==> !Fails(eng, chain, k, st))
    ensures ExecStmt(eng, If(cond, body, arms), at, st, fuel) == FromArm(eng, Chain(cond, body, arms, at), k, st, fuel)
  {
    var whole := Arm(When(cond), body, arms);
    assert ArmsFrom(whole, at) == Chain(cond, body, arms, at);
    ArmsTakeFirst(eng, whole, at, st, fuel, k);
    assert ExecStmt(eng, If(cond, body, arms), at, st, fuel) == ExecArms(eng, whole, at, st, fuel);
  }

  /** So an IF runs its body when its condition holds and turns to its other arms when it
      does not; an error stops it before either. */
  lemma IfGoes(eng: Engine, cond: string, body: Block, arms: Arms, at: nat, st: State, fuel: nat)
    ensures var v, st1 := eng.test(cond, st.store), Evaluated(eng, cond, at, st);
            ExecStmt(eng, If(cond, body, arms), at, st, fuel)
            == if v.rc != 0 then Result(Stops(Failed(v.rc)), st1, fuel)
               else if v.holds then ExecBlock(eng, body, at + 1, st1, fuel)
               else ExecArms(eng, arms, at + 1 + BlockSize(body), st1, fuel)
  {
  }

  lemma ArmGoes(eng: Engine, cond: string, body: Block, rest: Arms, at: nat, st: State, fuel: nat)
    ensures var v, st1 := eng.test(cond, st.store), Evaluated(eng, cond, at, st);
            ExecArms(eng, Arm(When(cond), body, rest), at, st, fuel)
            == if v.rc != 0 then Result(Stops(Failed(v.rc)), st1, fuel)
               else if v.holds then ExecBlock(eng, body, at + 1, st1, fuel)
               else ExecArms(eng, rest, at + 1 + BlockSize(body), st1, fuel)
  {
  }

  /** The rest of the body after a statement. */
  function AndThen(eng: Engine, r: Result, rest: Block, at: nat): Result {
    if r.signal.Proceeds? then ExecBlock(eng, rest, at, r.st, r.fuel) else r
  }

  /** What a procedure that starts with an IF does after the evaluation of its condition. */
  function AfterIf(eng: Engine, body: Block, arms: Arms, rest: Block, holds: bool, st: State, fuel: nat): Result {
    var other := 1 + BlockSize(body);
    AndThen(eng, if holds then ExecBlock(eng, body, 1, st, fuel) else ExecArms(eng, arms, other, st, fuel), rest,
            other + ArmsSize(arms))
  }

  /** The same of the compiled code: a flat run of a procedure that starts with an IF ends
      with the error of the condition, or goes the way the condition says. */
  lemma CompiledIf(eng: Engine, cond: string, body: Block, arms: Arms, rest: Block, flags: seq<bool>, st: State,
                   o: Outcome, end: State)
    requires var b := Then(If(cond, body, arms), rest); BlockOk(b, 0) && |flags| == BlockSize(b)
    ensures var v, st1 := eng.test(cond, st.store), Evaluated(eng, cond, 0, st);
            Runs(eng, CodeBlock(Then(If(cond, body, arms), rest), 0, []), flags, st, o, end)
            <==> if v.rc != 0 then o == Failed(v.rc) && end == st1
                 else exists fuel: nat :: EndsWith(AfterIf(eng, body, arms, rest, v.holds, st1, fuel), o, end)
  {
    var b := Then(If(cond, body, arms), rest);
    var v, st1 := eng.test(cond, st.store), Evaluated(eng, cond, 0, st);
    CompilerCorrect(eng, b, flags, st, o, end);
    forall fuel: nat
      ensures ExecBlock(eng, b, 0, st, fuel)
           == if v.rc != 0 then Result(Stops(Failed(v.rc)), st1, fuel)
              else AfterIf(eng, body, arms, rest, v.holds, st1, fuel)
    {
      IfGoes(eng, cond, body, arms, 0, st, fuel);
    }
    if v.rc != 0 && o == Failed(v.rc) && end == st1 {
      assert EndsWith(ExecBlock(eng, b, 0, st, 0), o, end);
    }
  }

  // ---- what a row assigns ----

  /** The source is the list `items`, written out or held by a variable. */
  predicate IsList(source: Source, items: seq<Value>, store: Store) {
    source == FromLiteral(items)
    || (source.FromVariable? && source.name in store.vars && store.vars[source.name] == ListOf(items))
  }

  /** The columns of an item: a nested list, or the item itself. */
  function Parts(item: Value): seq<Value> { if item.ListOf? then item.items else [item] }

  /** The place of the next item. */
  function Next(st: State, at: nat): nat { if at in st.cursors then st.cursors[at] else 0 }

  /** `now` is `st` with a row fetched at statement `at`: the row is stored column by column
      into the variables, the cursor is behind it, and nothing else has changed. */
  ghost predicate RowStored(st: State, now: State, at: nat, names: seq<string>, values: seq<Value>, item: Value) {
    Stores(st.store.vars, now.store.vars, names, values)
    && now.store.tables == st.store.tables && now.store.statements == st.store.statements
    && now.cursors == st.cursors[at := Next(st, at) + 1] && now.trace == st.trace + [Fetched(at, item)]
  }

  function Storing(st: State, at: nat, names: seq<string>, values: seq<Value>, item: Value): State
    requires |names| == |values|
  {
    State(st.store.(vars := Assign(st.store.vars, names, values)), st.cursors[at := Next(st, at) + 1],
          st.trace + [Fetched(at, item)])
  }

  lemma StoringStores(st: State, at: nat, names: seq<string>, values: seq<Value>, item: Value)
    requires |names| == |values|
    ensures RowStored(st, Storing(st, at, names, values, item), at, names, values, item)
  {
    AssignStores(st.store.vars, names, values);
  }

  /** FOREACH over a list: the next item is stored if it has as many columns as there are
      variables, else it is an error; behind the last one the cursor goes back to 0. */
  lemma ListHead(eng: Engine, vars: seq<string>, source: Source, items: seq<Value>, at: nat, st: State)
    requires IsList(source, items, st.store)
    ensures var f, c := Enter(eng, Each(vars, source), at, st), Next(st, at);
            if c >= |items| then f == Exhausted(st.(cursors := st.cursors[at := 0]))
            else if |Parts(items[c])| != |vars| then f.FetchFailed? && f.rc == 1 && f.st.store == st.store
            else f.Row? && RowStored(st, f.st, at, vars, Parts(items[c]), items[c])
  {
    var c := Next(st, at);
    if c < |items| && |Parts(items[c])| == |vars| {
      assert Enter(eng, Each(vars, source), at, st) == Row(Storing(st, at, vars, Parts(items[c]), items[c]));
      StoringStores(st, at, vars, Parts(items[c]), items[c]);
    }
  }

  /** The variables a row of a query goes into: the listed ones or, when none are listed,
      those named by its columns. */
  function Targets(vars: seq<string>, names: seq<string>, values: seq<Value>): seq<string> {
    if vars == [] && |names| == |values| then names else vars
  }

  lemma SelectRow(eng: Engine, vars: seq<string>, sql: string, at: nat, st: State, stepped: State,
                  names: seq<string>, values: seq<Value>)
    requires eng.step(at, sql, Next(st, at) == 0, st.store) == Stepped(stepped.store, SqlRow(names, values))
    requires stepped == st.(store := stepped.store)
    ensures var f := FetchRow(eng, vars, sql, at, st);
            var targets := Targets(vars, names, values);
            if |targets| == |values| then f == Row(Storing(stepped, at, targets, values, ListOf(values)))
            else f.FetchFailed? && f.rc == 1 && f.st.store == stepped.store
  {
  }

  /** FOREACH over a query: the statement is started afresh when the cursor is 0 and only
      then; a row is stored column by column. */
  lemma SelectHead(eng: Engine, vars: seq<string>, sql: string, at: nat, st: State)
    ensures var f := Enter(eng, Each(vars, FromSelect(sql)), at, st);
            var r := eng.step(at, sql, Next(st, at) == 0, st.store);
            var stepped := st.(store := r.store);
            match r.row
            case SqlDone => f == Exhausted(stepped.(cursors := st.cursors[at := 0]))
            case SqlError(rc) => f == FetchFailed(rc, stepped)
            case SqlRow(names, values) =>
              if |Targets(vars, names, values)| == |values|
              then f.Row? && RowStored(stepped, f.st, at, Targets(vars, names, values), values, ListOf(values))
              else f.FetchFailed? && f.rc == 1 && f.st.store == r.store
  {
    var r := eng.step(at, sql, Next(st, at) == 0, st.store);
    assert Enter(eng, Each(vars, FromSelect(sql)), at, st) == FetchRow(eng, vars, sql, at, st);
    if r.row.SqlRow? {
      var names, values, stepped := r.row.names, r.row.values, st.(store := r.store);
      SelectRow(eng, vars, sql, at, st, stepped, names, values);
      if |Targets(vars, names, values)| == |values| {
        StoringStores(stepped, at, Targets(vars, names, values), values, ListOf(values));
      }
    }
  }

  /** One pass of a FOREACH over a list that is run to its end: from the state `st` in which
      it is reached, its body starts in `s1`, with the columns of the item in the variables. */
  lemma FirstPass(eng: Engine, vars: seq<string>, source: Source, body: Block, at: nat,
                  all: seq<Value>, items: seq<Value>, st: State, fuel: nat) returns (s1: State)
    requires !source.FromSelect? && items != []
    requires SweepItems(eng, vars, source, body, at, all, items, st, fuel).Swept?
    ensures Stores(st.store.vars, s1.store.vars, vars, Parts(items[0])) && s1.store.tables == st.store.tables
    ensures var r := ExecBlock(eng, body, at + 1, s1, fuel);
            Again(r) && SweepItems(eng, vars, source, body, at, all, items, st, fuel)
                        == SweepItems(eng, vars, source, body, at, all, items[1..], r.st, r.fuel - 1)
  {
    s1 := Bind(vars, items[0], at, st);
    AssignStores(st.store.vars, vars, Parts(items[0]));
  }

  lemma {:induction false} ReachesPass(eng: Engine, vars: seq<string>, source: Source, body: Block, at: nat,
                                       all: seq<Value>, items: seq<Value>, st: State, fuel: nat, k: nat)
    returns (s0: State, left: nat)
    requires !source.FromSelect? && k < |items|
    requires SweepItems(eng, vars, source, body, at, all, items, st, fuel).Swept?
    ensures SweepItems(eng, vars, source, body, at, all, items, st, fuel)
         == SweepItems(eng, vars, source, body, at, all, items[k..], s0, left)
    ensures k == 0 ==> s0 == st
    decreases k
  {
    if k == 0 {
      assert items[0..] == items;
      s0, left := st, fuel;
    } else {
      var r := ExecBlock(eng, body, at + 1, Bind(vars, items[0], at, st), fuel);
      s0, left := ReachesPass(eng, vars, source, body, at, all, items[1..], r.st, r.fuel - 1, k - 1);
      assert items[1..][k - 1..] == items[k..];
    }
  }

  /** Pass `k` of it: `s0` is the state in which the passes before it have left the
      procedure. */
  lemma PassesStore(eng: Engine, vars: seq<string>, source: Source, body: Block, at: nat,
                    all: seq<Value>, items: seq<Value>, st: State, fuel: nat, k: nat)
    returns (s0: State, s1: State, left: nat)
    requires !source.FromSelect? && k < |items|
    requires SweepItems(eng, vars, source, body, at, all, items, st, fuel).Swept?
    ensures SweepItems(eng, vars, source, body, at, all, items, st, fuel)
         == SweepItems(eng, vars, source, body, at, all, items[k..], s0, left)
    ensures k == 0 ==> s0 == st
    ensures Stores(s0.store.vars, s1.store.vars, vars, Parts(items[k])) && s1.store.tables == s0.store.tables
    ensures var r := ExecBlock(eng, body, at + 1, s1, left);
            Again(r) && SweepItems(eng, vars, source, body, at, all, items[k..], s0, left)
                        == SweepItems(eng, vars, source, body, at, all, items[k + 1..], r.st, r.fuel - 1)
  {
    s0, left := ReachesPass(eng, vars, source, body, at, all, items, st, fuel, k);
    assert items[k..][0] == items[k] && items[k..][1..] == items[k + 1..];
    s1 := FirstPass(eng, vars, source, body, at, all, items[k..], s0, left);
  }

  // ---- plain statements ----

  function Noted(st: State, store: Store, at: nat, text: string): State {
    st.(store := store, trace := st.trace + [Performed(at, text)])
  }

  /** A plain statement does what the engine does, and fails if and only if it says so;
      RETURN and RAISE end the procedure. */
  lemma PlainDoes(eng: Engine, b: Basic, at: nat, st: State, fuel: nat)
    ensures b.Declare? ==> ExecStmt(eng, Plain(b), at, st, fuel) == Result(Proceeds, st, fuel)
    ensures b.Perform? ==>
              var e := eng.perform(b.kind, b.text, st.store);
              ExecStmt(eng, Plain(b), at, st, fuel)
              == Result(if e.rc == 0 then Proceeds else Stops(Failed(e.rc)), Noted(st, e.store, at, b.text), fuel)
    ensures b.Return? ==>
              var a := eng.answer(b.text, st.store);
              ExecStmt(eng, Plain(b), at, st, fuel)
              == Result(Stops(if a.rc == 0 then Returned(a.row) else Failed(a.rc)), Noted(st, a.store, at, b.text),
                        fuel)
    ensures b.Raise? ==>
              var e := eng.raiseError(b.text, st.store);
              ExecStmt(eng, Plain(b), at, st, fuel)
              == Result(Stops(if e.rc == 0 then Raised else Failed(e.rc)), Noted(st, e.store, at, b.text), fuel)
  {
  }

  // ---- how far BREAK and CONTINUE reach ----

  /** `n` nested LOOPs, the innermost around `inner`, the others with `rest` behind them. */
  function Nest(n: nat, inner: Block, rest: Block): Block {
    if n == 0 then inner else Then(Loop(Forever, Nest(n - 1, inner, rest)), rest)
  }

  /** A loop that its body leaves for good. */
  lemma LoopLeaves(eng: Engine, body: Block, rest: Block, at: nat, st: State, fuel: nat)
    requires var r := ExecBlock(eng, body, at + 1, st, fuel);
             r.st == st && r.fuel == fuel && ((r.signal.Breaks? || r.signal.Continues?) && r.signal.k > 0)
    ensures var s := ExecBlock(eng, body, at + 1, st, fuel).signal;
            ExecBlock(eng, Then(Loop(Forever, body), rest), at, st, fuel)
            == Result(if s.Breaks? then Breaks(s.k - 1) else Continues(s.k - 1), st, fuel)
  {
    var r := ExecBlock(eng, body, at + 1, st, fuel);
    assert Enter(eng, Forever, at, st) == Row(st);
    assert ExecLoop(eng, Forever, body, at, st, fuel) == Leave(r);
    assert ExecStmt(eng, Loop(Forever, body), at, st, fuel) == Leave(r);
  }

  /** Inside `n` loops that it leaves, a signal passes all of them, and nothing behind them
      runs. */
  lemma {:induction false} NestBreaks(eng: Engine, n: nat, k: nat, inner: Block, rest: Block, at: nat, st: State,
                                      fuel: nat)
    requires n <= k && ExecBlock(eng, inner, at + n, st, fuel) == Result(Breaks(k), st, fuel)
    ensures ExecBlock(eng, Nest(n, inner, rest), at, st, fuel) == Result(Breaks(k - n), st, fuel)
    decreases n
  {
    if n > 0 {
      NestBreaks(eng, n - 1, k, inner, rest, at + 1, st, fuel);
      assert Nest(n, inner, rest) == Then(Loop(Forever, Nest(n - 1, inner, rest)), rest);
      LoopLeaves(eng, Nest(n - 1, inner, rest), rest, at, st, fuel);
    }
  }

  lemma {:induction false} NestContinues(eng: Engine, n: nat, k: nat, inner: Block, rest: Block, at: nat, st: State,
                                         fuel: nat)
    requires n <= k && ExecBlock(eng, inner, at + n, st, fuel) == Result(Continues(k), st, fuel)
    ensures ExecBlock(eng, Nest(n, inner, rest), at, st, fuel) == Result(Continues(k - n), st, fuel)
    decreases n
  {
    if n > 0 {
      NestContinues(eng, n - 1, k, inner, rest, at + 1, st, fuel);
      assert Nest(n, inner, rest) == Then(Loop(Forever, Nest(n - 1, inner, rest)), rest);
      LoopLeaves(eng, Nest(n - 1, inner, rest), rest, at, st, fuel);
    }
  }

  /** BREAK n leaves n loops, and one when n is missing or 0: what is behind the inner ones
      does not run, and the procedure goes on behind the n-th. */
  lemma BreakLeaves(eng: Engine, n: nat, skipped: Block, rest: Block, at: nat, st: State, fuel: nat)
    ensures var m := if n == 0 then 1 else n;
            ExecStmt(eng, Loop(Forever, Nest(m - 1, Then(Break(n), skipped), rest)), at, st, fuel)
            == Result(Proceeds, st, fuel)
  {
    var m := if n == 0 then 1 else n;
    NestBreaks(eng, m - 1, m - 1, Then(Break(n), skipped), rest, at + 1, st, fuel);
  }

  /** CONTINUE n starts the n-th loop over, and the innermost when n is missing or 0. */
  lemma ContinueRestarts(eng: Engine, n: nat, skipped: Block, rest: Block, at: nat, st: State, fuel: nat)
    requires fuel > 0
    ensures var m := if n == 0 then 1 else n;
            var loop := Loop(Forever, Nest(m - 1, Then(Continue(n), skipped), rest));
            ExecStmt(eng, loop, at, st, fuel) == ExecStmt(eng, loop, at, st, fuel - 1)
  {
    var m := if n == 0 then 1 else n;
    NestContinues(eng, m - 1, m - 1, Then(Continue(n), skipped), rest, at + 1, st, fuel);
  }
}
