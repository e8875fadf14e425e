/** FOREACH over a list: one run of the body per item, in order. */
module StoredProcForEach {
  import opened StoredProcSyntax
  import opened StoredProcFlat
  import opened StoredProcStructured

  function Put(st: State, p: nat, v: nat): State {
    st.(cursors := st.cursors[p := v])
  }

  function PutAfter(r: Result, p: nat, v: nat): Result {
    r.(st := Put(r.st, p, v))
  }

  function PutFetch(f: Fetch, p: nat, v: nat): Fetch {
    match f
    case Row(st) => Row(Put(st, p, v))
    case Exhausted(st) => Exhausted(Put(st, p, v))
    case FetchFailed(rc, st) => FetchFailed(rc, Put(st, p, v))
  }

  lemma PutSwap(st: State, p: nat, v: nat, q: nat, w: nat)
    requires p != q
    ensures st.cursors[p := v][q := w] == st.cursors[q := w][p := v]
  {
  }

  /** A body reads and writes no cursor but those of its own FOREACH statements. */
  lemma EnterKeeps(eng: Engine, head: Head, at: nat, st: State, p: nat, v: nat)
    requires p != at
    ensures Enter(eng, head, at, Put(st, p, v)) == PutFetch(Enter(eng, head, at, st), p, v)
  {
    PutSwap(st, p, v, at, 0);
    PutSwap(st, p, v, at, Cursor(st, at) + 1);
  }

  lemma {:induction false} BlockKeeps(eng: Engine, b: Block, at: nat, st: State, fuel: nat, p: nat, v: nat)
    requires p < at || p >= at + BlockSize(b)
    ensures ExecBlock(eng, b, at, Put(st, p, v), fuel) == PutAfter(ExecBlock(eng, b, at, st, fuel), p, v)
    decreases fuel, b, 2
  {
    match b
    case Empty =>
    case Then(h, t) =>
      StmtKeeps(eng, h, at, st, fuel, p, v);
      var r := ExecStmt(eng, h, at, st, fuel);
      if r.signal.Proceeds? {
        BlockKeeps(eng, t, at + StmtSize(h), r.st, r.fuel, p, v);
      }
  }

  lemma {:induction false} StmtKeeps(eng: Engine, s: Stmt, at: nat, st: State, fuel: nat, p: nat, v: nat)
    requires p < at || p >= at + StmtSize(s)
    ensures ExecStmt(eng, s, at, Put(st, p, v), fuel) == PutAfter(ExecStmt(eng, s, at, st, fuel), p, v)
    decreases fuel, s, 2
  {
    match s
    case If(cond, body, arms) =>
      IfKeeps(eng, s, at, st, fuel, p, v);
    case Loop(head, body) =>
      LoopKeeps(eng, head, body, at, st, fuel, p, v);
    case _ =>
  }

  lemma {:induction false} IfKeeps(eng: Engine, s: Stmt, at: nat, st: State, fuel: nat, p: nat, v: nat)
    requires s.If? && (p < at || p >= at + StmtSize(s))
    ensures ExecStmt(eng, s, at, Put(st, p, v), fuel) == PutAfter(ExecStmt(eng, s, at, st, fuel), p, v)
    decreases fuel, s, 1
  {
    match Choose(eng, When(s.cond), at, st)
    case Broken(_, _) =>
    case Taken(st1) => BlockKeeps(eng, s.body, at + 1, st1, fuel, p, v);
    case Passed(st1) => ArmsKeep(eng, s.arms, at + 1 + BlockSize(s.body), st1, fuel, p, v);
  }

  lemma {:induction false} ArmsKeep(eng: Engine, a: Arms, at: nat, st: State, fuel: nat, p: nat, v: nat)
    requires p < at || p >= at + ArmsSize(a)
    ensures ExecArms(eng, a, at, Put(st, p, v), fuel) == PutAfter(ExecArms(eng, a, at, st, fuel), p, v)
    decreases fuel, a, 2
  {
    match a
    case EndIf =>
    case Arm(g, body, rest) =>
      match Choose(eng, g, at, st)
      case Broken(_, _) =>
      case Taken(st1) => BlockKeeps(eng, body, at + 1, st1, fuel, p, v);
      case Passed(st1) => ArmsKeep(eng, rest, at + 1 + BlockSize(body), st1, fuel, p, v);
  }

  lemma {:induction false} LoopKeeps(eng: Engine, head: Head, body: Block, at: nat, st: State, fuel: nat,
                                     p: nat, v: nat)
    requires p < at || p >= at + BlockSize(body) + 2
    ensures ExecLoop(eng, head, body, at, Put(st, p, v), fuel)
         == PutAfter(ExecLoop(eng, head, body, at, st, fuel), p, v)
    decreases fuel, body, 4
  {
    EnterKeeps(eng, head, at, st, p, v);
    var f := Enter(eng, head, at, st);
    if f.Row? {
      AgainKeeps(eng, head, body, at, f.st, fuel, p, v);
      var r := ExecBlock(eng, body, at + 1, f.st, fuel);
      OneRound(eng, head, body, at, st, f.st, fuel, r);
      OneRound(eng, head, body, at, Put(st, p, v), Put(f.st, p, v), fuel, PutAfter(r, p, v));
    } else {
      NoRound(eng, head, body, at, st, fuel, p, v);
    }
  }

  lemma {:induction false} AgainKeeps(eng: Engine, head: Head, body: Block, at: nat, st: State, fuel: nat,
                                      p: nat, v: nat)
    requires p < at || p >= at + BlockSize(body) + 2
    ensures var r := ExecBlock(eng, body, at + 1, st, fuel);
            ExecBlock(eng, body, at + 1, Put(st, p, v), fuel) == PutAfter(r, p, v)
            && ExecLoopAgain(eng, head, body, at, PutAfter(r, p, v))
               == PutAfter(ExecLoopAgain(eng, head, body, at, r), p, v)
    decreases fuel, body, 3
  {
    BlockKeeps(eng, body, at + 1, st, fuel, p, v);
    var r := ExecBlock(eng, body, at + 1, st, fuel);
    if Again(r) {
      LoopKeeps(eng, head, body, at, r.st, r.fuel - 1, p, v);
    }
    AfterRound(eng, head, body, at, r, p, v);
  }

  lemma AfterRound(eng: Engine, head: Head, body: Block, at: nat, r: Result, p: nat, v: nat)
    requires Again(r) ==> ExecLoop(eng, head, body, at, Put(r.st, p, v), r.fuel - 1)
                          == PutAfter(ExecLoop(eng, head, body, at, r.st, r.fuel - 1), p, v)
    ensures ExecLoopAgain(eng, head, body, at, PutAfter(r, p, v))
         == PutAfter(ExecLoopAgain(eng, head, body, at, r), p, v)
  {
    if !Again(r) {
      LeaveKeeps(r, p, v);
    }
  }

  /** The loop after one run of its body. */
  function ExecLoopAgain(eng: Engine, head: Head, body: Block, at: nat, r: Result): Result {
    if Again(r) then ExecLoop(eng, head, body, at, r.st, r.fuel - 1) else Leave(r)
  }

  lemma LeaveKeeps(r: Result, p: nat, v: nat)
    requires !Again(r)
    ensures !Again(PutAfter(r, p, v)) && Leave(PutAfter(r, p, v)) == PutAfter(Leave(r), p, v)
  {
  }

  lemma NoRound(eng: Engine, head: Head, body: Block, at: nat, st: State, fuel: nat, p: nat, v: nat)
    requires !Enter(eng, head, at, st).Row?
    requires Enter(eng, head, at, Put(st, p, v)) == PutFetch(Enter(eng, head, at, st), p, v)
    ensures ExecLoop(eng, head, body, at, Put(st, p, v), fuel)
         == PutAfter(ExecLoop(eng, head, body, at, st, fuel), p, v)
  {
  }

  lemma OneRound(eng: Engine, head: Head, body: Block, at: nat, st: State, st1: State, fuel: nat, r: Result)
    requires Enter(eng, head, at, st) == Row(st1) && r == ExecBlock(eng, body, at + 1, st1, fuel)
    ensures ExecLoop(eng, head, body, at, st, fuel) == ExecLoopAgain(eng, head, body, at, r)
  {
  }

  /** The loop a reader expects: for each item in order, assign it and run the
      body. It has no cursor. `Disturbed` covers a body that leaves the loop, a
      list that no longer is `all`, an item of the wrong width, or spent fuel. */
  datatype Sweep = Swept(st: State, fuel: nat) | Disturbed

  function SweepItems(eng: Engine, vars: seq<string>, source: Source, body: Block, at: nat,
                      all: seq<Value>, items: seq<Value>, st: State, fuel: nat): Sweep
    requires !source.FromSelect?
    decreases |items|
  {
    if items == [] then Swept(st, fuel)
    else if |Columns(items[0])| != |vars| then Disturbed
    else
      var r := ExecBlock(eng, body, at + 1, Bind(vars, items[0], at, st), fuel);
      if Again(r) && ListOfSource(source, r.st.store) == Items(all)
      then SweepItems(eng, vars, source, body, at, all, items[1..], r.st, r.fuel - 1)
      else Disturbed
  }

  function Bind(vars: seq<string>, item: Value, at: nat, st: State): State
    requires |Columns(item)| == |vars|
  {
    st.(store := st.store.(vars := Assign(st.store.vars, vars, Columns(item))),
        trace := st.trace + [Fetched(at, item)])
  }

  lemma EnterItem(eng: Engine, vars: seq<string>, source: Source, at: nat, all: seq<Value>, c: nat, st: State)
    requires !source.FromSelect? && ListOfSource(source, st.store) == Items(all) && c < |all|
    requires |Columns(all[c])| == |vars|
    ensures Enter(eng, Each(vars, source), at, Put(st, at, c)) == Row(Put(Bind(vars, all[c], at, st), at, c + 1))
  {
    assert Put(st, at, c).cursors[at := c + 1] == st.cursors[at := c + 1];
  }

  /** FOREACH entered with cursor `c` runs its body once for each item from the
      c-th on, in order, and leaves its cursor at 0. Entered with cursor 0 it
      visits every item. This holds on every entry, however deeply nested. */
  lemma {:induction false} ForEachComplete(eng: Engine, vars: seq<string>, source: Source, body: Block, at: nat,
                                           all: seq<Value>, c: nat, st: State, fuel: nat)
    requires !source.FromSelect? && ListOfSource(source, st.store) == Items(all) && c <= |all|
    requires SweepItems(eng, vars, source, body, at, all, all[c..], st, fuel).Swept?
    ensures var s := SweepItems(eng, vars, source, body, at, all, all[c..], st, fuel);
            ExecLoop(eng, Each(vars, source), body, at, Put(st, at, c), fuel)
            == Result(Proceeds, Put(s.st, at, 0), s.fuel)
    decreases |all| - c
  {
    if c == |all| {
      assert Put(Put(st, at, c), at, 0) == Put(st, at, 0);
    } else {
      assert all[c..][0] == all[c] && all[c..][1..] == all[c + 1..];
      var st1 := Bind(vars, all[c], at, st);
      EnterItem(eng, vars, source, at, all, c, st);
      BlockKeeps(eng, body, at + 1, st1, fuel, at, c + 1);
      var r := ExecBlock(eng, body, at + 1, st1, fuel);
      OneRound(eng, Each(vars, source), body, at, Put(st, at, c), Put(st1, at, c + 1), fuel, PutAfter(r, at, c + 1));
      ForEachComplete(eng, vars, source, body, at, all, c + 1, r.st, r.fuel - 1);
    }
  }

  /** A FOREACH left by BREAK, by an outer CONTINUE, by RETURN or by an error at
      item `c` keeps its cursor after that item: the next entry resumes there. */
  lemma LeftEarlyResumes(eng: Engine, vars: seq<string>, source: Source, body: Block, at: nat,
                         all: seq<Value>, c: nat, st: State, fuel: nat)
    requires !source.FromSelect? && ListOfSource(source, st.store) == Items(all) && c < |all|
    requires |Columns(all[c])| == |vars|
    requires var r := ExecBlock(eng, body, at + 1, Bind(vars, all[c], at, st), fuel);
             r.signal.Breaks? || r.signal.Stops? || (r.signal.Continues? && r.signal.k > 0)
    ensures var r := ExecLoop(eng, Each(vars, source), body, at, Put(st, at, c), fuel);
            Cursor(r.st, at) == c + 1
  {
    EnterItem(eng, vars, source, at, all, c, st);
    BlockKeeps(eng, body, at + 1, Bind(vars, all[c], at, st), fuel, at, c + 1);
  }

  /** The items a FOREACH statement fetched, in order. */
  function FetchedAt(trace: seq<Event>, at: nat): seq<Value> {
    if trace == [] then []
    else
      var e := trace[|trace| - 1];
      FetchedAt(trace[..|trace| - 1], at) + if IsFetch(e, at) then [e.item] else []
  }

  predicate IsFetch(e: Event, at: nat) {
    e.Fetched? && e.pos == at
  }

  /** `t1` extends `t0` by events that are no fetches of statement `p`. */
  predicate Silent(t0: seq<Event>, t1: seq<Event>, p: nat) {
    t0 <= t1 && forall i :: |t0| <= i < |t1| ==> !IsFetch(t1[i], p)
  }

  lemma {:induction false} SilentFetches(t0: seq<Event>, t1: seq<Event>, p: nat)
    requires Silent(t0, t1, p)
    ensures FetchedAt(t1, p) == FetchedAt(t0, p)
    decreases |t1|
  {
    if |t1| > |t0| {
      SilentFetches(t0, t1[..|t1| - 1], p);
    } else {
      assert t0 == t1;
    }
  }

  lemma SilentChain(t0: seq<Event>, t1: seq<Event>, t2: seq<Event>, p: nat)
    requires Silent(t0, t1, p) && Silent(t1, t2, p)
    ensures Silent(t0, t2, p)
  {
  }

  lemma EnterQuiet(eng: Engine, head: Head, at: nat, st: State, p: nat)
    requires p != at
    ensures Silent(st.trace, Enter(eng, head, at, st).st.trace, p)
  {
  }

  lemma {:induction false} BlockQuiet(eng: Engine, b: Block, at: nat, st: State, fuel: nat, p: nat)
    requires p < at || p >= at + BlockSize(b)
    ensures Silent(st.trace, ExecBlock(eng, b, at, st, fuel).st.trace, p)
    decreases fuel, b, 2
  {
    match b
    case Empty =>
    case Then(h, t) =>
      StmtQuiet(eng, h, at, st, fuel, p);
      var r := ExecStmt(eng, h, at, st, fuel);
      if r.signal.Proceeds? {
        BlockQuiet(eng, t, at + StmtSize(h), r.st, r.fuel, p);
        SilentChain(st.trace, r.st.trace, ExecBlock(eng, b, at, st, fuel).st.trace, p);
      }
  }

  lemma {:induction false} StmtQuiet(eng: Engine, s: Stmt, at: nat, st: State, fuel: nat, p: nat)
    requires p < at || p >= at + StmtSize(s)
    ensures Silent(st.trace, ExecStmt(eng, s, at, st, fuel).st.trace, p)
    decreases fuel, s, 2
  {
    match s
    case If(cond, body, arms) =>
      IfQuiet(eng, s, at, st, fuel, p);
    case Loop(head, body) =>
      LoopQuiet(eng, head, body, at, st, fuel, p);
    case _ =>
  }

  lemma {:induction false} IfQuiet(eng: Engine, s: Stmt, at: nat, st: State, fuel: nat, p: nat)
    requires s.If? && (p < at || p >= at + StmtSize(s))
    ensures Silent(st.trace, ExecStmt(eng, s, at, st, fuel).st.trace, p)
    decreases fuel, s, 1
  {
    match Choose(eng, When(s.cond), at, st)
    case Broken(_, _) =>
    case Taken(st1) => BlockQuiet(eng, s.body, at + 1, st1, fuel, p);
    case Passed(st1) => ArmsQuiet(eng, s.arms, at + 1 + BlockSize(s.body), st1, fuel, p);
  }

  lemma {:induction false} ArmsQuiet(eng: Engine, a: Arms, at: nat, st: State, fuel: nat, p: nat)
    requires p < at || p >= at + ArmsSize(a)
    ensures Silent(st.trace, ExecArms(eng, a, at, st, fuel).st.trace, p)
    decreases fuel, a, 2
  {
    match a
    case EndIf =>
    case Arm(g, body, rest) =>
      match Choose(eng, g, at, st)
      case Broken(_, _) =>
      case Taken(st1) => BlockQuiet(eng, body, at + 1, st1, fuel, p);
      case Passed(st1) => ArmsQuiet(eng, rest, at + 1 + BlockSize(body), st1, fuel, p);
  }

  lemma {:induction false} LoopQuiet(eng: Engine, head: Head, body: Block, at: nat, st: State, fuel: nat, p: nat)
    requires p < at || p >= at + BlockSize(body) + 2
    ensures Silent(st.trace, ExecLoop(eng, head, body, at, st, fuel).st.trace, p)
    decreases fuel, body, 3
  {
    EnterQuiet(eng, head, at, st, p);
    var f := Enter(eng, head, at, st);
    if f.Row? {
      BlockQuiet(eng, body, at + 1, f.st, fuel, p);
      var r := ExecBlock(eng, body, at + 1, f.st, fuel);
      SilentChain(st.trace, f.st.trace, r.st.trace, p);
      if Again(r) {
        LoopQuiet(eng, head, body, at, r.st, r.fuel - 1, p);
        SilentChain(st.trace, r.st.trace, ExecLoop(eng, head, body, at, r.st, r.fuel - 1).st.trace, p);
      }
    }
  }

  lemma FetchedAdd(trace: seq<Event>, at: nat, item: Value)
    ensures FetchedAt(trace + [Fetched(at, item)], at) == FetchedAt(trace, at) + [item]
  {
  }

  lemma BodyFetches(eng: Engine, vars: seq<string>, item: Value, body: Block, at: nat, st: State, fuel: nat)
    requires |Columns(item)| == |vars|
    ensures FetchedAt(ExecBlock(eng, body, at + 1, Bind(vars, item, at, st), fuel).st.trace, at)
         == FetchedAt(st.trace, at) + [item]
  {
    var st1 := Bind(vars, item, at, st);
    FetchedAdd(st.trace, at, item);
    BlockQuiet(eng, body, at + 1, st1, fuel, at);
    SilentFetches(st1.trace, ExecBlock(eng, body, at + 1, st1, fuel).st.trace, at);
  }

  /** The statement fetches exactly the items it was given, in order, once each. */
  lemma {:induction false} SweepFetches(eng: Engine, vars: seq<string>, source: Source, body: Block, at: nat,
                                        all: seq<Value>, items: seq<Value>, st: State, fuel: nat)
    requires !source.FromSelect?
    requires SweepItems(eng, vars, source, body, at, all, items, st, fuel).Swept?
    ensures var s := SweepItems(eng, vars, source, body, at, all, items, st, fuel);
            FetchedAt(s.st.trace, at) == FetchedAt(st.trace, at) + items
    decreases |items|
  {
    if items != [] {
      BodyFetches(eng, vars, items[0], body, at, st, fuel);
      var r := ExecBlock(eng, body, at + 1, Bind(vars, items[0], at, st), fuel);
      SweepFetches(eng, vars, source, body, at, all, items[1..], r.st, r.fuel - 1);
      Regroup(FetchedAt(st.trace, at), items);
    }
  }

  lemma Regroup(before: seq<Value>, items: seq<Value>)
    requires items != []
    ensures before + [items[0]] + items[1..] == before + items
  {
  }
}
