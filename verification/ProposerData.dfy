/** The data of built, replayed and committed blocks: exactly what the executions of their
    transactions return. */
module ProposerData {
  import opened Common
  import opened ProposerModel
  import opened ProposerProofs
  import opened ProposerChain

  /** A transaction succeeds if and only if its commands do and its node is known; then the
      database is what the commands return, and in all other cases it is untouched. */
  lemma ExecuteIff(exec: Exec, s: State, t: Txn)
    ensures var r, ran := exec(s.data, t), Execute(exec, s, t);
            (ran.rc == OK <==> r.Done? && t.node in s.last)
            && (ran.rc == ERROR <==> r == Failed) && (ran.rc == BUSY <==> r == Busy)
            && (ran.rc == OK ==> ran.state.data == r.data) && (ran.rc != OK ==> ran.state.data == s.data)
  {
  }

  /** One item of a block on data `d`: a transaction that succeeded brings its own data, one
      that failed brings none, and an item that does not say what happened has no meaning. */
  function ItemData(exec: Exec, pool: seq<Slot>, d: Data, x: Item): Option<Data> {
    var t := Find(pool, x.id);
    if t.None? then None
    else
      match exec(d, t.value)
      case Done(e) => if x.failed then None else Some(e)
      case Failed => if x.failed then Some(d) else None
      case _ => None
  }

  /** The items of a block in order, the transactions looked up in a mempool. */
  function BlockData(exec: Exec, pool: seq<Slot>, d: Data, items: seq<Item>): Option<Data>
    decreases |items|
  {
    if items == [] then Some(d)
    else
      var n := |items| - 1;
      var before := BlockData(exec, pool, d, items[..n]);
      if before.None? then None else ItemData(exec, pool, before.value, items[n])
  }

  lemma OneMoreItem(exec: Exec, pool: seq<Slot>, d: Data, items: seq<Item>, x: Item)
    ensures BlockData(exec, pool, d, items + [x])
         == var before := BlockData(exec, pool, d, items);
            if before.None? then None else ItemData(exec, pool, before.value, x)
  {
    assert (items + [x])[..|items|] == items;
  }

  lemma IncludeData(exec: Exec, d: Data, other: seq<Slot>, b: Build, i: nat)
    requires i < |b.pool| && Includable(exec, b, i) && Find(other, b.pool[i].txn.Id()) == Some(b.pool[i].txn)
    requires BlockData(exec, other, d, b.items) == Some(b.state.data)
    ensures var c := Include(exec, b, i); BlockData(exec, other, d, c.items) == Some(c.state.data)
  {
    var t := b.pool[i].txn;
    ExecuteIff(exec, b.state, t);
    OneMoreItem(exec, other, d, b.items, Item(t.Id(), false));
    OneMoreItem(exec, other, d, b.items, Item(t.Id(), true));
  }

  lemma {:induction false} FillData(exec: Exec, d: Data, other: seq<Slot>, b: Build)
    requires Holds(other, Fill(exec, b).taken) && BlockData(exec, other, d, b.items) == Some(b.state.data)
    ensures BlockData(exec, other, d, Fill(exec, b).items) == Some(Fill(exec, b).state.data)
    decreases Unused(b.pool)
  {
    var i := NextIncludable(exec, b, 0);
    if i < |b.pool| {
      UseOne(b.pool, i, b.pool[i].(height := -1));
      var c, k := Include(exec, b, i), |b.taken|;
      TakenStays(exec, c);
      assert Fill(exec, c).taken[k] == Fill(exec, c).taken[..|c.taken|][k];
      assert Fill(exec, b).taken[k].txn == b.pool[i].txn;
      IncludeData(exec, d, other, b, i);
      FillData(exec, d, other, c);
    }
  }

  /** The data of a built block is that of its transactions one after the other, from the
      builder's data on, for everybody who holds them. */
  lemma BuiltData(exec: Exec, s: State, pool: seq<Slot>, other: seq<Slot>)
    requires Propose(exec, s, pool).Some? && Holds(other, Filled(exec, s, pool).taken)
    ensures var body := Propose(exec, s, pool).value;
            BlockData(exec, other, s.data, body.items) == Some(body.state.data)
  {
    FillData(exec, s.data, other, Start(pool, s));
  }

  lemma HoldsOwn(exec: Exec, s: State, pool: seq<Slot>)
    requires DistinctIds(pool)
    ensures Holds(pool, Filled(exec, s, pool).taken)
  {
    var b := Filled(exec, s, pool);
    FilledKeeps(exec, s, pool);
    forall k | 0 <= k < |b.taken| ensures Find(pool, b.taken[k].txn.Id()) == Some(b.taken[k].txn) {
      assert InPool(pool, b.taken[k].txn, 0);
      var i :| 0 <= i < |pool| && pool[i] == Slot(b.taken[k].txn, 0);
      FindOnly(pool, i);
    }
  }

  /** What a replay does with an item: the data of a transaction that succeeds, the old data
      for one that is marked as failed, whatever the reason. */
  function ReplayedItem(exec: Exec, pool: seq<Slot>, d: Data, x: Item): Option<Data> {
    var t := Find(pool, x.id);
    if t.None? then None
    else if x.failed then Some(d)
    else if exec(d, t.value).Done? then Some(exec(d, t.value).data) else None
  }

  function ReplayedData(exec: Exec, pool: seq<Slot>, d: Data, items: seq<Item>): Option<Data>
    decreases |items|
  {
    if items == [] then Some(d)
    else
      var n := |items| - 1;
      var before := ReplayedData(exec, pool, d, items[..n]);
      if before.None? then None else ReplayedItem(exec, pool, before.value, items[n])
  }

  /** A replay that succeeds ends in that data. */
  lemma {:induction false} ReplayData(exec: Exec, s: State, pool: seq<Slot>, items: seq<Item>)
    requires Replay(exec, s, pool, items).Some?
    ensures ReplayedData(exec, pool, s.data, items) == Some(Replay(exec, s, pool, items).value.data)
    decreases |items|
  {
    if items != [] {
      var n := |items| - 1;
      var before := Replay(exec, s, pool, items[..n]);
      ReplayData(exec, s, pool, items[..n]);
      ExecuteIff(exec, before.value, Find(pool, items[n].id).value);
    }
  }

  /** The blocks of a chain in order, each with the mempool it was built from. */
  function ChainData(exec: Exec, pools: seq<seq<Slot>>, d: Data, chain: seq<Body>): Option<Data>
    requires |pools| == |chain|
    decreases |chain|
  {
    if chain == [] then Some(d)
    else
      var m := |chain| - 1;
      var before := ChainData(exec, pools[..m], d, chain[..m]);
      if before.None? then None else BlockData(exec, pools[m], before.value, chain[m].items)
  }

  lemma OwnData(exec: Exec, s: State, pool: seq<Slot>, body: Body)
    requires Propose(exec, s, pool) == Some(body) && DistinctIds(pool)
    ensures BlockData(exec, pool, s.data, body.items) == Some(body.state.data)
  {
    HoldsOwn(exec, s, pool);
    BuiltData(exec, s, pool, pool);
  }

  lemma OneMoreBlock(exec: Exec, pools: seq<seq<Slot>>, d: Data, chain: seq<Body>, before: Data, after: Data)
    requires |pools| == |chain| > 0
    requires ChainData(exec, pools[..|chain| - 1], d, chain[..|chain| - 1]) == Some(before)
    requires BlockData(exec, pools[|chain| - 1], before, chain[|chain| - 1].items) == Some(after)
    ensures ChainData(exec, pools, d, chain) == Some(after)
  {
  }

  /** The data at the end of a chain of built blocks. */
  lemma {:induction false} BuiltChainData(exec: Exec, s: State, pools: seq<seq<Slot>>, chain: seq<Body>)
    requires BuiltChain(exec, s, pools, chain) && forall pool :: pool in pools ==> DistinctIds(pool)
    ensures ChainData(exec, pools, s.data, chain) == Some(Tip(s, chain).data)
    decreases |chain|
  {
    if chain != [] {
      var m := |chain| - 1;
      var front, last := chain[..m], chain[m];
      BuiltFront(exec, s, pools, chain);
      BuiltChainData(exec, s, pools[..m], front);
      OwnData(exec, Tip(s, front), pools[m], last);
      OneMoreBlock(exec, pools, s.data, chain, Tip(s, front).data, last.state.data);
    }
  }
}
