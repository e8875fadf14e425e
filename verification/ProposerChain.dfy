/** Replay of built blocks, and the nonces of a whole chain of them. */
module ProposerChain {
  import opened Common
  import opened ProposerModel
  import opened ProposerProofs

  // ---- replay ----

  /** The node's mempool holds what the block needs: the id names the same transaction. */
  predicate Holds(pool: seq<Slot>, ts: seq<Taken>) {
    forall k :: 0 <= k < |ts| ==> Find(pool, ts[k].txn.Id()) == Some(ts[k].txn)
  }

  lemma IncludeReplays(exec: Exec, s: State, other: seq<Slot>, b: Build, i: nat)
    requires i < |b.pool| && Includable(exec, b, i) && Find(other, b.pool[i].txn.Id()) == Some(b.pool[i].txn)
    requires Replay(exec, s, other, b.items) == Some(b.state)
    ensures var c := Include(exec, b, i); Replay(exec, s, other, c.items) == Some(c.state)
  {
  }

  lemma {:induction false} TakenStays(exec: Exec, b: Build)
    ensures |b.taken| <= |Fill(exec, b).taken| && Fill(exec, b).taken[..|b.taken|] == b.taken
    decreases Unused(b.pool)
  {
    var i := NextIncludable(exec, b, 0);
    if i < |b.pool| {
      UseOne(b.pool, i, b.pool[i].(height := -1));
      var c := Include(exec, b, i);
      TakenStays(exec, c);
      assert Fill(exec, b).taken[..|b.taken|] == Fill(exec, c).taken[..|c.taken|][..|b.taken|];
    }
  }

  lemma {:induction false} FillReplays(exec: Exec, s: State, other: seq<Slot>, b: Build)
    requires Holds(other, Fill(exec, b).taken) && Replay(exec, s, other, b.items) == Some(b.state)
    ensures Replay(exec, s, other, Fill(exec, b).items) == Some(Fill(exec, b).state)
    decreases Unused(b.pool)
  {
    var i := NextIncludable(exec, b, 0);
    if i < |b.pool| {
      UseOne(b.pool, i, b.pool[i].(height := -1));
      var c := Include(exec, b, i);
      TakenStays(exec, c);
      var k := |b.taken|;
      assert Fill(exec, c).taken[k] == Fill(exec, c).taken[..|c.taken|][k];
      assert Fill(exec, b).taken[k].txn == b.pool[i].txn;
      IncludeReplays(exec, s, other, b, i);
      FillReplays(exec, s, other, c);
    }
  }

  /** Replicated state: a node in the same prior state whose mempool holds the
      transactions accepts every built block, and reaches the builder's state. */
  lemma BuiltIsAccepted(exec: Exec, s: State, pool: seq<Slot>, other: seq<Slot>)
    requires Propose(exec, s, pool).Some? && Holds(other, Filled(exec, s, pool).taken)
    ensures Accepts(exec, s, other, Propose(exec, s, pool).value)
  {
    FillReplays(exec, s, other, Start(pool, s));
  }

  lemma {:induction false} FindOnly(pool: seq<Slot>, i: nat)
    requires DistinctIds(pool) && i < |pool|
    ensures Find(pool, pool[i].txn.Id()) == Some(pool[i].txn)
    decreases |pool|
  {
  }

  /** In particular the builder's own mempool replays its block. */
  lemma AcceptsOwn(exec: Exec, s: State, pool: seq<Slot>)
    requires DistinctIds(pool) && Propose(exec, s, pool).Some?
    ensures Accepts(exec, s, pool, Propose(exec, s, pool).value)
  {
    var b := Filled(exec, s, pool);
    FilledKeeps(exec, s, pool);
    forall k | 0 <= k < |b.taken| ensures Find(pool, b.taken[k].txn.Id()) == Some(b.taken[k].txn) {
      assert InPool(pool, b.taken[k].txn, 0);
      var i :| 0 <= i < |pool| && pool[i] == Slot(b.taken[k].txn, 0);
      FindOnly(pool, i);
    }
    BuiltIsAccepted(exec, s, pool, pool);
  }

  // ---- nonces of one block ----

  /** The nonces a block uses for one node. */
  function NoncesOf(items: seq<Item>, n: NodeId): seq<nat> {
    if items == [] then []
    else
      var id := items[|items| - 1].id;
      NoncesOf(items[..|items| - 1], n) + if id.node == n then [id.nonce] else []
  }

  /** The state and the items follow from the transactions taken. */
  predicate Recorded(last: map<NodeId, nat>, b: Build, n: NodeId) {
    NoncesOf(b.items, n) == Included(b.taken, n)
    && b.state.last.Keys == last.Keys
    && (n in last ==> b.state.last[n] == if Included(b.taken, n) == [] then last[n] else Last(Included(b.taken, n)))
  }

  function Last(s: seq<nat>): nat
    requires s != []
  {
    s[|s| - 1]
  }

  lemma NoncesOfMore(items: seq<Item>, t: Txn, rc: Rc, n: NodeId)
    ensures NoncesOf(ItemsAfter(items, t, rc), n)
         == NoncesOf(items, n) + if t.node == n && (rc == OK || rc == ERROR) then [t.nonce] else []
  {
  }

  lemma IncludedMore(ts: seq<Taken>, x: Taken, n: NodeId)
    ensures Included(ts + [x], n)
         == Included(ts, n) + if x.txn.node == n && x.rc != BUSY then [x.txn.nonce] else []
  {
  }

  lemma LastAfter(exec: Exec, s: State, t: Txn, n: NodeId)
    ensures var r := Execute(exec, s, t);
            r.state.last.Keys == s.last.Keys
            && (n in s.last ==>
                  r.state.last[n] == if t.node == n && (r.rc == OK || r.rc == ERROR) then t.nonce else s.last[n])
  {
  }

  lemma IncludeRecords(exec: Exec, last: map<NodeId, nat>, b: Build, i: nat, n: NodeId)
    requires i < |b.pool| && Includable(exec, b, i) && Recorded(last, b, n)
    ensures Recorded(last, Include(exec, b, i), n)
  {
    var t := b.pool[i].txn;
    var rc := Execute(exec, b.state, t).rc;
    NoncesOfMore(b.items, t, rc, n);
    IncludedMore(b.taken, Taken(t, rc), n);
    LastAfter(exec, b.state, t, n);
    if t.node == n && rc != BUSY {
      assert Last(Included(b.taken, n) + [t.nonce]) == t.nonce;
    } else {
      assert Included(b.taken, n) + [] == Included(b.taken, n);
    }
  }

  lemma {:induction false} FillRecords(exec: Exec, last: map<NodeId, nat>, b: Build, n: NodeId)
    requires Recorded(last, b, n)
    ensures Recorded(last, Fill(exec, b), n)
    decreases Unused(b.pool)
  {
    var i := NextIncludable(exec, b, 0);
    if i < |b.pool| {
      UseOne(b.pool, i, b.pool[i].(height := -1));
      IncludeRecords(exec, last, b, i, n);
      FillRecords(exec, last, Include(exec, b, i), n);
    }
  }

  /** Once one transaction of the node was busy, all its later ones were. */
  predicate BusyLast(ts: seq<Taken>, n: NodeId) {
    forall i, j :: 0 <= i < j < |ts| && ts[i].txn.node == n && ts[j].txn.node == n && ts[i].rc == BUSY
                   ==> ts[j].rc == BUSY
  }

  predicate HasBusy(ts: seq<Taken>, n: NodeId) {
    exists i :: 0 <= i < |ts| && ts[i].txn.node == n && ts[i].rc == BUSY
  }

  predicate GapFree(s: seq<nat>, low: nat) {
    s == UpTo(low, |s|)
  }

  lemma {:induction false} BusyIsMissing(ts: seq<Taken>, n: NodeId)
    ensures |Included(ts, n)| <= |Nonces(ts, n)|
    ensures |Included(ts, n)| == |Nonces(ts, n)| <==> !HasBusy(ts, n)
    decreases |ts|
  {
    if ts != [] {
      var front, last := ts[..|ts| - 1], ts[|ts| - 1];
      BusyIsMissing(front, n);
      if HasBusy(front, n) {
        var i :| 0 <= i < |front| && front[i].txn.node == n && front[i].rc == BUSY;
        assert ts[i] == front[i];
      }
      if HasBusy(ts, n) && !(last.txn.node == n && last.rc == BUSY) {
        var i :| 0 <= i < |ts| && ts[i].txn.node == n && ts[i].rc == BUSY;
        assert front[i] == ts[i];
      }
    }
  }

  lemma Shorten(low: nat, k: nat, s: seq<nat>)
    requires s == UpTo(low, k) && k > 0
    ensures s[..k - 1] == UpTo(low, k - 1) && s[k - 1] == low + k
  {
  }

  lemma BusyLastFront(ts: seq<Taken>, n: NodeId)
    requires ts != []
    ensures var front, last := ts[..|ts| - 1], ts[|ts| - 1];
            BusyLast(ts, n) <==> BusyLast(front, n) && (last.txn.node == n && last.rc != BUSY ==> !HasBusy(front, n))
  {
  }

  /** Nonces that were taken in order leave no gap in the block if and only if no
      busy transaction of the node was followed by one that entered the block. */
  lemma {:induction false} GapFreeIff(ts: seq<Taken>, n: NodeId, low: nat)
    requires GapFree(Nonces(ts, n), low)
    ensures GapFree(Included(ts, n), low) <==> BusyLast(ts, n)
    decreases |ts|
  {
    if ts != [] {
      var front, last := ts[..|ts| - 1], ts[|ts| - 1];
      var k := |Nonces(front, n)|;
      if last.txn.node == n {
        Shorten(low, k + 1, Nonces(ts, n));
        assert Nonces(ts, n)[..k] == Nonces(front, n);
      }
      GapFreeIff(front, n, low);
      BusyLastFront(ts, n);
      BusyIsMissing(front, n);
      if last.txn.node == n && last.rc != BUSY {
        LastFits(Included(front, n), low + 1 + k, low);
      }
    }
  }

  lemma LastFits(s: seq<nat>, x: nat, low: nat)
    ensures GapFree(s + [x], low) <==> GapFree(s, low) && x == low + 1 + |s|
  {
    if GapFree(s + [x], low) {
      Shorten(low, |s| + 1, s + [x]);
      assert (s + [x])[..|s|] == s;
    }
    if GapFree(s, low) {
      OneMore(low, |s|);
    }
  }

  // ---- when transactions are busy ----

  /** Whether execution answers SQLITE_BUSY depends only on the transaction. */
  ghost predicate BusyIsFixed(exec: Exec, busy: Txn -> bool, last: map<NodeId, nat>) {
    forall d: Data, t: Txn, l: map<NodeId, nat> {:trigger Execute(exec, State(d, l), t)} ::
      l.Keys == last.Keys ==> (Execute(exec, State(d, l), t).rc == BUSY <==> busy(t))
  }

  /** In the maximal run of node `n` only busy transactions follow a busy one. */
  ghost predicate BusyAtEnd(pool: seq<Slot>, last: map<NodeId, nat>, refused: Txn -> bool, busy: Txn -> bool,
                            n: NodeId) {
    forall t: Txn, x: Txn ::
      (InRun(pool, last, refused, t) && InRun(pool, last, refused, x)
       && t.node == n && x.node == n && t.nonce < x.nonce && busy(t))
      ==> busy(x)
  }

  predicate ToldBusy(busy: Txn -> bool, last: map<NodeId, nat>, b: Build) {
    b.state.last.Keys == last.Keys
    && forall k :: 0 <= k < |b.taken| ==> (b.taken[k].rc == BUSY <==> busy(b.taken[k].txn))
  }

  lemma {:induction false} FillTellsBusy(exec: Exec, busy: Txn -> bool, last: map<NodeId, nat>, b: Build)
    requires BusyIsFixed(exec, busy, last) && ToldBusy(busy, last, b)
    ensures ToldBusy(busy, last, Fill(exec, b))
    decreases Unused(b.pool)
  {
    var i := NextIncludable(exec, b, 0);
    if i < |b.pool| {
      UseOne(b.pool, i, b.pool[i].(height := -1));
      var t := b.pool[i].txn;
      assert Execute(exec, State(b.state.data, b.state.last), t).rc == BUSY <==> busy(t);
      LastAfter(exec, b.state, t, t.node);
      FillTellsBusy(exec, busy, last, Include(exec, b, i));
    }
  }

  lemma {:induction false} TakenInOrder(ts: seq<Taken>, n: NodeId, low: nat, i: nat, j: nat)
    requires GapFree(Nonces(ts, n), low) && i < j < |ts| && ts[i].txn.node == n && ts[j].txn.node == n
    ensures ts[i].txn.nonce < ts[j].txn.nonce
    decreases |ts|
  {
    var m := |ts| - 1;
    var front := ts[..m];
    var k := |Nonces(front, n)|;
    if ts[m].txn.node == n {
      Shorten(low, k + 1, Nonces(ts, n));
      assert Nonces(ts, n)[..k] == Nonces(front, n);
    }
    if j < m {
      TakenInOrder(front, n, low, i, j);
    } else {
      TakenNonce(front, i);
      assert ts[i].txn.nonce in UpTo(low, k);
    }
  }

  /** The busy transactions among those taken are the busy ones of the run. */
  lemma BusyLastIff(exec: Exec, s: State, pool: seq<Slot>, refused: Txn -> bool, busy: Txn -> bool, n: NodeId)
    requires DistinctIds(pool) && PermIsFixed(exec, refused, s.last) && BusyIsFixed(exec, busy, s.last)
    requires n in s.last && HasUnused(pool, n)
    ensures BusyLast(Filled(exec, s, pool).taken, n) <==> BusyAtEnd(pool, s.last, refused, busy, n)
  {
    var b := Filled(exec, s, pool);
    FilledKeeps(exec, s, pool);
    FillTellsBusy(exec, busy, s.last, Start(pool, s));
    assert GapFree(Nonces(b.taken, n), s.last[n]);
    if BusyAtEnd(pool, s.last, refused, busy, n) {
      forall i, j | 0 <= i < j < |b.taken| && b.taken[i].txn.node == n && b.taken[j].txn.node == n
                    && b.taken[i].rc == BUSY
        ensures b.taken[j].rc == BUSY
      {
        RunOfTaken(exec, s, pool, refused, i);
        RunOfTaken(exec, s, pool, refused, j);
        TakenInOrder(b.taken, n, s.last[n], i, j);
      }
    }
    if BusyLast(b.taken, n) {
      BusyLastOfRun(exec, s, pool, refused, busy, n);
    }
  }

  lemma BusyLastOfRun(exec: Exec, s: State, pool: seq<Slot>, refused: Txn -> bool, busy: Txn -> bool, n: NodeId)
    requires DistinctIds(pool) && PermIsFixed(exec, refused, s.last) && n in s.last
    requires var b := Filled(exec, s, pool);
             ToldBusy(busy, s.last, b) && GapFree(Nonces(b.taken, n), s.last[n]) && BusyLast(b.taken, n)
    ensures BusyAtEnd(pool, s.last, refused, busy, n)
  {
    var b := Filled(exec, s, pool);
    forall t: Txn, x: Txn | InRun(pool, s.last, refused, t) && InRun(pool, s.last, refused, x)
                            && t.node == n && x.node == n && t.nonce < x.nonce && busy(t)
      ensures busy(x)
    {
      var i := TakenOfRun(exec, s, pool, refused, t);
      var j := TakenOfRun(exec, s, pool, refused, x);
      if j < i {
        TakenInOrder(b.taken, n, s.last[n], j, i);
      }
    }
  }

  lemma RunOfTaken(exec: Exec, s: State, pool: seq<Slot>, refused: Txn -> bool, i: nat)
    requires DistinctIds(pool) && PermIsFixed(exec, refused, s.last) && i < |Filled(exec, s, pool).taken|
    ensures InRun(pool, s.last, refused, Filled(exec, s, pool).taken[i].txn)
  {
    var t := Filled(exec, s, pool).taken[i].txn;
    assert WasTaken(Filled(exec, s, pool).taken, t);
    TakesMaximalRuns(exec, s, pool, refused, t);
  }

  lemma TakenOfRun(exec: Exec, s: State, pool: seq<Slot>, refused: Txn -> bool, t: Txn) returns (i: nat)
    requires DistinctIds(pool) && PermIsFixed(exec, refused, s.last) && InRun(pool, s.last, refused, t)
    ensures i < |Filled(exec, s, pool).taken| && Filled(exec, s, pool).taken[i].txn == t
  {
    TakesMaximalRuns(exec, s, pool, refused, t);
    i :| 0 <= i < |Filled(exec, s, pool).taken| && Filled(exec, s, pool).taken[i].txn == t;
  }

  /** The nonces of a built block go on from the last nonce without a gap if and only if
      no busy transaction of the node's maximal run is followed there by one that is
      not: the next one takes its turn, and its nonce is old from then on. */
  lemma BlockNonces(exec: Exec, s: State, pool: seq<Slot>, refused: Txn -> bool, busy: Txn -> bool, n: NodeId)
    requires DistinctIds(pool) && PermIsFixed(exec, refused, s.last) && BusyIsFixed(exec, busy, s.last) && n in s.last
    ensures var b := Filled(exec, s, pool);
            GapFree(NoncesOf(b.items, n), s.last[n]) <==> BusyAtEnd(pool, s.last, refused, busy, n)
    ensures var b := Filled(exec, s, pool);
            b.state.last.Keys == s.last.Keys
            && (GapFree(NoncesOf(b.items, n), s.last[n]) ==> b.state.last[n] == s.last[n] + |NoncesOf(b.items, n)|)
  {
    var b := Filled(exec, s, pool);
    FilledKeeps(exec, s, pool);
    FillRecords(exec, s.last, Start(pool, s), n);
    if HasUnused(pool, n) {
      GapFreeIff(b.taken, n, s.last[n]);
      BusyLastIff(exec, s, pool, refused, busy, n);
    } else {
      NothingTaken(pool, b, n);
    }
  }

  lemma NothingTaken(pool: seq<Slot>, b: Build, n: NodeId)
    requires Marked(pool, b) && !HasUnused(pool, n)
    ensures Nonces(b.taken, n) == [] && Included(b.taken, n) == []
    ensures forall last: map<NodeId, nat>, refused: Txn -> bool, t: Txn ::
              t.node == n ==> !InRun(pool, last, refused, t)
  {
    forall k | 0 <= k < |b.taken| ensures b.taken[k].txn.node != n {
      assert InPool(pool, b.taken[k].txn, 0);
    }
    NoneTaken(b.taken, n);
  }

  lemma {:induction false} NoneTaken(ts: seq<Taken>, n: NodeId)
    requires forall k :: 0 <= k < |ts| ==> ts[k].txn.node != n
    ensures Nonces(ts, n) == [] && Included(ts, n) == []
    decreases |ts|
  {
    if ts != [] {
      NoneTaken(ts[..|ts| - 1], n);
    }
  }

  /** The gap does happen: a transaction that is busy for a moment loses its nonce to
      the next one, and is old from then on. */
  lemma BusyLeavesGap(d: Data, l: Log)
    ensures var exec := (x: Data, t: Txn) => if t.nonce == 1 then Busy else Done(x);
            var pool := [Slot(Txn(7, 1, l), 0), Slot(Txn(7, 2, l), 0)];
            var s := State(d, map[7 := 0]);
            Propose(exec, s, pool) == Some(Body([Item(Tid(7, 2), false)], State(d, map[7 := 2])))
  {
    var exec := (x: Data, t: Txn) => if t.nonce == 1 then Busy else Done(x);
    var t1, t2 := Txn(7, 1, l), Txn(7, 2, l);
    var pool, s := [Slot(t1, 0), Slot(t2, 0)], State(d, map[7 := 0]);
    var b0 := Start(pool, s);
    assert pool[0].txn.node == 7;
    assert HasUnused(pool, 7) && b0.nonces[7] == 0;
    assert Includable(exec, b0, 0);
    var b1 := Include(exec, b0, 0);
    assert b1.pool == [Slot(t1, -1), Slot(t2, 0)] && b1.items == [] && b1.state == s;
    assert !Includable(exec, b1, 0) && Includable(exec, b1, 1);
    assert NextIncludable(exec, b1, 0) == NextIncludable(exec, b1, 1) == 1;
    var b2 := Include(exec, b1, 1);
    assert b2.pool == [Slot(t1, -1), Slot(t2, -1)] && b2.items == [Item(Tid(7, 2), false)];
    assert b2.state.last == map[7 := 2];
    assert NextIncludable(exec, b2, 0) == NextIncludable(exec, b2, 1) == NextIncludable(exec, b2, 2) == 2;
    assert Fill(exec, b2) == b2;
    assert Fill(exec, b1) == Fill(exec, b2);
    assert Fill(exec, b0) == Fill(exec, b1);
  }

  // ---- a whole chain ----

  function Tip(s: State, chain: seq<Body>): State {
    if chain == [] then s else chain[|chain| - 1].state
  }

  /** Block `k` was built by create_new_block from the mempool `pools[k]` on the state
      its predecessor left. */
  predicate BuiltChain(exec: Exec, s: State, pools: seq<seq<Slot>>, chain: seq<Body>) {
    |pools| == |chain|
    && forall k :: 0 <= k < |chain| ==> Propose(exec, Tip(s, chain[..k]), pools[k]) == Some(chain[k])
  }

  lemma BuiltFront(exec: Exec, s: State, pools: seq<seq<Slot>>, chain: seq<Body>)
    requires BuiltChain(exec, s, pools, chain) && chain != []
    ensures BuiltChain(exec, s, pools[..|chain| - 1], chain[..|chain| - 1])
  {
    var m := |chain| - 1;
    forall k | 0 <= k < m ensures Propose(exec, Tip(s, chain[..m][..k]), pools[..m][k]) == Some(chain[..m][k]) {
      assert chain[..m][..k] == chain[..k];
    }
  }

  function ChainNonces(chain: seq<Body>, n: NodeId): seq<nat> {
    if chain == [] then []
    else ChainNonces(chain[..|chain| - 1], n) + NoncesOf(chain[|chain| - 1].items, n)
  }

  /** The condition of BlockNonces for one block of the chain. */
  ghost predicate BlockBusyAtEnd(s: State, pools: seq<seq<Slot>>, chain: seq<Body>, refused: Txn -> bool,
                                 busy: Txn -> bool, n: NodeId, k: nat)
    requires k < |chain| == |pools|
  {
    BusyAtEnd(pools[k], Tip(s, chain[..k]).last, refused, busy, n)
  }

  lemma GapFreeSplit(a: seq<nat>, b: seq<nat>, low: nat)
    ensures GapFree(a + b, low) <==> GapFree(a, low) && GapFree(b, low + |a|)
  {
    var all := UpTo(low, |a| + |b|);
    assert all[..|a|] == UpTo(low, |a|) && all[|a|..] == UpTo(low + |a|, |b|);
    assert (a + b)[..|a|] == a && (a + b)[|a|..] == b;
    assert all == all[..|a|] + all[|a|..];
  }

  /** Exactly-once nonces: over a whole chain of built blocks the nonces of an authorized
      node continue its starting nonce, each once and in order, if and only if no block
      took one of its transactions after a busy one; then the database keeps count. */
  lemma {:induction false} ChainContinues(exec: Exec, s: State, pools: seq<seq<Slot>>, chain: seq<Body>,
                                          refused: Txn -> bool, busy: Txn -> bool, n: NodeId)
    requires n in s.last && BuiltChain(exec, s, pools, chain)
    requires PermIsFixed(exec, refused, s.last) && BusyIsFixed(exec, busy, s.last)
    requires forall k :: 0 <= k < |pools| ==> DistinctIds(pools[k])
    ensures Tip(s, chain).last.Keys == s.last.Keys
    ensures GapFree(ChainNonces(chain, n), s.last[n])
            <==> forall k :: 0 <= k < |chain| ==> BlockBusyAtEnd(s, pools, chain, refused, busy, n, k)
    ensures GapFree(ChainNonces(chain, n), s.last[n]) ==> Tip(s, chain).last[n] == s.last[n] + |ChainNonces(chain, n)|
    decreases |chain|
  {
    if chain != [] {
      var m := |chain| - 1;
      var front := chain[..m];
      BuiltFront(exec, s, pools, chain);
      ChainContinues(exec, s, pools[..m], front, refused, busy, n);
      SameKeys(exec, s, Tip(s, front), refused, busy);
      BlockContinues(exec, Tip(s, front), pools[m], chain[m], refused, busy, n, s.last[n], ChainNonces(front, n));
      FrontBusy(s, pools, chain, refused, busy, n);
    }
  }

  lemma BlockContinues(exec: Exec, s: State, pool: seq<Slot>, body: Body, refused: Txn -> bool, busy: Txn -> bool,
                       n: NodeId, low: nat, before: seq<nat>)
    requires DistinctIds(pool) && PermIsFixed(exec, refused, s.last) && BusyIsFixed(exec, busy, s.last) && n in s.last
    requires Propose(exec, s, pool) == Some(body)
    requires GapFree(before, low) ==> s.last[n] == low + |before|
    ensures body.state.last.Keys == s.last.Keys
    ensures GapFree(before + NoncesOf(body.items, n), low)
            <==> GapFree(before, low) && BusyAtEnd(pool, s.last, refused, busy, n)
    ensures GapFree(before + NoncesOf(body.items, n), low) ==>
              body.state.last[n] == low + |before + NoncesOf(body.items, n)|
  {
    BlockNonces(exec, s, pool, refused, busy, n);
    GapFreeSplit(before, NoncesOf(body.items, n), low);
  }

  lemma SameKeys(exec: Exec, s: State, t: State, refused: Txn -> bool, busy: Txn -> bool)
    requires PermIsFixed(exec, refused, s.last) && BusyIsFixed(exec, busy, s.last) && s.last.Keys == t.last.Keys
    ensures PermIsFixed(exec, refused, t.last) && BusyIsFixed(exec, busy, t.last)
  {
  }

  lemma FrontBusy(s: State, pools: seq<seq<Slot>>, chain: seq<Body>, refused: Txn -> bool, busy: Txn -> bool, n: NodeId)
    requires |pools| == |chain| > 0
    ensures var m := |chain| - 1;
            (forall k :: 0 <= k < |chain| ==> BlockBusyAtEnd(s, pools, chain, refused, busy, n, k))
            <==> (forall k :: 0 <= k < m ==> BlockBusyAtEnd(s, pools[..m], chain[..m], refused, busy, n, k))
                 && BlockBusyAtEnd(s, pools, chain, refused, busy, n, m)
  {
    var m := |chain| - 1;
    forall k | 0 <= k < m
      ensures BlockBusyAtEnd(s, pools, chain, refused, busy, n, k)
              <==> BlockBusyAtEnd(s, pools[..m], chain[..m], refused, busy, n, k)
    {
      assert chain[..m][..k] == chain[..k];
    }
  }
}
