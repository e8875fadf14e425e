/** What a built block contains, that others accept it, and that nonces go on without
    gap or repeat over the whole chain. */
module ProposerProofs {
  import opened ProposerModel

  function Cursor(nonces: map<NodeId, nat>, n: NodeId): nat {
    if n in nonces then nonces[n] else 0
  }

  /** The nonces of one node, in the order taken. */
  function Nonces(ts: seq<Taken>, n: NodeId): seq<nat> {
    if ts == [] then []
    else
      var t := ts[|ts| - 1].txn;
      Nonces(ts[..|ts| - 1], n) + if t.node == n then [t.nonce] else []
  }

  /** The nonces of one node that are in the block. */
  function Included(ts: seq<Taken>, n: NodeId): seq<nat> {
    if ts == [] then []
    else
      var t := ts[|ts| - 1];
      Included(ts[..|ts| - 1], n) + if t.txn.node == n && t.rc != BUSY then [t.txn.nonce] else []
  }

  /** low + 1, low + 2, ..., low + k. */
  function UpTo(low: nat, k: nat): (s: seq<nat>)
    ensures |s| == k
  {
    seq(k, i => low + 1 + i)
  }

  lemma OneMore(low: nat, k: nat)
    ensures UpTo(low, k + 1) == UpTo(low, k) + [low + 1 + k]
  {
  }

  predicate InPool(pool: seq<Slot>, t: Txn, height: int) {
    exists i :: 0 <= i < |pool| && pool[i] == Slot(t, height)
  }

  predicate WasTaken(ts: seq<Taken>, t: Txn) {
    exists k :: 0 <= k < |ts| && ts[k].txn == t
  }

  /** The pool while a block is built: the taken slots, and only those, are marked. */
  predicate Marked(was: seq<Slot>, b: Build) {
    |b.pool| == |was|
    && (forall i :: 0 <= i < |was| ==>
          b.pool[i] == was[i]
          || (was[i].height == 0 && b.pool[i] == was[i].(height := -1) && WasTaken(b.taken, was[i].txn)))
    && (forall k :: 0 <= k < |b.taken| ==> InPool(was, b.taken[k].txn, 0))
  }

  /** Every node's taken nonces go up by one from where they started. */
  ghost predicate Running(start: map<NodeId, nat>, b: Build) {
    forall n :: Cursor(b.nonces, n) >= Cursor(start, n)
                && Nonces(b.taken, n) == UpTo(Cursor(start, n), Cursor(b.nonces, n) - Cursor(start, n))
  }

  lemma IncludeRuns(exec: Exec, start: map<NodeId, nat>, b: Build, i: nat)
    requires Running(start, b) && i < |b.pool| && Includable(exec, b, i)
    ensures Running(start, Include(exec, b, i))
  {
    var c, t := Include(exec, b, i), b.pool[i].txn;
    assert c.taken[..|b.taken|] == b.taken;
    forall n ensures Cursor(c.nonces, n) >= Cursor(start, n)
                     && Nonces(c.taken, n) == UpTo(Cursor(start, n), Cursor(c.nonces, n) - Cursor(start, n)) {
      assert Cursor(b.nonces, n) >= Cursor(start, n);
      OneMore(Cursor(start, n), Cursor(b.nonces, n) - Cursor(start, n));
    }
  }

  lemma IncludeMarks(exec: Exec, was: seq<Slot>, b: Build, i: nat)
    requires Marked(was, b) && i < |b.pool| && Includable(exec, b, i)
    ensures Marked(was, Include(exec, b, i))
  {
    var c, t := Include(exec, b, i), b.pool[i].txn;
    var n := |b.taken|;
    assert c.taken[n].txn == t && was[i] == Slot(t, 0);
    forall j | 0 <= j < |was| ensures c.pool[j] == was[j]
        || (was[j].height == 0 && c.pool[j] == was[j].(height := -1) && WasTaken(c.taken, was[j].txn)) {
      if j != i && b.pool[j] != was[j] {
        var k :| 0 <= k < |b.taken| && b.taken[k].txn == was[j].txn;
        assert c.taken[k].txn == was[j].txn;
      }
    }
    forall k | 0 <= k < |c.taken| ensures InPool(was, c.taken[k].txn, 0) {
      if k < n {
        assert InPool(was, b.taken[k].txn, 0);
      }
    }
  }

  lemma {:induction false} FillKeeps(exec: Exec, was: seq<Slot>, start: map<NodeId, nat>, b: Build)
    requires Running(start, b) && Marked(was, b)
    ensures Running(start, Fill(exec, b)) && Marked(was, Fill(exec, b))
    ensures forall i :: 0 <= i < |was| ==> !Includable(exec, Fill(exec, b), i)
    decreases Unused(b.pool)
  {
    var i := NextIncludable(exec, b, 0);
    if i < |b.pool| {
      UseOne(b.pool, i, b.pool[i].(height := -1));
      IncludeRuns(exec, start, b, i);
      IncludeMarks(exec, was, b, i);
      FillKeeps(exec, was, start, Include(exec, b, i));
    }
  }

  lemma FilledKeeps(exec: Exec, s: State, pool: seq<Slot>)
    ensures var b := Filled(exec, s, pool);
            Running(LastNonces(pool, s.last), b) && Marked(pool, b)
            && forall i :: 0 <= i < |pool| ==> !Includable(exec, b, i)
  {
    FillKeeps(exec, pool, LastNonces(pool, s.last), Start(pool, s));
  }

  /** Building leaves the mempool as it was: every mark is taken back. */
  lemma MarksRestored(exec: Exec, s: State, pool: seq<Slot>)
    requires forall i :: 0 <= i < |pool| ==> pool[i].height >= 0
    ensures ResetMarks(Filled(exec, s, pool).pool) == pool
  {
    FilledKeeps(exec, s, pool);
  }

  // ---- the maximal run ----

  predicate DistinctIds(pool: seq<Slot>) {
    forall i, j :: 0 <= i < j < |pool| ==> pool[i].txn.Id() != pool[j].txn.Id()
  }

  /** Whether execution answers SQLITE_PERM depends only on the transaction. */
  ghost predicate PermIsFixed(exec: Exec, refused: Txn -> bool, last: map<NodeId, nat>) {
    forall d: Data, t: Txn, l: map<NodeId, nat> {:trigger Execute(exec, State(d, l), t)} ::
      l.Keys == last.Keys ==> (Execute(exec, State(d, l), t).rc == PERM <==> refused(t))
  }

  /** The unused transactions of one node without a gap from its last nonce on, up to
      the first one that is refused. */
  ghost predicate InRun(pool: seq<Slot>, last: map<NodeId, nat>, refused: Txn -> bool, t: Txn) {
    InPool(pool, t, 0) && Cursor(last, t.node) < t.nonce
    && forall j :: Cursor(last, t.node) < j <= t.nonce ==> HasNonce(pool, refused, t.node, j)
  }

  predicate HasNonce(pool: seq<Slot>, refused: Txn -> bool, n: NodeId, j: nat) {
    exists i :: 0 <= i < |pool| && pool[i].height == 0 && pool[i].txn.Id() == Tid(n, j) && !refused(pool[i].txn)
  }

  /** Nothing refused is ever taken, and the set of authorized nodes stays. */
  ghost predicate Accepted(refused: Txn -> bool, last: map<NodeId, nat>, b: Build) {
    b.state.last.Keys == last.Keys && forall k :: 0 <= k < |b.taken| ==> !refused(b.taken[k].txn)
  }

  lemma {:induction false} FillAccepts(exec: Exec, refused: Txn -> bool, last: map<NodeId, nat>, b: Build)
    requires PermIsFixed(exec, refused, last) && Accepted(refused, last, b)
    ensures Accepted(refused, last, Fill(exec, b))
    decreases Unused(b.pool)
  {
    var i := NextIncludable(exec, b, 0);
    if i < |b.pool| {
      UseOne(b.pool, i, b.pool[i].(height := -1));
      var t := b.pool[i].txn;
      assert State(b.state.data, b.state.last) == b.state;
      assert Execute(exec, State(b.state.data, b.state.last), t).rc != PERM;
      FillAccepts(exec, refused, last, Include(exec, b, i));
    }
  }

  lemma {:induction false} NonceTaken(ts: seq<Taken>, n: NodeId, j: nat)
    requires j in Nonces(ts, n)
    ensures exists k :: 0 <= k < |ts| && ts[k].txn.Id() == Tid(n, j)
    decreases |ts|
  {
    var m := |ts| - 1;
    if ts[m].txn.Id() != Tid(n, j) {
      NonceTaken(ts[..m], n, j);
      var k :| 0 <= k < |ts[..m]| && ts[..m][k].txn.Id() == Tid(n, j);
      assert ts[k].txn.Id() == Tid(n, j);
    }
  }

  lemma {:induction false} TakenNonce(ts: seq<Taken>, k: nat)
    requires k < |ts|
    ensures ts[k].txn.nonce in Nonces(ts, ts[k].txn.node)
    decreases |ts|
  {
    var m := |ts| - 1;
    if k < m {
      TakenNonce(ts[..m], k);
    }
  }

  lemma StartCursor(pool: seq<Slot>, last: map<NodeId, nat>, t: Txn)
    requires InPool(pool, t, 0)
    ensures Cursor(LastNonces(pool, last), t.node) == Cursor(last, t.node)
  {
  }

  /** Proposer closure: a transaction is taken if and only if it belongs to the
      maximal run of its node. */
  lemma TakesMaximalRuns(exec: Exec, s: State, pool: seq<Slot>, refused: Txn -> bool, t: Txn)
    requires DistinctIds(pool) && PermIsFixed(exec, refused, s.last)
    ensures WasTaken(Filled(exec, s, pool).taken, t) <==> InRun(pool, s.last, refused, t)
  {
    var b := Filled(exec, s, pool);
    FilledKeeps(exec, s, pool);
    FillAccepts(exec, refused, s.last, Start(pool, s));
    if WasTaken(b.taken, t) {
      TakenInRun(exec, s, pool, refused, b, t);
    }
    if InRun(pool, s.last, refused, t) {
      RunTaken(exec, s, pool, refused, b, t);
    }
  }

  lemma TakenInRun(exec: Exec, s: State, pool: seq<Slot>, refused: Txn -> bool, b: Build, t: Txn)
    requires Running(LastNonces(pool, s.last), b) && Marked(pool, b) && Accepted(refused, s.last, b)
    requires WasTaken(b.taken, t)
    ensures InRun(pool, s.last, refused, t)
  {
    var k :| 0 <= k < |b.taken| && b.taken[k].txn == t;
    StartCursor(pool, s.last, t);
    TakenNonce(b.taken, k);
    var low, high := Cursor(s.last, t.node), Cursor(b.nonces, t.node);
    assert t.nonce in UpTo(low, high - low);
    forall j | low < j <= t.nonce ensures HasNonce(pool, refused, t.node, j) {
      assert UpTo(low, high - low)[j - low - 1] == j;
      NonceTaken(b.taken, t.node, j);
      var m :| 0 <= m < |b.taken| && b.taken[m].txn.Id() == Tid(t.node, j);
      assert InPool(pool, b.taken[m].txn, 0);
    }
  }

  lemma RunTaken(exec: Exec, s: State, pool: seq<Slot>, refused: Txn -> bool, b: Build, t: Txn)
    requires DistinctIds(pool) && PermIsFixed(exec, refused, s.last)
    requires Running(LastNonces(pool, s.last), b) && Marked(pool, b) && Accepted(refused, s.last, b)
    requires forall i :: 0 <= i < |pool| ==> !Includable(exec, b, i)
    requires InRun(pool, s.last, refused, t)
    ensures WasTaken(b.taken, t)
  {
    StartCursor(pool, s.last, t);
    var low, high := Cursor(s.last, t.node), Cursor(b.nonces, t.node);
    if t.nonce <= high {
      assert UpTo(low, high - low)[t.nonce - low - 1] == t.nonce;
      NonceTaken(b.taken, t.node, t.nonce);
      var k :| 0 <= k < |b.taken| && b.taken[k].txn.Id() == Tid(t.node, t.nonce);
      var i :| 0 <= i < |pool| && pool[i] == Slot(b.taken[k].txn, 0);
      var j :| 0 <= j < |pool| && pool[j] == Slot(t, 0);
      assert pool[i].txn.Id() == pool[j].txn.Id();
      assert i == j;
    } else {
      assert HasNonce(pool, refused, t.node, high + 1);
      NextIsMissing(exec, s, pool, refused, b, t.node);
    }
  }

  lemma NextIsMissing(exec: Exec, s: State, pool: seq<Slot>, refused: Txn -> bool, b: Build, n: NodeId)
    requires PermIsFixed(exec, refused, s.last)
    requires Running(LastNonces(pool, s.last), b) && Marked(pool, b) && Accepted(refused, s.last, b)
    requires forall i :: 0 <= i < |pool| ==> !Includable(exec, b, i)
    ensures !HasNonce(pool, refused, n, Cursor(b.nonces, n) + 1)
  {
    var high := Cursor(b.nonces, n);
    if HasNonce(pool, refused, n, high + 1) {
      var i :| 0 <= i < |pool| && pool[i].height == 0 && pool[i].txn.Id() == Tid(n, high + 1) && !refused(pool[i].txn);
      assert State(b.state.data, b.state.last) == b.state;
      assert Execute(exec, State(b.state.data, b.state.last), pool[i].txn).rc != PERM;
      assert !Includable(exec, b, i);
      assert WasTaken(b.taken, pool[i].txn);
      var k :| 0 <= k < |b.taken| && b.taken[k].txn == pool[i].txn;
      TakenNonce(b.taken, k);
    }
  }

  /** The mempool order does not matter for what is taken. */
  lemma OrderIndependent(exec: Exec, s: State, pool: seq<Slot>, other: seq<Slot>, refused: Txn -> bool, t: Txn)
    requires DistinctIds(pool) && DistinctIds(other) && PermIsFixed(exec, refused, s.last)
    requires forall x :: x in pool <==> x in other
    ensures WasTaken(Filled(exec, s, pool).taken, t) <==> WasTaken(Filled(exec, s, other).taken, t)
  {
    TakesMaximalRuns(exec, s, pool, refused, t);
    TakesMaximalRuns(exec, s, other, refused, t);
    SameRun(pool, other, s.last, refused, t);
    SameRun(other, pool, s.last, refused, t);
  }

  lemma SameRun(pool: seq<Slot>, other: seq<Slot>, last: map<NodeId, nat>, refused: Txn -> bool, t: Txn)
    requires forall x :: x in pool ==> x in other
    ensures InRun(pool, last, refused, t) ==> InRun(other, last, refused, t)
  {
    if InRun(pool, last, refused, t) {
      assert Slot(t, 0) in other;
      forall j | Cursor(last, t.node) < j <= t.nonce ensures HasNonce(other, refused, t.node, j) {
        assert HasNonce(pool, refused, t.node, j);
        var i :| 0 <= i < |pool| && pool[i].height == 0 && pool[i].txn.Id() == Tid(t.node, j) && !refused(pool[i].txn);
        assert pool[i] in other;
        var k :| 0 <= k < |other| && other[k] == pool[i];
      }
    }
  }
}
