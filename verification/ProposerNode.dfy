/** The mempool and the block builder as the plugin runs them: lists and the nonce
    array edited in place by scanning loops. */
module ProposerNode {
  import opened Common
  import opened ProposerModel
  import opened ProposerProofs

  datatype NodeNonce = NodeNonce(node: NodeId, last: nat)

  /** The array has one item per node of the map. */
  predicate Represents(a: seq<NodeNonce>, m: map<NodeId, nat>) {
    (forall i :: 0 <= i < |a| ==> a[i].node in m && m[a[i].node] == a[i].last)
    && (forall n :: n in m ==> Listed(a, n))
    && (forall i, j :: 0 <= i < j < |a| ==> a[i].node != a[j].node)
  }

  predicate Listed(a: seq<NodeNonce>, n: NodeId) {
    exists i :: 0 <= i < |a| && a[i].node == n
  }

  lemma UnlistedNode(a: seq<NodeNonce>, m: map<NodeId, nat>, x: NodeNonce)
    requires Represents(a, m) && !Listed(a, x.node)
    ensures Represents(a + [x], m[x.node := x.last])
  {
    var b := a + [x];
    assert b[|a|] == x;
    forall n | n in m[x.node := x.last] ensures Listed(b, n) {
      if n != x.node {
        var i :| 0 <= i < |a| && a[i].node == n;
        assert b[i].node == n;
      }
    }
  }

  lemma ListedNode(a: seq<NodeNonce>, m: map<NodeId, nat>, i: nat, last: nat)
    requires Represents(a, m) && i < |a|
    ensures Represents(a[i := NodeNonce(a[i].node, last)], m[a[i].node := last])
  {
    var b := a[i := NodeNonce(a[i].node, last)];
    forall n | n in m[a[i].node := last] ensures Listed(b, n) {
      assert Listed(a, n);
      var j :| 0 <= j < |a| && a[j].node == n;
      assert b[j].node == n;
    }
  }

  /** An unused transaction whose nonce its node has already used. */
  predicate IsOld(x: Slot, a: NodeNonce) {
    x.txn.node == a.node && x.txn.nonce <= a.last && x.height == 0
  }

  /** The mempool without the old transactions of one node. */
  function Without(pool: seq<Slot>, a: NodeNonce): seq<Slot> {
    if pool == [] then [] else (if IsOld(pool[0], a) then [] else [pool[0]]) + Without(pool[1..], a)
  }

  lemma {:induction false} WithoutDrops(pool: seq<Slot>, a: NodeNonce, i: nat)
    requires i < |pool| && IsOld(pool[i], a)
    ensures Without(pool[..i] + pool[i + 1..], a) == Without(pool, a)
    decreases |pool|
  {
    if i == 0 {
      assert pool[..0] + pool[1..] == pool[1..];
    } else {
      WithoutDrops(pool[1..], a, i - 1);
      assert (pool[..i] + pool[i + 1..])[1..] == pool[1..][..i - 1] + pool[1..][i..];
    }
  }

  lemma {:induction false} WithoutNone(pool: seq<Slot>, a: NodeNonce)
    requires forall j :: 0 <= j < |pool| ==> !IsOld(pool[j], a)
    ensures Without(pool, a) == pool
    decreases |pool|
  {
    if pool != [] {
      WithoutNone(pool[1..], a);
    }
  }

  /** Cleaning node by node is cleaning for all of them. */
  lemma {:induction false} WithoutMore(pool: seq<Slot>, done: map<NodeId, nat>, a: NodeNonce)
    requires a.node !in done
    ensures Without(Unspent(pool, done), a) == Unspent(pool, done[a.node := a.last])
    decreases |pool|
  {
    if pool != [] {
      WithoutMore(pool[1..], done, a);
      var rest := Unspent(pool[1..], done);
      if IsSpent(pool[0], done) {
        assert [] + rest == rest;
      } else {
        assert ([pool[0]] + rest)[1..] == rest;
      }
    }
  }

  lemma {:induction false} SameUnspent(pool: seq<Slot>, a: map<NodeId, nat>, b: map<NodeId, nat>)
    requires forall n :: n in a <==> n in b
    requires forall n :: n in a ==> a[n] == b[n]
    ensures Unspent(pool, a) == Unspent(pool, b)
    decreases |pool|
  {
    if pool != [] {
      SameUnspent(pool[1..], a, b);
      assert IsSpent(pool[0], a) <==> IsSpent(pool[0], b);
    }
  }

  lemma {:induction false} UnspentOfNone(pool: seq<Slot>)
    ensures Unspent(pool, map[]) == pool
    decreases |pool|
  {
    if pool != [] {
      UnspentOfNone(pool[1..]);
    }
  }

  /** What cleaning keeps: everything but the unused transactions with used-up nonces. */
  lemma {:induction false} UnspentIff(pool: seq<Slot>, last: map<NodeId, nat>, x: Slot)
    ensures x in Unspent(pool, last) <==> x in pool && !IsSpent(x, last)
    decreases |pool|
  {
    if pool != [] {
      UnspentIff(pool[1..], last, x);
    }
  }

  lemma {:induction false} DropPastKeeps(pool: seq<Slot>, n: nat, height: nat, x: Slot)
    requires x in pool && !IsPast(x, height)
    ensures x in DropPast(pool, n, height)
    decreases n
  {
    if n > 0 {
      var i := FirstPast(pool, height);
      if i < |pool| {
        assert pool == pool[..i] + [pool[i]] + pool[i + 1..];
      }
      DropPastKeeps(DropFirst(pool, height), n - 1, height, x);
    }
  }

  /** A commit never removes what the next block could take: an unused transaction that
      is not in the block and has a nonce that its node has not used yet. */
  lemma SettlingKeepsNext(pool: seq<Slot>, items: seq<Item>, height: nat, last: map<NodeId, nat>, x: Slot)
    requires x in pool && x.height == 0 && !Lists(items, x.txn.Id()) && IsNext(last, x.txn)
    ensures x in Settle(pool, items, height, last)
  {
    var marked := MarkUsed(pool, items, height);
    var i :| 0 <= i < |pool| && pool[i] == x;
    assert marked[i] == x;
    DropPastKeeps(marked, |items|, height, x);
    UnspentIff(DropPast(marked, |items|, height), last, x);
  }

  datatype Stored = StoredNew | Exists | Old | Invalid

  class Miner {
    var mempool: seq<Slot>
    /** The last-nonce array, and the map it stands for. */
    var nonces: seq<NodeNonce>
    ghost var cursors: map<NodeId, nat>
    /** The core: the open database and the ids of the block being executed. */
    var core: State
    var txnIds: seq<Item>

    ghost predicate Valid()
      reads this
    {
      Represents(nonces, cursors)
    }

    constructor (s: State)
      ensures Valid() && mempool == [] && core == s
    {
      mempool, nonces, cursors, core, txnIds := [], [], map[], s, [];
    }

    /** update_node_last_nonce: only an authorized node has a nonce to update. */
    method UpdateNodeLastNonce(t: Txn) returns (ok: bool)
      modifies this`core
      ensures ok == (t.node in old(core).last) && core == State(old(core).data, Advance(old(core).last, t))
    {
      ok := t.node in core.last;
      if ok {
        core := core.(last := core.last[t.node := t.nonce]);
      }
    }

    /** execute_transaction: the commands and the nonce are kept together or not at all. */
    method RunInSavepoint(exec: Exec, t: Txn) returns (rc: Rc)
      modifies this`core
      ensures rc == Execute(exec, old(core), t).rc
      ensures rc == OK ==> core == Execute(exec, old(core), t).state
      ensures rc != OK ==> core == old(core)
      ensures rc == OK <==> exec(old(core).data, t).Done? && t.node in old(core).last
      ensures rc == OK ==> core.data == exec(old(core).data, t).data
    {
      var savepoint := core;
      match exec(core.data, t) {
        case Done(d) =>
          core := core.(data := d);
          var ok := UpdateNodeLastNonce(t);
          rc := if ok then OK else PERM;
        case Failed => rc := ERROR;
        case Perm => rc := PERM;
        case Busy => rc := BUSY;
      }
      if rc != OK {
        core := savepoint;
      }
    }

    /** aergolite_execute_transaction: a transaction that succeeds or fails is listed, the
        failed ones marked, and uses up its nonce; a failed one changes nothing else, a
        busy or refused one nothing at all. */
    method ExecuteTransaction(exec: Exec, t: Txn) returns (rc: Rc)
      modifies this`core, this`txnIds
      ensures rc == Execute(exec, old(core), t).rc && core == Execute(exec, old(core), t).state
      ensures txnIds == ItemsAfter(old(txnIds), t, rc)
      ensures rc == OK || rc == ERROR ==> txnIds == old(txnIds) + [Item(t.Id(), rc == ERROR)]
      ensures (rc == OK || rc == ERROR) && t.node in old(core).last ==> core.last == old(core).last[t.node := t.nonce]
      ensures rc == OK <==> exec(old(core).data, t).Done? && t.node in old(core).last
      ensures rc == ERROR <==> exec(old(core).data, t) == Failed
      ensures rc == BUSY <==> exec(old(core).data, t) == Busy
      ensures core.data == if rc == OK then exec(old(core).data, t).data else old(core).data
      ensures rc == BUSY || rc == PERM ==> core == old(core) && txnIds == old(txnIds)
    {
      rc := RunInSavepoint(exec, t);
      if rc == OK {
        txnIds := txnIds + [Item(t.Id(), false)];
      } else if rc != BUSY && rc != PERM {
        txnIds := txnIds + [Item(t.Id(), true)];
        var _ := UpdateNodeLastNonce(t);
      }
    }

    method UpdateLastNonceArray(node: NodeId, nonce: nat)
      requires Valid()
      modifies this`nonces, this`cursors
      ensures Valid() && cursors == old(cursors)[node := nonce]
    {
      for i := 0 to |nonces|
        invariant nonces == old(nonces) && cursors == old(cursors)
        invariant forall j :: 0 <= j < i ==> nonces[j].node != node
      {
        if nonces[i].node == node {
          ListedNode(nonces, cursors, i, nonce);
          nonces := nonces[i := NodeNonce(node, nonce)];
          cursors := cursors[node := nonce];
          return;
        }
      }
      UnlistedNode(nonces, cursors, NodeNonce(node, nonce));
      nonces := nonces + [NodeNonce(node, nonce)];
      cursors := cursors[node := nonce];
    }

    /** build_last_nonce_array over the list of authorizations. */
    method BuildLastNonceArray(auths: seq<NodeNonce>, ghost last: map<NodeId, nat>)
      requires Represents(auths, last)
      modifies this`nonces, this`cursors
      ensures Valid() && cursors == LastNonces(mempool, last)
    {
      nonces, cursors := [], map[];
      for i := 0 to |auths|
        invariant Valid()
        invariant forall n :: n in cursors <==> Listed(auths[..i], n) && HasUnused(mempool, n)
        invariant forall n :: n in cursors ==> n in last && cursors[n] == last[n]
      {
        var a := auths[i];
        assert forall n :: Listed(auths[..i + 1], n) <==> Listed(auths[..i], n) || n == a.node by {
          ListedUpTo(auths, i);
        }
        var found := HasUnusedFrom(a.node);
        if found {
          UpdateLastNonceArray(a.node, a.last);
        }
      }
      assert auths[..|auths|] == auths;
      forall n | n in last && HasUnused(mempool, n) ensures n in cursors {
        assert Listed(auths, n);
      }
      ghost var all := LastNonces(mempool, last);
      assert forall n :: n in all <==> n in cursors;
      assert cursors == all;
    }

    /** The scan of build_last_nonce_array_cb. */
    method HasUnusedFrom(node: NodeId) returns (found: bool)
      ensures found == HasUnused(mempool, node)
    {
      for i := 0 to |mempool|
        invariant forall j :: 0 <= j < i ==> !(mempool[j].txn.node == node && mempool[j].height == 0)
      {
        if mempool[i].txn.node == node && mempool[i].height == 0 {
          return true;
        }
      }
      return false;
    }

    method IsNextNonce(t: Txn) returns (yes: bool)
      requires Valid()
      ensures yes == IsNext(cursors, t)
    {
      var found := false;
      for i := 0 to |nonces|
        invariant found ==> t.node in cursors
        invariant forall j :: 0 <= j < i && nonces[j].node == t.node ==> found && t.nonce != nonces[j].last + 1
      {
        if nonces[i].node == t.node {
          found := true;
          if t.nonce == nonces[i].last + 1 {
            return true;
          }
        }
      }
      if t.node in cursors {
        assert Listed(nonces, t.node);
      }
      return !found && t.nonce == 1;
    }

    /** The build so far, as the specification sees it. */
    ghost function Building(taken: seq<Taken>): Build
      reads this
    {
      Build(mempool, cursors, core, txnIds, taken)
    }

    /** The scan of create_new_block for the next transaction to include. It runs
        each candidate; one that yields SQLITE_PERM is passed over. */
    method IncludeNext(exec: Exec, ghost taken: seq<Taken>) returns (included: bool, ghost now: seq<Taken>)
      requires Valid()
      modifies this
      ensures Valid()
      ensures var b := old(Building(taken));
              var i := NextIncludable(exec, b, 0);
              included == (i < |b.pool|)
              && Building(now) == if included then Include(exec, b, i) else b
    {
      now := taken;
      ghost var b := Building(taken);
      for i := 0 to |mempool|
        invariant Valid() && Building(taken) == b
        invariant NextIncludable(exec, b, 0) == NextIncludable(exec, b, i)
      {
        var t := mempool[i].txn;
        var next := IsNextNonce(t);
        if mempool[i].height == 0 && next {
          var rc := ExecuteTransaction(exec, t);
          if rc != PERM {
            UpdateLastNonceArray(t.node, t.nonce);
            mempool := mempool[i := mempool[i].(height := -1)];
            now := taken + [Taken(t, rc)];
            return true, now;
          }
        }
      }
      included := false;
    }

    method ClearMarks()
      modifies this`mempool
      ensures mempool == ResetMarks(old(mempool))
    {
      for i := 0 to |mempool|
        invariant |mempool| == |old(mempool)|
        invariant forall j :: 0 <= j < i ==> mempool[j] == ResetMarks(old(mempool))[j]
        invariant forall j :: i <= j < |mempool| ==> mempool[j] == old(mempool)[j]
      {
        if mempool[i].height == -1 {
          mempool := mempool[i := mempool[i].(height := 0)];
        }
      }
    }

    /** create_new_block once the node may create one: the mempool is as before, and
        the core is left in the state of the new block, or rolled back without one. */
    method CreateNewBlock(exec: Exec, auths: seq<NodeNonce>) returns (r: Option<Body>)
      requires Represents(auths, core.last)
      requires forall i :: 0 <= i < |mempool| ==> mempool[i].height >= 0
      modifies this
      ensures Valid() && mempool == old(mempool)
      ensures r == Propose(exec, old(core), old(mempool))
      ensures core == if r.Some? then r.value.state else old(core)
    {
      var saved := core;
      BuildLastNonceArray(auths, core.last);
      txnIds := [];
      ghost var taken: seq<Taken> := [];
      ghost var goal := Filled(exec, core, mempool);
      var more := true;
      while more
        invariant Valid() && Fill(exec, Building(taken)) == goal
        invariant !more ==> Building(taken) == goal
        decreases more, Unused(mempool)
      {
        ghost var b := Building(taken);
        ghost var i := NextIncludable(exec, b, 0);
        if i < |b.pool| {
          UseOne(b.pool, i, b.pool[i].(height := -1));
        }
        more, taken := IncludeNext(exec, taken);
      }
      ClearMarks();
      MarksRestored(exec, old(core), old(mempool));
      if txnIds == [] {
        core := saved;
        return None;
      }
      return Some(Body(txnIds, core));
    }

    /** The replay loop of verify_block: the core keeps the new state, or is rolled back. */
    method VerifyBlock(exec: Exec, body: Body) returns (ok: bool)
      modifies this`core, this`txnIds
      ensures ok <==> Accepts(exec, old(core), mempool, body)
      ensures core == if ok then body.state else old(core)
    {
      var saved := core;
      txnIds := [];
      for k := 0 to |body.items|
        invariant Replay(exec, saved, mempool, body.items[..k]) == Some(core)
      {
        assert body.items[..k + 1][..k] == body.items[..k];
        ReplayPrefix(exec, saved, mempool, body.items, k + 1);
        var t := Find(mempool, body.items[k].id);
        if t.None? {
          core := saved;
          return false;
        }
        var rc := ExecuteTransaction(exec, t.value);
        if rc == BUSY || ((rc != OK) != body.items[k].failed) {
          core := saved;
          return false;
        }
      }
      assert body.items[..|body.items|] == body.items;
      ok := core == body.state;
      if !ok {
        core := saved;
      }
    }

    /** check_mempool_transaction_cb: the scan starts again after every removal. */
    method RemoveOld(a: NodeNonce)
      modifies this`mempool
      ensures mempool == Without(old(mempool), a)
    {
      var i := 0;
      while i < |mempool|
        invariant i <= |mempool| && Without(mempool, a) == Without(old(mempool), a)
        invariant forall j :: 0 <= j < i ==> !IsOld(mempool[j], a)
        decreases |mempool|, |mempool| - i
      {
        if IsOld(mempool[i], a) {
          WithoutDrops(mempool, a, i);
          mempool := mempool[..i] + mempool[i + 1..];
          i := 0;
        } else {
          i := i + 1;
        }
      }
      WithoutNone(mempool, a);
    }

    /** check_mempool_transactions over the list of authorizations. */
    method CheckMempool(auths: seq<NodeNonce>, ghost last: map<NodeId, nat>)
      requires Represents(auths, last)
      modifies this`mempool
      ensures mempool == Unspent(old(mempool), last)
    {
      ghost var done: map<NodeId, nat> := map[];
      UnspentOfNone(mempool);
      for k := 0 to |auths|
        invariant mempool == Unspent(old(mempool), done)
        invariant forall n :: n in done <==> Listed(auths[..k], n)
        invariant forall n :: n in done ==> n in last && done[n] == last[n]
      {
        ghost var a := auths[k];
        assert a.node !in done by {
          assert forall i :: 0 <= i < k ==> auths[..k][i].node != a.node;
        }
        WithoutMore(old(mempool), done, a);
        ListedUpTo(auths, k);
        done := done[a.node := a.last];
        RemoveOld(auths[k]);
      }
      assert auths[..|auths|] == auths;
      forall n | n in last ensures n in done {
        assert Listed(auths, n);
      }
      SameUnspent(old(mempool), done, last);
    }

    /** store_transaction_on_mempool: `last` is the sender's last nonce if it is
        authorized, `verified` whether the signature is right and for this nonce. */
    method StoreTransaction(t: Txn, last: Option<nat>, verified: bool) returns (r: Stored)
      requires DistinctIds(mempool)
      modifies this`mempool
      ensures DistinctIds(mempool)
      ensures mempool == if r == StoredNew then old(mempool) + [Slot(t, 0)] else old(mempool)
      ensures r == StoredNew <==>
                verified && last.Some? && t.nonce > last.value
                && forall i :: 0 <= i < |old(mempool)| ==> old(mempool)[i].txn.Id() != t.Id()
    {
      for i := 0 to |mempool|
        invariant mempool == old(mempool)
        invariant forall j :: 0 <= j < i ==> mempool[j].txn.Id() != t.Id()
      {
        if mempool[i].txn.Id() == t.Id() {
          return Exists;
        }
      }
      if last.None? {
        return Invalid;
      }
      if t.nonce <= last.value {
        return Old;
      }
      if !verified {
        return Invalid;
      }
      mempool := mempool + [Slot(t, 0)];
      return StoredNew;
    }
  }

  lemma ListedUpTo(a: seq<NodeNonce>, i: nat)
    requires i < |a|
    ensures forall n :: Listed(a[..i + 1], n) <==> Listed(a[..i], n) || n == a[i].node
  {
  }

  /** When a prefix cannot be replayed, the whole cannot. */
  lemma {:induction false} ReplayPrefix(exec: Exec, s: State, pool: seq<Slot>, items: seq<Item>, k: nat)
    requires k <= |items|
    ensures Replay(exec, s, pool, items[..k]).None? ==> Replay(exec, s, pool, items).None?
    decreases |items|
  {
    if k == |items| {
      assert items[..k] == items;
    } else {
      var front := items[..|items| - 1];
      assert front[..k] == items[..k];
      ReplayPrefix(exec, s, pool, front, k);
    }
  }
}
