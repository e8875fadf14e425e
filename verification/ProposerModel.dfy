/** Building a block from the mempool, replaying it, and the nonces on the way
    (plugins/no-leader/consensus.c, plugins/no-leader/transactions.c). */
module ProposerModel {
  import opened Common

  type NodeId = int
  type Log(==, !new)
  type Data(==, !new)

  datatype Txn = Txn(node: NodeId, nonce: nat, log: Log) {
    function Id(): Tid { Tid(node, nonce) }
  }

  /** aergolite_get_transaction_id packs both parts into 64 bits. */
  datatype Tid = Tid(node: NodeId, nonce: nat)

  /** A mempool transaction. `height` is 0 while it is unused, the block height once
      it is committed, and -1 while a block is being built with it. */
  datatype Slot = Slot(txn: Txn, height: int)

  /** What running the commands of a transaction yields. */
  datatype Outcome = Done(data: Data) | Failed | Perm | Busy

  type Exec = (Data, Txn) -> Outcome

  /** The database and the last nonce of every authorized node. */
  datatype State = State(data: Data, last: map<NodeId, nat>)

  datatype Rc = OK | ERROR | PERM | BUSY

  datatype Ran = Ran(rc: Rc, state: State)

  function Advance(last: map<NodeId, nat>, t: Txn): map<NodeId, nat> {
    if t.node in last then last[t.node := t.nonce] else last
  }

  /** aergolite_execute_transaction: the nonce of an unknown node cannot be saved,
      which ends the transaction with SQLITE_PERM; a failed one is rolled back but
      uses up its nonce. */
  function Execute(exec: Exec, s: State, t: Txn): Ran {
    match exec(s.data, t)
    case Done(d) => if t.node in s.last then Ran(OK, State(d, Advance(s.last, t))) else Ran(PERM, s)
    case Failed => Ran(ERROR, State(s.data, Advance(s.last, t)))
    case Perm => Ran(PERM, s)
    case Busy => Ran(BUSY, s)
  }

  /** One item of BODY_TXN_IDS: the id, and whether its sign bit is set. */
  datatype Item = Item(id: Tid, failed: bool)

  /** A block as far as replay goes: its transactions and the state they lead to. */
  datatype Body = Body(items: seq<Item>, state: State)

  // ---- create_new_block ----

  /** A transaction that was executed and counted, and its result. */
  datatype Taken = Taken(txn: Txn, rc: Rc)

  /** `nonces` is the last-nonce array; the source keeps only the length of `taken`. */
  datatype Build = Build(pool: seq<Slot>, nonces: map<NodeId, nat>, state: State, items: seq<Item>, taken: seq<Taken>)

  /** is_next_nonce: a node that is not in the array starts at 1. */
  predicate IsNext(nonces: map<NodeId, nat>, t: Txn) {
    if t.node in nonces then t.nonce == nonces[t.node] + 1 else t.nonce == 1
  }

  predicate Includable(exec: Exec, b: Build, i: nat)
    requires i < |b.pool|
  {
    b.pool[i].height == 0 && IsNext(b.nonces, b.pool[i].txn)
    && Execute(exec, b.state, b.pool[i].txn).rc != PERM
  }

  function NextIncludable(exec: Exec, b: Build, from: nat): (i: nat)
    requires from <= |b.pool|
    ensures from <= i <= |b.pool|
    ensures forall j :: from <= j < i ==> !Includable(exec, b, j)
    ensures i < |b.pool| ==> Includable(exec, b, i)
    decreases |b.pool| - from
  {
    if from == |b.pool| || Includable(exec, b, from) then from else NextIncludable(exec, b, from + 1)
  }

  function ItemsAfter(items: seq<Item>, t: Txn, rc: Rc): seq<Item> {
    if rc == OK then items + [Item(t.Id(), false)]
    else if rc == ERROR then items + [Item(t.Id(), true)]
    else items
  }

  /** A transaction is counted and its nonce used up in the array whatever its
      result, even SQLITE_BUSY, which does not put it into the block. */
  function Include(exec: Exec, b: Build, i: nat): Build
    requires i < |b.pool|
  {
    var t := b.pool[i].txn;
    var r := Execute(exec, b.state, t);
    Build(b.pool[i := b.pool[i].(height := -1)], b.nonces[t.node := t.nonce], r.state,
          ItemsAfter(b.items, t, r.rc), b.taken + [Taken(t, r.rc)])
  }

  function Unused(pool: seq<Slot>): nat {
    if pool == [] then 0 else Unused(pool[..|pool| - 1]) + if pool[|pool| - 1].height == 0 then 1 else 0
  }

  lemma {:induction false} UseOne(pool: seq<Slot>, i: nat, s: Slot)
    requires i < |pool| && pool[i].height == 0 && s.height != 0
    ensures Unused(pool[i := s]) == Unused(pool) - 1
    decreases |pool|
  {
    var n := |pool| - 1;
    if i < n {
      UseOne(pool[..n], i, s);
      assert pool[i := s][..n] == pool[..n][i := s];
    } else {
      assert pool[i := s][..n] == pool[..n];
    }
  }

  /** The loop restarts from the first slot after every included transaction. */
  function Fill(exec: Exec, b: Build): Build
    decreases Unused(b.pool)
  {
    var i := NextIncludable(exec, b, 0);
    if i == |b.pool| then b
    else
      UseOne(b.pool, i, b.pool[i].(height := -1));
      Fill(exec, Include(exec, b, i))
  }

  predicate HasUnused(pool: seq<Slot>, n: NodeId) {
    exists i :: 0 <= i < |pool| && pool[i].txn.node == n && pool[i].height == 0
  }

  /** build_last_nonce_array: only nodes with unused transactions get an item. */
  function LastNonces(pool: seq<Slot>, last: map<NodeId, nat>): map<NodeId, nat> {
    map n | n in last && HasUnused(pool, n) :: last[n]
  }

  function Start(pool: seq<Slot>, s: State): Build {
    Build(pool, LastNonces(pool, s.last), s, [], [])
  }

  function Filled(exec: Exec, s: State, pool: seq<Slot>): Build {
    Fill(exec, Start(pool, s))
  }

  /** create_new_block, without a block when nothing was counted or nothing entered it. */
  function Propose(exec: Exec, s: State, pool: seq<Slot>): Option<Body> {
    var b := Filled(exec, s, pool);
    if b.items == [] then None else Some(Body(b.items, b.state))
  }

  /** The flags of the used transactions are reset. */
  function ResetMarks(pool: seq<Slot>): (r: seq<Slot>)
    ensures |r| == |pool|
    ensures forall i :: 0 <= i < |pool| ==> r[i] == if pool[i].height == -1 then pool[i].(height := 0) else pool[i]
  {
    seq(|pool|, i requires 0 <= i < |pool| => if pool[i].height == -1 then pool[i].(height := 0) else pool[i])
  }

  // ---- verify_block ----

  function Find(pool: seq<Slot>, id: Tid): (r: Option<Txn>)
    ensures r.Some? ==> r.value.Id() == id && exists i :: 0 <= i < |pool| && pool[i].txn == r.value
    ensures r.None? ==> forall i :: 0 <= i < |pool| ==> pool[i].txn.Id() != id
  {
    if pool == [] then None
    else if pool[0].txn.Id() == id then Some(pool[0].txn)
    else
      var r := Find(pool[1..], id);
      assert forall i :: 0 < i < |pool| ==> pool[i] == pool[1..][i - 1];
      r
  }

  /** The replay of verify_block; a missing transaction was ruled out before it. */
  function Replay(exec: Exec, s: State, pool: seq<Slot>, items: seq<Item>): Option<State>
    decreases |items|
  {
    if items == [] then Some(s)
    else
      var n := |items| - 1;
      var before := Replay(exec, s, pool, items[..n]);
      var t := Find(pool, items[n].id);
      if before.None? || t.None? then None
      else
        var r := Execute(exec, before.value, t.value);
        if r.rc == BUSY || ((r.rc != OK) != items[n].failed) then None else Some(r.state)
  }

  /** verify_block: the replayed state must be the one in the header. */
  predicate Accepts(exec: Exec, s: State, pool: seq<Slot>, body: Body) {
    Replay(exec, s, pool, body.items) == Some(body.state)
  }

  // ---- the mempool after a commit ----

  predicate Lists(items: seq<Item>, id: Tid) {
    exists k :: 0 <= k < |items| && items[k].id == id
  }

  /** The transactions of the block are marked with its height. */
  function MarkUsed(pool: seq<Slot>, items: seq<Item>, height: nat): (r: seq<Slot>)
    ensures |r| == |pool|
    ensures forall i :: 0 <= i < |pool| ==>
              r[i] == if Lists(items, pool[i].txn.Id()) then pool[i].(height := height) else pool[i]
  {
    seq(|pool|, i requires 0 <= i < |pool| =>
      if Lists(items, pool[i].txn.Id()) then pool[i].(height := height) else pool[i])
  }

  /** A transaction of a block at least two below `height`. */
  predicate IsPast(x: Slot, height: nat) {
    0 < x.height <= height - 2
  }

  function FirstPast(pool: seq<Slot>, height: nat): (i: nat)
    ensures i <= |pool| && (i < |pool| ==> IsPast(pool[i], height))
    ensures forall j :: 0 <= j < i ==> !IsPast(pool[j], height)
    decreases |pool|
  {
    if pool == [] || IsPast(pool[0], height) then 0 else FirstPast(pool[1..], height) + 1
  }

  function DropFirst(pool: seq<Slot>, height: nat): seq<Slot> {
    var i := FirstPast(pool, height);
    if i < |pool| then pool[..i] + pool[i + 1..] else pool
  }

  /** At most `k` of them are discarded, the first ones. */
  function DropPast(pool: seq<Slot>, k: nat, height: nat): seq<Slot>
    decreases k
  {
    if k == 0 then pool else DropPast(DropFirst(pool, height), k - 1, height)
  }

  /** An unused transaction whose nonce its node has already used. */
  predicate IsSpent(x: Slot, last: map<NodeId, nat>) {
    x.height == 0 && x.txn.node in last && x.txn.nonce <= last[x.txn.node]
  }

  /** check_mempool_transactions. */
  function Unspent(pool: seq<Slot>, last: map<NodeId, nat>): seq<Slot> {
    if pool == [] then [] else (if IsSpent(pool[0], last) then [] else [pool[0]]) + Unspent(pool[1..], last)
  }

  /** What commit_block does to the mempool. */
  function Settle(pool: seq<Slot>, items: seq<Item>, height: nat, last: map<NodeId, nat>): seq<Slot> {
    Unspent(DropPast(MarkUsed(pool, items, height), |items|, height), last)
  }
}
