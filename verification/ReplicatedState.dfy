/** Agreement on blocks, replay and building of blocks together: in every run of a
    network each node holds the database its chain leads to, and each block of the chain
    was built on the one before it. */
module ReplicatedState {
  import opened Common
  import opened ConsensusModel
  import opened ConsensusInvariant
  import opened ConsensusHandlers
  import opened ConsensusRuns
  import opened ReplicatedHandlers
  import P = ProposerModel
  import Proofs = ProposerProofs
  import Chain = ProposerChain
  import Data = ProposerData
  import Core = ProposerNode

  /** A created block, the chain it was created on, and its creator's mempool. */
  datatype Made = Made(key: Key, chain: seq<BlockId>, pool: seq<P.Slot>)

  datatype Net = Net(sys: System, made: set<Made>)

  function Keys(made: set<Made>): set<Key> {
    set m | m in made :: m.key
  }

  /** Nodes judge blocks by their own database and mempool, they build blocks from them,
      and a block that arrives was created by one of them. */
  ghost predicate Genuine(cfg: Config, u: Setup, net: Net, e: Event) {
    Enabled(cfg, net.sys, e) &&
    var p := net.sys.nodes[e.node];
    match e
    case BlockArrives(_, k, w) => Own(u, p, w) && k in Keys(net.made)
    case VoteArrives(_, _, w) => Own(u, p, w)
    case WaitOver(_, w) => Own(u, p, w)
    case TransactionArrives(_, t, w) => Own(u, TakeIn(p, t), w)
    case BlockCreated(_, id, s, _) =>
      P.Propose(u.exec, p.state, p.mempool) == Some(u.body(id)) && u.prev(id) == LastId(p.chain)
      && s == P.Filled(u.exec, p.state, p.mempool).state
    case _ => true
  }

  function Step(net: Net, e: Event): Net
    requires e.node in net.sys.nodes
  {
    var p := net.sys.nodes[e.node];
    Net(Apply(net.sys, e),
        if e.BlockCreated? then net.made + {Made(Key(e.id, p.Next()), p.chain, p.mempool)} else net.made)
  }

  ghost predicate GenuineRun(cfg: Config, u: Setup, net: Net, es: seq<Event>)
    decreases |es|
  {
    es == [] || (Genuine(cfg, u, net, es[0]) && GenuineRun(cfg, u, Step(net, es[0]), es[1..]))
  }

  ghost function After(cfg: Config, u: Setup, net: Net, es: seq<Event>): Net
    requires GenuineRun(cfg, u, net, es)
    decreases |es|
  {
    if es == [] then net else After(cfg, u, Step(net, es[0]), es[1..])
  }

  /** Nodes without blocks on the same database, each with a mempool of its own. */
  predicate Fresh(u: Setup, net: Net) {
    Initial(net.sys) && net.made == {}
    && forall n :: n in net.sys.nodes ==>
         net.sys.nodes[n].state == u.start && Proofs.DistinctIds(net.sys.nodes[n].mempool)
  }

  ghost predicate Arrives(cfg: Config, u: Setup, start: Net, es: seq<Event>, net: Net) {
    Fresh(u, start) && GenuineRun(cfg, u, start, es) && net == After(cfg, u, start, es)
  }

  /** The block was built by create_new_block on the database of a chain that nobody
      contradicts. */
  ghost predicate MadeOk(cfg: Config, u: Setup, cast: set<Vote>, m: Made) {
    m.key.height == |m.chain| + 1 && ChainOk(cfg, cast, m.chain) && u.prev(m.key.id) == LastId(m.chain)
    && P.Propose(u.exec, Database(u, m.chain), m.pool) == Some(u.body(m.key.id)) && Proofs.DistinctIds(m.pool)
  }

  ghost predicate NetInv(cfg: Config, u: Setup, net: Net) {
    Inv(cfg, net.sys)
    && (forall n :: n in net.sys.nodes ==> Synced(u, Keys(net.made), net.sys.nodes[n]))
    && (forall m :: m in net.made ==> MadeOk(cfg, u, net.sys.cast, m))
  }

  // ---- every step ----

  lemma HandleSynced(cfg: Config, u: Setup, net: Net, e: Event)
    requires NetInv(cfg, u, net) && Genuine(cfg, u, net, e)
    ensures Synced(u, Keys(Step(net, e).made), Handle(net.sys.nodes[e.node], e))
  {
    var p, made := net.sys.nodes[e.node], Keys(net.made);
    match e
    case BlockArrives(_, k, w) => OwnIsFaithful(u, p, w); NewBlockSynced(u, made, p, w, k);
    case VoteArrives(_, v, w) => OwnIsFaithful(u, p, w); VoteSynced(u, made, p, w, v);
    case WaitOver(_, w) => OwnIsFaithful(u, p, w); ChooseSynced(u, made, p.(waiting := false), w, First);
    case TransactionArrives(_, t, w) => OwnIsFaithful(u, TakeIn(p, t), w); TransactionSynced(u, made, p, w, t);
    case BlockCreated(_, id, s, w) =>
      var m := Made(Key(id, p.Next()), p.chain, p.mempool);
      assert m in Step(net, e).made && m.key in Keys(Step(net, e).made);
      MoreMade(u, made, Keys(Step(net, e).made), p);
      CreationSynced(u, Keys(Step(net, e).made), p, w, id);
    case _ =>
  }

  lemma MoreMadeOk(cfg: Config, u: Setup, cast: set<Vote>, more: set<Vote>, m: Made)
    requires MadeOk(cfg, u, cast, m) && cast <= more
    ensures MadeOk(cfg, u, more, m)
  {
    MoreChain(cfg, cast, more, m.chain);
  }

  lemma {:induction false} StepKeepsNet(cfg: Config, u: Setup, net: Net, e: Event)
    requires NetInv(cfg, u, net) && Genuine(cfg, u, net, e)
    ensures NetInv(cfg, u, Step(net, e))
  {
    var after, p := Step(net, e), net.sys.nodes[e.node];
    StepKeeps(cfg, net.sys, e);
    HandleSynced(cfg, u, net, e);
    forall n | n in after.sys.nodes ensures Synced(u, Keys(after.made), after.sys.nodes[n]) {
      if n != e.node {
        MoreMade(u, Keys(net.made), Keys(after.made), net.sys.nodes[n]);
      }
    }
    forall m | m in after.made ensures MadeOk(cfg, u, after.sys.cast, m) {
      if m in net.made {
        MoreMadeOk(cfg, u, net.sys.cast, after.sys.cast, m);
      } else {
        MoreMadeOk(cfg, u, net.sys.cast, after.sys.cast, Made(Key(e.id, p.Next()), p.chain, p.mempool));
      }
    }
  }

  lemma {:induction false} RunKeepsNet(cfg: Config, u: Setup, net: Net, es: seq<Event>)
    requires NetInv(cfg, u, net) && GenuineRun(cfg, u, net, es)
    ensures NetInv(cfg, u, After(cfg, u, net, es))
    decreases |es|
  {
    if es != [] {
      StepKeepsNet(cfg, u, net, es[0]);
      RunKeepsNet(cfg, u, Step(net, es[0]), es[1..]);
    }
  }

  lemma FreshInv(cfg: Config, u: Setup, net: Net)
    requires Fresh(u, net)
    ensures NetInv(cfg, u, net)
  {
    forall n | n in net.sys.nodes ensures Synced(u, Keys(net.made), net.sys.nodes[n]) {
      assert Bodies(u, []) == [];
    }
  }

  lemma {:induction false} ArrivesInv(cfg: Config, u: Setup, start: Net, es: seq<Event>, net: Net)
    requires Arrives(cfg, u, start, es, net)
    ensures NetInv(cfg, u, net)
  {
    FreshInv(cfg, u, start);
    RunKeepsNet(cfg, u, start, es);
  }

  // ---- the databases ----

  /** Chains that the votes back are prefixes of each other. */
  lemma BackedChains(cfg: Config, cast: set<Vote>, a: seq<BlockId>, b: seq<BlockId>)
    requires CastOk(cfg, cast) && ChainOk(cfg, cast, a) && ChainOk(cfg, cast, b) && |a| <= |b|
    ensures a == b[..|a|]
  {
    forall k | 0 <= k < |a| ensures a[k] == b[k] {
      WinnersAgree(cfg, cast, k + 1, a[k], b[k]);
    }
  }

  /** Replicated state: in every run each node holds the database that its own chain
      leads to; it is the one any node that is as far or farther held at that height, and
      nodes at the same height hold the same database and the same last nonces. */
  lemma {:induction false} SameDatabase(cfg: Config, u: Setup, start: Net, es: seq<Event>, net: Net, n: NodeId,
                                        m: NodeId)
    requires Arrives(cfg, u, start, es, net) && n in net.sys.nodes && m in net.sys.nodes
    requires |net.sys.nodes[n].chain| <= |net.sys.nodes[m].chain|
    ensures var p, q := net.sys.nodes[n], net.sys.nodes[m];
            p.state == Database(u, q.chain[..|p.chain|])
            && (|p.chain| == |q.chain| ==> p.chain == q.chain && p.state == q.state)
  {
    ArrivesInv(cfg, u, start, es, net);
    var p, q := net.sys.nodes[n], net.sys.nodes[m];
    BackedChains(cfg, net.sys.cast, p.chain, q.chain);
    assert q.chain[..|q.chain|] == q.chain;
  }

  /** Block `k` of the chain was built from the mempool `pool` on the database that its
      predecessors lead to. */
  ghost predicate BuiltAt(u: Setup, chain: seq<BlockId>, pool: seq<P.Slot>, k: nat)
    requires k < |chain|
  {
    P.Propose(u.exec, Database(u, chain[..k]), pool) == Some(u.body(chain[k])) && Proofs.DistinctIds(pool)
  }

  lemma BlockWasBuilt(cfg: Config, u: Setup, net: Net, p: Plugin, k: nat) returns (pool: seq<P.Slot>)
    requires NetInv(cfg, u, net) && Synced(u, Keys(net.made), p) && ChainOk(cfg, net.sys.cast, p.chain) && k < |p.chain|
    ensures BuiltAt(u, p.chain, pool, k)
  {
    var m :| m in net.made && m.key == Key(p.chain[k], k + 1);
    assert MadeOk(cfg, u, net.sys.cast, m);
    BackedChains(cfg, net.sys.cast, m.chain, p.chain);
    pool := m.pool;
  }

  lemma {:induction false} PoolsOf(cfg: Config, u: Setup, net: Net, p: Plugin, k: nat) returns (pools: seq<seq<P.Slot>>)
    requires NetInv(cfg, u, net) && Synced(u, Keys(net.made), p) && ChainOk(cfg, net.sys.cast, p.chain)
    requires k <= |p.chain|
    ensures |pools| == k && forall j :: 0 <= j < k ==> BuiltAt(u, p.chain, pools[j], j)
    decreases k
  {
    pools := [];
    if k > 0 {
      var pool := BlockWasBuilt(cfg, u, net, p, k - 1);
      var front := PoolsOf(cfg, u, net, p, k - 1);
      pools := front + [pool];
      forall j | 0 <= j < k ensures BuiltAt(u, p.chain, pools[j], j) {
        assert pools[j] == if j < k - 1 then front[j] else pool;
      }
    }
  }

  ghost predicate BuiltFrom(u: Setup, chain: seq<BlockId>, pools: seq<seq<P.Slot>>) {
    Chain.BuiltChain(u.exec, u.start, pools, Bodies(u, chain))
    && forall k :: 0 <= k < |pools| ==> Proofs.DistinctIds(pools[k])
  }

  lemma BuiltAtAll(u: Setup, chain: seq<BlockId>, pools: seq<seq<P.Slot>>)
    requires |pools| == |chain| && forall k :: 0 <= k < |chain| ==> BuiltAt(u, chain, pools[k], k)
    ensures BuiltFrom(u, chain, pools)
  {
    forall k | 0 <= k < |chain|
      ensures P.Propose(u.exec, Chain.Tip(u.start, Bodies(u, chain)[..k]), pools[k]) == Some(Bodies(u, chain)[k])
    {
      assert BuiltAt(u, chain, pools[k], k);
      assert Bodies(u, chain)[..k] == Bodies(u, chain[..k]);
    }
    assert forall k :: 0 <= k < |pools| ==> BuiltAt(u, chain, pools[k], k);
  }

  lemma ChainWasBuilt(cfg: Config, u: Setup, net: Net, p: Plugin) returns (pools: seq<seq<P.Slot>>)
    requires NetInv(cfg, u, net) && Synced(u, Keys(net.made), p) && ChainOk(cfg, net.sys.cast, p.chain)
    ensures BuiltFrom(u, p.chain, pools)
  {
    pools := PoolsOf(cfg, u, net, p, |p.chain|);
    BuiltAtAll(u, p.chain, pools);
  }

  /** In every run the chain of every node is a chain of built blocks: each was built by
      create_new_block on the very database that the blocks before it lead to, whoever
      built it and whichever round it won in. */
  lemma {:induction false} CommittedWereBuilt(cfg: Config, u: Setup, start: Net, es: seq<Event>, net: Net, n: NodeId)
    requires Arrives(cfg, u, start, es, net) && n in net.sys.nodes
    ensures exists pools :: BuiltFrom(u, net.sys.nodes[n].chain, pools)
  {
    ArrivesInv(cfg, u, start, es, net);
    var pools := ChainWasBuilt(cfg, u, net, net.sys.nodes[n]);
    assert BuiltFrom(u, net.sys.nodes[n].chain, pools);
  }

  /** The chain was built from `pools`, and its transactions one after the other lead from
      the first data to `d`. */
  ghost predicate LeadsTo(u: Setup, chain: seq<BlockId>, pools: seq<seq<P.Slot>>, d: P.Data) {
    BuiltFrom(u, chain, pools) && Data.ChainData(u.exec, pools, u.start.data, Bodies(u, chain)) == Some(d)
  }

  /** In every run the data of every node is what executing the transactions of its chain
      returns, in block order, the failed ones left out. */
  lemma {:induction false} CommittedData(cfg: Config, u: Setup, start: Net, es: seq<Event>, net: Net, n: NodeId)
    requires Arrives(cfg, u, start, es, net) && n in net.sys.nodes
    ensures exists pools :: LeadsTo(u, net.sys.nodes[n].chain, pools, net.sys.nodes[n].state.data)
  {
    ArrivesInv(cfg, u, start, es, net);
    var p := net.sys.nodes[n];
    var pools := ChainWasBuilt(cfg, u, net, p);
    Data.BuiltChainData(u.exec, u.start, pools, Bodies(u, p.chain));
    assert LeadsTo(u, p.chain, pools, p.state.data);
  }

  /** The nonces of an account continue over the chain, each once and in order, if and
      only if no block was built past a busy transaction of the account. */
  ghost predicate CountsNonces(u: Setup, chain: seq<BlockId>, pools: seq<seq<P.Slot>>, refused: P.Txn -> bool,
                               busy: P.Txn -> bool, account: NodeId)
    requires account in u.start.last
  {
    BuiltFrom(u, chain, pools)
    && (Chain.GapFree(Chain.ChainNonces(Bodies(u, chain), account), u.start.last[account])
        <==> forall k :: 0 <= k < |pools| ==>
               Chain.BlockBusyAtEnd(u.start, pools, Bodies(u, chain), refused, busy, account, k))
  }

  /** The database of every node of every run counts the nonces of its chain. */
  lemma {:induction false} CommittedNonces(cfg: Config, u: Setup, start: Net, es: seq<Event>, net: Net, n: NodeId,
                                           refused: P.Txn -> bool, busy: P.Txn -> bool, account: NodeId)
    requires Arrives(cfg, u, start, es, net) && n in net.sys.nodes && account in u.start.last
    requires Proofs.PermIsFixed(u.exec, refused, u.start.last) && Chain.BusyIsFixed(u.exec, busy, u.start.last)
    ensures exists pools :: CountsNonces(u, net.sys.nodes[n].chain, pools, refused, busy, account)
    ensures var p := net.sys.nodes[n];
            var used := Chain.ChainNonces(Bodies(u, p.chain), account);
            p.state.last.Keys == u.start.last.Keys
            && (Chain.GapFree(used, u.start.last[account]) ==>
                  p.state.last[account] == u.start.last[account] + |used|)
  {
    ArrivesInv(cfg, u, start, es, net);
    var p := net.sys.nodes[n];
    var pools := ChainWasBuilt(cfg, u, net, p);
    Chain.ChainContinues(u.exec, u.start, pools, Bodies(u, p.chain), refused, busy, account);
    assert CountsNonces(u, p.chain, pools, refused, busy, account);
  }

  /** In particular, when executions are never busy, no nonce is ever lost or repeated. */
  lemma {:induction false} NoNonceLost(cfg: Config, u: Setup, start: Net, es: seq<Event>, net: Net, n: NodeId,
                                       refused: P.Txn -> bool, account: NodeId)
    requires Arrives(cfg, u, start, es, net) && n in net.sys.nodes && account in u.start.last
    requires Proofs.PermIsFixed(u.exec, refused, u.start.last)
    requires Chain.BusyIsFixed(u.exec, (t: P.Txn) => false, u.start.last)
    ensures var p := net.sys.nodes[n];
            var used := Chain.ChainNonces(Bodies(u, p.chain), account);
            Chain.GapFree(used, u.start.last[account])
            && account in p.state.last && p.state.last[account] == u.start.last[account] + |used|
  {
    var p := net.sys.nodes[n];
    CommittedNonces(cfg, u, start, es, net, n, refused, (t: P.Txn) => false, account);
    var pools :| CountsNonces(u, p.chain, pools, refused, (t: P.Txn) => false, account);
  }

  // ---- who accepts a block ----

  /** A node that is just below the height of a created block and holds its transactions
      accepts it, and reaches the database that its header names. */
  lemma {:induction false} CreatedIsAccepted(cfg: Config, u: Setup, start: Net, es: seq<Event>, net: Net, n: NodeId,
                                             m: Made)
    requires Arrives(cfg, u, start, es, net) && n in net.sys.nodes && m in net.made
    requires m.key.height == net.sys.nodes[n].Next()
    requires Chain.Holds(net.sys.nodes[n].mempool, P.Filled(u.exec, Database(u, m.chain), m.pool).taken)
    ensures Replayed(u, net.sys.nodes[n], m.key.id) == Some(u.body(m.key.id).state)
  {
    ArrivesInv(cfg, u, start, es, net);
    var p := net.sys.nodes[n];
    assert MadeOk(cfg, u, net.sys.cast, m);
    BackedChains(cfg, net.sys.cast, m.chain, p.chain);
    assert p.chain[..|p.chain|] == p.chain;
    Chain.BuiltIsAccepted(u.exec, p.state, m.pool, p.mempool);
  }

  /** verify_block as the core runs it, in place: the block is judged as the circumstances
      of the node say (Own), and the core is left with its database, or as it was. */
  method VerifyInPlace(u: Setup, p: Plugin, w: World, id: BlockId, core: Core.Miner) returns (r: Option<P.State>)
    requires Own(u, p, w) && core.mempool == p.mempool && core.core == p.state
    modifies core
    ensures r == w.replay(id) && core.core == if r.Some? then r.value else p.state
    ensures core.mempool == p.mempool
  {
    if u.prev(id) != LastId(p.chain) {
      return None;
    }
    var ok := core.VerifyBlock(u.exec, u.body(id));
    r := if ok then Some(core.core) else None;
  }

  /** Replaying a chain block by block, each with the mempool of its moment. */
  function ReplayAll(exec: P.Exec, s: P.State, pools: seq<seq<P.Slot>>, chain: seq<P.Body>): Option<P.State>
    requires |pools| == |chain|
    decreases |chain|
  {
    if chain == [] then Some(s)
    else
      var m := |chain| - 1;
      var before := ReplayAll(exec, s, pools[..m], chain[..m]);
      if before.None? || !P.Accepts(exec, before.value, pools[m], chain[m]) then None
      else P.Replay(exec, before.value, pools[m], chain[m].items)
  }

  /** The mempool of block `k` names the transactions that its builder took. */
  predicate HoldsBlock(exec: P.Exec, s: P.State, pools: seq<seq<P.Slot>>, others: seq<seq<P.Slot>>, chain: seq<P.Body>,
                       k: nat)
    requires k < |chain| == |pools| == |others|
  {
    Chain.Holds(others[k], P.Filled(exec, Chain.Tip(s, chain[..k]), pools[k]).taken)
  }

  lemma HoldsFront(exec: P.Exec, s: P.State, pools: seq<seq<P.Slot>>, others: seq<seq<P.Slot>>, chain: seq<P.Body>)
    requires |others| == |pools| == |chain| > 0
    requires forall k :: 0 <= k < |chain| ==> HoldsBlock(exec, s, pools, others, chain, k)
    ensures var m := |chain| - 1;
            forall k :: 0 <= k < m ==> HoldsBlock(exec, s, pools[..m], others[..m], chain[..m], k)
  {
    var m := |chain| - 1;
    forall k | 0 <= k < m ensures HoldsBlock(exec, s, pools[..m], others[..m], chain[..m], k) {
      assert HoldsBlock(exec, s, pools, others, chain, k);
      assert chain[..m][..k] == chain[..k];
    }
  }

  /** Whoever replays a chain of built blocks with mempools that hold their transactions
      reaches the database of the last builder. */
  lemma {:induction false} ReplaySucceeds(exec: P.Exec, s: P.State, pools: seq<seq<P.Slot>>, others: seq<seq<P.Slot>>,
                                          chain: seq<P.Body>)
    requires Chain.BuiltChain(exec, s, pools, chain) && |others| == |chain|
    requires forall k :: 0 <= k < |chain| ==> HoldsBlock(exec, s, pools, others, chain, k)
    ensures ReplayAll(exec, s, others, chain) == Some(Chain.Tip(s, chain))
    decreases |chain|
  {
    if chain != [] {
      var m := |chain| - 1;
      Chain.BuiltFront(exec, s, pools, chain);
      HoldsFront(exec, s, pools, others, chain);
      ReplaySucceeds(exec, s, pools[..m], others[..m], chain[..m]);
      assert HoldsBlock(exec, s, pools, others, chain, m);
      Chain.BuiltIsAccepted(exec, Chain.Tip(s, chain[..m]), pools[m], others[m]);
    }
  }
}
