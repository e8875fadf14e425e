/** What every handler of one node keeps about its database: it is the one its chain
    leads to, and an open block leads to the database its header names. */
module ReplicatedHandlers {
  import opened Common
  import opened ConsensusModel
  import opened ConsensusHandlers
  import opened ConsensusRuns
  import opened ConsensusChoice
  import P = ProposerModel
  import Proofs = ProposerProofs
  import Chain = ProposerChain

  /** The SQL engine, the body and the predecessor that the header of each block names,
      and the database the nodes start from. */
  datatype Setup = Setup(exec: P.Exec, body: BlockId -> P.Body, prev: BlockId -> Option<BlockId>, start: P.State)

  function Bodies(u: Setup, chain: seq<BlockId>): (r: seq<P.Body>)
    ensures |r| == |chain|
    ensures forall k :: 0 <= k < |chain| ==> r[k] == u.body(chain[k])
  {
    seq(|chain|, k requires 0 <= k < |chain| => u.body(chain[k]))
  }

  /** The database that a chain leads to. */
  function Database(u: Setup, chain: seq<BlockId>): P.State {
    Chain.Tip(u.start, Bodies(u, chain))
  }

  lemma DatabaseAfter(u: Setup, chain: seq<BlockId>, id: BlockId)
    ensures Database(u, chain + [id]) == u.body(id).state
  {
  }

  function LastId(chain: seq<BlockId>): Option<BlockId> {
    if chain == [] then None else Some(chain[|chain| - 1])
  }

  /** verify_block on the node's own database and mempool: the block must follow the last
      committed one, and the replay must end in the database that the header names. */
  function Replayed(u: Setup, p: Plugin, id: BlockId): Option<P.State> {
    if u.prev(id) == LastId(p.chain) && P.Accepts(u.exec, p.state, p.mempool, u.body(id))
    then P.Replay(u.exec, p.state, p.mempool, u.body(id).items)
    else None
  }

  /** The node judges blocks by its own database and mempool. */
  ghost predicate Own(u: Setup, p: Plugin, w: World) {
    forall id: BlockId :: w.items(id) == u.body(id).items
                          && w.missing(id) == MissingFrom(u.body(id).items, p.mempool)
                          && w.replay(id) == Replayed(u, p, id)
  }

  /** All that the handlers need of it: a replay ends where the header says. */
  ghost predicate Faithful(u: Setup, w: World) {
    forall id: BlockId :: w.replay(id).Some? ==> w.replay(id).value == u.body(id).state
  }

  lemma OwnIsFaithful(u: Setup, p: Plugin, w: World)
    requires Own(u, p, w)
    ensures Faithful(u, w)
  {
    forall id: BlockId | w.replay(id).Some? ensures w.replay(id).value == u.body(id).state {
      assert w.replay(id) == Replayed(u, p, id);
    }
  }

  predicate OpenOk(u: Setup, open: Option<Open>) {
    open.Some? && open.value.state.Some? ==> open.value.state.value == u.body(open.value.key.id).state
  }

  predicate Among(bs: seq<Block>, made: set<Key>) {
    forall b :: b in bs ==> b.Ref() in made
  }

  /** The database is the one of the chain; blocks are among those created; and the
      mempool names every transaction once. */
  predicate Synced(u: Setup, made: set<Key>, p: Plugin) {
    p.state == Database(u, p.chain) && OpenOk(u, p.openBlock) && Among(p.newBlocks, made)
    && (forall k :: 0 <= k < |p.chain| ==> Key(p.chain[k], k + 1) in made)
    && Proofs.DistinctIds(p.mempool)
  }

  // ---- the mempool ----

  lemma DropFirstKeepsIds(pool: seq<P.Slot>, height: nat)
    requires Proofs.DistinctIds(pool)
    ensures Proofs.DistinctIds(P.DropFirst(pool, height))
  {
  }

  lemma {:induction false} DropPastKeepsIds(pool: seq<P.Slot>, n: nat, height: nat)
    requires Proofs.DistinctIds(pool)
    ensures Proofs.DistinctIds(P.DropPast(pool, n, height))
    decreases n
  {
    if n > 0 {
      DropFirstKeepsIds(pool, height);
      DropPastKeepsIds(P.DropFirst(pool, height), n - 1, height);
    }
  }

  lemma {:induction false} UnspentKeepsIds(pool: seq<P.Slot>, last: map<NodeId, nat>)
    requires Proofs.DistinctIds(pool)
    ensures Proofs.DistinctIds(P.Unspent(pool, last))
    ensures forall x :: x in P.Unspent(pool, last) ==> x in pool
    decreases |pool|
  {
    if pool != [] {
      var rest := P.Unspent(pool[1..], last);
      UnspentKeepsIds(pool[1..], last);
      forall j | 0 <= j < |rest| ensures rest[j].txn.Id() != pool[0].txn.Id() {
        assert rest[j] in pool[1..];
      }
    }
  }

  lemma SettleKeepsIds(pool: seq<P.Slot>, items: seq<P.Item>, height: nat, last: map<NodeId, nat>)
    requires Proofs.DistinctIds(pool)
    ensures Proofs.DistinctIds(P.Settle(pool, items, height, last))
  {
    var marked := P.MarkUsed(pool, items, height);
    assert Proofs.DistinctIds(marked);
    DropPastKeepsIds(marked, |items|, height);
    UnspentKeepsIds(P.DropPast(marked, |items|, height), last);
  }

  // ---- choosing and committing ----

  lemma {:induction false} SelectSynced(u: Setup, w: World, h: nat, bs: seq<Block>, ex: seq<Block>, open: Option<Open>,
                                        f: Fetching)
    requires Faithful(u, w) && OpenOk(u, open)
    ensures OpenOk(u, SelectBlock(w, h, bs, ex, open, f).open)
    decreases |bs|
  {
    var i := LeastWait(bs, h);
    if i.Some? {
      var b := bs[i.value];
      if !IsOpen(open, b) && !Passes(w, b) {
        SelectSynced(u, w, h, Remove(bs, i.value), ex + [b], None, Fetch(f, w, b.Ref()));
      }
    }
  }

  lemma SameRefs(bs: seq<Block>, cs: seq<Block>, made: set<Key>)
    requires multiset(Refs(bs)) == multiset(Refs(cs)) && Among(bs, made)
    ensures Among(cs, made)
  {
    forall b | b in cs ensures b.Ref() in made {
      var i :| 0 <= i < |cs| && cs[i] == b;
      assert Refs(cs)[i] == b.Ref();
      assert b.Ref() in multiset(Refs(cs));
      assert b.Ref() in Refs(bs);
      var j :| 0 <= j < |bs| && Refs(bs)[j] == b.Ref();
      assert bs[j] in bs;
    }
  }

  lemma CastVoteSynced(u: Setup, made: set<Key>, p: Plugin, w: World, r: Round)
    requires Faithful(u, w) && Synced(u, made, p)
    ensures Synced(u, made, CastVote(p, w, r))
  {
    SelectSynced(u, w, p.Next(), SetWaitTimes(w, p.Next(), p.newBlocks), [], p.openBlock, p.fetching);
    CastVoteKeepsBlocks(p, w, r);
    SameRefs(p.newBlocks, CastVote(p, w, r).newBlocks, made);
    CastVoteKeepsRest(p, w, r);
  }

  lemma CastVoteKeepsRest(p: Plugin, w: World, r: Round)
    ensures var q := CastVote(p, w, r);
            q.state == p.state && q.chain == p.chain && q.mempool == p.mempool && q.openBlock == Select(p, w).open
  {
  }

  lemma {:induction false} AboveAmong(bs: seq<Block>, h: nat, made: set<Key>)
    requires Among(bs, made)
    ensures Among(BlocksAbove(bs, h), made)
    decreases |bs|
  {
    if bs != [] {
      assert bs[0] in bs;
      AboveAmong(bs[1..], h, made);
    }
  }

  lemma CommitSynced(u: Setup, made: set<Key>, p: Plugin, items: seq<P.Item>, i: nat, s: P.State)
    requires Synced(u, made, p) && i < |p.newBlocks| && p.newBlocks[i].height == p.Next()
    requires s == u.body(p.newBlocks[i].id).state
    ensures Synced(u, made, CommitBlock(p, items, i, s))
  {
    var b, rest := p.newBlocks[i], Remove(p.newBlocks, i);
    assert b in p.newBlocks;
    DatabaseAfter(u, p.chain, b.id);
    assert forall x :: x in rest ==> x in p.newBlocks;
    AboveAmong(rest, p.Next(), made);
    SettleKeepsIds(p.mempool, items, p.Next(), s.last);
  }

  lemma CommitOpenSynced(u: Setup, made: set<Key>, p: Plugin, w: World, i: nat)
    requires Synced(u, made, p) && i < |p.newBlocks| && p.newBlocks[i].height == p.Next()
    requires IsOpen(p.openBlock, p.newBlocks[i])
    ensures Synced(u, made, CommitOpen(p, w, i))
  {
    var b := p.newBlocks[i];
    if w.commits(b.id) && p.openBlock.value.state.Some? {
      CommitSynced(u, made, p, w.items(b.id), i, p.openBlock.value.state.value);
    }
  }

  lemma CommitWinnerSynced(u: Setup, made: set<Key>, p: Plugin, w: World, i: nat)
    requires Faithful(u, w) && Synced(u, made, p) && i < |p.newBlocks| && p.newBlocks[i].height == p.Next()
    ensures Synced(u, made, CommitWinner(p, w, i))
  {
    var b := p.newBlocks[i];
    if IsOpen(p.openBlock, b) {
      CommitOpenSynced(u, made, p, w, i);
    } else if Passes(w, b) {
      CommitOpenSynced(u, made, p.(fetching := Fetch(p.fetching, w, b.Ref()),
                                   openBlock := Some(Open(b.Ref(), w.replay(b.id)))), w, i);
    }
  }

  lemma {:induction false} CheckSynced(u: Setup, made: set<Key>, p: Plugin, w: World, r: Round)
    requires Faithful(u, w) && Synced(u, made, p)
    ensures Synced(u, made, CheckForWinner(p, w, r))
    decreases Rank(r), 0
  {
    if p.newBlocks != [] && !w.updating {
      var i := FindWinner(p.newBlocks, p.Next(), r, Majority(w.quorum));
      if i.Some? {
        CommitWinnerSynced(u, made, p, w, i.value);
      } else if MovesOn(p, w, r) {
        ChooseSynced(u, made, p, w, Second);
      }
    }
  }

  lemma {:induction false} ChooseSynced(u: Setup, made: set<Key>, p: Plugin, w: World, r: Round)
    requires Faithful(u, w) && Synced(u, made, p)
    ensures Synced(u, made, ChooseBlock(p, w, r))
    decreases Rank(r), 1
  {
    if !p.Voted(r) && !w.updating {
      CastVoteSynced(u, made, p, w, r);
      CheckSynced(u, made, if w.canVote then CastVote(p, w, r) else p, w, r);
    }
  }

  // ---- the handlers ----

  lemma AddedSynced(u: Setup, made: set<Key>, p: Plugin, b: Block, f: Fetching)
    requires Synced(u, made, p) && b.Ref() in made
    ensures Synced(u, made, p.(newBlocks := p.newBlocks + [b], fetching := f))
  {
  }

  lemma NewBlockSynced(u: Setup, made: set<Key>, p: Plugin, w: World, k: Key)
    requires Faithful(u, w) && Synced(u, made, p) && k in made
    ensures Synced(u, made, OnNewBlock(p, w, k))
  {
    var q := StoreBlock(p, w, k);
    AddedSynced(u, made, p, TransferVotes(p.pending, Block(k.id, k.height, 0, NO_TALLY, NO_TALLY)), q.fetching);
    CheckSynced(u, made, StartWait(q, w), w, First);
  }

  lemma VoteSynced(u: Setup, made: set<Key>, p: Plugin, w: World, v: Vote)
    requires Faithful(u, w) && Synced(u, made, p)
    ensures Synced(u, made, OnBlockVote(p, w, v))
  {
    var i := FindBlock(p.newBlocks, Key(v.id, v.height));
    if i.Some? {
      var c := CountVote(p.newBlocks[i.value], v.round, v.voter);
      if c.Some? {
        assert p.newBlocks[i.value] in p.newBlocks;
        CheckSynced(u, made, p.(newBlocks := p.newBlocks[i.value := c.value]), w, v.round);
      }
    }
  }

  lemma TransactionSynced(u: Setup, made: set<Key>, p: Plugin, w: World, t: P.Txn)
    requires Faithful(u, w) && Synced(u, made, p)
    ensures Synced(u, made, OnTransaction(p, w, t))
  {
    if TakesIn(p, t) {
      ChooseSynced(u, made, TakeIn(p, t), w, First);
    }
  }

  lemma CreationSynced(u: Setup, made: set<Key>, p: Plugin, w: World, id: BlockId)
    requires Synced(u, made, p) && Key(id, p.Next()) in made
    ensures Synced(u, made, OnBlockCreated(p, w, id, u.body(id).state))
  {
    AddedSynced(u, made, p, Block(id, p.Next(), 0, NO_TALLY, NO_TALLY), p.fetching);
  }

  lemma MoreMade(u: Setup, made: set<Key>, more: set<Key>, p: Plugin)
    requires Synced(u, made, p) && made <= more
    ensures Synced(u, more, p)
  {
  }
}
