/** What every handler of one node keeps, relative to the votes cast so far. */
module ConsensusInvariant {
  import opened Common
  import opened ConsensusModel

  /** The voters of each height: fixed, and known to every node. */
  datatype Config = Config(voters: nat -> set<NodeId>)

  predicate Distinct<T(==)>(s: seq<T>) {
    forall i, j :: 0 <= i < j < |s| ==> s[i] != s[j]
  }

  /** num_votes[r] is the number of distinct voters in temp_votes[r], and each of
      them did cast that vote. */
  predicate TallyOk(cast: set<Vote>, b: Block, r: Round) {
    var t := b.Of(r);
    t.count == |t.voters| && Distinct(t.voters)
    && forall u :: u in t.voters ==> Vote(u, b.height, r, b.id) in cast
  }

  predicate BlockOk(cast: set<Vote>, b: Block) {
    TallyOk(cast, b, First) && TallyOk(cast, b, Second)
  }

  predicate BlocksOk(cast: set<Vote>, bs: seq<Block>, h: nat) {
    (forall i :: 0 <= i < |bs| ==> BlockOk(cast, bs[i]) && bs[i].height > h)
    && (forall i, j :: 0 <= i < j < |bs| ==> bs[i].Ref() != bs[j].Ref())
  }

  /** Nobody votes for two blocks in one round of one height. */
  predicate OneVote(cast: set<Vote>) {
    forall v, u :: v in cast && u in cast && v.voter == u.voter && v.height == u.height && v.round == u.round
                   ==> v.id == u.id
  }

  /** Who voted in round 0 at `h` for a block other than `id`. */
  function Others(cast: set<Vote>, h: nat, id: BlockId): set<NodeId> {
    set v | v in cast && v.height == h && v.round == First && v.id != id :: v.voter
  }

  function Voters(cast: set<Vote>, h: nat, r: Round, id: BlockId): set<NodeId> {
    set v | v in cast && v.height == h && v.round == r && v.id == id :: v.voter
  }

  /** No block can get a round-0 majority at `h` any more. */
  ghost predicate Dead(cfg: Config, cast: set<Vote>, h: nat) {
    forall id :: |Others(cast, h, id)| + Majority(|cfg.voters(h)|) > |cfg.voters(h)|
  }

  predicate Won(cfg: Config, cast: set<Vote>, h: nat, id: BlockId) {
    exists r: Round :: |Voters(cast, h, r, id)| >= Majority(|cfg.voters(h)|)
  }

  /** The votes cast by all nodes. */
  ghost predicate CastOk(cfg: Config, cast: set<Vote>) {
    OneVote(cast)
    && (forall v :: v in cast ==> v.voter in cfg.voters(v.height))
    && (forall v :: v in cast && v.round == Second ==> Dead(cfg, cast, v.height))
  }

  /** One node's own votes against its last-vote fields. */
  predicate OwnOk(cast: set<Vote>, p: Plugin) {
    p.outbox <= cast
    && (forall v :: v in cast && v.voter == p.nodeId ==> v in p.outbox)
    && (forall v :: v in p.outbox ==> v.voter == p.nodeId && v.height <= p.Next())
    && (forall v :: v in p.outbox && v.height == p.Next() ==>
          p.lastVoteHeight == v.height && (v.round == Second ==> p.lastVoteRound == Second))
  }

  /** While the node waits for blocks it has not voted in round 1. */
  predicate TimerOk(p: Plugin) {
    p.lastVoteHeight <= p.Next() && (p.waiting ==> !p.Voted(Second))
  }

  ghost predicate ChainOk(cfg: Config, cast: set<Vote>, chain: seq<BlockId>) {
    forall k :: 0 <= k < |chain| ==> Won(cfg, cast, k + 1, chain[k])
  }

  predicate PendingOk(cast: set<Vote>, pending: seq<Vote>) {
    forall v :: v in pending ==> v in cast
  }

  ghost predicate NodeOk(cfg: Config, cast: set<Vote>, p: Plugin) {
    BlocksOk(cast, p.newBlocks, |p.chain|) && PendingOk(cast, p.pending)
    && OwnOk(cast, p) && TimerOk(p) && ChainOk(cfg, cast, p.chain)
  }

  /** The outside facts agree with the fixed voter set. */
  predicate WorldOk(cfg: Config, p: Plugin, w: World) {
    w.quorum == |cfg.voters(p.Next())| && (w.canVote ==> p.nodeId in cfg.voters(p.Next()))
  }

  /** More votes cast never undo what a node relies on. */
  lemma MoreVotes(cfg: Config, cast: set<Vote>, more: set<Vote>, p: Plugin)
    requires cast <= more && NodeOk(cfg, cast, p)
    requires forall v :: v in more - cast ==> v.voter != p.nodeId
    ensures NodeOk(cfg, more, p)
  {
    MoreBlocks(cast, more, p.newBlocks, |p.chain|);
    MoreChain(cfg, cast, more, p.chain);
  }

  lemma MoreBlocks(cast: set<Vote>, more: set<Vote>, bs: seq<Block>, h: nat)
    requires cast <= more && BlocksOk(cast, bs, h)
    ensures BlocksOk(more, bs, h)
  {
  }

  lemma MoreChain(cfg: Config, cast: set<Vote>, more: set<Vote>, chain: seq<BlockId>)
    requires cast <= more && ChainOk(cfg, cast, chain)
    ensures ChainOk(cfg, more, chain)
  {
    forall k | 0 <= k < |chain| ensures Won(cfg, more, k + 1, chain[k]) {
      var r: Round :| |Voters(cast, k + 1, r, chain[k])| >= Majority(|cfg.voters(k + 1)|);
      SubsetSize(Voters(cast, k + 1, r, chain[k]), Voters(more, k + 1, r, chain[k]));
    }
  }

  lemma MoreDead(cfg: Config, cast: set<Vote>, more: set<Vote>, h: nat)
    requires cast <= more && Dead(cfg, cast, h)
    ensures Dead(cfg, more, h)
  {
    forall id ensures |Others(more, h, id)| + Majority(|cfg.voters(h)|) > |cfg.voters(h)| {
      SubsetSize(Others(cast, h, id), Others(more, h, id));
    }
  }

  /** Two blocks cannot share their voters: each voter of a round is counted once. */
  lemma DeadMeansNoMajority(cfg: Config, cast: set<Vote>, h: nat, id: BlockId)
    requires CastOk(cfg, cast) && Dead(cfg, cast, h)
    ensures |Voters(cast, h, First, id)| < Majority(|cfg.voters(h)|)
  {
    var a, b := Voters(cast, h, First, id), Others(cast, h, id);
    assert a !! b;
    SubsetSize(a + b, cfg.voters(h));
    assert |a + b| == |a| + |b|;
  }

  lemma SameRoundQuorums(cfg: Config, cast: set<Vote>, h: nat, r: Round, id1: BlockId, id2: BlockId)
    requires CastOk(cfg, cast)
    requires |Voters(cast, h, r, id1)| >= Majority(|cfg.voters(h)|)
    requires |Voters(cast, h, r, id2)| >= Majority(|cfg.voters(h)|)
    ensures id1 == id2
  {
    if id1 != id2 {
      var a, b := Voters(cast, h, r, id1), Voters(cast, h, r, id2);
      assert a !! b && |a + b| == |a| + |b|;
      SubsetSize(a + b, cfg.voters(h));
    }
  }

  /** Two blocks that won at the same height, in the same or in different rounds,
      are the same block. */
  lemma WinnersAgree(cfg: Config, cast: set<Vote>, h: nat, id1: BlockId, id2: BlockId)
    requires CastOk(cfg, cast) && Won(cfg, cast, h, id1) && Won(cfg, cast, h, id2)
    ensures id1 == id2
  {
    var r1: Round :| |Voters(cast, h, r1, id1)| >= Majority(|cfg.voters(h)|);
    var r2: Round :| |Voters(cast, h, r2, id2)| >= Majority(|cfg.voters(h)|);
    if r1 == r2 {
      SameRoundQuorums(cfg, cast, h, r1, id1, id2);
    } else {
      var late := if r1 == Second then id1 else id2;
      var u :| u in Voters(cast, h, Second, late);
      var v :| v in cast && v.height == h && v.round == Second && v.voter == u;
      assert Dead(cfg, cast, h);
      DeadMeansNoMajority(cfg, cast, h, if r1 == Second then id2 else id1);
    }
  }
}
