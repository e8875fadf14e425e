/** One node of the no-leader consensus: the part of `struct plugin` that decides
    votes and commits, and its handlers (plugins/no-leader/consensus.c). */
module ConsensusModel {
  import opened Common
  import P = ProposerModel

  type NodeId = int
  type BlockId = int

  /** Voting has two rounds per height, 0 and 1 in the source. */
  datatype Round = First | Second

  datatype Vote = Vote(voter: NodeId, height: nat, round: Round, id: BlockId)

  /** temp_votes[r] and num_votes[r] of a block. */
  datatype Tally = Tally(voters: seq<NodeId>, count: nat)

  datatype Block = Block(id: BlockId, height: nat, waitTime: nat, first: Tally, second: Tally) {
    function Of(r: Round): Tally { if r.First? then first else second }
    function With(r: Round, t: Tally): Block { if r.First? then this.(first := t) else this.(second := t) }
    function Ref(): Key { Key(id, height) }
  }

  datatype Key = Key(id: BlockId, height: nat)

  /** The open block and the database its execution led to. After a commit that
      failed the core has rolled back, and only the pointer is left. */
  datatype Open = Open(key: Key, state: Option<P.State>)

  /** The transactions asked for, and the blocks whose downloading_txns flag is set. */
  datatype Fetching = Fetching(requests: set<P.Tid>, downloading: set<Key>)

  /** `chain` lists the committed blocks, so the current height is its length, and
      `state` is the committed database. `outbox` holds every vote this node has
      broadcast, `waiting` says that block_wait_timer is active. */
  datatype Plugin = Plugin(
    nodeId: NodeId,
    chain: seq<BlockId>,
    newBlocks: seq<Block>,
    openBlock: Option<Open>,
    pending: seq<Vote>,
    lastVoteHeight: nat,
    lastVoteRound: Round,
    outbox: set<Vote>,
    waiting: bool,
    fetching: Fetching,
    state: P.State,
    mempool: seq<P.Slot>) {

    function Next(): nat { |chain| + 1 }

    predicate Voted(r: Round) { lastVoteHeight == Next() && lastVoteRound == r }
  }

  const NOTHING_ASKED := Fetching({}, {})

  /** A node that has just been started on a database without blocks. */
  function Started(n: NodeId, s: P.State, mempool: seq<P.Slot>): Plugin {
    Plugin(n, [], [], None, [], 0, First, {}, false, NOTHING_ASKED, s, mempool)
  }

  /** What one handler call learns from outside: authorizations, the VRF wait times,
      the transactions listed in a block, those of them missing from the mempool, the
      database a replay of the block leads to, and whether the core can commit. */
  datatype World = World(
    canVote: bool,
    updating: bool,
    quorum: nat,
    waitTime: BlockId -> nat,
    items: BlockId -> seq<P.Item>,
    missing: BlockId -> set<P.Tid>,
    replay: BlockId -> Option<P.State>,
    commits: BlockId -> bool)

  function Majority(n: nat): nat { n / 2 + 1 }

  const NO_TALLY := Tally([], 0)

  /** add_block_vote: a voter is stored once per round. */
  function AddBlockVote(b: Block, r: Round, voter: NodeId): Option<Block> {
    var t := b.Of(r);
    if voter in t.voters then None else Some(b.With(r, t.(voters := t.voters + [voter])))
  }

  /** add_block_vote followed by the caller's `num_votes[round]++`. */
  function CountVote(b: Block, r: Round, voter: NodeId): Option<Block> {
    match AddBlockVote(b, r, voter)
    case None => None
    case Some(b1) => Some(b1.With(r, b1.Of(r).(count := b1.Of(r).count + 1)))
  }

  /** store_block_vote: votes for blocks that have not arrived are kept once. */
  function StoreBlockVote(pending: seq<Vote>, v: Vote): seq<Vote> {
    if v in pending then pending else pending + [v]
  }

  /** transfer_block_votes: a block that arrives takes its stored votes. */
  function TransferVotes(pending: seq<Vote>, b: Block): (r: Block)
    ensures r.id == b.id && r.height == b.height && r.waitTime == b.waitTime
    decreases |pending|
  {
    if pending == [] then b
    else
      var v := pending[0];
      var b1 := if v.height == b.height && v.id == b.id
                then var c := CountVote(b, v.round, v.voter); if c.Some? then c.value else b
                else b;
      TransferVotes(pending[1..], b1)
  }

  function Remove(bs: seq<Block>, i: nat): seq<Block>
    requires i < |bs|
  {
    bs[..i] + bs[i + 1..]
  }

  /** The first block of least wait time at height `h`. */
  function LeastWait(bs: seq<Block>, h: nat): (r: Option<nat>)
    ensures r.Some? ==> r.value < |bs| && bs[r.value].height == h
    decreases |bs|
  {
    if bs == [] then None
    else
      var last := |bs| - 1;
      var best := LeastWait(bs[..last], h);
      if bs[last].height == h && (best.None? || bs[last].waitTime < bs[best.value].waitTime) then Some(last) else best
  }

  predicate IsOpen(open: Option<Open>, b: Block) {
    open.Some? && open.value.key == b.Ref()
  }

  /** The listed transactions that are not in the mempool. */
  function MissingFrom(items: seq<P.Item>, pool: seq<P.Slot>): set<P.Tid> {
    set k | 0 <= k < |items| && P.Find(pool, items[k].id).None? :: items[k].id
  }

  /** check_block_transactions: what is missing is asked for, once per block. */
  function Fetch(f: Fetching, w: World, k: Key): Fetching {
    Fetching(if k in f.downloading then f.requests else f.requests + w.missing(k.id),
             if w.missing(k.id) == {} then f.downloading - {k} else f.downloading + {k})
  }

  /** check_block_transactions and verify_block both succeed. */
  predicate Passes(w: World, b: Block) {
    w.missing(b.id) == {} && w.replay(b.id).Some?
  }

  /** The search of choose_block_to_vote: blocks that fail their checks move to
      the excluded list, and an open block that is not chosen is rolled back. */
  datatype Selection =
    Selection(blocks: seq<Block>, excluded: seq<Block>, open: Option<Open>, fetching: Fetching, winner: Option<nat>)

  function SelectBlock(w: World, h: nat, bs: seq<Block>, excluded: seq<Block>, open: Option<Open>, f: Fetching)
    : (s: Selection)
    ensures s.winner.Some? ==> s.winner.value < |s.blocks| && s.blocks[s.winner.value].height == h
    decreases |bs|
  {
    var i := LeastWait(bs, h);
    if i.None? then Selection(bs, excluded, open, f, None)
    else
      var b := bs[i.value];
      if IsOpen(open, b) then Selection(bs, excluded, open, f, i)
      else
        var g := Fetch(f, w, b.Ref());
        if Passes(w, b) then Selection(bs, excluded, Some(Open(b.Ref(), w.replay(b.id))), g, i)
        else SelectBlock(w, h, Remove(bs, i.value), excluded + [b], None, g)
  }

  function SetWaitTimes(w: World, h: nat, bs: seq<Block>): (r: seq<Block>)
    ensures |r| == |bs|
    ensures forall i :: 0 <= i < |bs| ==>
              r[i] == if bs[i].height == h then bs[i].(waitTime := w.waitTime(bs[i].id)) else bs[i]
  {
    seq(|bs|, i requires 0 <= i < |bs| =>
      if bs[i].height == h then bs[i].(waitTime := w.waitTime(bs[i].id)) else bs[i])
  }

  /** vote_on_block: count the own vote, remember it, broadcast it. */
  function VoteOnBlock(p: Plugin, r: Round, i: nat): Plugin
    requires i < |p.newBlocks|
  {
    var b := p.newBlocks[i];
    match CountVote(b, r, p.nodeId)
    case None => p
    case Some(b1) =>
      p.(newBlocks := p.newBlocks[i := b1],
         lastVoteHeight := b.height,
         lastVoteRound := r,
         outbox := p.outbox + {Vote(p.nodeId, b.height, r, b.id)})
  }

  function BlocksAbove(bs: seq<Block>, h: nat): (r: seq<Block>)
    ensures |r| <= |bs|
    decreases |bs|
  {
    if bs == [] then []
    else (if bs[0].height > h then [bs[0]] else []) + BlocksAbove(bs[1..], h)
  }

  function VotesFrom(vs: seq<Vote>, h: nat): (r: seq<Vote>)
    decreases |vs|
  {
    if vs == [] then []
    else (if vs[0].height >= h then [vs[0]] else []) + VotesFrom(vs[1..], h)
  }

  /** commit_block once the core has committed the database `s`: the block leaves
      `new_blocks`; transactions, blocks and votes that are now old are discarded. */
  function CommitBlock(p: Plugin, items: seq<P.Item>, i: nat, s: P.State): Plugin
    requires i < |p.newBlocks|
  {
    var h := p.Next();
    p.(chain := p.chain + [p.newBlocks[i].id],
       newBlocks := BlocksAbove(Remove(p.newBlocks, i), h),
       openBlock := None,
       pending := VotesFrom(p.pending, h),
       state := s,
       mempool := P.Settle(p.mempool, items, h, s.last))
  }

  /** commit_block for the open block: without a database behind it the core refuses. */
  function CommitOpen(p: Plugin, w: World, i: nat): Plugin
    requires i < |p.newBlocks| && p.openBlock.Some?
  {
    var b, o := p.newBlocks[i], p.openBlock.value;
    if w.commits(b.id) && o.state.Some? then CommitBlock(p, w.items(b.id), i, o.state.value)
    else p.(openBlock := Some(o.(state := None)))
  }

  /** The first block of the next height with a majority in round `r`. */
  function FindWinner(bs: seq<Block>, h: nat, r: Round, majority: nat): (i: Option<nat>)
    ensures i.Some? ==> i.value < |bs| && bs[i.value].height == h && bs[i.value].Of(r).count >= majority
    ensures i.None? ==> forall j :: 0 <= j < |bs| && bs[j].height == h ==> bs[j].Of(r).count < majority
    decreases |bs|
  {
    if bs == [] then None
    else if bs[0].height == h && bs[0].Of(r).count >= majority then Some(0)
    else
      var j := FindWinner(bs[1..], h, r, majority);
      if j.None? then None else Some(j.value + 1)
  }

  /** The winner branch of check_for_winner_block, apply_block included. */
  function CommitWinner(p: Plugin, w: World, i: nat): Plugin
    requires i < |p.newBlocks|
  {
    var b := p.newBlocks[i];
    if IsOpen(p.openBlock, b) then CommitOpen(p, w, i)
    else
      var p1 := p.(openBlock := None, fetching := Fetch(p.fetching, w, b.Ref()));
      if !Passes(w, b) then p1
      else CommitOpen(p1.(openBlock := Some(Open(b.Ref(), w.replay(b.id)))), w, i)
  }

  function TotalVotes(bs: seq<Block>, h: nat): nat
    decreases |bs|
  {
    if bs == [] then 0 else (if bs[0].height == h then bs[0].first.count else 0) + TotalVotes(bs[1..], h)
  }

  /** Some candidate can still get a first-round majority. */
  predicate StillOpen(bs: seq<Block>, h: nat, quorum: nat) {
    exists i :: 0 <= i < |bs| && bs[i].height == h
                && bs[i].first.count + (quorum - TotalVotes(bs, h)) >= Majority(quorum)
  }

  function Rank(r: Round): nat { if r.First? then 1 else 0 }

  /** check_for_winner_block. */
  function CheckForWinner(p: Plugin, w: World, r: Round): Plugin
    decreases Rank(r), 0
  {
    if p.newBlocks == [] || w.updating then p
    else
      var i := FindWinner(p.newBlocks, p.Next(), r, Majority(w.quorum));
      if i.Some? then CommitWinner(p, w, i.value)
      else if MovesOn(p, w, r) then ChooseBlock(p, w, Second)
      else p
  }

  /** No block won round 0, this node has not voted in round 1, no candidate it
      knows can still win, and the wait for blocks is over. */
  predicate MovesOn(p: Plugin, w: World, r: Round) {
    r.First? && !p.Voted(Second) && !StillOpen(p.newBlocks, p.Next(), w.quorum) && !p.waiting
  }

  function Select(p: Plugin, w: World): Selection {
    SelectBlock(w, p.Next(), SetWaitTimes(w, p.Next(), p.newBlocks), [], p.openBlock, p.fetching)
  }

  /** choose_block_to_vote up to the restored block list. */
  function CastVote(p: Plugin, w: World, r: Round): Plugin {
    var s := Select(p, w);
    var p1 := p.(newBlocks := s.blocks, openBlock := s.open, fetching := s.fetching);
    var p2 := if s.winner.Some? then VoteOnBlock(p1, r, s.winner.value) else p1;
    p2.(newBlocks := p2.newBlocks + s.excluded)
  }

  /** choose_block_to_vote. */
  function ChooseBlock(p: Plugin, w: World, r: Round): Plugin
    decreases Rank(r), 1
  {
    if p.Voted(r) || w.updating then p
    else if !w.canVote then CheckForWinner(p, w, r)
    else CheckForWinner(CastVote(p, w, r), w, r)
  }

  function FindBlock(bs: seq<Block>, k: Key): (i: Option<nat>)
    ensures i.Some? ==> i.value < |bs| && bs[i.value].Ref() == k
    ensures i.None? ==> forall j :: 0 <= j < |bs| ==> bs[j].Ref() != k
    decreases |bs|
  {
    if bs == [] then None
    else if bs[0].Ref() == k then Some(0)
    else var j := FindBlock(bs[1..], k); if j.None? then None else Some(j.value + 1)
  }

  /** start_block_wait_timer. */
  function StartWait(p: Plugin, w: World): Plugin {
    if p.lastVoteHeight == p.Next() || !w.canVote then p else p.(waiting := true)
  }

  /** on_new_block for a block whose header and proof are valid: up to the transactions
      that are asked for, and the check for a winner. */
  function StoreBlock(p: Plugin, w: World, k: Key): Plugin {
    var b := TransferVotes(p.pending, Block(k.id, k.height, 0, NO_TALLY, NO_TALLY));
    p.(newBlocks := p.newBlocks + [b],
       fetching := Fetch(p.fetching.(downloading := p.fetching.downloading - {k}), w, k))
  }

  function OnNewBlock(p: Plugin, w: World, k: Key): Plugin {
    if FindBlock(p.newBlocks, k).Some? || k.height <= |p.chain| then p
    else
      var p1 := StoreBlock(p, w, k);
      if k.height > p.Next() then p1
      else
        var p2 := StartWait(p1, w);
        if w.missing(k.id) != {} then p2 else CheckForWinner(p2, w, First)
  }

  /** on_block_vote for a vote whose signature is valid. */
  function OnBlockVote(p: Plugin, w: World, v: Vote): Plugin {
    var i := FindBlock(p.newBlocks, Key(v.id, v.height));
    if i.None? then
      if v.height > |p.chain| then p.(pending := StoreBlockVote(p.pending, v)) else p
    else
      match CountVote(p.newBlocks[i.value], v.round, v.voter)
      case None => p
      case Some(b) => CheckForWinner(p.(newBlocks := p.newBlocks[i.value := b]), w, v.round)
  }

  /** on_block_wait_timeout. */
  function OnWaitOver(p: Plugin, w: World): Plugin {
    ChooseBlock(p.(waiting := false), w, First)
  }

  /** new_block_timer_cb once a block has been built, with its database open. */
  function OnBlockCreated(p: Plugin, w: World, id: BlockId, s: P.State): Plugin {
    StartWait(p.(newBlocks := p.newBlocks + [Block(id, p.Next(), 0, NO_TALLY, NO_TALLY)],
                 openBlock := Some(Open(Key(id, p.Next()), Some(s)))), w)
  }

  /** The last nonces in memory are those of the open block, if there is one. */
  function LastNonces(p: Plugin): map<NodeId, nat> {
    if p.openBlock.Some? && p.openBlock.value.state.Some? then p.openBlock.value.state.value.last else p.state.last
  }

  /** store_transaction_on_mempool takes a verified transaction. */
  predicate TakesIn(p: Plugin, t: P.Txn) {
    (forall i :: 0 <= i < |p.mempool| ==> p.mempool[i].txn.Id() != t.Id())
    && t.node in LastNonces(p) && t.nonce > LastNonces(p)[t.node]
  }

  /** The transaction is in the mempool and no longer asked for. */
  function TakeIn(p: Plugin, t: P.Txn): Plugin {
    p.(mempool := p.mempool + [P.Slot(t, 0)],
       fetching := p.fetching.(requests := p.fetching.requests - {t.Id()}))
  }

  /** A transaction that was asked for makes the node choose again. */
  predicate ChoosesOn(p: Plugin, t: P.Txn) {
    TakesIn(p, t) && t.Id() in p.fetching.requests && p.newBlocks != [] && !p.waiting
  }

  /** A candidate that this node has not voted for in round 0, and that is open or passes
      its checks. */
  predicate Votable(p: Plugin, w: World, b: Block) {
    b.height == p.Next() && p.nodeId !in b.first.voters && (IsOpen(p.openBlock, b) || Passes(w, b))
  }

  /** The arrival of `t` makes the node choose in round 0 although its last vote is a
      round-1 vote at the same height, and there is a block to vote for. */
  predicate Exposed(p: Plugin, w: World, t: P.Txn) {
    ChoosesOn(p, t) && p.Voted(Second) && exists b :: b in p.newBlocks && Votable(p, w, b)
  }

  /** process_new_transaction with process_arrived_transaction. */
  function OnTransaction(p: Plugin, w: World, t: P.Txn): Plugin {
    if !TakesIn(p, t) then p
    else if ChoosesOn(p, t) then ChooseBlock(TakeIn(p, t), w, First)
    else TakeIn(p, t)
  }
}
