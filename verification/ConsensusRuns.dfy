/** Runs of many nodes with votes delivered in any order, any number of times or
    never, and the safety of every such run. */
module ConsensusRuns {
  import opened Common
  import opened ConsensusModel
  import opened ConsensusInvariant
  import opened ConsensusHandlers
  import opened ConsensusChoice
  import P = ProposerModel

  /** All nodes, and every vote any of them has broadcast. */
  datatype System = System(nodes: map<NodeId, Plugin>, cast: set<Vote>)

  datatype Event =
    | BlockArrives(node: NodeId, key: Key, w: World)
    | VoteArrives(node: NodeId, vote: Vote, w: World)
    | WaitOver(node: NodeId, w: World)
    | TransactionArrives(node: NodeId, txn: P.Txn, w: World)
    | BlockCreated(node: NodeId, id: BlockId, state: P.State, w: World)
    | RolledBack(node: NodeId)
    | RequestEnds(node: NodeId, tid: P.Tid)

  function Handle(p: Plugin, e: Event): Plugin {
    match e
    case BlockArrives(_, key, w) => OnNewBlock(p, w, key)
    case VoteArrives(_, v, w) => OnBlockVote(p, w, v)
    case WaitOver(_, w) => OnWaitOver(p, w)
    case TransactionArrives(_, t, w) => OnTransaction(p, w, t)
    case BlockCreated(_, id, s, w) => OnBlockCreated(p, w, id, s)
    case RolledBack(_) => p.(openBlock := None)
    case RequestEnds(_, tid) => p.(fetching := p.fetching.(requests := p.fetching.requests - {tid}))
  }

  /** The run hypotheses: a delivered vote was cast, a created block is new (its id is
      the signature of its creator, so nobody has voted for it), the voter set is the
      fixed one, and no transaction arrives at a node that is exposed to it. */
  predicate Enabled(cfg: Config, s: System, e: Event) {
    e.node in s.nodes &&
    var p := s.nodes[e.node];
    match e
    case BlockArrives(_, _, w) => WorldOk(cfg, p, w)
    case VoteArrives(_, v, w) => WorldOk(cfg, p, w) && v in s.cast
    case WaitOver(_, w) => WorldOk(cfg, p, w) && p.waiting
    case TransactionArrives(_, t, w) => WorldOk(cfg, p, w) && !Exposed(p, w, t)
    case BlockCreated(_, id, _, _) =>
      FindBlock(p.newBlocks, Key(id, p.Next())).None? && forall v :: v in s.cast ==> v.id != id
    case RolledBack(_) => true
    case RequestEnds(_, _) => true
  }

  function Apply(s: System, e: Event): System
    requires e.node in s.nodes
  {
    var q := Handle(s.nodes[e.node], e);
    System(s.nodes[e.node := q], s.cast + q.outbox)
  }

  predicate Legal(cfg: Config, s: System, es: seq<Event>)
    decreases |es|
  {
    es == [] || (Enabled(cfg, s, es[0]) && Legal(cfg, Apply(s, es[0]), es[1..]))
  }

  function Run(cfg: Config, s: System, es: seq<Event>): System
    requires Legal(cfg, s, es)
    decreases |es|
  {
    if es == [] then s else Run(cfg, Apply(s, es[0]), es[1..])
  }

  predicate Initial(s: System) {
    s.cast == {}
    && forall n :: n in s.nodes ==> s.nodes[n] == Started(n, s.nodes[n].state, s.nodes[n].mempool)
  }

  ghost predicate Inv(cfg: Config, s: System) {
    CastOk(cfg, s.cast)
    && forall n :: n in s.nodes ==> s.nodes[n].nodeId == n && NodeOk(cfg, s.cast, s.nodes[n])
  }

  // ---- where a handler looks for a round-0 winner ----

  /** choose_block_to_vote in round 0, up to check_for_winner_block. */
  function Chosen(p: Plugin, w: World): Option<Plugin> {
    if p.Voted(First) || w.updating then None else Some(if w.canVote then CastVote(p, w, First) else p)
  }

  /** The state of the node in which the handler of `e` calls check_for_winner_block
      for round 0, if it does. */
  function Checked(p: Plugin, e: Event): Option<Plugin> {
    match e
    case BlockArrives(_, k, w) =>
      if FindBlock(p.newBlocks, k).Some? || k.height <= |p.chain| || k.height > p.Next() || w.missing(k.id) != {}
      then None
      else Some(StartWait(StoreBlock(p, w, k), w))
    case VoteArrives(_, v, w) =>
      var i := FindBlock(p.newBlocks, Key(v.id, v.height));
      if i.None? || v.round.Second? then None
      else
        var c := CountVote(p.newBlocks[i.value], First, v.voter);
        if c.None? then None else Some(p.(newBlocks := p.newBlocks[i.value := c.value]))
    case WaitOver(_, w) => Chosen(p.(waiting := false), w)
    case TransactionArrives(_, t, w) => if ChoosesOn(p, t) then Chosen(TakeIn(p, t), w) else None
    case _ => None
  }

  lemma CheckedIsOnTheWay(p: Plugin, e: Event)
    requires Checked(p, e).Some?
    ensures Handle(p, e) == CheckForWinner(Checked(p, e).value, e.w, First)
  {
  }

  lemma {:induction false} StoreBlockKeeps(cfg: Config, cast: set<Vote>, p: Plugin, w: World, k: Key)
    requires Good(cfg, cast, p) && FindBlock(p.newBlocks, k).None? && k.height > |p.chain|
    ensures Keeps(cfg, cast, p, StoreBlock(p, w, k)) && StoreBlock(p, w, k).chain == p.chain
  {
    assert cast + p.outbox == cast;
    var empty := Block(k.id, k.height, 0, NO_TALLY, NO_TALLY);
    TransferKeeps(cast, p.pending, empty);
    AddBlockKeeps(cast, p.newBlocks, |p.chain|, TransferVotes(p.pending, empty));
  }

  lemma AddBlockKeeps(cast: set<Vote>, bs: seq<Block>, h: nat, b: Block)
    requires BlocksOk(cast, bs, h) && BlockOk(cast, b) && b.height > h && FindBlock(bs, b.Ref()).None?
    ensures BlocksOk(cast, bs + [b], h)
  {
  }

  lemma StartWaitKeeps(cfg: Config, cast: set<Vote>, p: Plugin, q: Plugin, w: World)
    requires Keeps(cfg, cast, p, q)
    ensures Keeps(cfg, cast, p, StartWait(q, w)) && StartWait(q, w).chain == q.chain
  {
  }

  lemma CountKeeps(cfg: Config, cast: set<Vote>, p: Plugin, v: Vote, i: nat)
    requires Good(cfg, cast, p) && v in cast && i < |p.newBlocks| && p.newBlocks[i].Ref() == Key(v.id, v.height)
    ensures var c := CountVote(p.newBlocks[i], v.round, v.voter);
            c.Some? ==> Keeps(cfg, cast, p, p.(newBlocks := p.newBlocks[i := c.value]))
  {
    assert cast + p.outbox == cast;
    assert BlockOk(cast, p.newBlocks[i]);
    CountVoteKeeps(cast, p.newBlocks[i], v.round, v.voter);
    var c := CountVote(p.newBlocks[i], v.round, v.voter);
    if c.Some? {
      UpdateBlockKeeps(cast, p.newBlocks, |p.chain|, i, c.value);
    }
  }

  lemma ChosenKeeps(cfg: Config, cast: set<Vote>, p: Plugin, w: World)
    requires Good(cfg, cast, p) && WorldOk(cfg, p, w) && Chosen(p, w).Some?
    requires p.Voted(Second) ==> forall b :: b in p.newBlocks ==> !Votable(p, w, b)
    ensures Keeps(cfg, cast, p, Chosen(p, w).value) && Chosen(p, w).value.chain == p.chain
  {
    assert cast + p.outbox == cast;
    if w.canVote {
      if p.Voted(Second) {
        NothingToVoteKeeps(cfg, cast, p, w);
      } else {
        CastVoteKeeps(cfg, cast, p, w, First);
      }
    }
  }

  /** A choice in round 0 that finds no block to vote for only orders the blocks anew. */
  lemma NothingToVoteKeeps(cfg: Config, cast: set<Vote>, p: Plugin, w: World)
    requires Good(cfg, cast, p) && forall b :: b in p.newBlocks ==> !Votable(p, w, b)
    ensures var q := CastVote(p, w, First);
            Keeps(cfg, cast, p, q) && q.chain == p.chain && q.outbox == p.outbox && q.lastVoteRound == p.lastVoteRound
  {
    var s := Select(p, w);
    assert cast + p.outbox == cast;
    SelectionKeeps(cast, p, w);
    if s.winner.Some? {
      var b := SelectedBlock(p, w);
      assert p.nodeId in b.first.voters;
    }
  }

  /** The state on the way is as good as the ones at the ends. */
  lemma {:induction false} CheckedKeeps(cfg: Config, s: System, e: Event)
    requires Inv(cfg, s) && Enabled(cfg, s, e) && Checked(s.nodes[e.node], e).Some?
    ensures var p, q := s.nodes[e.node], Checked(s.nodes[e.node], e).value;
            Keeps(cfg, s.cast, p, q) && q.chain == p.chain && WorldOk(cfg, p, e.w)
  {
    var p := s.nodes[e.node];
    assert s.cast + p.outbox == s.cast;
    match e
    case BlockArrives(_, k, w) =>
      StoreBlockKeeps(cfg, s.cast, p, w, k);
      StartWaitKeeps(cfg, s.cast, p, StoreBlock(p, w, k), w);
    case VoteArrives(_, v, w) => CountKeeps(cfg, s.cast, p, v, FindBlock(p.newBlocks, Key(v.id, v.height)).value);
    case WaitOver(_, w) => ChosenKeeps(cfg, s.cast, p.(waiting := false), w);
    case TransactionArrives(_, t, w) => ChosenKeeps(cfg, s.cast, TakeIn(p, t), w);
  }

  lemma CheckKeepsMore(cfg: Config, cast: set<Vote>, p: Plugin, q: Plugin, w: World, r: Round)
    requires Keeps(cfg, cast, p, q) && WorldOk(cfg, q, w)
    ensures Keeps(cfg, cast, p, CheckForWinner(q, w, r)) && q.outbox <= CheckForWinner(q, w, r).outbox
  {
    CheckKeeps(cfg, cast + q.outbox, q, w, r);
    assert cast + q.outbox + CheckForWinner(q, w, r).outbox == cast + CheckForWinner(q, w, r).outbox;
  }

  lemma VoteArrivalKeeps(cfg: Config, cast: set<Vote>, p: Plugin, w: World, v: Vote)
    requires Good(cfg, cast, p) && WorldOk(cfg, p, w) && v in cast
    ensures Keeps(cfg, cast, p, OnBlockVote(p, w, v))
  {
    assert cast + p.outbox == cast;
    var i := FindBlock(p.newBlocks, Key(v.id, v.height));
    if i.Some? {
      var c := CountVote(p.newBlocks[i.value], v.round, v.voter);
      CountKeeps(cfg, cast, p, v, i.value);
      if c.Some? {
        CheckKeepsMore(cfg, cast, p, p.(newBlocks := p.newBlocks[i.value := c.value]), w, v.round);
      }
    }
  }

  lemma BlockArrivalKeeps(cfg: Config, cast: set<Vote>, p: Plugin, w: World, k: Key)
    requires Good(cfg, cast, p) && WorldOk(cfg, p, w)
    ensures Keeps(cfg, cast, p, OnNewBlock(p, w, k))
  {
    assert cast + p.outbox == cast;
    if FindBlock(p.newBlocks, k).None? && k.height > |p.chain| {
      var q := StoreBlock(p, w, k);
      StoreBlockKeeps(cfg, cast, p, w, k);
      StartWaitKeeps(cfg, cast, p, q, w);
      CheckKeepsMore(cfg, cast, p, StartWait(q, w), w, First);
    }
  }

  lemma ChoiceKeeps(cfg: Config, cast: set<Vote>, p: Plugin, w: World)
    requires Good(cfg, cast, p) && WorldOk(cfg, p, w)
    requires p.Voted(Second) ==> forall b :: b in p.newBlocks ==> !Votable(p, w, b)
    ensures Keeps(cfg, cast, p, ChooseBlock(p, w, First))
  {
    assert cast + p.outbox == cast;
    if Chosen(p, w).Some? {
      ChosenKeeps(cfg, cast, p, w);
      CheckKeepsMore(cfg, cast, p, Chosen(p, w).value, w, First);
    }
  }

  lemma {:induction false} HandleKeeps(cfg: Config, s: System, e: Event)
    requires Inv(cfg, s) && Enabled(cfg, s, e)
    ensures Keeps(cfg, s.cast, s.nodes[e.node], Handle(s.nodes[e.node], e))
  {
    var p := s.nodes[e.node];
    match e
    case BlockArrives(_, k, w) => BlockArrivalKeeps(cfg, s.cast, p, w, k);
    case VoteArrives(_, v, w) => VoteArrivalKeeps(cfg, s.cast, p, w, v);
    case WaitOver(_, w) => ChoiceKeeps(cfg, s.cast, p.(waiting := false), w);
    case TransactionArrives(_, t, w) => TransactionKeeps(cfg, s.cast, p, w, t);
    case BlockCreated(_, id, state, w) => CreationKeeps(cfg, s.cast, p, w, id, state);
    case _ => assert s.cast + p.outbox == s.cast;
  }

  lemma TransactionKeeps(cfg: Config, cast: set<Vote>, p: Plugin, w: World, t: P.Txn)
    requires Good(cfg, cast, p) && WorldOk(cfg, p, w) && !Exposed(p, w, t)
    ensures Keeps(cfg, cast, p, OnTransaction(p, w, t))
  {
    assert cast + p.outbox == cast;
    if ChoosesOn(p, t) {
      ChoiceKeeps(cfg, cast, TakeIn(p, t), w);
    }
  }

  lemma CreationKeeps(cfg: Config, cast: set<Vote>, p: Plugin, w: World, id: BlockId, state: P.State)
    requires Good(cfg, cast, p) && FindBlock(p.newBlocks, Key(id, p.Next())).None?
    ensures Keeps(cfg, cast, p, OnBlockCreated(p, w, id, state))
  {
    assert cast + p.outbox == cast;
    AddBlockKeeps(cast, p.newBlocks, |p.chain|, Block(id, p.Next(), 0, NO_TALLY, NO_TALLY));
  }

  /** Every step keeps the invariant of every node. */
  lemma {:induction false} StepKeeps(cfg: Config, s: System, e: Event)
    requires Inv(cfg, s) && Enabled(cfg, s, e)
    ensures Inv(cfg, Apply(s, e)) && s.cast <= Apply(s, e).cast
  {
    HandleKeeps(cfg, s, e);
    var t := Apply(s, e);
    forall n | n in t.nodes ensures t.nodes[n].nodeId == n && NodeOk(cfg, t.cast, t.nodes[n]) {
      if n != e.node {
        MoreVotes(cfg, s.cast, t.cast, s.nodes[n]);
      }
    }
  }

  lemma {:induction false} RunKeeps(cfg: Config, s: System, es: seq<Event>)
    requires Inv(cfg, s) && Legal(cfg, s, es)
    ensures var t := Run(cfg, s, es); Inv(cfg, t) && s.cast <= t.cast
    decreases |es|
  {
    if es != [] {
      StepKeeps(cfg, s, es[0]);
      RunKeeps(cfg, Apply(s, es[0]), es[1..]);
    }
  }

  /** The run `es` of a fresh system ends in `t`. */
  predicate Reaches(cfg: Config, s: System, es: seq<Event>, t: System) {
    Initial(s) && Legal(cfg, s, es) && t == Run(cfg, s, es)
  }

  lemma {:induction false} ReachesInv(cfg: Config, s: System, es: seq<Event>, t: System)
    requires Reaches(cfg, s, es, t)
    ensures Inv(cfg, t)
  {
    RunKeeps(cfg, s, es);
  }

  /** Agreement: in every run the committed chains of any two nodes agree at every
      height both have reached, whichever round each commit came from. */
  lemma {:induction false} Agreement(cfg: Config, s: System, es: seq<Event>, t: System, n: NodeId, m: NodeId, k: nat)
    requires Reaches(cfg, s, es, t)
    requires n in t.nodes && m in t.nodes && k < |t.nodes[n].chain| && k < |t.nodes[m].chain|
    ensures t.nodes[n].chain[k] == t.nodes[m].chain[k]
  {
    ReachesInv(cfg, s, es, t);
    WinnersAgree(cfg, t.cast, k + 1, t.nodes[n].chain[k], t.nodes[m].chain[k]);
  }

  /** The vote counters never drift: in every run num_votes[r] of every block a
      node knows is the number of distinct nodes that cast that vote and reached it. */
  lemma {:induction false} CountersExact(cfg: Config, s: System, es: seq<Event>, t: System, n: NodeId, i: nat, r: Round)
    requires Reaches(cfg, s, es, t) && n in t.nodes && i < |t.nodes[n].newBlocks|
    ensures var b := t.nodes[n].newBlocks[i];
            b.Of(r).count == |Elements(b.Of(r).voters)|
            && Elements(b.Of(r).voters) <= Voters(t.cast, b.height, r, b.id) <= cfg.voters(b.height)
  {
    ReachesInv(cfg, s, es, t);
    CountedOnce(cfg, t.cast, t.nodes[n].newBlocks[i], r);
  }

  lemma CountedOnce(cfg: Config, cast: set<Vote>, b: Block, r: Round)
    requires CastOk(cfg, cast) && BlockOk(cast, b)
    ensures b.Of(r).count == |Elements(b.Of(r).voters)|
    ensures Elements(b.Of(r).voters) <= Voters(cast, b.height, r, b.id) <= cfg.voters(b.height)
  {
    DistinctSize(b.Of(r).voters);
    forall u | u in Elements(b.Of(r).voters) ensures u in Voters(cast, b.height, r, b.id) {
      assert Vote(u, b.height, r, b.id).voter == u;
    }
  }

  // ---- round changes ----

  /** The handler of `e` finds no winner and starts round 1. */
  predicate StartsSecond(p: Plugin, e: Event) {
    Checked(p, e).Some? &&
    var q := Checked(p, e).value;
    q.newBlocks != [] && !e.w.updating && FindWinner(q.newBlocks, q.Next(), First, Majority(e.w.quorum)).None?
    && MovesOn(q, e.w, First)
  }

  /** With a candidate for the next height on its list. */
  predicate LeavesFirst(p: Plugin, e: Event) {
    StartsSecond(p, e) && HasCandidate(Checked(p, e).value.newBlocks, p.Next())
  }

  /** It does so by choosing in round 1, in the state in which it looked for a winner. */
  lemma StartsSecondChooses(p: Plugin, e: Event)
    requires StartsSecond(p, e)
    ensures Handle(p, e) == ChooseBlock(Checked(p, e).value, e.w, Second)
  {
    CheckedIsOnTheWay(p, e);
  }

  /** A round-1 vote is cast in no other way, and only when there is a candidate. */
  lemma SecondVoteStarts(p: Plugin, e: Event, v: Vote)
    requires v in Handle(p, e).outbox - p.outbox && v.round == Second
    ensures LeavesFirst(p, e)
  {
    if e.VoteArrives? && e.vote.round == Second {
      var i := FindBlock(p.newBlocks, Key(e.vote.id, e.vote.height));
      if i.Some? && CountVote(p.newBlocks[i.value], Second, e.vote.voter).Some? {
        var c := CountVote(p.newBlocks[i.value], Second, e.vote.voter).value;
        CheckSecondCastsNone(p.(newBlocks := p.newBlocks[i.value := c]), e.w);
      }
    } else if Checked(p, e).Some? {
      CheckedIsOnTheWay(p, e);
      var q := Checked(p, e).value;
      CheckedCastsFirst(p, e);
      CheckCastsSecond(q, e.w, v);
    }
  }

  /** Up to that state only a round-0 vote is cast. */
  lemma CheckedCastsFirst(p: Plugin, e: Event)
    requires Checked(p, e).Some?
    ensures var q := Checked(p, e).value;
            q.chain == p.chain && p.outbox <= q.outbox && forall v :: v in q.outbox - p.outbox ==> v.round == First
  {
  }

  lemma CheckSecondCastsNone(p: Plugin, w: World)
    ensures CheckForWinner(p, w, Second).outbox == p.outbox
  {
  }

  lemma ChooseSecondVotes(q: Plugin, w: World)
    ensures ChooseBlock(q, w, Second).outbox == q.outbox || HasCandidate(q.newBlocks, q.Next())
  {
    CheckSecondCastsNone(q, w);
    CheckSecondCastsNone(CastVote(q, w, Second), w);
    SelectionIsCandidate(q, w);
  }

  lemma CheckCastsSecond(q: Plugin, w: World, v: Vote)
    requires v in CheckForWinner(q, w, First).outbox - q.outbox
    ensures q.newBlocks != [] && !w.updating && FindWinner(q.newBlocks, q.Next(), First, Majority(w.quorum)).None?
    ensures MovesOn(q, w, First) && HasCandidate(q.newBlocks, q.Next())
  {
    if MovesOn(q, w, First) {
      ChooseSecondVotes(q, w);
    }
  }

  /** No block has, or is counted to, a round-0 majority at `h`. */
  ghost predicate NoFirstMajority(cfg: Config, s: System, h: nat) {
    (forall id :: |Voters(s.cast, h, First, id)| < Majority(|cfg.voters(h)|))
    && forall m, i :: m in s.nodes && 0 <= i < |s.nodes[m].newBlocks| && s.nodes[m].newBlocks[i].height == h ==>
         s.nodes[m].newBlocks[i].first.count < Majority(|cfg.voters(h)|)
  }

  lemma DeadEverywhere(cfg: Config, s: System, h: nat)
    requires Inv(cfg, s) && Dead(cfg, s.cast, h)
    ensures NoFirstMajority(cfg, s, h)
  {
    forall id ensures |Voters(s.cast, h, First, id)| < Majority(|cfg.voters(h)|) {
      DeadMeansNoMajority(cfg, s.cast, h, id);
    }
    forall m, i | m in s.nodes && 0 <= i < |s.nodes[m].newBlocks| && s.nodes[m].newBlocks[i].height == h
      ensures s.nodes[m].newBlocks[i].first.count < Majority(|cfg.voters(h)|)
    {
      var b := s.nodes[m].newBlocks[i];
      CountedOnce(cfg, s.cast, b, First);
      SubsetSize(Elements(b.first.voters), Voters(s.cast, h, First, b.id));
    }
  }

  lemma {:induction false} DeadStays(cfg: Config, s: System, es: seq<Event>, h: nat)
    requires Inv(cfg, s) && Legal(cfg, s, es) && Dead(cfg, s.cast, h)
    ensures NoFirstMajority(cfg, Run(cfg, s, es), h)
  {
    RunKeeps(cfg, s, es);
    MoreDead(cfg, s.cast, Run(cfg, s, es).cast, h);
    DeadEverywhere(cfg, Run(cfg, s, es), h);
  }

  lemma {:induction false} SecondMeansDead(cfg: Config, s: System, e: Event)
    requires Inv(cfg, s) && Enabled(cfg, s, e) && LeavesFirst(s.nodes[e.node], e)
    ensures Dead(cfg, Apply(s, e).cast, s.nodes[e.node].Next())
  {
    var p := s.nodes[e.node];
    var q := Checked(p, e).value;
    CheckedKeeps(cfg, s, e);
    CheckedIsOnTheWay(p, e);
    CheckKeepsMore(cfg, s.cast, p, q, e.w, First);
    RoundChange(cfg, s.cast + q.outbox, q, e.w);
    MoreDead(cfg, s.cast + q.outbox, Apply(s, e).cast, p.Next());
  }

  lemma {:induction false} FirstIsOver(cfg: Config, t: System, e: Event, after: seq<Event>)
    requires Inv(cfg, t) && Enabled(cfg, t, e) && LeavesFirst(t.nodes[e.node], e) && Legal(cfg, Apply(t, e), after)
    ensures NoFirstMajority(cfg, Run(cfg, Apply(t, e), after), t.nodes[e.node].Next())
  {
    SecondMeansDead(cfg, t, e);
    StepKeeps(cfg, t, e);
    DeadStays(cfg, Apply(t, e), after, t.nodes[e.node].Next());
  }

  /** Round-change soundness: when a handler, with a candidate for the next height on
      the list, finds that no candidate can still win and starts round 1, then no block
      of that height, on its list or never seen by it, has or is counted to a round-0
      majority at any node, from the end of the handler on and in every continuation. */
  lemma {:induction false} RoundChangeSound(cfg: Config, s: System, before: seq<Event>, t: System, e: Event,
                                            after: seq<Event>)
    requires Reaches(cfg, s, before, t)
    requires Enabled(cfg, t, e) && LeavesFirst(t.nodes[e.node], e) && Legal(cfg, Apply(t, e), after)
    ensures NoFirstMajority(cfg, Run(cfg, Apply(t, e), after), t.nodes[e.node].Next())
  {
    ReachesInv(cfg, s, before, t);
    FirstIsOver(cfg, t, e, after);
  }

  /** One round-1 vote of any node is enough: from then on no block of its height has or
      is counted to a round-0 majority anywhere. */
  lemma {:induction false} SecondVoteEndsFirst(cfg: Config, s: System, before: seq<Event>, t: System, v: Vote,
                                               after: seq<Event>)
    requires Reaches(cfg, s, before, t) && v in t.cast && v.round == Second && Legal(cfg, t, after)
    ensures NoFirstMajority(cfg, Run(cfg, t, after), v.height)
  {
    ReachesInv(cfg, s, before, t);
    DeadStays(cfg, t, after, v.height);
  }
}
