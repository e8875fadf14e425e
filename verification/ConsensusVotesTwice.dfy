/** When a node votes twice in one round of one height. */
module ConsensusVotesTwice {
  import opened Common
  import opened ConsensusModel
  import opened ConsensusInvariant
  import opened ConsensusHandlers
  import opened ConsensusChoice
  import opened ConsensusRuns
  import opened ConsensusDelivery
  import P = ProposerModel

  predicate HasVoted(p: Plugin, r: Round) {
    exists v :: v in p.outbox && v.height == p.Next() && v.round == r
  }

  // ---- what a node knows of its own votes ----

  /** Every vote it cast at the open height is counted for a block on its list. */
  predicate OwnCounted(p: Plugin) {
    forall v :: v in p.outbox && v.height == p.Next() ==> Counted(p.newBlocks, v)
  }

  /** The last-vote fields name a vote that was cast. */
  predicate LastCast(p: Plugin) {
    p.lastVoteHeight == p.Next() ==> HasVoted(p, p.lastVoteRound)
  }

  /** No block that the list knows, or does not know, can still be counted to a round-0
      majority among `n` voters. */
  ghost predicate Closed(bs: seq<Block>, h: nat, n: nat) {
    forall id :: |CountedOthers(bs, h, id)| + Majority(n) > n
  }

  ghost predicate OwnInv(cfg: Config, p: Plugin) {
    OwnCounted(p) && LastCast(p) && (p.Voted(Second) ==> Closed(p.newBlocks, p.Next(), |cfg.voters(p.Next())|))
  }

  lemma {:induction false} OthersAre(bs: seq<Block>, h: nat, id: BlockId, u: NodeId)
    ensures u in CountedOthers(bs, h, id) <==> exists x :: x != id && Counted(bs, Vote(u, h, First, x))
    decreases |bs|
  {
    if bs != [] {
      OthersAre(bs[1..], h, id, u);
      forall x ensures Counted(bs, Vote(u, h, First, x))
                  <==> (bs[0].Ref() == Key(x, h) && u in bs[0].first.voters) || Counted(bs[1..], Vote(u, h, First, x)) {
        CountedParts(bs, Vote(u, h, First, x));
      }
      if bs[0].height == h {
        assert bs[0].Ref() == Key(bs[0].id, h);
        assert Counted(bs, Vote(u, h, First, bs[0].id)) || u !in bs[0].first.voters;
      }
    }
  }

  lemma CountedParts(bs: seq<Block>, v: Vote)
    requires bs != []
    ensures Counted(bs, v) <==> (bs[0].Ref() == Key(v.id, v.height) && v.voter in bs[0].Of(v.round).voters)
                                || Counted(bs[1..], v)
  {
    assert forall b :: b in bs <==> b == bs[0] || b in bs[1..];
  }

  /** Counting more never opens round 0 again, whatever blocks come to the list. */
  lemma ClosedStays(bs: seq<Block>, cs: seq<Block>, h: nat, n: nat)
    requires Closed(bs, h, n)
    requires forall v: Vote :: v.height == h && Counted(bs, v) ==> Counted(cs, v)
    ensures Closed(cs, h, n)
  {
    forall id ensures |CountedOthers(cs, h, id)| + Majority(n) > n {
      forall u | u in CountedOthers(bs, h, id) ensures u in CountedOthers(cs, h, id) {
        OthersAre(bs, h, id, u);
        OthersAre(cs, h, id, u);
      }
      SubsetSize(CountedOthers(bs, h, id), CountedOthers(cs, h, id));
    }
  }

  /** The test of check_for_winner_block that no candidate can still win closes round 0. */
  lemma ClosedWhen(cfg: Config, cast: set<Vote>, bs: seq<Block>, low: nat, h: nat, n: nat)
    requires BlocksOk(cast, bs, low) && OneVote(cast) && HasCandidate(bs, h) && !StillOpen(bs, h, n)
    ensures Closed(bs, h, n)
  {
    forall id ensures |CountedOthers(bs, h, id)| + Majority(n) > n {
      CountedSize(cfg, cast, bs, low, h, id);
      CountedForOne(cast, bs, low, h, id);
      var i :| 0 <= i < |bs| && bs[i].height == h;
      assert bs[i].first.count + (n - TotalVotes(bs, h)) < Majority(n);
    }
  }

  predicate CountersOk(bs: seq<Block>) {
    forall i :: 0 <= i < |bs| ==> bs[i].first.count == |bs[i].first.voters|
  }

  /** And while it is closed the test keeps finding that, even if somebody is counted for
      two blocks. */
  lemma ClosedMeans(bs: seq<Block>, h: nat, n: nat)
    requires CountersOk(bs) && Closed(bs, h, n)
    ensures !StillOpen(bs, h, n)
  {
    if StillOpen(bs, h, n) {
      var i :| 0 <= i < |bs| && bs[i].height == h && bs[i].first.count + (n - TotalVotes(bs, h)) >= Majority(n);
      CountedForMore(bs, h, i);
      CountedAtMost(bs, h, bs[i].id);
      assert false;
    }
  }

  lemma {:induction false} FewElements<T>(s: seq<T>)
    ensures |Elements(s)| <= |s|
    decreases |s|
  {
    if s != [] {
      FewElements(s[..|s| - 1]);
      assert Elements(s) == Elements(s[..|s| - 1]) + {s[|s| - 1]};
    }
  }

  lemma {:induction false} CountedAtMost(bs: seq<Block>, h: nat, id: BlockId)
    requires CountersOk(bs)
    ensures |CountedOthers(bs, h, id)| + CountedFor(bs, h, id) <= TotalVotes(bs, h)
    decreases |bs|
  {
    if bs != [] {
      CountedAtMost(bs[1..], h, id);
      FewElements(bs[0].first.voters);
      var a, rest := Elements(bs[0].first.voters), CountedOthers(bs[1..], h, id);
      assert |a + rest| <= |a| + |rest|;
    }
  }

  lemma {:induction false} CountedForMore(bs: seq<Block>, h: nat, i: nat)
    requires i < |bs| && bs[i].height == h
    ensures CountedFor(bs, h, bs[i].id) >= bs[i].first.count
    decreases |bs|
  {
    if i > 0 {
      CountedForMore(bs[1..], h, i - 1);
    }
  }

  // ---- every handler keeps that ----

  /** A vote of its own is counted, remembered and broadcast at once. */
  lemma CastVoteOwn(cfg: Config, cast: set<Vote>, p: Plugin, w: World, r: Round)
    requires Good(cfg, cast, p) && OwnInv(cfg, p)
    requires r == Second && HasCandidate(p.newBlocks, p.Next())
             ==> Closed(p.newBlocks, p.Next(), |cfg.voters(p.Next())|)
    ensures OwnInv(cfg, CastVote(p, w, r))
  {
    var q, s, h := CastVote(p, w, r), Select(p, w), p.Next();
    forall v ensures Counted(p.newBlocks, v) ==> Counted(q.newBlocks, v) {
      CastVoteKeepsVotes(p, w, r, v);
    }
    if Closed(p.newBlocks, h, |cfg.voters(h)|) {
      ClosedStays(p.newBlocks, q.newBlocks, h, |cfg.voters(h)|);
    }
    if s.winner.Some? {
      SelectionIsCandidate(p, w);
      VotedBlockCounts(p, w, r);
    }
    if q.outbox == p.outbox && q.lastVoteHeight == h {
      assert HasVoted(p, p.lastVoteRound);
    }
  }

  lemma VotedBlockCounts(p: Plugin, w: World, r: Round)
    requires Select(p, w).winner.Some?
    ensures var s, q := Select(p, w), CastVote(p, w, r);
            var b := s.blocks[s.winner.value];
            var v := Vote(p.nodeId, p.Next(), r, b.id);
            if p.nodeId in b.Of(r).voters
            then q == p.(newBlocks := q.newBlocks, openBlock := s.open, fetching := s.fetching)
            else q.outbox == p.outbox + {v} && Counted(q.newBlocks, v)
                 && q.lastVoteHeight == p.Next() && q.lastVoteRound == r && HasVoted(q, r)
  {
    var s, q := Select(p, w), CastVote(p, w, r);
    var i := s.winner.value;
    var b := s.blocks[i];
    if p.nodeId !in b.Of(r).voters {
      assert q.newBlocks[i] in q.newBlocks;
      assert Vote(p.nodeId, p.Next(), r, b.id) in q.outbox;
    }
  }

  lemma CommitOwn(cfg: Config, cast: set<Vote>, p: Plugin, w: World, i: nat)
    requires NodeOk(cfg, cast, p) && OwnInv(cfg, p) && i < |p.newBlocks|
    ensures OwnInv(cfg, CommitWinner(p, w, i))
  {
    var q := CommitWinner(p, w, i);
    if q.chain == p.chain && p.lastVoteHeight == p.Next() {
      assert HasVoted(p, p.lastVoteRound);
    }
  }

  lemma {:induction false} CheckOwn(cfg: Config, cast: set<Vote>, p: Plugin, w: World, r: Round)
    requires Good(cfg, cast, p) && WorldOk(cfg, p, w) && OwnInv(cfg, p)
    ensures OwnInv(cfg, CheckForWinner(p, w, r))
    decreases Rank(r), 0
  {
    if p.newBlocks != [] && !w.updating {
      var i := FindWinner(p.newBlocks, p.Next(), r, Majority(w.quorum));
      if i.Some? {
        CommitOwn(cfg, cast, p, w, i.value);
      } else if MovesOn(p, w, r) {
        if HasCandidate(p.newBlocks, p.Next()) {
          RoundChange(cfg, cast, p, w);
          ClosedWhen(cfg, cast, p.newBlocks, |p.chain|, p.Next(), w.quorum);
        }
        SecondOwn(cfg, cast, p, w);
      }
    }
  }

  lemma {:induction false} SecondOwn(cfg: Config, cast: set<Vote>, p: Plugin, w: World)
    requires Good(cfg, cast, p) && WorldOk(cfg, p, w) && OwnInv(cfg, p) && MayVote(cfg, cast, p, Second)
    requires HasCandidate(p.newBlocks, p.Next()) ==> Closed(p.newBlocks, p.Next(), |cfg.voters(p.Next())|)
    ensures OwnInv(cfg, ChooseBlock(p, w, Second))
    decreases 0, 1
  {
    if !w.updating {
      if w.canVote {
        var q := CastVote(p, w, Second);
        CastVoteKeeps(cfg, cast, p, w, Second);
        CastVoteOwn(cfg, cast, p, w, Second);
        CheckOwn(cfg, cast + q.outbox, q, w, Second);
      } else {
        CheckOwn(cfg, cast, p, w, Second);
      }
    }
  }

  lemma ChosenOwn(cfg: Config, cast: set<Vote>, p: Plugin, w: World)
    requires Good(cfg, cast, p) && OwnInv(cfg, p) && Chosen(p, w).Some?
    ensures OwnInv(cfg, Chosen(p, w).value)
  {
    if w.canVote {
      CastVoteOwn(cfg, cast, p, w, First);
    }
  }

  /** A block comes to the list. */
  lemma AddedOwn(cfg: Config, p: Plugin, b: Block)
    requires OwnInv(cfg, p)
    ensures OwnInv(cfg, p.(newBlocks := p.newBlocks + [b]))
  {
    var q, h := p.(newBlocks := p.newBlocks + [b]), p.Next();
    forall v | Counted(p.newBlocks, v) ensures Counted(q.newBlocks, v) {
      var x :| x in p.newBlocks && x.Ref() == Key(v.id, v.height) && v.voter in x.Of(v.round).voters;
      assert x in q.newBlocks;
    }
    if p.Voted(Second) {
      ClosedStays(p.newBlocks, q.newBlocks, h, |cfg.voters(h)|);
    }
    SameOwnVotes(p, q);
  }

  lemma SameOwnVotes(p: Plugin, q: Plugin)
    requires q.outbox == p.outbox && q.chain == p.chain
    requires q.lastVoteHeight == p.lastVoteHeight && q.lastVoteRound == p.lastVoteRound
    ensures HasVoted(p, p.lastVoteRound) ==> HasVoted(q, q.lastVoteRound)
  {
  }

  /** A vote is counted. */
  lemma CountedOwn(cfg: Config, p: Plugin, v: Vote, i: nat)
    requires OwnInv(cfg, p) && i < |p.newBlocks| && CountVote(p.newBlocks[i], v.round, v.voter).Some?
    ensures OwnInv(cfg, p.(newBlocks := p.newBlocks[i := CountVote(p.newBlocks[i], v.round, v.voter).value]))
  {
    var c, h := CountVote(p.newBlocks[i], v.round, v.voter).value, p.Next();
    var q := p.(newBlocks := p.newBlocks[i := c]);
    forall u | Counted(p.newBlocks, u) ensures Counted(q.newBlocks, u) {
      CountAdds(p.newBlocks[i], v.round, v.voter, u.round);
      MoreBlockByBlock(p.newBlocks, q.newBlocks, u);
    }
    if p.Voted(Second) {
      ClosedStays(p.newBlocks, q.newBlocks, h, |cfg.voters(h)|);
    }
    SameOwnVotes(p, q);
  }

  lemma BlockArrivalOwn(cfg: Config, p: Plugin, w: World, k: Key)
    requires OwnInv(cfg, p)
    ensures OwnInv(cfg, StartWait(StoreBlock(p, w, k), w)) && OwnInv(cfg, StoreBlock(p, w, k))
  {
    AddedOwn(cfg, p, TransferVotes(p.pending, Block(k.id, k.height, 0, NO_TALLY, NO_TALLY)));
    var b := p.(newBlocks := StoreBlock(p, w, k).newBlocks);
    SameOwnVotes(b, StoreBlock(p, w, k));
    SameOwnVotes(b, StartWait(StoreBlock(p, w, k), w));
  }

  /** The state in which a handler looks for a round-0 winner has the invariant. */
  lemma {:induction false} CheckedOwn(cfg: Config, s: System, e: Event)
    requires Inv(cfg, s) && Enabled(cfg, s, e) && OwnInv(cfg, s.nodes[e.node]) && Checked(s.nodes[e.node], e).Some?
    ensures OwnInv(cfg, Checked(s.nodes[e.node], e).value)
  {
    var p := s.nodes[e.node];
    match e
    case BlockArrives(_, k, w) => BlockArrivalOwn(cfg, p, w, k);
    case VoteArrives(_, v, w) => CountedOwn(cfg, p, v, FindBlock(p.newBlocks, Key(v.id, v.height)).value);
    case WaitOver(_, w) =>
      SameOwnVotes(p, p.(waiting := false));
      ChosenOwn(cfg, s.cast, p.(waiting := false), w);
    case TransactionArrives(_, t, w) =>
      SameOwnVotes(p, TakeIn(p, t));
      ChosenOwn(cfg, s.cast, TakeIn(p, t), w);
  }

  lemma {:induction false} HandleOwn(cfg: Config, s: System, e: Event)
    requires Inv(cfg, s) && Enabled(cfg, s, e) && OwnInv(cfg, s.nodes[e.node])
    ensures OwnInv(cfg, Handle(s.nodes[e.node], e))
  {
    var p := s.nodes[e.node];
    if Checked(p, e).Some? {
      var q := Checked(p, e).value;
      CheckedKeeps(cfg, s, e);
      CheckedOwn(cfg, s, e);
      CheckedIsOnTheWay(p, e);
      CheckOwn(cfg, s.cast + q.outbox, q, e.w, First);
    } else {
      UncheckedOwn(cfg, s, e);
    }
  }

  lemma {:induction false} UncheckedOwn(cfg: Config, s: System, e: Event)
    requires Inv(cfg, s) && Enabled(cfg, s, e) && OwnInv(cfg, s.nodes[e.node]) && Checked(s.nodes[e.node], e).None?
    ensures OwnInv(cfg, Handle(s.nodes[e.node], e))
  {
    var p := s.nodes[e.node];
    match e
    case BlockArrives(_, k, w) => BlockArrivalOwn(cfg, p, w, k);
    case VoteArrives(_, v, w) => VoteOwn(cfg, s, p, v, w);
    case BlockCreated(_, id, d, w) =>
      AddedOwn(cfg, p, Block(id, p.Next(), 0, NO_TALLY, NO_TALLY));
      SameOwnVotes(p, OnBlockCreated(p, w, id, d));
    case WaitOver(_, w) => SameOwnVotes(p, p.(waiting := false));
    case TransactionArrives(_, t, w) => SameOwnVotes(p, TakeIn(p, t));
    case RolledBack(_) => SameOwnVotes(p, p.(openBlock := None));
    case RequestEnds(_, tid) => SameOwnVotes(p, Handle(p, e));
  }

  lemma {:induction false} VoteOwn(cfg: Config, s: System, p: Plugin, v: Vote, w: World)
    requires Good(cfg, s.cast, p) && WorldOk(cfg, p, w) && OwnInv(cfg, p) && v in s.cast
    ensures OwnInv(cfg, OnBlockVote(p, w, v))
  {
    var i := FindBlock(p.newBlocks, Key(v.id, v.height));
    if i.None? {
      SameOwnVotes(p, OnBlockVote(p, w, v));
    } else {
      var c := CountVote(p.newBlocks[i.value], v.round, v.voter);
      if c.Some? {
        var q := p.(newBlocks := p.newBlocks[i.value := c.value]);
        CountKeeps(cfg, s.cast, p, v, i.value);
        CountedOwn(cfg, p, v, i.value);
        CheckOwn(cfg, s.cast + q.outbox, q, w, v.round);
      }
    }
  }

  lemma {:induction false} RunOwn(cfg: Config, s: System, es: seq<Event>, n: NodeId)
    requires Inv(cfg, s) && Legal(cfg, s, es) && forall m :: m in s.nodes ==> OwnInv(cfg, s.nodes[m])
    requires n in Run(cfg, s, es).nodes
    ensures OwnInv(cfg, Run(cfg, s, es).nodes[n])
    decreases |es|
  {
    if es != [] {
      StepKeeps(cfg, s, es[0]);
      HandleOwn(cfg, s, es[0]);
      RunOwn(cfg, Apply(s, es[0]), es[1..], n);
    }
  }

  lemma StartedOwn(cfg: Config, n: NodeId, state: P.State, mempool: seq<P.Slot>)
    ensures OwnInv(cfg, Started(n, state, mempool))
  {
  }

  lemma InitialOwn(cfg: Config, s: System)
    requires Initial(s)
    ensures Inv(cfg, s) && forall m :: m in s.nodes ==> OwnInv(cfg, s.nodes[m])
  {
    forall m | m in s.nodes ensures OwnInv(cfg, s.nodes[m]) {
      StartedOwn(cfg, m, s.nodes[m].state, s.nodes[m].mempool);
    }
  }

  lemma {:induction false} ReachesOwn(cfg: Config, s: System, es: seq<Event>, t: System, n: NodeId)
    requires Reaches(cfg, s, es, t) && n in t.nodes
    ensures Good(cfg, t.cast, t.nodes[n]) && t.nodes[n].nodeId == n && OwnInv(cfg, t.nodes[n])
  {
    InitialOwn(cfg, s);
    RunOwn(cfg, s, es, n);
    ReachesInv(cfg, s, es, t);
  }

  // ---- the second choice of one call ----

  lemma {:induction false} LeastWaitSame(bs: seq<Block>, cs: seq<Block>, h: nat)
    requires |bs| == |cs|
    requires forall i :: 0 <= i < |bs| ==> cs[i].height == bs[i].height && cs[i].waitTime == bs[i].waitTime
    ensures LeastWait(cs, h) == LeastWait(bs, h)
    decreases |bs|
  {
    if bs != [] {
      LeastWaitSame(bs[..|bs| - 1], cs[..|cs| - 1], h);
    }
  }

  /** What a selection leaves behind. */
  lemma {:induction false} SelectionLeaves(w: World, h: nat, bs: seq<Block>, ex: seq<Block>, open: Option<Open>,
                                           f: Fetching)
    requires forall x :: x in ex ==> !Passes(w, x)
    ensures var s := SelectBlock(w, h, bs, ex, open, f);
            |ex| <= |s.excluded| && (forall x :: x in s.excluded ==> !Passes(w, x))
            && (s.winner.Some? ==> var b := s.blocks[s.winner.value];
                  LeastWait(s.blocks, h) == s.winner && IsOpen(s.open, b)
                  && (|s.excluded| > |ex| ==> Passes(w, b)))
    decreases |bs|
  {
    var i := LeastWait(bs, h);
    if i.Some? {
      var b := bs[i.value];
      if !IsOpen(open, b) && !Passes(w, b) {
        SelectionLeaves(w, h, Remove(bs, i.value), ex + [b], None, Fetch(f, w, b.Ref()));
        SelectPasses(w, h, Remove(bs, i.value), ex + [b], Fetch(f, w, b.Ref()));
      }
    }
  }

  /** Once no block is open, only a block that passes its checks is selected. */
  lemma SelectPasses(w: World, h: nat, bs: seq<Block>, ex: seq<Block>, f: Fetching)
    ensures var s := SelectBlock(w, h, bs, ex, None, f);
            s.winner.Some? ==> Passes(w, s.blocks[s.winner.value])
  {
    SelectedPasses(w, h, bs, ex, None, f);
  }

  lemma FirstOfBoth(bs: seq<Block>, x: seq<Block>, h: nat, i: nat, j: nat)
    requires LeastWait(bs, h) == Some(i) && LeastWait(bs + x, h) == Some(j) && j < |bs|
    ensures j == i
  {
    LeastWaitSpec(bs, h);
    LeastWaitSpec(bs + x, h);
    assert (bs + x)[j] == bs[j] && (bs + x)[i] == bs[i];
  }

  lemma LeastOfBoth(bs: seq<Block>, x: seq<Block>, h: nat)
    requires LeastWait(bs, h).Some?
    ensures var j := LeastWait(bs + x, h);
            j.Some? && (j.value < |bs| ==> (bs + x)[j.value] == bs[LeastWait(bs, h).value])
  {
    var i := LeastWait(bs, h).value;
    LeastWaitSpec(bs + x, h);
    assert (bs + x)[i].height == h;
    if LeastWait(bs + x, h).value < |bs| {
      FirstOfBoth(bs, x, h, i, LeastWait(bs + x, h).value);
    }
  }

  lemma RemoveBehind(bs: seq<Block>, x: seq<Block>, k: nat)
    requires k < |x|
    ensures Remove(bs + x, |bs| + k) == bs + Remove(x, k) && (bs + x)[|bs| + k] == x[k]
    ensures forall y :: y in Remove(x, k) ==> y in x
  {
  }

  /** The winner of a selection. */
  predicate Picks(s: Selection, b: Block) {
    s.winner.Some? && s.winner.value < |s.blocks| && s.blocks[s.winner.value] == b
  }

  /** The blocks that were set aside do not change what is selected: they fail again. */
  lemma {:induction false} SelectsSame(w: World, h: nat, bs: seq<Block>, x: seq<Block>, ex: seq<Block>,
                                       open: Option<Open>, f: Fetching, b: Block)
    requires Best(bs, h) == Some(b) && (open.None? || IsOpen(open, b))
    requires forall y :: y in x ==> !Passes(w, y) && y.Ref() != b.Ref()
    requires (x == [] && IsOpen(open, b)) || Passes(w, b)
    ensures Picks(SelectBlock(w, h, bs + x, ex, open, f), b)
    decreases |x|
  {
    LeastOfBoth(bs, x, h);
    var j := LeastWait(bs + x, h).value;
    if j < |bs| {
      SelectsAt(w, h, bs + x, ex, open, f, j);
    } else {
      var k := j - |bs|;
      RemoveBehind(bs, x, k);
      SelectsSame(w, h, bs, Remove(x, k), ex + [x[k]], None, Fetch(f, w, x[k].Ref()), b);
      SkipsAt(w, h, bs + x, ex, open, f, j);
    }
  }

  lemma SelectsAt(w: World, h: nat, bs: seq<Block>, ex: seq<Block>, open: Option<Open>, f: Fetching, i: nat)
    requires LeastWait(bs, h) == Some(i) && (IsOpen(open, bs[i]) || Passes(w, bs[i]))
    ensures Picks(SelectBlock(w, h, bs, ex, open, f), bs[i])
  {
  }

  lemma SkipsAt(w: World, h: nat, bs: seq<Block>, ex: seq<Block>, open: Option<Open>, f: Fetching, j: nat)
    requires LeastWait(bs, h) == Some(j) && !IsOpen(open, bs[j]) && !Passes(w, bs[j])
    ensures SelectBlock(w, h, bs, ex, open, f)
         == SelectBlock(w, h, Remove(bs, j), ex + [bs[j]], None, Fetch(f, w, bs[j].Ref()))
  {
  }

  lemma OtherRefs(cast: set<Vote>, bs: seq<Block>, x: seq<Block>, low: nat, i: nat)
    requires BlocksOk(cast, bs + x, low) && i < |bs|
    ensures forall y :: y in x ==> y.Ref() != bs[i].Ref()
  {
    forall k | 0 <= k < |x| ensures x[k].Ref() != bs[i].Ref() {
      assert (bs + x)[i] == bs[i] && (bs + x)[|bs| + k] == x[k];
    }
  }

  lemma TimedAlready(w: World, p: Plugin, r: Round)
    ensures var q := CastVote(p, w, r); SetWaitTimes(w, p.Next(), q.newBlocks) == q.newBlocks
  {
    var h, timed := p.Next(), SetWaitTimes(w, p.Next(), p.newBlocks);
    var s := Select(p, w);
    SelectKeepsBlocks(w, h, timed, [], p.openBlock, p.fetching);
    assert timed + [] == timed;
    forall b | b in s.blocks + s.excluded ensures b.height == h ==> b.waitTime == w.waitTime(b.id) {
      assert b in multiset(s.blocks + s.excluded);
      assert b in timed;
    }
    var q := CastVote(p, w, r);
    forall i | 0 <= i < |q.newBlocks|
      ensures q.newBlocks[i].height == h ==> q.newBlocks[i].waitTime == w.waitTime(q.newBlocks[i].id)
    {
      assert (s.blocks + s.excluded)[i] in s.blocks + s.excluded;
    }
  }

  /** A node that votes in round 0 and goes on to round 1 in the same call selects the
      same block, with the vote that was just counted. */
  lemma SelectsAgain(cast: set<Vote>, p: Plugin, w: World)
    requires BlocksOk(cast, p.newBlocks, |p.chain|) && Select(p, w).winner.Some?
    requires var s := Select(p, w); p.nodeId !in s.blocks[s.winner.value].first.voters
    ensures var s, q := Select(p, w), CastVote(p, w, First);
            var i := s.winner.value;
            i < |q.newBlocks| && Some(q.newBlocks[i]) == CountVote(s.blocks[i], First, p.nodeId)
            && Picks(Select(q, w), q.newBlocks[i])
  {
    var s, q, h := Select(p, w), CastVote(p, w, First), p.Next();
    var i, timed := s.winner.value, SetWaitTimes(w, p.Next(), p.newBlocks);
    var bs := s.blocks[i := CountVote(s.blocks[i], First, p.nodeId).value];
    SelectionLeaves(w, h, timed, [], p.openBlock, p.fetching);
    SelectionKeeps(cast, p, w);
    OtherRefs(cast, s.blocks, s.excluded, |p.chain|, i);
    assert q.newBlocks == bs + s.excluded && q.openBlock == s.open;
    LeastWaitSame(s.blocks, bs, h);
    TimedAlready(w, p, First);
    SelectsSame(w, h, bs, s.excluded, [], s.open, s.fetching, bs[i]);
  }

  // ---- voting twice ----

  /** The handler of `e` casts a vote of round `r` although the node has cast one before,
      in that round of that height: another one, so for another block. */
  predicate VotesAgain(p: Plugin, e: Event, r: Round) {
    exists u, v :: u in p.outbox && v in Handle(p, e).outbox - p.outbox
                   && u.height == v.height && u.round == v.round == r
  }

  /** In a run without the arrival of a transaction at an exposed node nobody does that. */
  lemma {:induction false} VotesOnce(cfg: Config, s: System, es: seq<Event>, t: System, e: Event, r: Round)
    requires Reaches(cfg, s, es, t) && Enabled(cfg, t, e)
    ensures !VotesAgain(t.nodes[e.node], e, r)
  {
    ReachesInv(cfg, s, es, t);
    StepKeeps(cfg, t, e);
    var p, q := t.nodes[e.node], Handle(t.nodes[e.node], e);
    forall u, v | u in p.outbox && v in q.outbox - p.outbox ensures u.height != v.height || u.round != v.round {
      assert u in Apply(t, e).cast && v in Apply(t, e).cast && q == Apply(t, e).nodes[e.node];
      assert u.voter == v.voter;
    }
  }

  /** The same blocks can be verified and committed. */
  ghost predicate SameChecks(w: World, v: World) {
    w.items == v.items && w.missing == v.missing && w.replay == v.replay && w.commits == v.commits
  }

  /** The arrival of `t` now makes the node vote again for some wait times of the blocks;
      its authorization and the clock may vary as well, the checks of blocks are as they are. */
  ghost predicate CanVoteAgain(cfg: Config, p: Plugin, t: P.Txn, now: World, r: Round) {
    exists w :: WorldOk(cfg, p, w) && SameChecks(w, now) && VotesAgain(p, TransactionArrives(p.nodeId, t, w), r)
  }

  /** The block lacks the round-1 vote of this node, and would not win by its round-0 vote. */
  predicate Undecided(p: Plugin, b: Block, quorum: nat) {
    p.nodeId !in b.second.voters && b.first.count + 1 < Majority(quorum)
  }

  /** Exposed, and with a vote to repeat: in round 0 one that it cast itself before it moved
      on, in round 1 for another block that the round-0 vote does not decide. */
  predicate Torn(p: Plugin, t: P.Txn, now: World, quorum: nat, r: Round) {
    Exposed(p, now, t)
    && match r
       case First => HasVoted(p, First)
       case Second => exists b :: b in p.newBlocks && Votable(p, now, b) && Undecided(p, b, quorum)
  }

  /** The run hypothesis is exactly the guard that is missing: the guard only compares the
      latest vote. In every state of every run the arrival of a transaction can make a node
      vote twice in a round if and only if the node is torn. */
  lemma {:induction false} VotesTwiceIff(cfg: Config, s: System, es: seq<Event>, sys: System, n: NodeId, t: P.Txn,
                                         now: World, r: Round)
    requires Reaches(cfg, s, es, sys) && n in sys.nodes
    ensures var p := sys.nodes[n];
            CanVoteAgain(cfg, p, t, now, r) <==> Torn(p, t, now, |cfg.voters(p.Next())|, r)
  {
    var p := sys.nodes[n];
    ReachesOwn(cfg, s, es, sys, n);
    if w :| WorldOk(cfg, p, w) && SameChecks(w, now) && VotesAgain(p, TransactionArrives(p.nodeId, t, w), r) {
      AgainIsTorn(cfg, sys.cast, p, t, now, w, r);
    }
    if Torn(p, t, now, |cfg.voters(p.Next())|, r) {
      TornVotesAgain(cfg, sys.cast, p, t, now, r);
    }
  }

  /** A node that skipped round 0 is torn in round 1 if and only if it is exposed with a
      block that lacks both its votes: no round-0 vote of its own can decide any more. */
  lemma {:induction false} SkippedFirstIff(cfg: Config, s: System, es: seq<Event>, sys: System, n: NodeId, t: P.Txn,
                                           now: World)
    requires Reaches(cfg, s, es, sys) && n in sys.nodes && !HasVoted(sys.nodes[n], First)
    ensures var p := sys.nodes[n];
            CanVoteAgain(cfg, p, t, now, Second) <==>
            Exposed(p, now, t)
            && exists b :: b in p.newBlocks && Votable(p, now, b) && p.nodeId !in b.second.voters
  {
    var p := sys.nodes[n];
    VotesTwiceIff(cfg, s, es, sys, n, t, now, Second);
    ReachesOwn(cfg, s, es, sys, n);
    if p.Voted(Second) {
      forall b | b in p.newBlocks && b.height == p.Next()
        ensures b.first.count + 1 < Majority(|cfg.voters(p.Next())|)
      {
        OneVoteShort(cfg, sys.cast, p, b);
      }
    }
  }

  lemma OneVoteShort(cfg: Config, cast: set<Vote>, p: Plugin, b: Block)
    requires Good(cfg, cast, p) && OwnInv(cfg, p) && p.Voted(Second) && !HasVoted(p, First)
    requires b in p.newBlocks && b.height == p.Next()
    ensures b.first.count + 1 < Majority(|cfg.voters(p.Next())|)
  {
    var h, all := p.Next(), cfg.voters(p.Next());
    var u :| u in p.outbox && u.height == h && u.round == Second;
    assert u in cast && Dead(cfg, cast, h) && p.nodeId in all;
    var a, c := Voters(cast, h, First, b.id), Others(cast, h, b.id);
    assert a !! c && p.nodeId !in a + c;
    SubsetSize(a + c + {p.nodeId}, all);
    assert |a + c + {p.nodeId}| == |a| + |c| + 1;
    var i :| 0 <= i < |p.newBlocks| && p.newBlocks[i] == b;
    CountedOnce(cfg, cast, b, First);
    SubsetSize(Elements(b.first.voters), a);
  }

  // ---- a node that votes again is torn ----

  lemma CastVoteAdds(p: Plugin, w: World, r: Round)
    ensures var q := CastVote(p, w, r);
            p.outbox <= q.outbox && q.chain == p.chain && q.nodeId == p.nodeId
            && forall v :: v in q.outbox - p.outbox ==> v.round == r && v.height == p.Next()
  {
  }

  /** choose_block_to_vote casts a vote in round `r`. */
  predicate Casts(p: Plugin, w: World, r: Round) {
    var s := Select(p, w);
    s.winner.Some? && p.nodeId !in s.blocks[s.winner.value].Of(r).voters
  }

  lemma NothingCast(p: Plugin, w: World, r: Round)
    requires !Casts(p, w, r)
    ensures var q := CastVote(p, w, r);
            q.outbox == p.outbox && q.lastVoteHeight == p.lastVoteHeight && q.lastVoteRound == p.lastVoteRound
  {
  }

  predicate Leaves(q: Plugin, w: World) {
    q.newBlocks != [] && !w.updating && FindWinner(q.newBlocks, q.Next(), First, Majority(w.quorum)).None?
    && MovesOn(q, w, First)
  }

  /** What the check for a round-0 winner casts. */
  lemma CheckCasts(q: Plugin, w: World)
    ensures CheckForWinner(q, w, First).outbox
         == if Leaves(q, w) && w.canVote then CastVote(q, w, Second).outbox else q.outbox
  {
    if Leaves(q, w) {
      LeavesByChoice(q, w);
      CheckSecondCastsNone(if w.canVote then CastVote(q, w, Second) else q, w);
    }
  }

  lemma LeavesByChoice(q: Plugin, w: World)
    requires Leaves(q, w)
    ensures CheckForWinner(q, w, First) == CheckForWinner(if w.canVote then CastVote(q, w, Second) else q, w, Second)
  {
  }

  lemma ChoiceChecks(p: Plugin, w: World)
    ensures ChooseBlock(p, w, First)
         == if Chosen(p, w).Some? then CheckForWinner(Chosen(p, w).value, w, First) else p
  {
  }

  /** The votes of one choice in round 0: one in this round, or one in each. */
  lemma ChoiceCasts(p: Plugin, w: World, v: Vote)
    requires v in ChooseBlock(p, w, First).outbox - p.outbox
    ensures !p.Voted(First) && v.height == p.Next() && w.canVote && !w.updating
    ensures var q := CastVote(p, w, First);
            if v.round == First then Casts(p, w, First)
            else Leaves(q, w) && v in CastVote(q, w, Second).outbox - q.outbox
  {
    ChoiceChecks(p, w);
    CheckCasts(Chosen(p, w).value, w);
    var q := CastVote(p, w, First);
    CastVoteAdds(p, w, First);
    CastVoteAdds(q, w, Second);
    CastVoteAdds(p, w, Second);
    if !Casts(p, w, First) {
      NothingCast(p, w, First);
    }
  }

  lemma AgainIsTorn(cfg: Config, cast: set<Vote>, p: Plugin, t: P.Txn, now: World, w: World, r: Round)
    requires Good(cfg, cast, p) && OwnInv(cfg, p) && WorldOk(cfg, p, w) && SameChecks(w, now)
    requires VotesAgain(p, TransactionArrives(p.nodeId, t, w), r)
    ensures Torn(p, t, now, |cfg.voters(p.Next())|, r)
  {
    var p1 := TakeIn(p, t);
    var u, v :| u in p.outbox && v in OnTransaction(p, w, t).outbox - p.outbox && u.height == v.height
                && u.round == v.round == r;
    assert ChoosesOn(p, t) && v in ChooseBlock(p1, w, First).outbox - p1.outbox;
    ChoiceCasts(p1, w, v);
    assert p.Voted(Second);
    NothingUncast(p1, w, v);
    var b := VotedFor(p1, w);
    assert b in p.newBlocks && Votable(p, now, b);
    if r == Second {
      StillUndecided(cast, p1, w, v, b);
    } else {
      assert HasVoted(p, First);
    }
  }

  /** Without a round-0 vote in between the node does not move on a second time. */
  lemma NothingUncast(p: Plugin, w: World, v: Vote)
    requires p.Voted(Second) && (Casts(p, w, First) || MovesOn(CastVote(p, w, First), w, First))
    ensures Casts(p, w, First)
  {
    if !Casts(p, w, First) {
      NothingCast(p, w, First);
    }
  }

  /** The block that got the round-0 vote. */
  lemma VotedFor(p: Plugin, w: World) returns (b: Block)
    requires Casts(p, w, First)
    ensures Select(p, w).winner.Some? && b in p.newBlocks && Votable(p, w, b)
    ensures Select(p, w).blocks[Select(p, w).winner.value] == b.(waitTime := w.waitTime(b.id))
  {
    b := SelectedBlock(p, w);
  }

  lemma StillUndecided(cast: set<Vote>, p: Plugin, w: World, v: Vote, b: Block)
    requires BlocksOk(cast, p.newBlocks, |p.chain|) && Select(p, w).winner.Some? && Votable(p, w, b)
    requires Select(p, w).blocks[Select(p, w).winner.value] == b.(waitTime := w.waitTime(b.id))
    requires var q := CastVote(p, w, First); Leaves(q, w) && v in CastVote(q, w, Second).outbox - q.outbox
    ensures Undecided(p, b, w.quorum)
  {
    SelectsAgain(cast, p, w);
    var q, i := CastVote(p, w, First), Select(p, w).winner.value;
    assert q.newBlocks[i].first.count == b.first.count + 1 && q.newBlocks[i].height == q.Next();
  }

  // ---- a torn node votes again ----

  /** Circumstances under which `b` is the block to vote for. */
  function Tempting(now: World, b: Block, quorum: nat): World {
    now.(canVote := true, updating := false, quorum := quorum, waitTime := (id: BlockId) => if id == b.id then 1 else 2)
  }

  lemma Tempted(cast: set<Vote>, p: Plugin, b: Block, w: World, k: nat)
    requires BlocksOk(cast, p.newBlocks, |p.chain|) && k < |p.newBlocks| && p.newBlocks[k] == b && Votable(p, w, b)
    requires forall id :: w.waitTime(id) == if id == b.id then 1 else 2
    ensures var s := Select(p, w);
            s.winner == Some(k) && s.excluded == [] && |s.blocks| == |p.newBlocks|
            && s.blocks[k] == b.(waitTime := 1)
            && forall j :: 0 <= j < |s.blocks| ==> s.blocks[j].Ref() == p.newBlocks[j].Ref()
                                                   && s.blocks[j].first == p.newBlocks[j].first
  {
    var h := p.Next();
    var timed := SetWaitTimes(w, h, p.newBlocks);
    LeastWaitSpec(timed, h);
    assert timed[k].height == h && timed[k].waitTime == 1;
    var i := LeastWait(timed, h).value;
    assert timed[i].waitTime == 1;
    assert p.newBlocks[i].Ref() == b.Ref();
    assert i == k;
  }

  lemma TemptedVote(cast: set<Vote>, p: Plugin, b: Block, w: World)
    requires OwnOk(cast, p) && OwnCounted(p) && BlocksOk(cast, p.newBlocks, |p.chain|)
    requires b in p.newBlocks && Votable(p, w, b) && forall id :: w.waitTime(id) == if id == b.id then 1 else 2
    ensures var v := Vote(p.nodeId, p.Next(), First, b.id);
            v !in p.outbox && CastVote(p, w, First).outbox == p.outbox + {v}
  {
    var k :| 0 <= k < |p.newBlocks| && p.newBlocks[k] == b;
    Tempted(cast, p, b, w, k);
    NotYetCast(cast, p, b, First);
  }

  lemma NotYetCast(cast: set<Vote>, p: Plugin, b: Block, r: Round)
    requires OwnCounted(p) && BlocksOk(cast, p.newBlocks, |p.chain|)
    requires b in p.newBlocks && b.height == p.Next() && p.nodeId !in b.Of(r).voters
    ensures Vote(p.nodeId, p.Next(), r, b.id) !in p.outbox
  {
    forall x | x in p.newBlocks && x.Ref() == b.Ref() ensures x == b {
      var i :| 0 <= i < |p.newBlocks| && p.newBlocks[i] == x;
      var k :| 0 <= k < |p.newBlocks| && p.newBlocks[k] == b;
    }
    assert !Counted(p.newBlocks, Vote(p.nodeId, p.Next(), r, b.id));
  }

  lemma TornVotesAgain(cfg: Config, cast: set<Vote>, p: Plugin, t: P.Txn, now: World, r: Round)
    requires Good(cfg, cast, p) && OwnInv(cfg, p) && Torn(p, t, now, |cfg.voters(p.Next())|, r)
    ensures CanVoteAgain(cfg, p, t, now, r)
  {
    var quorum := |cfg.voters(p.Next())|;
    var b :| b in p.newBlocks && Votable(p, now, b) && (r == Second ==> Undecided(p, b, quorum));
    var w := Tempting(now, b, quorum);
    var u :| u in p.outbox && u.height == p.Next() && u.round == r;
    assert u in cast && WorldOk(cfg, p, w) && SameChecks(w, now);
    TemptedChoice(cfg, cast, TakeIn(p, t), b, w, r);
    var v := Vote(p.nodeId, p.Next(), r, b.id);
    assert v in Handle(p, TransactionArrives(p.nodeId, t, w)).outbox - p.outbox;
  }

  lemma TemptedChoice(cfg: Config, cast: set<Vote>, p: Plugin, b: Block, w: World, r: Round)
    requires Good(cfg, cast, p) && OwnInv(cfg, p) && p.Voted(Second) && !p.waiting
    requires b in p.newBlocks && Votable(p, w, b) && (r == Second ==> Undecided(p, b, w.quorum))
    requires w.canVote && !w.updating && w.quorum == |cfg.voters(p.Next())|
    requires forall id :: w.waitTime(id) == if id == b.id then 1 else 2
    ensures Vote(p.nodeId, p.Next(), r, b.id) in ChooseBlock(p, w, First).outbox - p.outbox
  {
    NotYetCast(cast, p, b, r);
    if r == Second {
      TemptedTwice(cfg, cast, p, b, w);
    } else {
      TemptedVote(cast, p, b, w);
      ChoiceAdds(p, w);
    }
  }

  lemma ChoiceAdds(p: Plugin, w: World)
    requires Chosen(p, w).Some? && w.canVote
    ensures CastVote(p, w, First).outbox <= ChooseBlock(p, w, First).outbox
  {
    var q := CastVote(p, w, First);
    ChoiceChecks(p, w);
    CheckCasts(q, w);
    CastVoteAdds(q, w, Second);
  }

  /** No block wins by the repeated vote, and round 0 is still closed: the node goes on to
      round 1 and votes there again. */
  lemma TemptedTwice(cfg: Config, cast: set<Vote>, p: Plugin, b: Block, w: World)
    requires Good(cfg, cast, p) && OwnInv(cfg, p) && p.Voted(Second) && !p.waiting
    requires b in p.newBlocks && Votable(p, w, b) && Undecided(p, b, w.quorum)
    requires w.canVote && !w.updating && w.quorum == |cfg.voters(p.Next())|
    requires forall id :: w.waitTime(id) == if id == b.id then 1 else 2
    ensures Vote(p.nodeId, p.Next(), Second, b.id) in ChooseBlock(p, w, First).outbox
  {
    var q, h := CastVote(p, w, First), p.Next();
    var k :| 0 <= k < |p.newBlocks| && p.newBlocks[k] == b;
    Tempted(cast, p, b, w, k);
    SelectsAgain(cast, p, w);
    NoWinner(cfg, cast, p, b, w, k);
    FirstStaysClosed(cfg, cast, p, w);
    VotedBlockCounts(p, w, First);
    assert Leaves(q, w);
    VotedBlockCounts(q, w, Second);
    ChoiceChecks(p, w);
    CheckCasts(q, w);
  }

  lemma NoWinner(cfg: Config, cast: set<Vote>, p: Plugin, b: Block, w: World, k: nat)
    requires Good(cfg, cast, p) && OwnInv(cfg, p) && p.Voted(Second) && w.quorum == |cfg.voters(p.Next())|
    requires k < |p.newBlocks| && p.newBlocks[k] == b && Votable(p, w, b) && Undecided(p, b, w.quorum)
    requires forall id :: w.waitTime(id) == if id == b.id then 1 else 2
    ensures FindWinner(CastVote(p, w, First).newBlocks, p.Next(), First, Majority(w.quorum)).None?
  {
    Tempted(cast, p, b, w, k);
    var q, h := CastVote(p, w, First), p.Next();
    var u :| u in p.outbox && u.height == h && u.round == Second;
    assert u in cast && Dead(cfg, cast, h);
    forall j | 0 <= j < |q.newBlocks| && q.newBlocks[j].height == h
      ensures q.newBlocks[j].first.count < Majority(w.quorum)
    {
      var x := p.newBlocks[j];
      DeadMeansNoMajority(cfg, cast, h, x.id);
      CountedOnce(cfg, cast, x, First);
      SubsetSize(Elements(x.first.voters), Voters(cast, h, First, x.id));
    }
  }

  /** The repeated vote keeps round 0 closed on the list. */
  lemma FirstStaysClosed(cfg: Config, cast: set<Vote>, p: Plugin, w: World)
    requires Good(cfg, cast, p) && OwnInv(cfg, p) && p.Voted(Second) && w.quorum == |cfg.voters(p.Next())|
    ensures !StillOpen(CastVote(p, w, First).newBlocks, p.Next(), w.quorum)
  {
    var q, h := CastVote(p, w, First), p.Next();
    forall v ensures Counted(p.newBlocks, v) ==> Counted(q.newBlocks, v) {
      CastVoteKeepsVotes(p, w, First, v);
    }
    ClosedStays(p.newBlocks, q.newBlocks, h, w.quorum);
    CastVoteCounters(cast, p, w);
    ClosedMeans(q.newBlocks, h, w.quorum);
  }

  lemma CastVoteCounters(cast: set<Vote>, p: Plugin, w: World)
    requires BlocksOk(cast, p.newBlocks, |p.chain|)
    ensures CountersOk(CastVote(p, w, First).newBlocks)
  {
    var s := Select(p, w);
    SelectionKeeps(cast, p, w);
    forall i | 0 <= i < |s.blocks + s.excluded|
      ensures (s.blocks + s.excluded)[i].first.count == |(s.blocks + s.excluded)[i].first.voters|
    {
      assert BlockOk(cast, (s.blocks + s.excluded)[i]);
      assert TallyOk(cast, (s.blocks + s.excluded)[i], First);
    }
    if s.winner.Some? {
      VoteThenRestore(p, First, s);
    }
  }
}
