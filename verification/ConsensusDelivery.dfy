/** No delivered vote is lost: a node has counted it, or keeps it for the block. */
module ConsensusDelivery {
  import opened Common
  import opened ConsensusModel
  import opened ConsensusInvariant
  import opened ConsensusHandlers
  import opened ConsensusRuns
  import opened ConsensusChoice
  import P = ProposerModel

  predicate Known(bs: seq<Block>, v: Vote) {
    exists b :: b in bs && b.Ref() == Key(v.id, v.height)
  }

  predicate Counted(bs: seq<Block>, v: Vote) {
    exists b :: b in bs && b.Ref() == Key(v.id, v.height) && v.voter in b.Of(v.round).voters
  }

  /** A vote for a known block is counted; one for an unknown block is kept. */
  predicate Seen(p: Plugin, v: Vote) {
    if Known(p.newBlocks, v) then Counted(p.newBlocks, v) else v in p.pending
  }

  /** The vote stays seen while its height is open. */
  predicate Keeping(p: Plugin, q: Plugin, v: Vote) {
    Seen(p, v) && v.height > |q.chain| ==> Seen(q, v)
  }

  /** The same blocks up to wait times and added voters. */
  predicate MoreCounted(bs: seq<Block>, cs: seq<Block>, v: Vote) {
    (Known(cs, v) ==> Known(bs, v)) && (Known(bs, v) ==> Known(cs, v)) && (Counted(bs, v) ==> Counted(cs, v))
  }

  lemma MoreCountedTwice(bs: seq<Block>, cs: seq<Block>, ds: seq<Block>, v: Vote)
    requires MoreCounted(bs, cs, v) && MoreCounted(cs, ds, v)
    ensures MoreCounted(bs, ds, v)
  {
  }

  predicate BlockByBlock(bs: seq<Block>, cs: seq<Block>, r: Round) {
    |bs| == |cs|
    && forall i :: 0 <= i < |bs| ==> cs[i].Ref() == bs[i].Ref() && bs[i].Of(r).voters <= cs[i].Of(r).voters
  }

  lemma MoreBlockByBlock(bs: seq<Block>, cs: seq<Block>, v: Vote)
    requires BlockByBlock(bs, cs, v.round)
    ensures MoreCounted(bs, cs, v)
  {
    if Known(bs, v) {
      var x :| x in bs && x.Ref() == Key(v.id, v.height);
      var j :| 0 <= j < |bs| && bs[j] == x;
      assert cs[j] in cs;
    }
    if Known(cs, v) {
      var x :| x in cs && x.Ref() == Key(v.id, v.height);
      var j :| 0 <= j < |cs| && cs[j] == x;
      assert bs[j] in bs;
    }
    if Counted(bs, v) {
      var x :| x in bs && x.Ref() == Key(v.id, v.height) && v.voter in x.Of(v.round).voters;
      var j :| 0 <= j < |bs| && bs[j] == x;
      assert cs[j] in cs && bs[j].Of(v.round).voters <= cs[j].Of(v.round).voters;
    }
  }

  lemma SameBlocks(bs: seq<Block>, cs: seq<Block>, v: Vote)
    requires multiset(bs) == multiset(cs)
    ensures MoreCounted(bs, cs, v)
  {
    forall b ensures b in bs <==> b in cs {
      assert b in bs <==> b in multiset(bs);
      assert b in cs <==> b in multiset(cs);
    }
  }

  lemma CountAdds(b: Block, r: Round, voter: NodeId, s: Round)
    ensures var c := CountVote(b, r, voter);
            c.Some? ==> c.value.Ref() == b.Ref() && voter in c.value.Of(r).voters
                        && b.Of(s).voters <= c.value.Of(s).voters
    ensures CountVote(b, r, voter).None? ==> voter in b.Of(r).voters
  {
  }

  lemma CastVoteKeepsVotes(p: Plugin, w: World, r: Round, v: Vote)
    ensures MoreCounted(p.newBlocks, CastVote(p, w, r).newBlocks, v) && CastVote(p, w, r).pending == p.pending
  {
    var h, timed := p.Next(), SetWaitTimes(w, p.Next(), p.newBlocks);
    var s := Select(p, w);
    MoreBlockByBlock(p.newBlocks, timed, v);
    SelectKeepsBlocks(w, h, timed, [], p.openBlock, p.fetching);
    assert timed + [] == timed;
    SameBlocks(timed, s.blocks + s.excluded, v);
    MoreCountedTwice(p.newBlocks, timed, s.blocks + s.excluded, v);
    if s.winner.Some? {
      VoteThenRestore(p, r, s);
      var i := s.winner.value;
      assert (s.blocks + s.excluded)[i] == s.blocks[i];
      var c := CountVote(s.blocks[i], r, p.nodeId);
      if c.Some? {
        CountAdds(s.blocks[i], r, p.nodeId, v.round);
        MoreBlockByBlock(s.blocks + s.excluded, CastVote(p, w, r).newBlocks, v);
        MoreCountedTwice(p.newBlocks, s.blocks + s.excluded, CastVote(p, w, r).newBlocks, v);
      }
    }
  }

  lemma {:induction false} AboveIn(bs: seq<Block>, h: nat, b: Block)
    ensures b in BlocksAbove(bs, h) <==> b in bs && b.height > h
    decreases |bs|
  {
    if bs != [] {
      AboveIn(bs[1..], h, b);
    }
  }

  lemma {:induction false} FromIn(vs: seq<Vote>, h: nat, v: Vote)
    ensures v in VotesFrom(vs, h) <==> v in vs && v.height >= h
    decreases |vs|
  {
    if vs != [] {
      FromIn(vs[1..], h, v);
    }
  }

  lemma CommitKeepsVotes(p: Plugin, items: seq<P.Item>, i: nat, s: P.State, v: Vote)
    requires i < |p.newBlocks| && p.newBlocks[i].height == p.Next()
    ensures Keeping(p, CommitBlock(p, items, i, s), v)
  {
    var q, h, rest := CommitBlock(p, items, i, s), p.Next(), Remove(p.newBlocks, i);
    if Seen(p, v) && v.height > h {
      FromIn(p.pending, h, v);
      forall b: Block | b.height > h ensures b in q.newBlocks <==> b in p.newBlocks {
        AboveIn(rest, h, b);
        assert p.newBlocks == p.newBlocks[..i] + [p.newBlocks[i]] + p.newBlocks[i + 1..];
      }
      assert forall b: Block :: b.Ref() == Key(v.id, v.height) ==> b.height > h;
    }
  }

  lemma CommitOpenKeepsVotes(p: Plugin, w: World, i: nat, v: Vote)
    requires i < |p.newBlocks| && p.newBlocks[i].height == p.Next() && p.openBlock.Some?
    ensures Keeping(p, CommitOpen(p, w, i), v)
  {
    if p.openBlock.value.state.Some? {
      CommitKeepsVotes(p, w.items(p.newBlocks[i].id), i, p.openBlock.value.state.value, v);
    }
  }

  lemma CommitWinnerKeepsVotes(p: Plugin, w: World, i: nat, v: Vote)
    requires i < |p.newBlocks| && p.newBlocks[i].height == p.Next()
    ensures Keeping(p, CommitWinner(p, w, i), v)
  {
    var b := p.newBlocks[i];
    if IsOpen(p.openBlock, b) {
      CommitOpenKeepsVotes(p, w, i, v);
    } else if Passes(w, b) {
      var open := Some(Open(b.Ref(), w.replay(b.id)));
      CommitOpenKeepsVotes(p.(openBlock := open, fetching := Fetch(p.fetching, w, b.Ref())), w, i, v);
    }
  }

  lemma {:induction false} CheckKeepsVotes(p: Plugin, w: World, r: Round, v: Vote)
    ensures Keeping(p, CheckForWinner(p, w, r), v)
    decreases Rank(r), 0
  {
    if p.newBlocks != [] && !w.updating {
      var i := FindWinner(p.newBlocks, p.Next(), r, Majority(w.quorum));
      if i.Some? {
        CommitWinnerKeepsVotes(p, w, i.value, v);
      } else if MovesOn(p, w, r) {
        ChooseKeepsVotes(p, w, Second, v);
      }
    }
  }

  lemma {:induction false} ChooseKeepsVotes(p: Plugin, w: World, r: Round, v: Vote)
    ensures Keeping(p, ChooseBlock(p, w, r), v)
    decreases Rank(r), 1
  {
    if !p.Voted(r) && !w.updating {
      if !w.canVote {
        CheckKeepsVotes(p, w, r, v);
      } else {
        CastVoteKeepsVotes(p, w, r, v);
        CheckKeepsVotes(CastVote(p, w, r), w, r, v);
        ChainGrows(CastVote(p, w, r), w, r);
      }
    }
  }

  lemma CommitGrows(p: Plugin, w: World, i: nat)
    requires i < |p.newBlocks|
    ensures |CommitWinner(p, w, i).chain| >= |p.chain|
  {
  }

  /** The chain never gets shorter. */
  lemma {:induction false} ChainGrows(p: Plugin, w: World, r: Round)
    ensures |CheckForWinner(p, w, r).chain| >= |p.chain|
    decreases Rank(r), 0
  {
    if p.newBlocks != [] && !w.updating {
      var i := FindWinner(p.newBlocks, p.Next(), r, Majority(w.quorum));
      if i.Some? {
        CommitGrows(p, w, i.value);
      } else if MovesOn(p, w, r) {
        ChooseGrows(p, w, Second);
      }
    }
  }

  lemma {:induction false} ChooseGrows(p: Plugin, w: World, r: Round)
    ensures |ChooseBlock(p, w, r).chain| >= |p.chain|
    decreases Rank(r), 1
  {
    if !p.Voted(r) && !w.updating {
      ChainGrows(if w.canVote then CastVote(p, w, r) else p, w, r);
    }
  }

  lemma {:induction false} TransferCounts(pending: seq<Vote>, b: Block, v: Vote)
    requires v.height == b.height && v.id == b.id && (v in pending || v.voter in b.Of(v.round).voters)
    ensures v.voter in TransferVotes(pending, b).Of(v.round).voters
    decreases |pending|
  {
    if pending != [] {
      var x := pending[0];
      var c := CountVote(b, x.round, x.voter);
      CountAdds(b, x.round, x.voter, v.round);
      TransferCounts(pending[1..], if x.height == b.height && x.id == b.id && c.Some? then c.value else b, v);
    }
  }

  lemma AddedBlock(p: Plugin, b: Block, v: Vote)
    requires Seen(p, v) && !Known(p.newBlocks, Vote(0, b.height, First, b.id))
    requires b.Ref() == Key(v.id, v.height) && v in p.pending ==> v.voter in b.Of(v.round).voters
    ensures Seen(p.(newBlocks := p.newBlocks + [b]), v)
  {
    var cs := p.newBlocks + [b];
    assert b in cs;
    assert forall x :: x in p.newBlocks ==> x in cs;
    if b.Ref() == Key(v.id, v.height) {
      assert !Known(p.newBlocks, v);
      assert Counted(cs, v);
    }
  }

  lemma NewBlockKeepsVotes(p: Plugin, w: World, k: Key, v: Vote)
    ensures Keeping(p, OnNewBlock(p, w, k), v)
  {
    if FindBlock(p.newBlocks, k).None? && k.height > |p.chain| && Seen(p, v) {
      var empty := Block(k.id, k.height, 0, NO_TALLY, NO_TALLY);
      var b := TransferVotes(p.pending, empty);
      if Key(v.id, v.height) == k && v in p.pending {
        TransferCounts(p.pending, empty, v);
      }
      AddedBlock(p, b, v);
      CheckKeepsVotes(StartWait(StoreBlock(p, w, k), w), w, First, v);
    }
  }

  /** Everything seen stays seen, and the arriving vote is seen. */
  lemma VoteArrivalSeen(p: Plugin, w: World, u: Vote, v: Vote)
    ensures Keeping(p, OnBlockVote(p, w, u), v)
    ensures u.height > |OnBlockVote(p, w, u).chain| >= |p.chain| ==> Seen(OnBlockVote(p, w, u), u)
  {
    var i := FindBlock(p.newBlocks, Key(u.id, u.height));
    if i.None? {
      assert !Known(p.newBlocks, u);
    } else {
      var b := p.newBlocks[i.value];
      assert b in p.newBlocks && Known(p.newBlocks, u);
      CountAdds(b, u.round, u.voter, v.round);
      var c := CountVote(b, u.round, u.voter);
      if c.Some? {
        var q := p.(newBlocks := p.newBlocks[i.value := c.value]);
        MoreBlockByBlock(p.newBlocks, q.newBlocks, v);
        MoreBlockByBlock(p.newBlocks, q.newBlocks, u);
        assert q.newBlocks[i.value] == c.value && c.value in q.newBlocks;
        assert Seen(q, u);
        CheckKeepsVotes(q, w, u.round, v);
        CheckKeepsVotes(q, w, u.round, u);
      } else {
        assert Counted(p.newBlocks, u);
      }
    }
  }

  lemma CreatedKeepsVotes(cast: set<Vote>, p: Plugin, w: World, id: BlockId, s: P.State, v: Vote)
    requires PendingOk(cast, p.pending) && forall u :: u in cast ==> u.id != id
    requires FindBlock(p.newBlocks, Key(id, p.Next())).None?
    ensures Keeping(p, OnBlockCreated(p, w, id, s), v)
  {
    if Seen(p, v) {
      AddedBlock(p, Block(id, p.Next(), 0, NO_TALLY, NO_TALLY), v);
    }
  }

  lemma HandleKeepsVotes(cfg: Config, s: System, e: Event, v: Vote)
    requires Inv(cfg, s) && Enabled(cfg, s, e)
    ensures Keeping(s.nodes[e.node], Handle(s.nodes[e.node], e), v)
  {
    var p := s.nodes[e.node];
    match e
    case BlockArrives(_, key, w) => NewBlockKeepsVotes(p, w, key, v);
    case VoteArrives(_, u, w) => VoteArrivalSeen(p, w, u, v);
    case WaitOver(_, w) => ChooseKeepsVotes(p.(waiting := false), w, First, v);
    case TransactionArrives(_, t, w) => ChooseKeepsVotes(TakeIn(p, t), w, First, v);
    case BlockCreated(_, id, state, w) => CreatedKeepsVotes(s.cast, p, w, id, state, v);
    case _ =>
  }

  lemma HandleGrows(p: Plugin, e: Event)
    ensures |Handle(p, e).chain| >= |p.chain|
  {
    match e
    case BlockArrives(_, k, w) => ChainGrows(StartWait(StoreBlock(p, w, k), w), w, First);
    case VoteArrives(_, v, w) =>
      var i := FindBlock(p.newBlocks, Key(v.id, v.height));
      if i.Some? {
        var c := CountVote(p.newBlocks[i.value], v.round, v.voter);
        if c.Some? {
          ChainGrows(p.(newBlocks := p.newBlocks[i.value := c.value]), w, v.round);
        }
      }
    case WaitOver(_, w) => ChooseGrows(p.(waiting := false), w, First);
    case TransactionArrives(_, t, w) => ChooseGrows(TakeIn(p, t), w, First);
    case _ =>
  }

  lemma {:induction false} SeenStays(cfg: Config, s: System, es: seq<Event>, n: NodeId, v: Vote)
    requires Inv(cfg, s) && Legal(cfg, s, es) && n in s.nodes && Seen(s.nodes[n], v)
    ensures var t := Run(cfg, s, es);
            n in t.nodes && |t.nodes[n].chain| >= |s.nodes[n].chain|
            && (v.height > |t.nodes[n].chain| ==> Seen(t.nodes[n], v))
    decreases |es|
  {
    if es != [] {
      var s1 := Apply(s, es[0]);
      StepKeeps(cfg, s, es[0]);
      if es[0].node == n {
        HandleKeepsVotes(cfg, s, es[0], v);
        HandleGrows(s.nodes[n], es[0]);
      }
      if Seen(s1.nodes[n], v) {
        SeenStays(cfg, s1, es[1..], n, v);
      } else {
        RunGrows(cfg, s1, es[1..], n);
      }
    }
  }

  lemma {:induction false} RunGrows(cfg: Config, s: System, es: seq<Event>, n: NodeId)
    requires Legal(cfg, s, es) && n in s.nodes
    ensures var t := Run(cfg, s, es); n in t.nodes && |t.nodes[n].chain| >= |s.nodes[n].chain|
    decreases |es|
  {
    if es != [] {
      HandleGrows(s.nodes[es[0].node], es[0]);
      RunGrows(cfg, Apply(s, es[0]), es[1..], n);
    }
  }

  /** No delivered vote is lost: from its arrival on, as long as its height is open at
      the node, it is counted for its block, or kept until the block arrives. */
  lemma {:induction false} NoVoteLost(cfg: Config, s: System, before: seq<Event>, t: System, n: NodeId, v: Vote,
                                      w: World, after: seq<Event>)
    requires Reaches(cfg, s, before, t)
    requires var e := VoteArrives(n, v, w); Enabled(cfg, t, e) && Legal(cfg, Apply(t, e), after)
    ensures var u := Run(cfg, Apply(t, VoteArrives(n, v, w)), after);
            n in u.nodes && (v.height > |u.nodes[n].chain| ==> Seen(u.nodes[n], v))
  {
    var e := VoteArrives(n, v, w);
    ReachesInv(cfg, s, before, t);
    StepKeeps(cfg, t, e);
    var t1 := Apply(t, e);
    HandleGrows(t.nodes[n], e);
    VoteArrivalSeen(t.nodes[n], w, v, v);
    if Seen(t1.nodes[n], v) {
      SeenStays(cfg, t1, after, n, v);
    } else {
      RunGrows(cfg, t1, after, n);
    }
  }
}
