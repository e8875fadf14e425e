/** Every handler keeps the node invariant and the shape of the votes cast. */
module ConsensusHandlers {
  import opened Common
  import opened ConsensusModel
  import opened ConsensusInvariant
  import P = ProposerModel

  ghost predicate Good(cfg: Config, cast: set<Vote>, p: Plugin) {
    CastOk(cfg, cast) && NodeOk(cfg, cast, p)
  }

  /** `q` is `p` after some votes of its own: everything still holds. */
  ghost predicate Keeps(cfg: Config, cast: set<Vote>, p: Plugin, q: Plugin) {
    q.nodeId == p.nodeId && p.outbox <= q.outbox && Good(cfg, cast + q.outbox, q)
  }

  lemma {:induction false} DistinctSize<T>(s: seq<T>)
    requires Distinct(s)
    ensures |Elements(s)| == |s|
    decreases |s|
  {
    if s != [] {
      var front, last := s[..|s| - 1], s[|s| - 1];
      DistinctSize(front);
      assert Elements(s) == Elements(front) + {last};
      assert last !in Elements(front);
    }
  }

  // ---- counting votes ----

  lemma CountVoteKeeps(cast: set<Vote>, b: Block, r: Round, voter: NodeId)
    requires BlockOk(cast, b) && Vote(voter, b.height, r, b.id) in cast
    ensures var c := CountVote(b, r, voter);
            c.Some? ==> BlockOk(cast, c.value) && c.value.Ref() == b.Ref() && c.value.waitTime == b.waitTime
  {
  }

  lemma UpdateBlockKeeps(cast: set<Vote>, bs: seq<Block>, h: nat, i: nat, b: Block)
    requires BlocksOk(cast, bs, h) && i < |bs| && b.Ref() == bs[i].Ref() && BlockOk(cast, b)
    ensures BlocksOk(cast, bs[i := b], h)
  {
  }

  lemma {:induction false} TransferKeeps(cast: set<Vote>, pending: seq<Vote>, b: Block)
    requires PendingOk(cast, pending) && BlockOk(cast, b)
    ensures BlockOk(cast, TransferVotes(pending, b))
    decreases |pending|
  {
    if pending != [] {
      var v := pending[0];
      assert v in cast;
      if v.height == b.height && v.id == b.id {
        CountVoteKeeps(cast, b, v.round, v.voter);
        var c := CountVote(b, v.round, v.voter);
        TransferKeeps(cast, pending[1..], if c.Some? then c.value else b);
      } else {
        TransferKeeps(cast, pending[1..], b);
      }
    }
  }

  /** A node that has not yet voted in this round, and votes in round 1 only when
      round 0 is dead, keeps the promise of one vote per round. */
  lemma VoteKeeps(cfg: Config, cast: set<Vote>, p: Plugin, r: Round, i: nat)
    requires Good(cfg, cast, p) && i < |p.newBlocks| && p.newBlocks[i].height == p.Next()
    requires p.nodeId in cfg.voters(p.Next())
    requires if r == First then p.lastVoteHeight != p.Next()
             else !p.Voted(Second) && !p.waiting && Dead(cfg, cast, p.Next())
    ensures Keeps(cfg, cast, p, VoteOnBlock(p, r, i)) && VoteOnBlock(p, r, i).chain == p.chain
  {
    var b, q := p.newBlocks[i], VoteOnBlock(p, r, i);
    var v := Vote(p.nodeId, b.height, r, b.id);
    var more := cast + q.outbox;
    assert CountVote(b, r, p.nodeId).Some? by {
      assert BlockOk(cast, b) && v !in cast;
    }
    assert more == cast + {v};
    MoreCast(cfg, cast, v);
    MoreBlocks(cast, more, p.newBlocks, |p.chain|);
    assert BlockOk(more, b);
    CountVoteKeeps(more, b, r, p.nodeId);
    UpdateBlockKeeps(more, p.newBlocks, |p.chain|, i, CountVote(b, r, p.nodeId).value);
    MoreChain(cfg, cast, more, p.chain);
  }

  lemma MoreCast(cfg: Config, cast: set<Vote>, v: Vote)
    requires CastOk(cfg, cast) && v.voter in cfg.voters(v.height)
    requires forall u :: u in cast && u.voter == v.voter && u.height == v.height ==> u.round != v.round
    requires v.round == Second ==> Dead(cfg, cast, v.height)
    ensures CastOk(cfg, cast + {v})
  {
    var more := cast + {v};
    forall u | u in more && u.round == Second ensures Dead(cfg, more, u.height) {
      assert Dead(cfg, cast, u.height);
      MoreDead(cfg, cast, more, u.height);
    }
  }

  // ---- choosing a block ----

  lemma MoveToEnd(cast: set<Vote>, bs: seq<Block>, ex: seq<Block>, h: nat, i: nat)
    requires i < |bs| && BlocksOk(cast, bs + ex, h)
    ensures BlocksOk(cast, Remove(bs, i) + (ex + [bs[i]]), h)
  {
    var was, now := bs + ex, Remove(bs, i) + (ex + [bs[i]]);
    assert |now| == |was|;
    forall j | 0 <= j < |now| ensures now[j] == was[Shifted(j, i, |was|)] {
    }
    forall j | 0 <= j < |now| ensures BlockOk(cast, now[j]) && now[j].height > h {
      assert BlockOk(cast, was[Shifted(j, i, |was|)]);
    }
    forall j, k | 0 <= j < k < |now| ensures now[j].Ref() != now[k].Ref() {
      var j1, k1 := Shifted(j, i, |was|), Shifted(k, i, |was|);
      assert j1 != k1;
      if j1 < k1 {
        assert was[j1].Ref() != was[k1].Ref();
      } else {
        assert was[k1].Ref() != was[j1].Ref();
      }
    }
  }

  function Shifted(j: nat, i: nat, n: nat): nat {
    if j < i then j else if j == n - 1 then i else j + 1
  }

  lemma {:induction false} SelectKeeps(cast: set<Vote>, w: World, h: nat, low: nat, bs: seq<Block>, ex: seq<Block>,
                                       open: Option<Open>, f: Fetching)
    requires BlocksOk(cast, bs + ex, low)
    ensures var s := SelectBlock(w, h, bs, ex, open, f); BlocksOk(cast, s.blocks + s.excluded, low)
    decreases |bs|
  {
    var i := LeastWait(bs, h);
    if i.Some? {
      var b := bs[i.value];
      if !IsOpen(open, b) && !Passes(w, b) {
        MoveToEnd(cast, bs, ex, low, i.value);
        SelectKeeps(cast, w, h, low, Remove(bs, i.value), ex + [b], None, Fetch(f, w, b.Ref()));
      }
    }
  }

  lemma WaitTimesKeep(cast: set<Vote>, w: World, h: nat, low: nat, bs: seq<Block>)
    requires BlocksOk(cast, bs, low)
    ensures BlocksOk(cast, SetWaitTimes(w, h, bs), low)
  {
  }

  predicate HasCandidate(bs: seq<Block>, h: nat) {
    exists i :: 0 <= i < |bs| && bs[i].height == h
  }

  /** When may a node still vote in round `r`? */
  ghost predicate MayVote(cfg: Config, cast: set<Vote>, p: Plugin, r: Round) {
    if r == First then p.lastVoteHeight != p.Next()
    else !p.Voted(Second) && !p.waiting && (HasCandidate(p.newBlocks, p.Next()) ==> Dead(cfg, cast, p.Next()))
  }

  lemma {:induction false} SelectsCandidate(w: World, h: nat, bs: seq<Block>, ex: seq<Block>, open: Option<Open>,
                                            f: Fetching)
    requires SelectBlock(w, h, bs, ex, open, f).winner.Some?
    ensures HasCandidate(bs, h)
    decreases |bs|
  {
  }

  lemma SelectionKeeps(cast: set<Vote>, p: Plugin, w: World)
    requires BlocksOk(cast, p.newBlocks, |p.chain|)
    ensures var s := Select(p, w);
            BlocksOk(cast, s.blocks + s.excluded, |p.chain|) && (s.winner.Some? ==> HasCandidate(p.newBlocks, p.Next()))
  {
    var timed := SetWaitTimes(w, p.Next(), p.newBlocks);
    WaitTimesKeep(cast, w, p.Next(), |p.chain|, p.newBlocks);
    assert timed + [] == timed;
    SelectKeeps(cast, w, p.Next(), |p.chain|, timed, [], p.openBlock, p.fetching);
    SelectionIsCandidate(p, w);
  }

  lemma SelectionIsCandidate(p: Plugin, w: World)
    ensures Select(p, w).winner.Some? ==> HasCandidate(p.newBlocks, p.Next())
  {
    var timed := SetWaitTimes(w, p.Next(), p.newBlocks);
    if Select(p, w).winner.Some? {
      SelectsCandidate(w, p.Next(), timed, [], p.openBlock, p.fetching);
      var j :| 0 <= j < |timed| && timed[j].height == p.Next();
      assert p.newBlocks[j].height == p.Next();
    }
  }

  lemma CastVoteKeeps(cfg: Config, cast: set<Vote>, p: Plugin, w: World, r: Round)
    requires Good(cfg, cast, p) && WorldOk(cfg, p, w) && w.canVote && MayVote(cfg, cast, p, r)
    ensures Keeps(cfg, cast, p, CastVote(p, w, r)) && CastVote(p, w, r).chain == p.chain
  {
    var s := Select(p, w);
    SelectionKeeps(cast, p, w);
    var p1 := p.(newBlocks := s.blocks + s.excluded, openBlock := s.open, fetching := s.fetching);
    if s.winner.Some? {
      VoteKeeps(cfg, cast, p1, r, s.winner.value);
      VoteThenRestore(p, r, s);
    } else {
      assert cast + p1.outbox == cast;
    }
  }

  /** Voting before or after the excluded blocks are put back is the same. */
  lemma VoteThenRestore(p: Plugin, r: Round, s: Selection)
    requires s.winner.Some? && s.winner.value < |s.blocks|
    ensures var p1 := p.(newBlocks := s.blocks, openBlock := s.open, fetching := s.fetching);
            var voted := VoteOnBlock(p1, r, s.winner.value);
            voted.(newBlocks := voted.newBlocks + s.excluded)
            == VoteOnBlock(p1.(newBlocks := s.blocks + s.excluded), r, s.winner.value)
  {
  }

  // ---- the end of round 0 ----

  /** Voters, among the candidates at `h` other than `id`, that `bs` has counted. */
  function CountedOthers(bs: seq<Block>, h: nat, id: BlockId): set<NodeId>
    decreases |bs|
  {
    if bs == [] then {}
    else (if bs[0].height == h && bs[0].id != id then Elements(bs[0].first.voters) else {})
         + CountedOthers(bs[1..], h, id)
  }

  /** The round-0 votes `bs` has counted for `id`. */
  function CountedFor(bs: seq<Block>, h: nat, id: BlockId): nat
    decreases |bs|
  {
    if bs == [] then 0
    else (if bs[0].height == h && bs[0].id == id then bs[0].first.count else 0) + CountedFor(bs[1..], h, id)
  }

  lemma {:induction false} CountedFrom(cast: set<Vote>, bs: seq<Block>, low: nat, h: nat, id: BlockId, u: NodeId)
    requires BlocksOk(cast, bs, low) && u in CountedOthers(bs, h, id)
    ensures exists i :: 0 <= i < |bs| && bs[i].height == h && bs[i].id != id
                        && Vote(u, h, First, bs[i].id) in cast
    decreases |bs|
  {
    if bs[0].height == h && bs[0].id != id && u in bs[0].first.voters {
      assert BlockOk(cast, bs[0]);
      assert bs[0].Of(First) == bs[0].first;
    } else {
      CountedFrom(cast, bs[1..], low, h, id, u);
      var i :| 0 <= i < |bs[1..]| && bs[1..][i].height == h && bs[1..][i].id != id
               && Vote(u, h, First, bs[1..][i].id) in cast;
      assert bs[i + 1] == bs[1..][i];
    }
  }

  /** The tallies of different candidates are disjoint, so their sizes add up. */
  lemma {:induction false} CountedSize(cfg: Config, cast: set<Vote>, bs: seq<Block>, low: nat, h: nat, id: BlockId)
    requires BlocksOk(cast, bs, low) && OneVote(cast)
    ensures |CountedOthers(bs, h, id)| + CountedFor(bs, h, id) == TotalVotes(bs, h)
    decreases |bs|
  {
    if bs != [] {
      CountedSize(cfg, cast, bs[1..], low, h, id);
      var b, rest := bs[0], CountedOthers(bs[1..], h, id);
      assert BlockOk(cast, b) && b.Of(First) == b.first;
      if b.height == h && b.id != id {
        DistinctSize(b.first.voters);
        forall u | u in rest ensures u !in b.first.voters {
          CountedFrom(cast, bs[1..], low, h, id, u);
          var i :| 0 <= i < |bs[1..]| && bs[1..][i].height == h && bs[1..][i].id != id
                   && Vote(u, h, First, bs[1..][i].id) in cast;
          assert bs[0].Ref() != bs[i + 1].Ref();
          assert Vote(u, h, First, b.id) !in cast;
        }
        assert Elements(b.first.voters) !! rest;
      }
    }
  }

  /** The votes counted for one block are those of a single entry of the list. */
  lemma {:induction false} CountedForOne(cast: set<Vote>, bs: seq<Block>, low: nat, h: nat, id: BlockId)
    requires BlocksOk(cast, bs, low)
    ensures CountedFor(bs, h, id) == 0
         || exists i :: 0 <= i < |bs| && bs[i].height == h && bs[i].id == id
                        && CountedFor(bs, h, id) == bs[i].first.count
    decreases |bs|
  {
    if bs != [] {
      CountedForOne(cast, bs[1..], low, h, id);
      if CountedFor(bs[1..], h, id) != 0 {
        var i :| 0 <= i < |bs[1..]| && bs[1..][i].height == h && bs[1..][i].id == id
                 && CountedFor(bs[1..], h, id) == bs[1..][i].first.count;
        assert bs[0].Ref() != bs[i + 1].Ref();
        assert CountedFor(bs, h, id) == bs[i + 1].first.count;
      }
    }
  }

  /** Round-change soundness at one node: when no candidate it knows can still
      reach a majority, none can anywhere, known to this node or not. */
  lemma RoundChange(cfg: Config, cast: set<Vote>, p: Plugin, w: World)
    requires Good(cfg, cast, p) && WorldOk(cfg, p, w)
    requires !StillOpen(p.newBlocks, p.Next(), w.quorum) && HasCandidate(p.newBlocks, p.Next())
    ensures Dead(cfg, cast, p.Next())
  {
    var bs, h, n := p.newBlocks, p.Next(), w.quorum;
    forall id ensures |Others(cast, h, id)| + Majority(n) > n {
      CountedSize(cfg, cast, bs, |p.chain|, h, id);
      CountedForOne(cast, bs, |p.chain|, h, id);
      var i :| 0 <= i < |bs| && bs[i].height == h;
      assert bs[i].first.count + (n - TotalVotes(bs, h)) < Majority(n);
      forall u | u in CountedOthers(bs, h, id) ensures u in Others(cast, h, id) {
        CountedFrom(cast, bs, |p.chain|, h, id, u);
        var j :| 0 <= j < |bs| && bs[j].height == h && bs[j].id != id && Vote(u, h, First, bs[j].id) in cast;
        var v := Vote(u, h, First, bs[j].id);
        assert v.voter == u;
      }
      SubsetSize(CountedOthers(bs, h, id), Others(cast, h, id));
    }
  }

  // ---- committing ----

  lemma {:induction false} AboveKeeps(cast: set<Vote>, bs: seq<Block>, low: nat, h: nat)
    requires BlocksOk(cast, bs, low)
    ensures BlocksOk(cast, BlocksAbove(bs, h), h)
    ensures forall b :: b in BlocksAbove(bs, h) ==> b in bs
    decreases |bs|
  {
    if bs != [] {
      AboveKeeps(cast, bs[1..], low, h);
      var rest := BlocksAbove(bs[1..], h);
      if bs[0].height > h {
        forall j | 0 <= j < |rest| ensures bs[0].Ref() != rest[j].Ref() {
          assert rest[j] in bs[1..];
          var k :| 0 <= k < |bs[1..]| && bs[1..][k] == rest[j];
          assert bs[k + 1] == rest[j];
        }
        assert BlockOk(cast, bs[0]);
      }
    }
  }

  lemma {:induction false} VotesFromKeeps(vs: seq<Vote>, h: nat)
    ensures forall v :: v in VotesFrom(vs, h) ==> v in vs
    decreases |vs|
  {
    if vs != [] {
      VotesFromKeeps(vs[1..], h);
    }
  }

  lemma RemoveKeeps(cast: set<Vote>, bs: seq<Block>, h: nat, i: nat)
    requires BlocksOk(cast, bs, h) && i < |bs|
    ensures BlocksOk(cast, Remove(bs, i), h)
  {
  }

  /** A block counted to a majority did win among the votes cast. */
  lemma CountedWins(cfg: Config, cast: set<Vote>, b: Block, r: Round)
    requires BlockOk(cast, b) && b.Of(r).count >= Majority(|cfg.voters(b.height)|)
    ensures Won(cfg, cast, b.height, b.id)
  {
    var t := b.Of(r);
    DistinctSize(t.voters);
    forall u | u in Elements(t.voters) ensures u in Voters(cast, b.height, r, b.id) {
      assert Vote(u, b.height, r, b.id).voter == u;
    }
    SubsetSize(Elements(t.voters), Voters(cast, b.height, r, b.id));
  }

  lemma CommitKeepsLists(cast: set<Vote>, p: Plugin, items: seq<P.Item>, i: nat, s: P.State)
    requires BlocksOk(cast, p.newBlocks, |p.chain|) && PendingOk(cast, p.pending) && i < |p.newBlocks|
    ensures var q := CommitBlock(p, items, i, s); BlocksOk(cast, q.newBlocks, |q.chain|) && PendingOk(cast, q.pending)
  {
    RemoveKeeps(cast, p.newBlocks, |p.chain|, i);
    AboveKeeps(cast, Remove(p.newBlocks, i), |p.chain|, p.Next());
    VotesFromKeeps(p.pending, p.Next());
  }

  /** A commit of a block that was counted to a majority, whatever database it leads to. */
  lemma CommitKeeps(cfg: Config, cast: set<Vote>, p: Plugin, items: seq<P.Item>, i: nat, s: P.State, r: Round)
    requires Good(cfg, cast, p) && i < |p.newBlocks| && p.newBlocks[i].height == p.Next()
    requires p.newBlocks[i].Of(r).count >= Majority(|cfg.voters(p.Next())|)
    ensures Keeps(cfg, cast, p, CommitBlock(p, items, i, s))
  {
    assert cast + p.outbox == cast;
    assert BlockOk(cast, p.newBlocks[i]);
    CountedWins(cfg, cast, p.newBlocks[i], r);
    CommitKeepsLists(cast, p, items, i, s);
  }

  lemma CommitOpenKeeps(cfg: Config, cast: set<Vote>, p: Plugin, w: World, i: nat, r: Round)
    requires Good(cfg, cast, p) && i < |p.newBlocks| && p.newBlocks[i].height == p.Next() && p.openBlock.Some?
    requires p.newBlocks[i].Of(r).count >= Majority(|cfg.voters(p.Next())|)
    ensures Keeps(cfg, cast, p, CommitOpen(p, w, i))
  {
    var b := p.newBlocks[i];
    if w.commits(b.id) && p.openBlock.value.state.Some? {
      CommitKeeps(cfg, cast, p, w.items(b.id), i, p.openBlock.value.state.value, r);
    } else {
      assert cast + p.outbox == cast;
    }
  }

  lemma CommitWinnerKeeps(cfg: Config, cast: set<Vote>, p: Plugin, w: World, i: nat, r: Round)
    requires Good(cfg, cast, p) && i < |p.newBlocks| && p.newBlocks[i].height == p.Next()
    requires p.newBlocks[i].Of(r).count >= Majority(|cfg.voters(p.Next())|)
    ensures Keeps(cfg, cast, p, CommitWinner(p, w, i))
  {
    var b := p.newBlocks[i];
    if IsOpen(p.openBlock, b) {
      CommitOpenKeeps(cfg, cast, p, w, i, r);
    } else {
      assert cast + p.outbox == cast;
      var p1 := p.(openBlock := None, fetching := Fetch(p.fetching, w, b.Ref()));
      if Passes(w, b) {
        CommitOpenKeeps(cfg, cast, p1.(openBlock := Some(Open(b.Ref(), w.replay(b.id)))), w, i, r);
      }
    }
  }

  lemma {:induction false} CheckKeeps(cfg: Config, cast: set<Vote>, p: Plugin, w: World, r: Round)
    requires Good(cfg, cast, p) && WorldOk(cfg, p, w)
    ensures Keeps(cfg, cast, p, CheckForWinner(p, w, r))
    decreases Rank(r), 0
  {
    assert cast + p.outbox == cast;
    if p.newBlocks != [] && !w.updating {
      var i := FindWinner(p.newBlocks, p.Next(), r, Majority(w.quorum));
      if i.Some? {
        CommitWinnerKeeps(cfg, cast, p, w, i.value, r);
      } else if MovesOn(p, w, r) {
        if HasCandidate(p.newBlocks, p.Next()) {
          RoundChange(cfg, cast, p, w);
        }
        ChooseKeeps(cfg, cast, p, w, Second);
      }
    }
  }

  lemma {:induction false} ChooseKeeps(cfg: Config, cast: set<Vote>, p: Plugin, w: World, r: Round)
    requires Good(cfg, cast, p) && WorldOk(cfg, p, w)
    requires p.Voted(r) || MayVote(cfg, cast, p, r)
    ensures Keeps(cfg, cast, p, ChooseBlock(p, w, r))
    decreases Rank(r), 1
  {
    assert cast + p.outbox == cast;
    if !p.Voted(r) && !w.updating {
      if !w.canVote {
        CheckKeeps(cfg, cast, p, w, r);
      } else {
        CastVoteKeeps(cfg, cast, p, w, r);
        var q := CastVote(p, w, r);
        CheckKeeps(cfg, cast + q.outbox, q, w, r);
        var z := CheckForWinner(q, w, r);
        assert cast + q.outbox + z.outbox == cast + z.outbox;
      }
    }
  }
}
