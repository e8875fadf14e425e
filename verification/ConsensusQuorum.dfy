/** When check_for_winner_block commits, in numbers of votes. */
module ConsensusQuorum {
  import opened Common
  import opened ConsensusModel

  /** The quorum is exact: a majority is more than half, and no more than that is asked. */
  lemma MajorityIff(n: nat, k: int)
    ensures k >= Majority(n) <==> 2 * k > n
  {
  }

  predicate HasMost(b: Block, h: nat, r: Round, quorum: nat) {
    b.height == h && 2 * b.Of(r).count > quorum
  }

  /** The first candidate that more than half of the voters voted for. */
  predicate Elected(bs: seq<Block>, h: nat, r: Round, quorum: nat, i: nat) {
    i < |bs| && HasMost(bs[i], h, r, quorum) && forall j :: 0 <= j < i ==> !HasMost(bs[j], h, r, quorum)
  }

  /** The block is open with its database or passes its checks, and the core can commit. */
  predicate Committable(p: Plugin, w: World, b: Block) {
    w.commits(b.id)
    && if p.openBlock.Some? && p.openBlock.value.key == b.Ref() then p.openBlock.value.state.Some?
       else w.missing(b.id) == {} && w.replay(b.id).Some?
  }

  predicate Decides(p: Plugin, w: World, r: Round) {
    exists i :: 0 <= i < |p.newBlocks| && Elected(p.newBlocks, p.Next(), r, w.quorum, i)
                && Committable(p, w, p.newBlocks[i])
  }

  /** A candidate that more than half can still vote for, if all the missing votes are its. */
  predicate CanWin(bs: seq<Block>, h: nat, quorum: nat, i: nat)
    requires i < |bs|
  {
    bs[i].height == h && 2 * (bs[i].first.count + (quorum - TotalVotes(bs, h))) > quorum
  }

  predicate SomebodyCanWin(bs: seq<Block>, h: nat, quorum: nat) {
    exists i :: 0 <= i < |bs| && CanWin(bs, h, quorum, i)
  }

  /** The wait is over, the node has not voted in round 1, and nobody has won or can. */
  predicate Hopeless(p: Plugin, w: World) {
    p.newBlocks != [] && !p.waiting && !p.Voted(Second)
    && forall i :: 0 <= i < |p.newBlocks| ==>
         !HasMost(p.newBlocks[i], p.Next(), First, w.quorum) && !CanWin(p.newBlocks, p.Next(), w.quorum, i)
  }

  /** The check of round `r` commits a block: the first one elected in that round, or the
      first one elected in round 1 after the node has moved on and voted. */
  predicate Commits(p: Plugin, w: World, r: Round) {
    !w.updating
    && (Decides(p, w, r)
        || (r == First && Hopeless(p, w) && Decides(if w.canVote then CastVote(p, w, Second) else p, w, Second)))
  }

  lemma ElectedIsWinner(bs: seq<Block>, h: nat, r: Round, quorum: nat)
    ensures var i := FindWinner(bs, h, r, Majority(quorum));
            if i.Some? then Elected(bs, h, r, quorum, i.value)
            else forall j :: 0 <= j < |bs| ==> !HasMost(bs[j], h, r, quorum)
    decreases |bs|
  {
    if bs != [] && !HasMost(bs[0], h, r, quorum) {
      ElectedIsWinner(bs[1..], h, r, quorum);
      forall j | 0 < j < |bs| ensures bs[j] == bs[1..][j - 1] {
      }
    }
  }

  lemma OneElected(bs: seq<Block>, h: nat, r: Round, quorum: nat, i: nat, j: nat)
    requires Elected(bs, h, r, quorum, i) && Elected(bs, h, r, quorum, j)
    ensures i == j
  {
  }

  lemma WinnerCommits(p: Plugin, w: World, i: nat)
    requires i < |p.newBlocks|
    ensures CommitWinner(p, w, i).chain
         == if Committable(p, w, p.newBlocks[i]) then p.chain + [p.newBlocks[i].id] else p.chain
  {
  }

  lemma StillOpenIff(bs: seq<Block>, h: nat, quorum: nat)
    ensures StillOpen(bs, h, quorum) <==> SomebodyCanWin(bs, h, quorum)
  {
    forall i | 0 <= i < |bs|
      ensures CanWin(bs, h, quorum, i) <==>
              bs[i].height == h && bs[i].first.count + (quorum - TotalVotes(bs, h)) >= Majority(quorum)
    {
      MajorityIff(quorum, bs[i].first.count + (quorum - TotalVotes(bs, h)));
    }
  }

  /** One look at the votes of a round. */
  lemma LookCommits(p: Plugin, w: World, r: Round)
    requires !w.updating && FindWinner(p.newBlocks, p.Next(), r, Majority(w.quorum)).Some?
    ensures CheckForWinner(p, w, r).chain != p.chain <==> Decides(p, w, r)
  {
    ElectedIsWinner(p.newBlocks, p.Next(), r, w.quorum);
    var i := FindWinner(p.newBlocks, p.Next(), r, Majority(w.quorum)).value;
    WinnerCommits(p, w, i);
    if Decides(p, w, r) {
      var j :| 0 <= j < |p.newBlocks| && Elected(p.newBlocks, p.Next(), r, w.quorum, j)
               && Committable(p, w, p.newBlocks[j]);
      OneElected(p.newBlocks, p.Next(), r, w.quorum, i, j);
    }
  }

  lemma NobodyElected(p: Plugin, w: World, r: Round)
    requires FindWinner(p.newBlocks, p.Next(), r, Majority(w.quorum)).None?
    ensures !Decides(p, w, r)
    ensures !w.updating && r == First ==> (p.newBlocks != [] && MovesOn(p, w, First) <==> Hopeless(p, w))
  {
    ElectedIsWinner(p.newBlocks, p.Next(), r, w.quorum);
    StillOpenIff(p.newBlocks, p.Next(), w.quorum);
  }

  lemma SecondCommitsIff(p: Plugin, w: World)
    ensures CheckForWinner(p, w, Second).chain != p.chain <==> !w.updating && Decides(p, w, Second)
  {
    if !w.updating {
      if FindWinner(p.newBlocks, p.Next(), Second, Majority(w.quorum)).Some? {
        LookCommits(p, w, Second);
      } else {
        NobodyElected(p, w, Second);
      }
    }
  }

  /** A node commits a block if and only if more than half of the voters voted for it, in
      round 0 or, when nobody can win that, in round 1; it is the first such block on the
      list, and it passes its checks. */
  lemma CommitsIff(p: Plugin, w: World, r: Round)
    ensures CheckForWinner(p, w, r).chain != p.chain <==> Commits(p, w, r)
  {
    if r == Second || w.updating {
      SecondCommitsIff(p, w);
    } else if FindWinner(p.newBlocks, p.Next(), r, Majority(w.quorum)).Some? {
      ElectedIsWinner(p.newBlocks, p.Next(), r, w.quorum);
      LookCommits(p, w, r);
    } else {
      NobodyElected(p, w, r);
      if Hopeless(p, w) {
        var q := if w.canVote then CastVote(p, w, Second) else p;
        assert CheckForWinner(p, w, First) == CheckForWinner(q, w, Second);
        SecondCommitsIff(q, w);
      }
    }
  }

  /** The block it commits is the one that was elected. */
  lemma CommitsElected(p: Plugin, w: World, r: Round, i: nat)
    requires !w.updating && Elected(p.newBlocks, p.Next(), r, w.quorum, i) && Committable(p, w, p.newBlocks[i])
    ensures CheckForWinner(p, w, r).chain == p.chain + [p.newBlocks[i].id]
  {
    ElectedIsWinner(p.newBlocks, p.Next(), r, w.quorum);
    var j := FindWinner(p.newBlocks, p.Next(), r, Majority(w.quorum));
    OneElected(p.newBlocks, p.Next(), r, w.quorum, i, j.value);
    WinnerCommits(p, w, i);
  }
}
