/** The run hypothesis is needed: a transaction that arrives after a round-1 vote makes a
    node vote twice in each round, and lets two honest nodes commit different blocks. */
module ConsensusDisagreement {
  import opened Common
  import opened ConsensusModel
  import opened ConsensusInvariant
  import opened ConsensusRuns
  import opened ConsensusVotesTwice
  import VotesTwice = ConsensusVotesTwice
  import opened ReplicatedHandlers
  import opened ReplicatedState
  import P = ProposerModel
  import Proofs = ProposerProofs

  // ---- three nodes, each with one transaction and one block ----

  /** Whatever the database and the commands of the transactions are. A fourth voter, if
      there is one, is never connected. */
  datatype Scene = Scene(data: P.Data, log: P.Log, fourth: bool)

  function T(c: Scene, n: NodeId): P.Txn { P.Txn(n, 1, c.log) }

  function Id(n: NodeId): P.Tid { P.Tid(n, 1) }

  const NEW: map<NodeId, nat> := map[1 := 0, 2 := 0, 3 := 0]

  function Start(c: Scene): P.State { P.State(c.data, NEW) }

  /** The database after the block of node `n`. */
  function With(c: Scene, n: NodeId): P.State { P.State(c.data, NEW[n := 1]) }

  function Items(n: NodeId): seq<P.Item> { [P.Item(Id(n), false)] }

  /** Every transaction succeeds. Block `n` is built by node `n` from its transaction. */
  function Scenery(c: Scene): Setup {
    Setup((d: P.Data, t: P.Txn) => P.Done(d), (id: BlockId) => P.Body(Items(id), With(c, id)), (id: BlockId) => None,
          Start(c))
  }

  function Voters(c: Scene): Config { Config((h: nat) => if c.fourth then {1, 2, 3, 4} else {1, 2, 3}) }

  function Size(c: Scene): nat { if c.fourth then 4 else 3 }

  /** Block 2 waits less than block 1, and block 1 less than block 3. */
  function Wait(id: BlockId): nat { if id == 2 then 1 else if id == 1 then 2 else 3 }

  function W(c: Scene, p: Plugin): World {
    World(true, false, Size(c), (id: BlockId) => Wait(id), (id: BlockId) => Items(id),
          (id: BlockId) => MissingFrom(Items(id), p.mempool), (id: BlockId) => Replayed(Scenery(c), p, id),
          (id: BlockId) => true)
  }

  predicate Member(n: NodeId) { n == 1 || n == 2 || n == 3 }

  lemma Quorum(c: Scene, h: nat)
    ensures |Voters(c).voters(h)| == Size(c)
  {
    assert {1, 2, 3} == {1} + {2} + {3} && {1, 2, 3, 4} == {1, 2, 3} + {4};
  }

  lemma OwnWorld(c: Scene, p: Plugin)
    ensures Own(Scenery(c), p, W(c, p))
  {
  }

  // ---- the states of the nodes ----

  function Counted(voters: seq<NodeId>): Tally { Tally(voters, |voters|) }

  function Candidate(id: BlockId, waitTime: nat, first: seq<NodeId>, second: seq<NodeId>): Block {
    Block(id, 1, waitTime, Counted(first), Counted(second))
  }

  function At(id: BlockId): Key { Key(id, 1) }

  function FirstVote(n: NodeId, id: BlockId): Vote { Vote(n, 1, First, id) }

  function SecondVote(n: NodeId, id: BlockId): Vote { Vote(n, 1, Second, id) }

  function Opened(c: Scene, id: BlockId): Option<Open> { Some(Open(At(id), Some(With(c, id)))) }

  function Pool(c: Scene, n: NodeId): seq<P.Slot> { [P.Slot(T(c, n), 0)] }

  function Begins(c: Scene, n: NodeId): Plugin { Started(n, Start(c), Pool(c, n)) }

  function Created(c: Scene, n: NodeId): Plugin {
    Begins(c, n).(newBlocks := [Candidate(n, 0, [], [])], openBlock := Opened(c, n), waiting := true)
  }

  function Voted(c: Scene, n: NodeId): Plugin {
    Begins(c, n).(newBlocks := [Candidate(n, Wait(n), [n], [])], openBlock := Opened(c, n), lastVoteHeight := 1,
                  outbox := {FirstVote(n, n)})
  }

  /** Node 1 misses the transactions of blocks 2 and 3. */
  function KnowsTwo(c: Scene): Plugin {
    Voted(c, 1).(newBlocks := [Candidate(1, 2, [1], []), Candidate(2, 0, [], [])],
                 fetching := Fetching({Id(2)}, {At(2)}))
  }

  function KnowsAll(c: Scene, second: seq<NodeId>, third: seq<NodeId>): Plugin {
    Voted(c, 1).(newBlocks := [Candidate(1, 2, [1], []), Candidate(2, 0, second, []), Candidate(3, 0, third, [])],
                 fetching := Fetching({Id(2), Id(3)}, {At(2), At(3)}))
  }

  function VotedTwice(c: Scene): Plugin {
    Voted(c, 1).(newBlocks := [Candidate(1, 2, [1], [1]), Candidate(3, 3, [3], []), Candidate(2, 1, [2], [])],
                 fetching := Fetching({Id(2), Id(3)}, {At(2), At(3)}), lastVoteRound := Second,
                 outbox := {FirstVote(1, 1), SecondVote(1, 1)})
  }

  /** Node 3 has the transaction of block 1 and misses that of block 2. */
  function TookIn(c: Scene): Plugin { Voted(c, 3).(mempool := [P.Slot(T(c, 3), 0), P.Slot(T(c, 1), 0)]) }

  function KnowsOne(c: Scene): Plugin {
    TookIn(c).(newBlocks := [Candidate(3, 3, [3], []), Candidate(1, 0, [], [])])
  }

  function KnowsBoth(c: Scene, first: seq<NodeId>, second: seq<NodeId>): Plugin {
    TookIn(c).(newBlocks := [Candidate(3, 3, [3], []), Candidate(1, 0, first, []), Candidate(2, 0, second, [])],
               fetching := Fetching({Id(2)}, {At(2)}))
  }

  function VotedAlong(c: Scene): Plugin {
    TookIn(c).(newBlocks := [Candidate(3, 3, [3], []), Candidate(1, 2, [1], [3]), Candidate(2, 1, [2], [])],
               openBlock := Opened(c, 1), fetching := Fetching({Id(2)}, {At(2)}), lastVoteRound := Second,
               outbox := {FirstVote(3, 3), SecondVote(3, 1)})
  }

  function Ended1(c: Scene): Plugin { OnTransaction(VotedTwice(c), W(c, TakeIn(VotedTwice(c), T(c, 2))), T(c, 2)) }

  function Ended3(c: Scene): Plugin { OnBlockVote(VotedAlong(c), W(c, VotedAlong(c)), SecondVote(1, 1)) }

  // ---- searches on short lists ----

  lemma Unfold1<X>(a: X)
    ensures [a][..0] == [] && [a][1..] == []
  {
  }

  lemma Unfold2<X>(a: X, b: X)
    ensures [a, b][..1] == [a] && [a, b][1..] == [b]
  {
  }

  lemma Unfold3<X>(a: X, b: X, c: X)
    ensures [a, b, c][..2] == [a, b] && [a, b, c][1..] == [b, c]
  {
  }

  lemma LeastOfTwo(a: Block, b: Block)
    requires a.height == 1 && b.height == 1
    ensures LeastWait([a], 1) == Some(0)
    ensures LeastWait([a, b], 1) == Some(if b.waitTime < a.waitTime then 1 else 0)
  {
    Unfold1(a);
    Unfold2(a, b);
  }

  lemma LeastOfThree(a: Block, b: Block, c: Block)
    requires a.height == 1 && b.height == 1 && c.height == 1
    ensures LeastWait([a, b, c], 1)
         == Some(if b.waitTime < a.waitTime then if c.waitTime < b.waitTime then 2 else 1
                 else if c.waitTime < a.waitTime then 2 else 0)
  {
    LeastOfTwo(a, b);
    Unfold3(a, b, c);
  }

  lemma TotalOf(a: Block, b: Block, c: Block)
    requires a.height == 1 && b.height == 1 && c.height == 1
    ensures TotalVotes([c], 1) == c.first.count && TotalVotes([b, c], 1) == b.first.count + c.first.count
    ensures TotalVotes([a, b, c], 1) == a.first.count + b.first.count + c.first.count
  {
    Unfold1(c);
    Unfold2(b, c);
    Unfold3(a, b, c);
  }

  predicate Wins(b: Block, r: Round, m: nat) { b.Of(r).count >= m }

  lemma WinnerOf(a: Block, b: Block, c: Block, r: Round, m: nat)
    requires a.height == 1 && b.height == 1 && c.height == 1
    ensures FindWinner([c], 1, r, m) == if Wins(c, r, m) then Some(0) else None
    ensures FindWinner([b, c], 1, r, m) == if Wins(b, r, m) then Some(0) else if Wins(c, r, m) then Some(1) else None
    ensures FindWinner([a, b, c], 1, r, m)
         == if Wins(a, r, m) then Some(0) else if Wins(b, r, m) then Some(1)
            else if Wins(c, r, m) then Some(2) else None
  {
    Unfold1(c);
    Unfold2(b, c);
    Unfold3(a, b, c);
  }

  lemma BlockOf(a: Block, b: Block, c: Block, k: Key)
    ensures FindBlock([c], k) == if c.Ref() == k then Some(0) else None
    ensures FindBlock([b, c], k) == if b.Ref() == k then Some(0) else if c.Ref() == k then Some(1) else None
    ensures FindBlock([a, b, c], k)
         == if a.Ref() == k then Some(0) else if b.Ref() == k then Some(1) else if c.Ref() == k then Some(2) else None
  {
    Unfold1(c);
    Unfold2(b, c);
    Unfold3(a, b, c);
  }

  // ---- transactions and replays ----

  lemma FindInPool(a: P.Slot, b: P.Slot, id: P.Tid)
    ensures P.Find([a], id) == if a.txn.Id() == id then Some(a.txn) else None
    ensures P.Find([a, b], id)
         == if a.txn.Id() == id then Some(a.txn) else if b.txn.Id() == id then Some(b.txn) else None
  {
    assert [a][1..] == [] && [a, b][1..] == [b] && [b][1..] == [];
  }

  lemma MissingOne(id: BlockId, pool: seq<P.Slot>)
    ensures MissingFrom(Items(id), pool) == if P.Find(pool, Id(id)).None? then {Id(id)} else {}
  {
    assert Items(id)[0].id == Id(id);
  }

  lemma ReplayOne(c: Scene, p: Plugin, id: BlockId)
    requires p.chain == [] && p.state == Start(c) && Member(id) && P.Find(p.mempool, Id(id)) == Some(T(c, id))
    ensures Replayed(Scenery(c), p, id) == Some(With(c, id))
  {
    var exec := Scenery(c).exec;
    assert Items(id)[..0] == [];
    assert P.Replay(exec, Start(c), p.mempool, []) == Some(Start(c));
    assert P.Execute(exec, Start(c), T(c, id)) == P.Ran(P.OK, With(c, id));
  }

  /** Node `n` builds block `n` from its only transaction. */
  lemma Builds(c: Scene, n: NodeId)
    requires Member(n)
    ensures P.Propose(Scenery(c).exec, Start(c), Pool(c, n)) == Some(P.Body(Items(n), With(c, n)))
    ensures P.Filled(Scenery(c).exec, Start(c), Pool(c, n)).state == With(c, n)
  {
    var exec, pool, s := Scenery(c).exec, Pool(c, n), Start(c);
    var b0 := P.Start(pool, s);
    assert pool[0].txn.node == n && P.HasUnused(pool, n);
    assert P.Includable(exec, b0, 0);
    var b1 := P.Include(exec, b0, 0);
    assert b1.pool == [P.Slot(T(c, n), -1)] && b1.items == Items(n) && b1.state == With(c, n);
    assert P.NextIncludable(exec, b1, 0) == P.NextIncludable(exec, b1, 1) == 1;
    assert P.Fill(exec, b1) == b1;
    assert P.Fill(exec, b0) == P.Fill(exec, b1);
  }

  // ---- single steps ----

  /** No block has won and one still can: nothing happens. */
  lemma Undecided(p: Plugin, w: World, i: nat)
    requires p.chain == [] && FindWinner(p.newBlocks, 1, First, Majority(w.quorum)).None?
    requires i < |p.newBlocks| && p.newBlocks[i].height == 1
    requires p.newBlocks[i].first.count + (w.quorum - TotalVotes(p.newBlocks, 1)) >= Majority(w.quorum)
    ensures CheckForWinner(p, w, First) == p
  {
    assert StillOpen(p.newBlocks, 1, w.quorum);
  }

  /** Every block has one of the votes, and at most one is missing: round 0 is over. */
  lemma OneVoteEach(p: Plugin, w: World, x: Block, y: Block, z: Block)
    requires 3 <= w.quorum <= 4 && !w.updating && w.canVote && p.chain == [] && p.newBlocks == [x, y, z] && !p.waiting
    requires x.height == 1 && y.height == 1 && z.height == 1 && p.lastVoteRound == First
    requires x.first.count == 1 && y.first.count == 1 && z.first.count == 1
    ensures CheckForWinner(p, w, First) == CheckForWinner(CastVote(p, w, Second), w, Second)
  {
    TotalOf(x, y, z);
    WinnerOf(x, y, z, First, Majority(w.quorum));
    assert !StillOpen([x, y, z], 1, w.quorum);
    assert MovesOn(p, w, First);
  }

  lemma Creates(c: Scene, n: NodeId)
    requires Member(n)
    ensures OnBlockCreated(Begins(c, n), W(c, Begins(c, n)), n, With(c, n)) == Created(c, n)
  {
    assert [] + [Candidate(n, 0, [], [])] == [Candidate(n, 0, [], [])];
  }

  /** The node votes for its own block, which is open. */
  lemma Votes(c: Scene, n: NodeId)
    requires Member(n)
    ensures OnWaitOver(Created(c, n), W(c, Created(c, n))) == Voted(c, n)
  {
    var w, p := W(c, Created(c, n)), Created(c, n).(waiting := false);
    var timed, voted := Candidate(n, Wait(n), [], []), Candidate(n, Wait(n), [n], []);
    assert SetWaitTimes(w, 1, p.newBlocks) == [timed];
    LeastOfTwo(timed, timed);
    assert [] + [n] == [n] && CountVote(timed, First, n) == Some(voted);
    assert [timed][0 := voted] + [] == [voted];
    assert {} + {FirstVote(n, n)} == {FirstVote(n, n)};
    assert CastVote(p, w, First) == Voted(c, n);
    TotalOf(voted, voted, voted);
    WinnerOf(voted, voted, voted, First, Majority(Size(c)));
    Undecided(Voted(c, n), w, 0);
  }

  /** A block whose transaction is missing arrives: the transaction is asked for. */
  lemma MissesBlock(c: Scene, p: Plugin, id: BlockId)
    requires p.chain == [] && p.pending == [] && p.lastVoteHeight == 1
    requires FindBlock(p.newBlocks, At(id)).None? && P.Find(p.mempool, Id(id)).None?
    requires At(id) !in p.fetching.downloading
    ensures OnNewBlock(p, W(c, p), At(id))
         == p.(newBlocks := p.newBlocks + [Candidate(id, 0, [], [])],
               fetching := Fetching(p.fetching.requests + {Id(id)}, p.fetching.downloading + {At(id)}))
  {
    MissingOne(id, p.mempool);
    assert p.fetching.downloading - {At(id)} == p.fetching.downloading;
  }

  lemma MissesTwo(c: Scene)
    ensures OnNewBlock(Voted(c, 1), W(c, Voted(c, 1)), At(2)) == KnowsTwo(c)
  {
    var a, b := Candidate(1, 2, [1], []), Candidate(2, 0, [], []);
    BlockOf(a, a, a, At(2));
    FindInPool(P.Slot(T(c, 1), 0), P.Slot(T(c, 1), 0), Id(2));
    MissesBlock(c, Voted(c, 1), 2);
    assert [a] + [b] == [a, b];
    assert {} + {Id(2)} == {Id(2)} && {} + {At(2)} == {At(2)};
  }

  lemma MissesThree(c: Scene)
    ensures OnNewBlock(KnowsTwo(c), W(c, KnowsTwo(c)), At(3)) == KnowsAll(c, [], [])
  {
    var a, b, d := Candidate(1, 2, [1], []), Candidate(2, 0, [], []), Candidate(3, 0, [], []);
    BlockOf(a, a, b, At(3));
    FindInPool(P.Slot(T(c, 1), 0), P.Slot(T(c, 1), 0), Id(3));
    MissesBlock(c, KnowsTwo(c), 3);
    assert [a, b] + [d] == [a, b, d];
    assert {Id(2)} + {Id(3)} == {Id(2), Id(3)} && {At(2)} + {At(3)} == {At(2), At(3)};
  }

  lemma CountsTwo(c: Scene)
    ensures OnBlockVote(KnowsAll(c, [], []), W(c, KnowsAll(c, [], [])), FirstVote(2, 2)) == KnowsAll(c, [2], [])
  {
    var a, b, d := Candidate(1, 2, [1], []), Candidate(2, 0, [], []), Candidate(3, 0, [], []);
    var b1 := Candidate(2, 0, [2], []);
    BlockOf(a, b, d, At(2));
    assert [] + [2] == [2] && CountVote(b, First, 2) == Some(b1);
    assert [a, b, d][1 := b1] == [a, b1, d];
    TotalOf(a, b1, d);
    WinnerOf(a, b1, d, First, Majority(Size(c)));
    Undecided(KnowsAll(c, [2], []), W(c, KnowsAll(c, [], [])), 0);
  }

  /** Node 1 sees the third vote, passes over block 2, whose transaction it lacks, and
      votes for its own block again, in round 1. */
  lemma Node1MovesOn(c: Scene)
    ensures OnBlockVote(KnowsAll(c, [2], []), W(c, KnowsAll(c, [2], [])), FirstVote(3, 3)) == VotedTwice(c)
  {
    var w, p := W(c, KnowsAll(c, [2], [])), KnowsAll(c, [2], [3]);
    var a, b := Candidate(1, 2, [1], []), Candidate(2, 0, [2], []);
    var d0, d := Candidate(3, 0, [], []), Candidate(3, 0, [3], []);
    BlockOf(a, b, d0, At(3));
    assert [] + [3] == [3] && CountVote(d0, First, 3) == Some(d);
    assert [a, b, d0][2 := d] == [a, b, d];
    OneVoteEach(p, w, a, b, d);
    Node1Votes(c, w);
    WinnerOf(Candidate(1, 2, [1], [1]), Candidate(3, 3, [3], []), Candidate(2, 1, [2], []), Second, Majority(Size(c)));
  }

  lemma Node1Votes(c: Scene, w: World)
    requires w == W(c, KnowsAll(c, [2], []))
    ensures CastVote(KnowsAll(c, [2], [3]), w, Second) == VotedTwice(c)
  {
    Node1Selects(c, w);
    var a, a1 := Candidate(1, 2, [1], []), Candidate(1, 2, [1], [1]);
    var b, d := Candidate(2, 1, [2], []), Candidate(3, 3, [3], []);
    assert [] + [1] == [1] && CountVote(a, Second, 1) == Some(a1);
    assert [a, d][0 := a1] + [b] == [a1, d, b];
    assert {FirstVote(1, 1)} + {SecondVote(1, 1)} == {FirstVote(1, 1), SecondVote(1, 1)};
  }

  lemma Node1Checks(c: Scene, w: World, f: Fetching)
    requires w == W(c, KnowsAll(c, [2], []))
    requires At(2) in f.downloading && Id(2) in f.requests && At(1) !in f.downloading
    ensures w.missing(1) == {} && w.missing(2) == {Id(2)} && w.replay(1) == Some(With(c, 1))
    ensures Fetch(f, w, At(2)) == f && Fetch(f, w, At(1)) == f
  {
    var p := KnowsAll(c, [2], []);
    FindInPool(P.Slot(T(c, 1), 0), P.Slot(T(c, 1), 0), Id(1));
    FindInPool(P.Slot(T(c, 1), 0), P.Slot(T(c, 1), 0), Id(2));
    MissingOne(1, p.mempool);
    MissingOne(2, p.mempool);
    ReplayOne(c, p, 1);
    assert f.downloading + {At(2)} == f.downloading && f.downloading - {At(1)} == f.downloading;
    assert f.requests + {} == f.requests;
  }

  lemma Node1Selects(c: Scene, w: World)
    requires w == W(c, KnowsAll(c, [2], []))
    ensures Select(KnowsAll(c, [2], [3]), w)
         == Selection([Candidate(1, 2, [1], []), Candidate(3, 3, [3], [])], [Candidate(2, 1, [2], [])], Opened(c, 1),
                      Fetching({Id(2), Id(3)}, {At(2), At(3)}), Some(0))
  {
    var p := KnowsAll(c, [2], [3]);
    var a, b, d := Candidate(1, 2, [1], []), Candidate(2, 1, [2], []), Candidate(3, 3, [3], []);
    var f := p.fetching;
    assert SetWaitTimes(w, 1, p.newBlocks) == [a, b, d];
    LeastOfThree(a, b, d);
    LeastOfTwo(a, d);
    assert Remove([a, b, d], 1) == [a, d] && [] + [b] == [b];
    Node1Checks(c, w, f);
    assert SelectBlock(w, 1, [a, d], [b], None, f) == Selection([a, d], [b], Opened(c, 1), f, Some(0));
  }

  /** Its missing transaction arrives: node 1 votes in round 0 again, for block 2, and
      commits it. */
  lemma Node1VotesAgain(c: Scene)
    requires !c.fourth
    ensures Ended1(c).chain == [2]
  {
    var p := TakeIn(VotedTwice(c), T(c, 2));
    var q := CastVote(p, W(c, p), First);
    Node1VotesForTwo(c, p);
    CommitsLast(c, q, W(c, p), q.newBlocks[0], q.newBlocks[1], q.newBlocks[2]);
    assert ChoosesOn(VotedTwice(c), T(c, 2));
  }

  lemma Node1VotesForTwo(c: Scene, p: Plugin)
    requires p == TakeIn(VotedTwice(c), T(c, 2))
    ensures var q := CastVote(p, W(c, p), First);
            q.newBlocks == [Candidate(1, 2, [1], [1]), Candidate(3, 3, [3], []), Candidate(2, 1, [2, 1], [])]
            && q.openBlock == Opened(c, 2) && q.chain == []
  {
    var a, d, b := Candidate(1, 2, [1], [1]), Candidate(3, 3, [3], []), Candidate(2, 1, [2], []);
    var b1 := Candidate(2, 1, [2, 1], []);
    Node1SelectsAgain(c, p, W(c, p));
    assert [2] + [1] == [2, 1] && CountVote(b, First, 1) == Some(b1);
    assert [a, d, b][2 := b1] + [] == [a, d, b1];
  }

  lemma TwoPasses(c: Scene, p: Plugin)
    requires p == TakeIn(VotedTwice(c), T(c, 2))
    ensures Passes(W(c, p), Candidate(2, 1, [2], []))
  {
    assert p.mempool == [P.Slot(T(c, 1), 0), P.Slot(T(c, 2), 0)];
    FindInPool(P.Slot(T(c, 1), 0), P.Slot(T(c, 2), 0), Id(2));
    MissingOne(2, p.mempool);
    ReplayOne(c, p, 2);
  }

  lemma Node1SelectsAgain(c: Scene, p: Plugin, w: World)
    requires p == TakeIn(VotedTwice(c), T(c, 2)) && w == W(c, p)
    ensures var s := Select(p, w);
            s.blocks == p.newBlocks && s.excluded == [] && s.open == Opened(c, 2) && s.winner == Some(2)
  {
    var a, d, b := Candidate(1, 2, [1], [1]), Candidate(3, 3, [3], []), Candidate(2, 1, [2], []);
    assert SetWaitTimes(w, 1, p.newBlocks) == [a, d, b];
    LeastOfThree(a, d, b);
    TwoPasses(c, p);
  }

  lemma CommitsLast(c: Scene, q: Plugin, w: World, x: Block, y: Block, z: Block)
    requires q.chain == [] && q.newBlocks == [x, y, z] && x.height == 1 && y.height == 1 && z.Ref() == At(2)
    requires q.openBlock == Opened(c, 2) && !c.fourth && w.quorum == 3 && !w.updating && w.commits(2)
    requires !Wins(x, First, 2) && !Wins(y, First, 2) && Wins(z, First, 2)
    ensures CheckForWinner(q, w, First).chain == [2]
  {
    WinnerOf(x, y, z, First, Majority(Size(c)));
    assert CheckForWinner(q, w, First) == CommitWinner(q, w, 2);
    assert [] + [2] == [2];
  }

  lemma TakesOne(c: Scene)
    ensures OnTransaction(Voted(c, 3), W(c, TakeIn(Voted(c, 3), T(c, 1))), T(c, 1)) == TookIn(c)
  {
    var p := Voted(c, 3);
    assert p.mempool + [P.Slot(T(c, 1), 0)] == [P.Slot(T(c, 3), 0), P.Slot(T(c, 1), 0)];
    assert {} - {Id(1)} == {};
    assert TakeIn(p, T(c, 1)) == TookIn(c);
    assert TakesIn(p, T(c, 1));
  }

  lemma SeesOne(c: Scene)
    ensures OnNewBlock(TookIn(c), W(c, TookIn(c)), At(1)) == KnowsOne(c)
  {
    var a, b := Candidate(3, 3, [3], []), Candidate(1, 0, [], []);
    var p, w := TookIn(c), W(c, TookIn(c));
    BlockOf(a, a, a, At(1));
    FindInPool(P.Slot(T(c, 3), 0), P.Slot(T(c, 1), 0), Id(1));
    MissingOne(1, p.mempool);
    assert [a] + [b] == [a, b];
    assert p.fetching.requests + {} == {} && p.fetching.downloading - {At(1)} == {};
    TotalOf(a, a, b);
    WinnerOf(a, a, b, First, Majority(Size(c)));
    Undecided(KnowsOne(c), w, 0);
  }

  lemma MissesTwoToo(c: Scene)
    ensures OnNewBlock(KnowsOne(c), W(c, KnowsOne(c)), At(2)) == KnowsBoth(c, [], [])
  {
    var a, b, d := Candidate(3, 3, [3], []), Candidate(1, 0, [], []), Candidate(2, 0, [], []);
    BlockOf(a, a, b, At(2));
    FindInPool(P.Slot(T(c, 3), 0), P.Slot(T(c, 1), 0), Id(2));
    MissesBlock(c, KnowsOne(c), 2);
    assert [a, b] + [d] == [a, b, d];
    assert {} + {Id(2)} == {Id(2)} && {} + {At(2)} == {At(2)};
  }

  lemma CountsOne(c: Scene)
    ensures OnBlockVote(KnowsBoth(c, [], []), W(c, KnowsBoth(c, [], [])), FirstVote(1, 1)) == KnowsBoth(c, [1], [])
  {
    var a, b, d := Candidate(3, 3, [3], []), Candidate(1, 0, [], []), Candidate(2, 0, [], []);
    var b1 := Candidate(1, 0, [1], []);
    BlockOf(a, b, d, At(1));
    assert [] + [1] == [1] && CountVote(b, First, 1) == Some(b1);
    assert [a, b, d][1 := b1] == [a, b1, d];
    TotalOf(a, b1, d);
    WinnerOf(a, b1, d, First, Majority(Size(c)));
    Undecided(KnowsBoth(c, [1], []), W(c, KnowsBoth(c, [], [])), 0);
  }

  /** Node 3 sees the third vote, lacks the same transaction, and votes for block 1. */
  lemma Node3MovesOn(c: Scene)
    ensures OnBlockVote(KnowsBoth(c, [1], []), W(c, KnowsBoth(c, [1], [])), FirstVote(2, 2)) == VotedAlong(c)
  {
    var w, p := W(c, KnowsBoth(c, [1], [])), KnowsBoth(c, [1], [2]);
    var a, b := Candidate(3, 3, [3], []), Candidate(1, 0, [1], []);
    var d0, d := Candidate(2, 0, [], []), Candidate(2, 0, [2], []);
    BlockOf(a, b, d0, At(2));
    assert [] + [2] == [2] && CountVote(d0, First, 2) == Some(d);
    assert [a, b, d0][2 := d] == [a, b, d];
    OneVoteEach(p, w, a, b, d);
    Node3Votes(c, w);
    WinnerOf(a, Candidate(1, 2, [1], [3]), Candidate(2, 1, [2], []), Second, Majority(Size(c)));
  }

  lemma Node3Votes(c: Scene, w: World)
    requires w == W(c, KnowsBoth(c, [1], []))
    ensures CastVote(KnowsBoth(c, [1], [2]), w, Second) == VotedAlong(c)
  {
    Node3Selects(c, w);
    var a, d := Candidate(3, 3, [3], []), Candidate(2, 1, [2], []);
    var b0, b1 := Candidate(1, 2, [1], []), Candidate(1, 2, [1], [3]);
    assert [] + [3] == [3] && CountVote(b0, Second, 3) == Some(b1);
    assert [a, b0][1 := b1] + [d] == [a, b1, d];
    assert {FirstVote(3, 3)} + {SecondVote(3, 1)} == {FirstVote(3, 3), SecondVote(3, 1)};
  }

  lemma Node3Checks(c: Scene, w: World, f: Fetching)
    requires w == W(c, KnowsBoth(c, [1], []))
    requires At(2) in f.downloading && Id(2) in f.requests && At(1) !in f.downloading
    ensures w.missing(1) == {} && w.missing(2) == {Id(2)} && w.replay(1) == Some(With(c, 1))
    ensures Fetch(f, w, At(2)) == f && Fetch(f, w, At(1)) == f
  {
    var p := KnowsBoth(c, [1], []);
    FindInPool(P.Slot(T(c, 3), 0), P.Slot(T(c, 1), 0), Id(1));
    FindInPool(P.Slot(T(c, 3), 0), P.Slot(T(c, 1), 0), Id(2));
    MissingOne(1, p.mempool);
    MissingOne(2, p.mempool);
    ReplayOne(c, p, 1);
    assert f.downloading + {At(2)} == f.downloading && f.downloading - {At(1)} == f.downloading;
    assert f.requests + {} == f.requests;
  }

  lemma Node3Selects(c: Scene, w: World)
    requires w == W(c, KnowsBoth(c, [1], []))
    ensures Select(KnowsBoth(c, [1], [2]), w)
         == Selection([Candidate(3, 3, [3], []), Candidate(1, 2, [1], [])], [Candidate(2, 1, [2], [])], Opened(c, 1),
                      Fetching({Id(2)}, {At(2)}), Some(1))
  {
    var p := KnowsBoth(c, [1], [2]);
    var a, b, d := Candidate(3, 3, [3], []), Candidate(1, 2, [1], []), Candidate(2, 1, [2], []);
    var f := p.fetching;
    assert SetWaitTimes(w, 1, p.newBlocks) == [a, b, d];
    LeastOfThree(a, b, d);
    LeastOfTwo(a, b);
    assert Remove([a, b, d], 2) == [a, b] && [] + [d] == [d];
    Node3Checks(c, w, f);
    assert SelectBlock(w, 1, [a, b], [d], None, f) == Selection([a, b], [d], Opened(c, 1), f, Some(1));
  }

  /** The round-1 vote of node 1 makes node 3 commit block 1. */
  lemma Node3Commits(c: Scene)
    requires !c.fourth
    ensures Ended3(c).chain == [1]
  {
    var p, w := VotedAlong(c), W(c, VotedAlong(c));
    var a, b, d := Candidate(3, 3, [3], []), Candidate(1, 2, [1], [3]), Candidate(2, 1, [2], []);
    var b1 := Candidate(1, 2, [1], [3, 1]);
    BlockOf(a, b, d, At(1));
    assert [3] + [1] == [3, 1] && CountVote(b, Second, 1) == Some(b1);
    var q := p.(newBlocks := [a, b1, d]);
    assert [a, b, d][1 := b1] == [a, b1, d];
    WinnerOf(a, b1, d, Second, Majority(Size(c)));
    assert CheckForWinner(q, w, Second) == CommitWinner(q, w, 1);
    assert [] + [1] == [1];
  }

  // ---- the run ----

  /** All that is required of an event but the hypothesis: it is the arrival of a
      transaction at a node that is exposed to it. */
  ghost predicate LacksHypothesis(cfg: Config, u: Setup, net: Net, e: Event) {
    e.TransactionArrives? && e.node in net.sys.nodes &&
    var p := net.sys.nodes[e.node];
    WorldOk(cfg, p, e.w) && Own(u, TakeIn(p, e.txn), e.w) && Exposed(p, e.w, e.txn)
  }

  /** The event is a genuine one and leads from one network to the other. */
  ghost predicate Goes(c: Scene, net: Net, e: Event, after: Net) {
    Genuine(Voters(c), Scenery(c), net, e) && after == Step(net, e)
  }

  ghost predicate GoesAnyway(c: Scene, net: Net, e: Event, after: Net) {
    LacksHypothesis(Voters(c), Scenery(c), net, e) && after == Step(net, e)
  }

  lemma BlockIsGenuine(c: Scene, net: Net, n: NodeId, p: Plugin, id: BlockId)
    requires Member(n) && n in net.sys.nodes && net.sys.nodes[n] == p && p.nodeId == n && At(id) in Keys(net.made)
    ensures Genuine(Voters(c), Scenery(c), net, BlockArrives(n, At(id), W(c, p)))
  {
    Quorum(c, p.Next());
    OwnWorld(c, p);
  }

  lemma VoteIsGenuine(c: Scene, net: Net, n: NodeId, p: Plugin, v: Vote)
    requires Member(n) && n in net.sys.nodes && net.sys.nodes[n] == p && p.nodeId == n && v in net.sys.cast
    ensures Genuine(Voters(c), Scenery(c), net, VoteArrives(n, v, W(c, p)))
  {
    Quorum(c, p.Next());
    OwnWorld(c, p);
  }

  lemma WaitIsGenuine(c: Scene, net: Net, n: NodeId, p: Plugin)
    requires Member(n) && n in net.sys.nodes && net.sys.nodes[n] == p && p.nodeId == n && p.waiting
    ensures Genuine(Voters(c), Scenery(c), net, WaitOver(n, W(c, p)))
  {
    Quorum(c, p.Next());
    OwnWorld(c, p);
  }

  lemma TransactionIsGenuine(c: Scene, net: Net, n: NodeId, p: Plugin, t: P.Txn)
    requires Member(n) && n in net.sys.nodes && net.sys.nodes[n] == p && p.nodeId == n && !ChoosesOn(p, t)
    ensures Genuine(Voters(c), Scenery(c), net, TransactionArrives(n, t, W(c, TakeIn(p, t))))
  {
    Quorum(c, p.Next());
    OwnWorld(c, TakeIn(p, t));
  }

  function Three(p: Plugin, q: Plugin, r: Plugin, cast: set<Vote>, made: set<Made>): Net {
    Net(System(map[1 := p, 2 := q, 3 := r], cast), made)
  }

  lemma AtNode1(p: Plugin, q: Plugin, r: Plugin, cast: set<Vote>, made: set<Made>, e: Event, p1: Plugin,
                more: set<Vote>)
    requires e.node == 1 && !e.BlockCreated? && Handle(p, e) == p1 && cast + p1.outbox == more
    ensures Step(Three(p, q, r, cast, made), e) == Three(p1, q, r, more, made)
  {
    assert map[1 := p, 2 := q, 3 := r][1 := p1] == map[1 := p1, 2 := q, 3 := r];
  }

  lemma AtNode3(p: Plugin, q: Plugin, r: Plugin, cast: set<Vote>, made: set<Made>, e: Event, r1: Plugin,
                more: set<Vote>)
    requires e.node == 3 && !e.BlockCreated? && Handle(r, e) == r1 && cast + r1.outbox == more
    ensures Step(Three(p, q, r, cast, made), e) == Three(p, q, r1, more, made)
  {
    assert map[1 := p, 2 := q, 3 := r][3 := r1] == map[1 := p, 2 := q, 3 := r1];
  }

  function MadeBy(c: Scene, n: NodeId): Made { Made(At(n), [], Pool(c, n)) }

  /** The votes and blocks of the first nodes that have created and voted. */
  function Cast(n: nat): set<Vote> {
    (if n >= 1 then {FirstVote(1, 1)} else {}) + (if n >= 2 then {FirstVote(2, 2)} else {})
    + (if n >= 3 then {FirstVote(3, 3)} else {})
  }

  function MadeUpTo(c: Scene, n: nat): set<Made> {
    (if n >= 1 then {MadeBy(c, 1)} else {}) + (if n >= 2 then {MadeBy(c, 2)} else {})
    + (if n >= 3 then {MadeBy(c, 3)} else {})
  }

  /** Where node `n` is while the nodes create their blocks and vote, one after the
      other: `half` says that node `turn` has created but not yet voted. */
  function Opening(c: Scene, n: NodeId, turn: NodeId, half: bool): Plugin {
    if n < turn then Voted(c, n) else if n == turn && half then Created(c, n) else Begins(c, n)
  }

  function OpeningNet(c: Scene, turn: nat, half: bool): Net
    requires turn > 0
  {
    Three(Opening(c, 1, turn, half), Opening(c, 2, turn, half), Opening(c, 3, turn, half), Cast(turn - 1),
          MadeUpTo(c, if half then turn else turn - 1))
  }

  lemma OpeningNodes(c: Scene, n: nat)
    requires Member(n)
    ensures OpeningNet(c, n, false).sys.nodes[n := Created(c, n)] == OpeningNet(c, n, true).sys.nodes
  {
  }

  lemma VotingNodes(c: Scene, n: nat)
    requires Member(n)
    ensures OpeningNet(c, n, true).sys.nodes[n := Voted(c, n)] == OpeningNet(c, n + 1, false).sys.nodes
  {
  }

  lemma OpeningVotes(c: Scene, n: nat)
    requires Member(n)
    ensures Cast(n - 1) + {FirstVote(n, n)} == Cast(n) && Cast(n - 1) + {} == Cast(n - 1)
    ensures MadeUpTo(c, n - 1) + {MadeBy(c, n)} == MadeUpTo(c, n)
    ensures forall v :: v in Cast(n - 1) ==> v.id != n
  {
  }

  lemma CreationIsGenuine(c: Scene, net: Net, n: nat, s: P.State)
    requires Member(n) && n in net.sys.nodes && net.sys.nodes[n] == Begins(c, n) && s == With(c, n)
    requires forall v :: v in net.sys.cast ==> v.id != n
    ensures Genuine(Voters(c), Scenery(c), net, BlockCreated(n, n, s, W(c, Begins(c, n))))
  {
    Builds(c, n);
  }

  lemma CreationStep(c: Scene, n: nat)
    requires Member(n)
    ensures Goes(c, OpeningNet(c, n, false), BlockCreated(n, n, With(c, n), W(c, Begins(c, n))), OpeningNet(c, n, true))
  {
    Creates(c, n);
    OpeningVotes(c, n);
    OpeningNodes(c, n);
    CreationIsGenuine(c, OpeningNet(c, n, false), n, With(c, n));
  }

  lemma VoteStep(c: Scene, n: nat)
    requires Member(n)
    ensures Goes(c, OpeningNet(c, n, true), WaitOver(n, W(c, Created(c, n))), OpeningNet(c, n + 1, false))
  {
    Votes(c, n);
    OpeningVotes(c, n);
    VotingNodes(c, n);
    WaitIsGenuine(c, OpeningNet(c, n, true), n, Created(c, n));
  }

  /** The votes cast after the opening, by node 1 and then by node 3. */
  function Cast1(i: nat): set<Vote> { if i >= 4 then Cast(3) + {SecondVote(1, 1)} else Cast(3) }

  function Cast3(c: Scene, i: nat): set<Vote> {
    Cast1(4) + (if i >= 5 then {SecondVote(3, 1)} else {}) + (if i >= 6 then Ended3(c).outbox else {})
  }

  /** The states of nodes 1 and 3 in the second part of the run. */
  function First1(c: Scene, i: nat): Plugin {
    match i
    case 0 => Voted(c, 1)
    case 1 => KnowsTwo(c)
    case 2 => KnowsAll(c, [], [])
    case 3 => KnowsAll(c, [2], [])
    case _ => VotedTwice(c)
  }

  function Then3(c: Scene, i: nat): Plugin {
    match i
    case 0 => Voted(c, 3)
    case 1 => TookIn(c)
    case 2 => KnowsOne(c)
    case 3 => KnowsBoth(c, [], [])
    case 4 => KnowsBoth(c, [1], [])
    case 5 => VotedAlong(c)
    case _ => Ended3(c)
  }

  function Net1(c: Scene, i: nat): Net {
    Three(First1(c, i), Voted(c, 2), Voted(c, 3), Cast1(i), MadeUpTo(c, 3))
  }

  function Net3(c: Scene, i: nat): Net {
    Three(VotedTwice(c), Voted(c, 2), Then3(c, i), Cast3(c, i), MadeUpTo(c, 3))
  }

  function Event1(c: Scene, i: nat): Event {
    var w := W(c, First1(c, i));
    match i
    case 0 => BlockArrives(1, At(2), w)
    case 1 => BlockArrives(1, At(3), w)
    case 2 => VoteArrives(1, FirstVote(2, 2), w)
    case _ => VoteArrives(1, FirstVote(3, 3), w)
  }

  function Event3(c: Scene, i: nat): Event {
    var w := W(c, Then3(c, i));
    match i
    case 0 => TransactionArrives(3, T(c, 1), W(c, TakeIn(Voted(c, 3), T(c, 1))))
    case 1 => BlockArrives(3, At(1), w)
    case 2 => BlockArrives(3, At(2), w)
    case 3 => VoteArrives(3, FirstVote(1, 1), w)
    case 4 => VoteArrives(3, FirstVote(2, 2), w)
    case _ => VoteArrives(3, SecondVote(1, 1), w)
  }

  lemma Handled1(c: Scene, i: nat)
    requires i < 4
    ensures Handle(First1(c, i), Event1(c, i)) == First1(c, i + 1)
  {
    match i {
      case 0 => MissesTwo(c);
      case 1 => MissesThree(c);
      case 2 => CountsTwo(c);
      case _ => Node1MovesOn(c);
    }
  }

  lemma Handled3(c: Scene, i: nat)
    requires i < 6
    ensures Handle(Then3(c, i), Event3(c, i)) == Then3(c, i + 1)
  {
    match i {
      case 0 => TakesOne(c);
      case 1 => SeesOne(c);
      case 2 => MissesTwoToo(c);
      case 3 => CountsOne(c);
      case 4 => Node3MovesOn(c);
      case _ =>
    }
  }

  lemma Arrived(c: Scene, n: NodeId)
    requires Member(n)
    ensures At(n) in Keys(MadeUpTo(c, 3))
  {
    assert MadeBy(c, n) in MadeUpTo(c, 3) && MadeBy(c, n).key == At(n);
  }

  lemma Genuine1(c: Scene, i: nat)
    requires i < 4
    ensures Genuine(Voters(c), Scenery(c), Net1(c, i), Event1(c, i))
  {
    var net, p := Net1(c, i), First1(c, i);
    Arrived(c, 2);
    Arrived(c, 3);
    match i {
      case 0 => BlockIsGenuine(c, net, 1, p, 2);
      case 1 => BlockIsGenuine(c, net, 1, p, 3);
      case 2 => VoteIsGenuine(c, net, 1, p, FirstVote(2, 2));
      case _ => VoteIsGenuine(c, net, 1, p, FirstVote(3, 3));
    }
  }

  lemma Votes1(c: Scene, i: nat)
    requires i < 4
    ensures Cast1(i) + First1(c, i + 1).outbox == Cast1(i + 1)
  {
  }

  lemma Step1(c: Scene, i: nat)
    requires i < 4
    ensures Goes(c, Net1(c, i), Event1(c, i), Net1(c, i + 1))
  {
    Genuine1(c, i);
    Handled1(c, i);
    Votes1(c, i);
    AtNode1(First1(c, i), Voted(c, 2), Voted(c, 3), Cast1(i), MadeUpTo(c, 3), Event1(c, i), First1(c, i + 1),
            Cast1(i + 1));
  }

  lemma Genuine3(c: Scene, i: nat)
    requires i < 6
    ensures Genuine(Voters(c), Scenery(c), Net3(c, i), Event3(c, i))
  {
    var net, p := Net3(c, i), Then3(c, i);
    Arrived(c, 1);
    Arrived(c, 2);
    match i {
      case 0 => TransactionIsGenuine(c, net, 3, p, T(c, 1));
      case 1 => BlockIsGenuine(c, net, 3, p, 1);
      case 2 => BlockIsGenuine(c, net, 3, p, 2);
      case 3 => VoteIsGenuine(c, net, 3, p, FirstVote(1, 1));
      case 4 => VoteIsGenuine(c, net, 3, p, FirstVote(2, 2));
      case _ => VoteIsGenuine(c, net, 3, p, SecondVote(1, 1));
    }
  }

  lemma Votes3(c: Scene, i: nat)
    requires i < 6
    ensures Cast3(c, i) + Then3(c, i + 1).outbox == Cast3(c, i + 1)
  {
  }

  lemma EventAt3(c: Scene, i: nat)
    ensures Event3(c, i).node == 3 && !Event3(c, i).BlockCreated?
  {
  }

  lemma Step3(c: Scene, i: nat)
    requires i < 6
    ensures Goes(c, Net3(c, i), Event3(c, i), Net3(c, i + 1))
  {
    Genuine3(c, i);
    Handled3(c, i);
    Votes3(c, i);
    EventAt3(c, i);
    AtNode3(VotedTwice(c), Voted(c, 2), Then3(c, i), Cast3(c, i), MadeUpTo(c, 3), Event3(c, i), Then3(c, i + 1),
            Cast3(c, i + 1));
  }

  function LastEvent(c: Scene): Event { TransactionArrives(1, T(c, 2), W(c, TakeIn(VotedTwice(c), T(c, 2)))) }

  function LastNet(c: Scene): Net {
    Three(Ended1(c), Voted(c, 2), Ended3(c), Cast3(c, 6) + Ended1(c).outbox, MadeUpTo(c, 3))
  }

  lemma TwoIsVotable(c: Scene, p: Plugin, b: Block)
    requires p == TakeIn(VotedTwice(c), T(c, 2)) && b == Candidate(2, 1, [2], [])
    ensures b in p.newBlocks && Votable(p, W(c, p), b)
  {
    TwoPasses(c, p);
    assert b == p.newBlocks[2];
  }

  lemma AskedForTwo(c: Scene)
    ensures ChoosesOn(VotedTwice(c), T(c, 2)) && VotedTwice(c).Voted(Second)
  {
    assert VotedTwice(c).mempool == Pool(c, 1);
  }

  lemma NowExposed(c: Scene, w: World)
    requires w == W(c, TakeIn(VotedTwice(c), T(c, 2)))
    ensures Exposed(VotedTwice(c), w, T(c, 2))
  {
    var p, b := VotedTwice(c), Candidate(2, 1, [2], []);
    AskedForTwo(c);
    TwoIsVotable(c, TakeIn(p, T(c, 2)), b);
    assert b in p.newBlocks && Votable(p, w, b);
  }

  lemma LastLacks(c: Scene, net: Net)
    requires 1 in net.sys.nodes && net.sys.nodes[1] == VotedTwice(c)
    ensures LacksHypothesis(Voters(c), Scenery(c), net, LastEvent(c))
  {
    var p := VotedTwice(c);
    Quorum(c, 1);
    OwnWorld(c, TakeIn(p, T(c, 2)));
    NowExposed(c, W(c, TakeIn(p, T(c, 2))));
  }

  lemma LastStep(c: Scene)
    ensures GoesAnyway(c, Net3(c, 6), LastEvent(c), LastNet(c))
  {
    LastLacks(c, Net3(c, 6));
    AtNode1(VotedTwice(c), Voted(c, 2), Ended3(c), Cast3(c, 6), MadeUpTo(c, 3), LastEvent(c), Ended1(c),
            Cast3(c, 6) + Ended1(c).outbox);
  }

  predicate Split(net: Net) {
    1 in net.sys.nodes && 3 in net.sys.nodes && net.sys.nodes[1].chain == [2] && net.sys.nodes[3].chain == [1]
  }

  lemma Ends(c: Scene)
    requires !c.fourth
    ensures Split(LastNet(c))
  {
    Node1VotesAgain(c);
    Node3Commits(c);
  }

  lemma Starts(c: Scene)
    ensures Fresh(Scenery(c), OpeningNet(c, 1, false))
  {
  }

  lemma PartsMeet(c: Scene)
    ensures OpeningNet(c, 4, false) == Net1(c, 0) && Net1(c, 4) == Net3(c, 0)
  {
  }

  // ---- the events in a row ----

  /** Genuine events lead from `net` to the state before the last event. */
  ghost predicate Leads(c: Scene, net: Net, es: seq<Event>) {
    GenuineRun(Voters(c), Scenery(c), net, es) && After(Voters(c), Scenery(c), net, es) == Net3(c, 6)
  }

  lemma OneMore(c: Scene, net: Net, e: Event, after: Net, es: seq<Event>)
    requires Goes(c, net, e, after) && Leads(c, after, es)
    ensures Leads(c, net, [e] + es)
  {
    assert ([e] + es)[1..] == es;
  }

  lemma {:induction false} LastPart(c: Scene, i: nat) returns (es: seq<Event>)
    requires i <= 6
    ensures Leads(c, Net3(c, i), es)
    decreases 6 - i
  {
    es := [];
    if i < 6 {
      Step3(c, i);
      var rest := LastPart(c, i + 1);
      OneMore(c, Net3(c, i), Event3(c, i), Net3(c, i + 1), rest);
      es := [Event3(c, i)] + rest;
    }
  }

  lemma {:induction false} MiddlePart(c: Scene, i: nat) returns (es: seq<Event>)
    requires i <= 4
    ensures Leads(c, Net1(c, i), es)
    decreases 4 - i
  {
    if i == 4 {
      PartsMeet(c);
      es := LastPart(c, 0);
    } else {
      Step1(c, i);
      var rest := MiddlePart(c, i + 1);
      OneMore(c, Net1(c, i), Event1(c, i), Net1(c, i + 1), rest);
      es := [Event1(c, i)] + rest;
    }
  }

  lemma {:induction false} FirstPart(c: Scene, n: nat) returns (es: seq<Event>)
    requires 1 <= n <= 4
    ensures Leads(c, OpeningNet(c, n, false), es)
    decreases 4 - n
  {
    if n == 4 {
      PartsMeet(c);
      es := MiddlePart(c, 0);
    } else {
      var create := BlockCreated(n, n, With(c, n), W(c, Begins(c, n)));
      var wait := WaitOver(n, W(c, Created(c, n)));
      var rest := FirstPart(c, n + 1);
      VoteStep(c, n);
      OneMore(c, OpeningNet(c, n, true), wait, OpeningNet(c, n + 1, false), rest);
      CreationStep(c, n);
      OneMore(c, OpeningNet(c, n, false), create, OpeningNet(c, n, true), [wait] + rest);
      es := [create] + ([wait] + rest);
    }
  }

  /** Genuine events, and one that lacks nothing but the hypothesis, after which two nodes
      have committed different blocks at height 1. */
  ghost predicate Splits(cfg: Config, u: Setup, net: Net, es: seq<Event>, last: Event) {
    Fresh(u, net) && GenuineRun(cfg, u, net, es)
    && LacksHypothesis(cfg, u, After(cfg, u, net, es), last) && Split(Step(After(cfg, u, net, es), last))
  }

  /** Without the run hypothesis agreement fails, whatever the database and the commands
      of the transactions are: the arrival of one transaction that was asked for, after a
      round-1 vote, ends a run of three honest nodes with different blocks at height 1. */
  lemma Disagreement(c: Scene)
    requires !c.fourth
    ensures exists net, es, last :: Splits(Voters(c), Scenery(c), net, es, last)
  {
    var es := FirstPart(c, 1);
    Starts(c);
    Ends(c);
    LastStep(c);
    assert Splits(Voters(c), Scenery(c), OpeningNet(c, 1, false), es, LastEvent(c));
  }

  // ---- voting twice ----

  lemma {:induction false} GenuineIsLegal(cfg: Config, u: Setup, net: Net, es: seq<Event>)
    requires GenuineRun(cfg, u, net, es)
    ensures Legal(cfg, net.sys, es) && Run(cfg, net.sys, es) == After(cfg, u, net, es).sys
    decreases |es|
  {
    if es != [] {
      GenuineIsLegal(cfg, u, Step(net, es[0]), es[1..]);
    }
  }

  lemma TornInBoth(c: Scene, now: World, r: Round)
    requires now == W(c, TakeIn(VotedTwice(c), T(c, 2)))
    ensures Torn(VotedTwice(c), T(c, 2), now, 4, r)
  {
    var p, b := VotedTwice(c), Candidate(2, 1, [2], []);
    NowExposed(c, now);
    TwoIsVotable(c, TakeIn(p, T(c, 2)), b);
    TwoIsOpen(p, b);
    assert Votable(p, now, b);
    assert FirstVote(1, 1) in p.outbox;
  }

  lemma TwoIsOpen(p: Plugin, b: Block)
    requires p.nodeId == 1 && b == Candidate(2, 1, [2], [])
    ensures VotesTwice.Undecided(p, b, 4)
  {
  }

  /** After the genuine events `es` the arrival of `t` can make node 1 repeat a vote of
      round 0, and one of round 1. */
  ghost predicate Repeats(c: Scene, net: Net, es: seq<Event>, t: P.Txn, now: World) {
    Fresh(Scenery(c), net) && GenuineRun(Voters(c), Scenery(c), net, es)
    && var sys := After(Voters(c), Scenery(c), net, es).sys;
       1 in sys.nodes && forall r: Round :: CanVoteAgain(Voters(c), sys.nodes[1], t, now, r)
  }

  lemma CanRepeat(c: Scene, net: Net, es: seq<Event>, now: World, r: Round)
    requires c.fourth && Initial(net.sys) && Leads(c, net, es) && now == W(c, TakeIn(VotedTwice(c), T(c, 2)))
    ensures CanVoteAgain(Voters(c), VotedTwice(c), T(c, 2), now, r)
  {
    GenuineIsLegal(Voters(c), Scenery(c), net, es);
    Quorum(c, 1);
    TornInBoth(c, now, r);
    VotesTwiceIff(Voters(c), net.sys, es, Net3(c, 6).sys, 1, T(c, 2), now, r);
  }

  lemma RunRepeats(c: Scene, net: Net, es: seq<Event>, now: World)
    requires c.fourth && Fresh(Scenery(c), net) && Leads(c, net, es) && now == W(c, TakeIn(VotedTwice(c), T(c, 2)))
    ensures Repeats(c, net, es, T(c, 2), now)
  {
    forall r: Round ensures CanVoteAgain(Voters(c), VotedTwice(c), T(c, 2), now, r) {
      CanRepeat(c, net, es, now, r);
    }
  }

  /** With a fourth voter who takes no part, the repeated round-0 vote decides nothing: the
      same run leads to a state in which a vote can be repeated in either round. */
  lemma TwiceInBothRounds(c: Scene)
    requires c.fourth
    ensures exists net, es, t, now :: Repeats(c, net, es, t, now)
  {
    var es := FirstPart(c, 1);
    Starts(c);
    RunRepeats(c, OpeningNet(c, 1, false), es, W(c, TakeIn(VotedTwice(c), T(c, 2))));
  }
}
