/** The handlers as the plugin runs them: fields updated in place, lists scanned by
    loops. Each is proved to take the node to the state of its specification. */
module ConsensusNode {
  import opened Common
  import opened ConsensusModel
  import opened ConsensusQuorum
  import M = ConsensusModel
  import P = ProposerModel

  lemma {:induction false} AboveDrops(bs: seq<Block>, h: nat, i: nat)
    requires i < |bs| && bs[i].height <= h
    ensures BlocksAbove(Remove(bs, i), h) == BlocksAbove(bs, h)
    decreases |bs|
  {
    if i == 0 {
      assert Remove(bs, 0) == bs[1..];
    } else {
      AboveDrops(bs[1..], h, i - 1);
      assert Remove(bs, i)[1..] == Remove(bs[1..], i - 1);
    }
  }

  lemma {:induction false} AboveAll(bs: seq<Block>, h: nat)
    requires forall j :: 0 <= j < |bs| ==> bs[j].height > h
    ensures BlocksAbove(bs, h) == bs
    decreases |bs|
  {
    if bs != [] {
      AboveAll(bs[1..], h);
    }
  }

  lemma {:induction false} FromDrops(vs: seq<Vote>, h: nat, i: nat)
    requires i < |vs| && vs[i].height < h
    ensures VotesFrom(vs[..i] + vs[i + 1..], h) == VotesFrom(vs, h)
    decreases |vs|
  {
    if i == 0 {
      assert vs[..0] + vs[1..] == vs[1..];
    } else {
      FromDrops(vs[1..], h, i - 1);
      assert (vs[..i] + vs[i + 1..])[1..] == vs[1..][..i - 1] + vs[1..][i..];
    }
  }

  lemma {:induction false} FromAll(vs: seq<Vote>, h: nat)
    requires forall j :: 0 <= j < |vs| ==> vs[j].height >= h
    ensures VotesFrom(vs, h) == vs
    decreases |vs|
  {
    if vs != [] {
      FromAll(vs[1..], h);
    }
  }

  predicate Listed(items: seq<P.Item>, id: P.Tid) {
    exists n :: 0 <= n < |items| && items[n].id == id
  }

  predicate InPool(pool: seq<P.Slot>, id: P.Tid) {
    exists i :: 0 <= i < |pool| && pool[i].txn.Id() == id
  }

  lemma MissingAre(items: seq<P.Item>, pool: seq<P.Slot>)
    ensures forall id :: id in MissingFrom(items, pool) <==> Listed(items, id) && !InPool(pool, id)
    ensures MissingFrom(items, pool) == {} <==> forall id :: Listed(items, id) ==> InPool(pool, id)
  {
    forall id ensures id in MissingFrom(items, pool) <==> Listed(items, id) && !InPool(pool, id) {
      if P.Find(pool, id).Some? {
        assert P.Find(pool, id).value.Id() == id;
      }
    }
  }

  /** The first block that `Good` accepts is the one the front-to-back searches find. */
  lemma {:induction false} FirstWinner(bs: seq<Block>, h: nat, r: Round, majority: nat, i: nat)
    requires i <= |bs|
    requires forall j :: 0 <= j < i ==> !(bs[j].height == h && bs[j].Of(r).count >= majority)
    requires i < |bs| ==> bs[i].height == h && bs[i].Of(r).count >= majority
    ensures FindWinner(bs, h, r, majority) == if i < |bs| then Some(i) else None
    decreases |bs|
  {
    if i > 0 {
      FirstWinner(bs[1..], h, r, majority, i - 1);
    }
  }

  lemma {:induction false} FirstMatch(bs: seq<Block>, k: Key, i: nat)
    requires i <= |bs|
    requires forall j :: 0 <= j < i ==> bs[j].Ref() != k
    requires i < |bs| ==> bs[i].Ref() == k
    ensures FindBlock(bs, k) == if i < |bs| then Some(i) else None
    decreases |bs|
  {
    if i > 0 {
      FirstMatch(bs[1..], k, i - 1);
    }
  }

  lemma {:induction false} FirstPastIs(pool: seq<P.Slot>, height: nat, i: nat)
    requires i <= |pool| && (i < |pool| ==> P.IsPast(pool[i], height))
    requires forall j :: 0 <= j < i ==> !P.IsPast(pool[j], height)
    ensures P.FirstPast(pool, height) == i
    decreases |pool|
  {
    if i > 0 {
      FirstPastIs(pool[1..], height, i - 1);
    }
  }

  lemma {:induction false} UnspentDrops(pool: seq<P.Slot>, last: map<NodeId, nat>, i: nat)
    requires i < |pool| && P.IsSpent(pool[i], last)
    ensures P.Unspent(pool[..i] + pool[i + 1..], last) == P.Unspent(pool, last)
    decreases |pool|
  {
    if i == 0 {
      assert pool[..0] + pool[1..] == pool[1..];
    } else {
      UnspentDrops(pool[1..], last, i - 1);
      assert (pool[..i] + pool[i + 1..])[1..] == pool[1..][..i - 1] + pool[1..][i..];
    }
  }

  lemma {:induction false} UnspentAll(pool: seq<P.Slot>, last: map<NodeId, nat>)
    requires forall j :: 0 <= j < |pool| ==> !P.IsSpent(pool[j], last)
    ensures P.Unspent(pool, last) == pool
    decreases |pool|
  {
    if pool != [] {
      UnspentAll(pool[1..], last);
    }
  }

  lemma {:induction false} FoundAt(pool: seq<P.Slot>, id: P.Tid, i: nat)
    requires i <= |pool| && (i < |pool| ==> pool[i].txn.Id() == id)
    requires forall j :: 0 <= j < i ==> pool[j].txn.Id() != id
    ensures P.Find(pool, id) == if i < |pool| then Some(pool[i].txn) else None
    decreases |pool|
  {
    if i > 0 {
      FoundAt(pool[1..], id, i - 1);
    }
  }

  lemma MissingMore(items: seq<P.Item>, pool: seq<P.Slot>, k: nat)
    requires k < |items|
    ensures MissingFrom(items[..k + 1], pool)
         == MissingFrom(items[..k], pool) + if P.Find(pool, items[k].id).None? then {items[k].id} else {}
  {
    var more, few := items[..k + 1], items[..k];
    forall id | id in MissingFrom(few, pool) ensures id in MissingFrom(more, pool) {
      var j :| 0 <= j < |few| && P.Find(pool, few[j].id).None? && few[j].id == id;
      assert more[j] == few[j];
    }
    if P.Find(pool, items[k].id).None? {
      assert more[k].id in MissingFrom(more, pool);
    }
  }

  lemma ListsMore(items: seq<P.Item>, k: nat, id: P.Tid)
    requires k < |items|
    ensures P.Lists(items[..k + 1], id) <==> P.Lists(items[..k], id) || items[k].id == id
  {
    if P.Lists(items[..k], id) {
      var j :| 0 <= j < |items[..k]| && items[..k][j].id == id;
      assert items[..k + 1][j].id == id;
    }
    assert items[..k + 1][k] == items[k];
  }

  /** One round of the search. */
  lemma {:induction false} SelectOnce(w: World, h: nat, bs: seq<Block>, ex: seq<Block>, open: Option<Open>, f: Fetching)
    requires LeastWait(bs, h).Some?
    ensures var i := LeastWait(bs, h);
            var b := bs[i.value];
            SelectBlock(w, h, bs, ex, open, f)
            == if IsOpen(open, b) then Selection(bs, ex, open, f, i)
               else if Passes(w, b) then
                 Selection(bs, ex, Some(Open(b.Ref(), w.replay(b.id))), Fetch(f, w, b.Ref()), i)
               else SelectBlock(w, h, Remove(bs, i.value), ex + [b], None, Fetch(f, w, b.Ref()))
  {
  }

  class Node {
    const nodeId: NodeId
    var chain: seq<BlockId>
    var newBlocks: seq<Block>
    var openBlock: Option<Open>
    var blockVotes: seq<Vote>
    var lastVoteHeight: nat
    var lastVoteRound: Round
    var outbox: set<Vote>
    /** block_wait_timer is active. */
    var waiting: bool
    var requests: set<P.Tid>
    /** The blocks with downloading_txns set. */
    var downloading: set<Key>
    /** The committed database of the core. */
    var state: P.State
    var mempool: seq<P.Slot>

    function State(): Plugin
      reads this
    {
      Plugin(nodeId, chain, newBlocks, openBlock, blockVotes, lastVoteHeight, lastVoteRound, outbox, waiting,
             Fetching(requests, downloading), state, mempool)
    }

    constructor (id: NodeId, s: P.State)
      ensures State() == Started(id, s, [])
    {
      nodeId := id;
      chain, newBlocks, openBlock, blockVotes := [], [], None, [];
      lastVoteHeight, lastVoteRound, outbox, waiting := 0, First, {}, false;
      requests, downloading, state, mempool := {}, {}, s, [];
    }

    /** What the circumstances say about missing transactions is what the mempool lacks. */
    ghost predicate Matches(w: World)
      reads this`mempool
    {
      forall id :: w.missing(id) == MissingFrom(w.items(id), mempool)
    }

    /** add_block_vote with the caller's increment of num_votes. */
    static method AddBlockVote(b: Block, r: Round, voter: NodeId) returns (ok: bool, after: Block)
      ensures ok == CountVote(b, r, voter).Some?
      ensures after == if ok then CountVote(b, r, voter).value else b
    {
      var t := b.Of(r);
      for i := 0 to |t.voters|
        invariant forall j :: 0 <= j < i ==> t.voters[j] != voter
      {
        if t.voters[i] == voter {
          return false, b;
        }
      }
      after := b.With(r, Tally(t.voters + [voter], t.count + 1));
      ok := true;
    }

    method StoreBlockVote(v: Vote)
      modifies this`blockVotes
      ensures blockVotes == M.StoreBlockVote(old(blockVotes), v)
    {
      for i := 0 to |blockVotes|
        invariant blockVotes == old(blockVotes)
        invariant forall j :: 0 <= j < i ==> blockVotes[j] != v
      {
        if blockVotes[i] == v {
          return;
        }
      }
      blockVotes := blockVotes + [v];
    }

    method TransferBlockVotes(b: Block) returns (after: Block)
      ensures after == TransferVotes(blockVotes, b)
    {
      after := b;
      assert blockVotes[0..] == blockVotes;
      for i := 0 to |blockVotes|
        invariant after.height == b.height && after.id == b.id
        invariant TransferVotes(blockVotes[i..], after) == TransferVotes(blockVotes, b)
      {
        var v := blockVotes[i];
        assert blockVotes[i..][1..] == blockVotes[i + 1..];
        if v.height == b.height && v.id == b.id {
          var ok;
          ok, after := AddBlockVote(after, v.round, v.voter);
        }
      }
    }

    method DiscardUncommittedBlocks()
      modifies this`newBlocks
      ensures newBlocks == BlocksAbove(old(newBlocks), |chain|)
    {
      var i := 0;
      while i < |newBlocks|
        invariant i <= |newBlocks|
        invariant forall j :: 0 <= j < i ==> newBlocks[j].height > |chain|
        invariant BlocksAbove(newBlocks, |chain|) == BlocksAbove(old(newBlocks), |chain|)
        decreases |newBlocks|, |newBlocks| - i
      {
        if newBlocks[i].height <= |chain| {
          AboveDrops(newBlocks, |chain|, i);
          newBlocks := Remove(newBlocks, i);
          i := 0;
        } else {
          i := i + 1;
        }
      }
      AboveAll(newBlocks, |chain|);
    }

    method DiscardOldBlockVotes()
      modifies this`blockVotes
      ensures blockVotes == VotesFrom(old(blockVotes), |chain|)
    {
      var i := 0;
      while i < |blockVotes|
        invariant i <= |blockVotes|
        invariant forall j :: 0 <= j < i ==> blockVotes[j].height >= |chain|
        invariant VotesFrom(blockVotes, |chain|) == VotesFrom(old(blockVotes), |chain|)
        decreases |blockVotes|, |blockVotes| - i
      {
        if blockVotes[i].height < |chain| {
          FromDrops(blockVotes, |chain|, i);
          blockVotes := blockVotes[..i] + blockVotes[i + 1..];
          i := 0;
        } else {
          i := i + 1;
        }
      }
      FromAll(blockVotes, |chain|);
    }

    /** The scan of a block's transaction list for those not in the mempool. */
    method CheckBlockTransactions(w: World, k: Key) returns (allPresent: bool)
      requires Matches(w)
      modifies this`requests, this`downloading
      ensures Fetching(requests, downloading) == Fetch(old(Fetching(requests, downloading)), w, k)
      ensures allPresent <==> w.missing(k.id) == {}
      ensures allPresent <==> forall id :: Listed(w.items(k.id), id) ==> InPool(mempool, id)
      ensures downloading == if allPresent then old(downloading) - {k} else old(downloading) + {k}
      ensures forall id :: id in requests <==>
                id in old(requests)
                || (k !in old(downloading) && Listed(w.items(k.id), id) && !InPool(mempool, id))
    {
      var items := w.items(k.id);
      MissingAre(items, mempool);
      allPresent := true;
      for n := 0 to |items|
        invariant downloading == old(downloading)
        invariant allPresent <==> MissingFrom(items[..n], mempool) == {}
        invariant requests == if k in downloading then old(requests)
                              else old(requests) + MissingFrom(items[..n], mempool)
      {
        var i := 0;
        while i < |mempool| && mempool[i].txn.Id() != items[n].id
          invariant i <= |mempool|
          invariant forall j :: 0 <= j < i ==> mempool[j].txn.Id() != items[n].id
        {
          i := i + 1;
        }
        FoundAt(mempool, items[n].id, i);
        MissingMore(items, mempool, n);
        if i == |mempool| {
          allPresent := false;
          if k !in downloading {
            requests := requests + {items[n].id};
          }
        }
      }
      assert items[..|items|] == items;
      downloading := if allPresent then downloading - {k} else downloading + {k};
    }

    /** The first loop of commit_block: the transactions of the block are marked. */
    method MarkUsed(items: seq<P.Item>, height: nat)
      modifies this`mempool
      ensures mempool == P.MarkUsed(old(mempool), items, height)
    {
      ghost var was := mempool;
      for n := 0 to |items|
        invariant mempool == P.MarkUsed(was, items[..n], height)
      {
        ghost var some, more := P.MarkUsed(was, items[..n], height), P.MarkUsed(was, items[..n + 1], height);
        for i := 0 to |mempool|
          invariant |mempool| == |was|
          invariant forall j :: 0 <= j < i ==> mempool[j] == more[j]
          invariant forall j :: i <= j < |was| ==> mempool[j] == some[j]
        {
          ListsMore(items, n, was[i].txn.Id());
          if mempool[i].txn.Id() == items[n].id {
            mempool := mempool[i := mempool[i].(height := height)];
          }
        }
        assert mempool == more;
      }
      assert items[..|items|] == items;
    }

    method DropFirst(height: nat)
      modifies this`mempool
      ensures mempool == P.DropFirst(old(mempool), height)
    {
      var i := 0;
      while i < |mempool| && !P.IsPast(mempool[i], height)
        invariant i <= |mempool|
        invariant forall j :: 0 <= j < i ==> !P.IsPast(mempool[j], height)
      {
        i := i + 1;
      }
      FirstPastIs(mempool, height, i);
      if i < |mempool| {
        mempool := mempool[..i] + mempool[i + 1..];
      }
    }

    /** The second one: for each of them, one transaction of an older block goes. */
    method DropPast(n: nat, height: nat)
      modifies this`mempool
      ensures mempool == P.DropPast(old(mempool), n, height)
    {
      ghost var goal := P.DropPast(mempool, n, height);
      for k := 0 to n
        invariant P.DropPast(mempool, n - k, height) == goal
      {
        DropFirst(height);
      }
    }

    /** check_mempool_transactions, for all authorizations at once. */
    method CheckMempool()
      modifies this`mempool
      ensures mempool == P.Unspent(old(mempool), state.last)
    {
      var i := 0;
      while i < |mempool|
        invariant i <= |mempool| && P.Unspent(mempool, state.last) == P.Unspent(old(mempool), state.last)
        invariant forall j :: 0 <= j < i ==> !P.IsSpent(mempool[j], state.last)
        decreases |mempool|, |mempool| - i
      {
        if P.IsSpent(mempool[i], state.last) {
          UnspentDrops(mempool, state.last, i);
          mempool := mempool[..i] + mempool[i + 1..];
          i := 0;
        } else {
          i := i + 1;
        }
      }
      UnspentAll(mempool, state.last);
    }

    method SettleMempool(items: seq<P.Item>)
      modifies this`mempool
      ensures mempool == P.Settle(old(mempool), items, |chain| + 1, state.last)
    {
      MarkUsed(items, |chain| + 1);
      DropPast(|items|, |chain| + 1);
      CheckMempool();
    }

    /** commit_block for the open block. */
    method CommitBlock(w: World, i: nat)
      requires i < |newBlocks| && openBlock.Some?
      modifies this
      ensures State() == CommitOpen(old(State()), w, i)
    {
      var b := newBlocks[i];
      ghost var p := State();
      if !w.commits(b.id) || openBlock.value.state.None? {
        openBlock := Some(openBlock.value.(state := None));
        return;
      }
      ghost var s := openBlock.value.state.value;
      state := openBlock.value.state.value;
      SettleMempool(w.items(b.id));
      assert State() == p.(state := s, mempool := P.Settle(p.mempool, w.items(b.id), p.Next(), s.last));
      ReplaceCurrentBlock(i);
      assert State() == M.CommitBlock(p, w.items(b.id), i, s);
    }

    /** The rest of commit_block: the block leaves the list, what is old is discarded. */
    method ReplaceCurrentBlock(i: nat)
      requires i < |newBlocks|
      modifies this`chain, this`newBlocks, this`openBlock, this`blockVotes
      ensures chain == old(chain) + [old(newBlocks)[i].id] && openBlock == None
      ensures newBlocks == BlocksAbove(Remove(old(newBlocks), i), |old(chain)| + 1)
      ensures blockVotes == VotesFrom(old(blockVotes), |old(chain)| + 1)
    {
      chain := chain + [newBlocks[i].id];
      newBlocks := Remove(newBlocks, i);
      openBlock := None;
      DiscardUncommittedBlocks();
      DiscardOldBlockVotes();
    }

    method VoteOnBlock(r: Round, i: nat)
      requires i < |newBlocks|
      modifies this
      ensures State() == M.VoteOnBlock(old(State()), r, i)
    {
      var ok, b := AddBlockVote(newBlocks[i], r, nodeId);
      if !ok {
        return;
      }
      newBlocks := newBlocks[i := b];
      lastVoteHeight, lastVoteRound := b.height, r;
      outbox := outbox + {Vote(nodeId, b.height, r, b.id)};
    }

    method CalculateWaitTimes(w: World)
      modifies this`newBlocks
      ensures newBlocks == SetWaitTimes(w, |chain| + 1, old(newBlocks))
    {
      ghost var all := SetWaitTimes(w, |chain| + 1, newBlocks);
      for i := 0 to |newBlocks|
        invariant |newBlocks| == |all|
        invariant forall j :: 0 <= j < i ==> newBlocks[j] == all[j]
        invariant forall j :: i <= j < |newBlocks| ==> newBlocks[j] == old(newBlocks)[j]
      {
        if newBlocks[i].height == |chain| + 1 {
          newBlocks := newBlocks[i := newBlocks[i].(waitTime := w.waitTime(newBlocks[i].id))];
        }
      }
    }

    method LowestWait() returns (winner: Option<nat>)
      ensures winner == LeastWait(newBlocks, |chain| + 1)
    {
      winner := None;
      for i := 0 to |newBlocks|
        invariant winner == LeastWait(newBlocks[..i], |chain| + 1)
      {
        assert newBlocks[..i + 1][..i] == newBlocks[..i];
        var b := newBlocks[i];
        if b.height == |chain| + 1 && (winner.None? || b.waitTime < newBlocks[winner.value].waitTime) {
          winner := Some(i);
        }
      }
      assert newBlocks[..|newBlocks|] == newBlocks;
    }

    /** verify_block with the roll back of another open block before it. */
    method VerifyBlock(w: World, b: Block) returns (ok: bool)
      requires Matches(w)
      modifies this`openBlock, this`requests, this`downloading
      ensures ok == Passes(w, b)
      ensures openBlock == if ok then Some(Open(b.Ref(), w.replay(b.id))) else None
      ensures Fetching(requests, downloading) == Fetch(old(Fetching(requests, downloading)), w, b.Ref())
    {
      openBlock := None;
      ok := CheckBlockTransactions(w, b.Ref());
      if ok {
        ok := w.replay(b.id).Some?;
        if ok {
          openBlock := Some(Open(b.Ref(), w.replay(b.id)));
        }
      }
    }

    method OpenOrVerify(w: World, b: Block) returns (ok: bool)
      requires Matches(w)
      modifies this`openBlock, this`requests, this`downloading
      ensures ok == (old(IsOpen(openBlock, b)) || Passes(w, b))
      ensures openBlock == if old(IsOpen(openBlock, b)) then old(openBlock)
                           else if ok then Some(Open(b.Ref(), w.replay(b.id))) else None
      ensures Fetching(requests, downloading)
           == if old(IsOpen(openBlock, b)) then old(Fetching(requests, downloading))
              else Fetch(old(Fetching(requests, downloading)), w, b.Ref())
    {
      if IsOpen(openBlock, b) {
        return true;
      }
      ok := VerifyBlock(w, b);
    }

    /** One round of the search: the winner stands, or it is excluded. */
    method TryWinner(w: World, i: nat, excluded: seq<Block>) returns (done: bool, after: seq<Block>)
      requires Matches(w) && LeastWait(newBlocks, |chain| + 1) == Some(i)
      modifies this`newBlocks, this`openBlock, this`requests, this`downloading
      ensures done ==> after == excluded && Searched(after, Some(i)) == old(Searching(w, excluded))
      ensures !done ==> |newBlocks| < |old(newBlocks)| && Searching(w, after) == old(Searching(w, excluded))
    {
      var b := newBlocks[i];
      SelectOnce(w, |chain| + 1, newBlocks, excluded, openBlock, Fetching(requests, downloading));
      after := excluded;
      done := OpenOrVerify(w, b);
      if !done {
        newBlocks := Remove(newBlocks, i);
        after := excluded + [b];
      }
    }

    /** What the search will lead to from here, and what it has led to. */
    ghost function Searching(w: World, excluded: seq<Block>): Selection
      reads this
    {
      SelectBlock(w, |chain| + 1, newBlocks, excluded, openBlock, Fetching(requests, downloading))
    }

    ghost function Searched(excluded: seq<Block>, winner: Option<nat>): Selection
      reads this
    {
      Selection(newBlocks, excluded, openBlock, Fetching(requests, downloading), winner)
    }

    /** The loop of choose_block_to_vote that excludes blocks until one passes. */
    method SelectWinner(w: World) returns (winner: Option<nat>, excluded: seq<Block>)
      requires Matches(w)
      modifies this`newBlocks, this`openBlock, this`requests, this`downloading
      ensures Searched(excluded, winner) == old(Searching(w, []))
    {
      excluded := [];
      winner := LowestWait();
      while winner.Some?
        invariant winner == LeastWait(newBlocks, |chain| + 1)
        invariant Searching(w, excluded) == old(Searching(w, []))
        decreases |newBlocks|
      {
        var done;
        done, excluded := TryWinner(w, winner.value, excluded);
        if done {
          return;
        }
        winner := LowestWait();
      }
    }

    method FindBlockToVote(w: World) returns (winner: Option<nat>, excluded: seq<Block>)
      requires Matches(w)
      modifies this`newBlocks, this`openBlock, this`requests, this`downloading
      ensures Searched(excluded, winner) == Select(old(State()), w)
    {
      CalculateWaitTimes(w);
      winner, excluded := SelectWinner(w);
    }

    /** The part of choose_block_to_vote that votes, up to the restored block list. */
    method CastVote(w: World, r: Round)
      requires Matches(w)
      modifies this
      ensures State() == M.CastVote(old(State()), w, r)
      ensures mempool == old(mempool)
    {
      ghost var p := State();
      ghost var s := Select(p, w);
      var winner, excluded := FindBlockToVote(w);
      ghost var p1 := State();
      assert p1 == p.(newBlocks := s.blocks, openBlock := s.open, fetching := s.fetching);
      if winner.Some? {
        VoteOnBlock(r, winner.value);
      }
      assert State() == if s.winner.Some? then M.VoteOnBlock(p1, r, s.winner.value) else p1;
      newBlocks := newBlocks + excluded;
    }

    method ChooseBlockToVote(w: World, r: Round)
      requires Matches(w)
      modifies this
      ensures State() == ChooseBlock(old(State()), w, r)
      decreases Rank(r), 2
    {
      if lastVoteHeight == |chain| + 1 && lastVoteRound == r {
        return;
      }
      if w.updating {
        return;
      }
      if w.canVote {
        CastVote(w, r);
      }
      CheckForWinnerBlock(w, r);
    }

    /** The winner branch: the open block commits, any other is verified first. */
    method CommitWinner(w: World, i: nat)
      requires i < |newBlocks| && Matches(w)
      modifies this
      ensures State() == M.CommitWinner(old(State()), w, i)
    {
      if !IsOpen(openBlock, newBlocks[i]) {
        var ok := VerifyBlock(w, newBlocks[i]);
        if !ok {
          return;
        }
      }
      CommitBlock(w, i);
    }

    /** Whether some candidate can still reach the majority in round 0. */
    method CanStillWin(quorum: nat) returns (possible: bool)
      ensures possible == StillOpen(newBlocks, |chain| + 1, quorum)
      ensures possible == SomebodyCanWin(newBlocks, |chain| + 1, quorum)
    {
      StillOpenIff(newBlocks, |chain| + 1, quorum);
      var total := 0;
      assert newBlocks[0..] == newBlocks;
      for i := 0 to |newBlocks|
        invariant total + TotalVotes(newBlocks[i..], |chain| + 1) == TotalVotes(newBlocks, |chain| + 1)
      {
        assert newBlocks[i..][1..] == newBlocks[i + 1..];
        if newBlocks[i].height == |chain| + 1 {
          total := total + newBlocks[i].first.count;
        }
      }
      var remaining := quorum - total;
      for i := 0 to |newBlocks|
        invariant forall j :: 0 <= j < i && newBlocks[j].height == |chain| + 1 ==>
                    newBlocks[j].first.count + remaining < Majority(quorum)
      {
        if newBlocks[i].height == |chain| + 1 && newBlocks[i].first.count + remaining >= Majority(quorum) {
          return true;
        }
      }
      return false;
    }

    /** The node commits exactly when a block has more than half of the votes (Commits). */
    method CheckForWinnerBlock(w: World, r: Round)
      requires Matches(w)
      modifies this
      ensures State() == CheckForWinner(old(State()), w, r)
      ensures chain != old(chain) <==> Commits(old(State()), w, r)
      decreases Rank(r), 1
    {
      CommitsIff(State(), w, r);
      LookForWinner(w, r);
    }

    method LookForWinner(w: World, r: Round)
      requires Matches(w)
      modifies this
      ensures State() == CheckForWinner(old(State()), w, r)
      decreases Rank(r), 0
    {
      if newBlocks == [] || w.updating {
        return;
      }
      var i := 0;
      while i < |newBlocks| && !(newBlocks[i].height == |chain| + 1 && newBlocks[i].Of(r).count >= Majority(w.quorum))
        invariant i <= |newBlocks|
        invariant forall j :: 0 <= j < i ==>
                    !(newBlocks[j].height == |chain| + 1 && newBlocks[j].Of(r).count >= Majority(w.quorum))
      {
        i := i + 1;
      }
      FirstWinner(newBlocks, |chain| + 1, r, Majority(w.quorum), i);
      if i < |newBlocks| {
        CommitWinner(w, i);
        return;
      }
      if r == Second || (lastVoteHeight == |chain| + 1 && lastVoteRound == Second) {
        return;
      }
      var possible := CanStillWin(w.quorum);
      if !possible && !waiting {
        ChooseBlockToVote(w, Second);
      }
    }

    method IndexOf(k: Key) returns (i: nat)
      ensures i <= |newBlocks|
      ensures FindBlock(newBlocks, k) == if i < |newBlocks| then Some(i) else None
    {
      i := 0;
      while i < |newBlocks| && newBlocks[i].Ref() != k
        invariant i <= |newBlocks|
        invariant forall j :: 0 <= j < i ==> newBlocks[j].Ref() != k
      {
        i := i + 1;
      }
      FirstMatch(newBlocks, k, i);
    }

    method StartBlockWaitTimer(w: World)
      modifies this`waiting
      ensures State() == StartWait(old(State()), w)
      ensures waiting == (old(waiting) || (lastVoteHeight != |chain| + 1 && w.canVote))
    {
      if lastVoteHeight == |chain| + 1 || !w.canVote {
        return;
      }
      waiting := true;
    }

    method OnNewBlock(w: World, k: Key)
      requires Matches(w)
      modifies this
      ensures State() == M.OnNewBlock(old(State()), w, k)
    {
      var i := IndexOf(k);
      if i < |newBlocks| || k.height <= |chain| {
        return;
      }
      var b := TransferBlockVotes(Block(k.id, k.height, 0, NO_TALLY, NO_TALLY));
      newBlocks := newBlocks + [b];
      downloading := downloading - {k};
      var allPresent := CheckBlockTransactions(w, k);
      if k.height > |chain| + 1 {
        return;
      }
      StartBlockWaitTimer(w);
      if !allPresent {
        return;
      }
      CheckForWinnerBlock(w, First);
    }

    method OnBlockVote(w: World, v: Vote)
      requires Matches(w)
      modifies this
      ensures State() == M.OnBlockVote(old(State()), w, v)
    {
      var i := IndexOf(Key(v.id, v.height));
      if i == |newBlocks| {
        if v.height > |chain| {
          StoreBlockVote(v);
        }
        return;
      }
      var ok, b := AddBlockVote(newBlocks[i], v.round, v.voter);
      if !ok {
        return;
      }
      newBlocks := newBlocks[i := b];
      CheckForWinnerBlock(w, v.round);
    }

    method OnBlockWaitTimeout(w: World)
      requires Matches(w)
      modifies this
      ensures State() == OnWaitOver(old(State()), w)
    {
      waiting := false;
      ChooseBlockToVote(w, First);
    }

    /** new_block_timer_cb once create_new_block has left its block open. */
    method NewBlockTimer(w: World, id: BlockId, s: P.State)
      modifies this
      ensures State() == OnBlockCreated(old(State()), w, id, s)
    {
      newBlocks := newBlocks + [Block(id, |chain| + 1, 0, NO_TALLY, NO_TALLY)];
      openBlock := Some(Open(Key(id, |chain| + 1), Some(s)));
      StartBlockWaitTimer(w);
    }

    /** store_transaction_on_mempool for a transaction that is verified. */
    method StoreTransaction(t: P.Txn) returns (stored: bool)
      modifies this`mempool
      ensures stored == TakesIn(old(State()), t)
      ensures var o := openBlock;
              var last := if o.Some? && o.value.state.Some? then o.value.state.value.last else state.last;
              stored <==> !InPool(old(mempool), t.Id()) && t.node in last && t.nonce > last[t.node]
      ensures mempool == if stored then old(mempool) + [P.Slot(t, 0)] else old(mempool)
    {
      for i := 0 to |mempool|
        invariant mempool == old(mempool)
        invariant forall j :: 0 <= j < i ==> mempool[j].txn.Id() != t.Id()
      {
        if mempool[i].txn.Id() == t.Id() {
          return false;
        }
      }
      var last := LastNonces(State());
      if t.node !in last || t.nonce <= last[t.node] {
        return false;
      }
      mempool := mempool + [P.Slot(t, 0)];
      stored := true;
    }

    /** process_new_transaction: a transaction that was asked for makes the node choose. */
    method ProcessNewTransaction(w: World, t: P.Txn)
      requires forall id :: w.missing(id) == MissingFrom(w.items(id), mempool + [P.Slot(t, 0)])
      modifies this
      ensures State() == OnTransaction(old(State()), w, t)
    {
      var stored := StoreTransaction(t);
      if !stored {
        return;
      }
      var requested := t.Id() in requests;
      requests := requests - {t.Id()};
      if requested && newBlocks != [] && !waiting {
        ChooseBlockToVote(w, First);
      }
    }
  }
}
