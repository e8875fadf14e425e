/** Which block choose_block_to_vote votes for. */
module ConsensusChoice {
  import opened Common
  import opened ConsensusModel
  import opened ConsensusInvariant
  import opened ConsensusHandlers
  import P = ProposerModel

  /** LeastWait is the first candidate whose wait time no other candidate beats. */
  lemma {:induction false} LeastWaitSpec(bs: seq<Block>, h: nat)
    ensures var r := LeastWait(bs, h);
            (r.None? <==> !HasCandidate(bs, h))
            && (r.Some? ==> forall j :: 0 <= j < |bs| && bs[j].height == h ==>
                  bs[r.value].waitTime < bs[j].waitTime || (bs[r.value].waitTime == bs[j].waitTime && r.value <= j))
    decreases |bs|
  {
    if bs != [] {
      var front := bs[..|bs| - 1];
      LeastWaitSpec(front, h);
      assert forall j :: 0 <= j < |front| ==> front[j] == bs[j];
    }
  }

  /** The blocks whose transactions are present and whose replay succeeds. */
  function Sound(w: World, bs: seq<Block>): seq<Block>
    decreases |bs|
  {
    if bs == [] then []
    else
      var last := bs[|bs| - 1];
      Sound(w, bs[..|bs| - 1]) + if Passes(w, last) then [last] else []
  }

  function Best(bs: seq<Block>, h: nat): Option<Block> {
    var i := LeastWait(bs, h);
    if i.None? then None else Some(bs[i.value])
  }

  lemma {:induction false} SoundIn(w: World, bs: seq<Block>)
    ensures forall b :: b in Sound(w, bs) <==> b in bs && Passes(w, b)
    decreases |bs|
  {
    if bs != [] {
      SoundIn(w, bs[..|bs| - 1]);
      assert bs == bs[..|bs| - 1] + [bs[|bs| - 1]];
    }
  }

  lemma BestIsLeast(bs: seq<Block>, h: nat)
    ensures var r := Best(bs, h);
            (r.None? <==> forall b :: b in bs ==> b.height != h)
            && (r.Some? ==> (r.value in bs && r.value.height == h
                             && forall b :: b in bs && b.height == h ==> r.value.waitTime <= b.waitTime))
  {
    LeastWaitSpec(bs, h);
    if HasCandidate(bs, h) {
      var i :| 0 <= i < |bs| && bs[i].height == h;
      assert bs[i] in bs;
    }
  }

  lemma BestOfMore(bs: seq<Block>, x: Block, h: nat)
    ensures var r := Best(bs, h);
            Best(bs + [x], h) ==
            if x.height == h && (r.None? || x.waitTime < r.value.waitTime) then Some(x) else r
  {
  }

  /** Dropping unsound blocks does not change a best block that is sound. */
  lemma {:induction false} BestOfSound(w: World, bs: seq<Block>, h: nat)
    requires Best(bs, h).Some? && Passes(w, Best(bs, h).value)
    ensures Best(Sound(w, bs), h) == Best(bs, h)
    decreases |bs|
  {
    var front, x := bs[..|bs| - 1], bs[|bs| - 1];
    assert bs == front + [x];
    BestOfMore(front, x, h);
    BestIsLeast(front, h);
    SoundIn(w, front);
    BestIsLeast(Sound(w, front), h);
    BestOfMore(Sound(w, front), x, h);
    if Best(bs, h) == Best(front, h) {
      BestOfSound(w, front, h);
    }
    if !Passes(w, x) {
      assert Sound(w, front) + [] == Sound(w, front);
    }
  }

  lemma SoundConcat(w: World, a: seq<Block>, b: seq<Block>)
    ensures Sound(w, a + b) == Sound(w, a) + Sound(w, b)
    decreases |b|
  {
    if b == [] {
      assert a + b == a;
    } else {
      assert (a + b)[..|a + b| - 1] == a + b[..|b| - 1];
      SoundConcat(w, a, b[..|b| - 1]);
    }
  }

  lemma SoundRemove(w: World, bs: seq<Block>, i: nat)
    requires i < |bs| && !Passes(w, bs[i])
    ensures Sound(w, Remove(bs, i)) == Sound(w, bs)
  {
    var a, c := bs[..i], bs[i + 1..];
    SoundConcat(w, a, c);
    SoundConcat(w, a + [bs[i]], c);
    assert bs == a + [bs[i]] + c && (a + [bs[i]])[..i] == a;
    assert Sound(w, a + [bs[i]]) == Sound(w, a);
  }

  lemma PickOne<T>(s: seq<T>, i: nat)
    requires i < |s|
    ensures multiset(s) == multiset{s[i]} + multiset(s[..i] + s[i + 1..])
  {
    assert s == s[..i] + [s[i]] + s[i + 1..];
  }

  lemma MovedBlock(bs: seq<Block>, ex: seq<Block>, i: nat)
    requires i < |bs|
    ensures multiset(Remove(bs, i) + (ex + [bs[i]])) == multiset(bs + ex)
  {
    PickOne(bs, i);
  }

  lemma {:induction false} SelectKeepsBlocks(w: World, h: nat, bs: seq<Block>, ex: seq<Block>, open: Option<Open>,
                                             f: Fetching)
    ensures var s := SelectBlock(w, h, bs, ex, open, f); multiset(s.blocks + s.excluded) == multiset(bs + ex)
    decreases |bs|
  {
    var i := LeastWait(bs, h);
    if i.Some? {
      var b := bs[i.value];
      if !IsOpen(open, b) && !Passes(w, b) {
        SelectKeepsBlocks(w, h, Remove(bs, i.value), ex + [b], None, Fetch(f, w, b.Ref()));
        MovedBlock(bs, ex, i.value);
      }
    }
  }

  /** The search ends and picks the first block of least wait time: the open one if it
      comes first, and it stays open, else the best sound one, with its replay open. */
  lemma {:induction false} SelectsBest(w: World, h: nat, bs: seq<Block>, ex: seq<Block>, open: Option<Open>,
                                       f: Fetching)
    ensures var s := SelectBlock(w, h, bs, ex, open, f);
            var best := Best(bs, h);
            var stays := best.Some? && IsOpen(open, best.value);
            var found := if stays then best else Best(Sound(w, bs), h);
            if found.None? then s.winner.None?
            else s.winner.Some? && s.blocks[s.winner.value] == found.value
                 && s.open == if stays then open else Some(Open(found.value.Ref(), w.replay(found.value.id)))
    decreases |bs|
  {
    var i := LeastWait(bs, h);
    if i.None? {
      NothingSound(w, bs, h);
    } else {
      var b := bs[i.value];
      if !IsOpen(open, b) {
        if Passes(w, b) {
          BestOfSound(w, bs, h);
        } else {
          SelectsBest(w, h, Remove(bs, i.value), ex + [b], None, Fetch(f, w, b.Ref()));
          SoundRemove(w, bs, i.value);
        }
      }
    }
  }

  lemma NothingSound(w: World, bs: seq<Block>, h: nat)
    requires Best(bs, h).None?
    ensures Best(Sound(w, bs), h).None?
  {
    BestIsLeast(bs, h);
    SoundIn(w, bs);
    BestIsLeast(Sound(w, bs), h);
  }

  /** choose_block_to_vote keeps the list of blocks, up to order, wait times and
      the one vote it counts: the references stay the same multiset. */
  function Refs(bs: seq<Block>): (r: seq<Key>)
    ensures |r| == |bs| && forall i :: 0 <= i < |bs| ==> r[i] == bs[i].Ref()
  {
    seq(|bs|, i requires 0 <= i < |bs| => bs[i].Ref())
  }

  lemma PickRef(bs: seq<Block>, i: nat)
    requires i < |bs|
    ensures multiset(Refs(bs)) == multiset{bs[i].Ref()} + multiset(Refs(Remove(bs, i)))
  {
    PickOne(Refs(bs), i);
    assert Refs(bs)[..i] + Refs(bs)[i + 1..] == Refs(Remove(bs, i));
  }

  lemma {:induction false} RefsOf(a: seq<Block>, b: seq<Block>)
    requires multiset(a) == multiset(b)
    ensures multiset(Refs(a)) == multiset(Refs(b))
    decreases |a|
  {
    assert |multiset(a)| == |multiset(b)|;
    if a != [] {
      assert a[0] in multiset(b);
      var i :| 0 <= i < |b| && b[i] == a[0];
      PickOne(a, 0);
      PickOne(b, i);
      PickRef(a, 0);
      PickRef(b, i);
      SameRest(a[0], multiset(Remove(a, 0)), multiset(Remove(b, i)));
      RefsOf(Remove(a, 0), Remove(b, i));
    }
  }

  lemma SameRest<T>(x: T, a: multiset<T>, b: multiset<T>)
    requires multiset{x} + a == multiset{x} + b
    ensures a == b
  {
    assert a == (multiset{x} + a) - multiset{x};
    assert b == (multiset{x} + b) - multiset{x};
  }

  lemma CastVoteKeepsBlocks(p: Plugin, w: World, r: Round)
    ensures multiset(Refs(CastVote(p, w, r).newBlocks)) == multiset(Refs(p.newBlocks))
  {
    var timed := SetWaitTimes(w, p.Next(), p.newBlocks);
    var s := Select(p, w);
    SelectKeepsBlocks(w, p.Next(), timed, [], p.openBlock, p.fetching);
    assert timed + [] == timed;
    RefsOf(s.blocks + s.excluded, timed);
    assert Refs(timed) == Refs(p.newBlocks);
    var q := CastVote(p, w, r);
    if s.winner.Some? {
      VoteThenRestore(p, r, s);
    }
    assert Refs(q.newBlocks) == Refs(s.blocks + s.excluded);
  }

  /** A selected block is the open one, or it passed its checks. */
  lemma {:induction false} SelectedPasses(w: World, h: nat, bs: seq<Block>, ex: seq<Block>, open: Option<Open>,
                                          f: Fetching)
    ensures var s := SelectBlock(w, h, bs, ex, open, f);
            s.winner.Some? ==> var b := s.blocks[s.winner.value]; IsOpen(open, b) || Passes(w, b)
    decreases |bs|
  {
    var i := LeastWait(bs, h);
    if i.Some? {
      var b := bs[i.value];
      if !IsOpen(open, b) && !Passes(w, b) {
        SelectedPasses(w, h, Remove(bs, i.value), ex + [b], None, Fetch(f, w, b.Ref()));
      }
    }
  }

  /** A selected block is one of the candidates, up to its wait time. */
  lemma SelectedBlock(p: Plugin, w: World) returns (b: Block)
    requires Select(p, w).winner.Some?
    ensures var s := Select(p, w); var x := s.blocks[s.winner.value];
            b in p.newBlocks && b.height == p.Next() && x == b.(waitTime := w.waitTime(b.id))
            && (IsOpen(p.openBlock, b) || Passes(w, b))
  {
    var timed := SetWaitTimes(w, p.Next(), p.newBlocks);
    var s := Select(p, w);
    SelectKeepsBlocks(w, p.Next(), timed, [], p.openBlock, p.fetching);
    SelectedPasses(w, p.Next(), timed, [], p.openBlock, p.fetching);
    assert timed + [] == timed;
    var x := s.blocks[s.winner.value];
    assert x in multiset(s.blocks + s.excluded);
    assert x in timed;
    var i :| 0 <= i < |timed| && timed[i] == x;
    b := p.newBlocks[i];
  }
}
