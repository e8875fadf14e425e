/** What a commit leaves of the mempool, slot by slot. */
module ProposerPool {
  import opened Common
  import opened ProposerModel

  /** A transaction of a block that lies two or more below `height`. */
  predicate Old(x: Slot, height: nat) { x.height > 0 && x.height + 2 <= height }

  /** The old ones, or the others, in order. */
  function Only(pool: seq<Slot>, height: nat, old1: bool): seq<Slot> {
    if pool == [] then []
    else
      var n := |pool| - 1;
      Only(pool[..n], height, old1) + if Old(pool[n], height) == old1 then [pool[n]] else []
  }

  lemma {:induction false} OnlyConcat(a: seq<Slot>, b: seq<Slot>, height: nat, old1: bool)
    ensures Only(a + b, height, old1) == Only(a, height, old1) + Only(b, height, old1)
    decreases |b|
  {
    if b == [] {
      assert a + b == a;
    } else {
      var n := |b| - 1;
      assert (a + b)[..|a| + n] == a + b[..n];
      OnlyConcat(a, b[..n], height, old1);
    }
  }

  lemma {:induction false} OnlyNone(a: seq<Slot>, height: nat)
    requires forall j :: 0 <= j < |a| ==> !Old(a[j], height)
    ensures Only(a, height, true) == []
    decreases |a|
  {
    if a != [] {
      OnlyNone(a[..|a| - 1], height);
    }
  }

  lemma OnlyOne(x: Slot, height: nat, old1: bool)
    ensures Only([x], height, old1) == if Old(x, height) == old1 then [x] else []
  {
    assert [x][..0] == [];
  }

  lemma Taken(a: seq<Slot>, x: Slot, c: seq<Slot>, height: nat, old1: bool)
    requires Only(a, height, true) == [] && Old(x, height)
    ensures Only(a + [x] + c, height, old1) == (if old1 then [x] else []) + Only(a + c, height, old1)
  {
    OnlyConcat(a + [x], c, height, old1);
    OnlyConcat(a, [x], height, old1);
    OnlyConcat(a, c, height, old1);
    OnlyOne(x, height, old1);
    if old1 {
      assert Only(a + [x], height, true) == [x];
    } else {
      assert Only(a + [x], height, false) == Only(a, height, false);
    }
  }

  /** One round discards the first old transaction. */
  lemma DropsFirst(pool: seq<Slot>, height: nat)
    ensures var was := Only(pool, height, true);
            Only(DropFirst(pool, height), height, true) == (if was == [] then [] else was[1..])
            && Only(DropFirst(pool, height), height, false) == Only(pool, height, false)
  {
    var i := FirstPast(pool, height);
    var a := pool[..i];
    forall j | 0 <= j < i ensures !Old(a[j], height) {
      assert !IsPast(pool[j], height);
    }
    OnlyNone(a, height);
    if i < |pool| {
      var x, c := pool[i], pool[i + 1..];
      assert pool == a + [x] + c && Old(x, height);
      Taken(a, x, c, height, true);
      Taken(a, x, c, height, false);
      assert DropFirst(pool, height) == a + c;
    } else {
      assert a == pool;
    }
  }

  /** All but the first `k`. */
  function Behind(s: seq<Slot>, k: nat): seq<Slot> {
    if k < |s| then s[k..] else []
  }

  lemma BehindMore(s: seq<Slot>, k: nat)
    requires k > 0
    ensures Behind(if s == [] then [] else s[1..], k - 1) == Behind(s, k)
  {
    if k < |s| {
      assert s[1..][k - 1..] == s[k..];
    }
  }

  /** Of the old transactions the first ones go, one for each listed item at most, and
      no other does. */
  lemma {:induction false} DropsOldFirst(pool: seq<Slot>, k: nat, height: nat)
    ensures Only(DropPast(pool, k, height), height, true) == Behind(Only(pool, height, true), k)
    ensures Only(DropPast(pool, k, height), height, false) == Only(pool, height, false)
    decreases k
  {
    if k > 0 {
      var rest := DropFirst(pool, height);
      DropsFirst(pool, height);
      BehindMore(Only(pool, height, true), k);
      DropsOldFirst(rest, k - 1, height);
      assert DropPast(pool, k, height) == DropPast(rest, k - 1, height);
    }
  }

  /** Of the unused transactions exactly those stay whose nonce is beyond the last one of
      their node, or whose node is not known. */
  lemma {:induction false} StaysIff(pool: seq<Slot>, last: map<NodeId, nat>, x: Slot)
    ensures x in Unspent(pool, last) <==>
            x in pool && (x.height == 0 && x.txn.node in last ==> x.txn.nonce > last[x.txn.node])
    decreases |pool|
  {
    if pool != [] {
      StaysIff(pool[1..], last, x);
    }
  }
}
