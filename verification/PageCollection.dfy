/** The distinct modified pages that a state update sends (plugins/no-leader/state_update.c). */
module PageCollection {
  import opened Common
  import opened GrowableArray

  type Pgno = x: nat | x < 0x1_0000_0000

  function ComparePgno(existing: Pgno, other: Pgno): int {
    if other == existing then 0 else if other > existing then 1 else -1
  }

  predicate Ascending(s: seq<Pgno>) {
    forall i, j :: 0 <= i < j < |s| ==> s[i] < s[j]
  }

  /** One sorted insertion, as array_insert_sorted performs it. */
  function Insert(s: seq<Pgno>, x: Pgno): seq<Pgno> {
    Outcome(s, 0, x, Decide(s, x, 0, Some(ComparePgno), true))
  }

  lemma SpliceIsSorted(s: seq<Pgno>, i: nat, x: Pgno)
    requires Ascending(s) && i <= |s| && (i > 0 ==> s[i - 1] < x) && (i < |s| ==> x < s[i])
    ensures Ascending(s[..i] + [x] + s[i..])
  {
  }

  lemma SpliceElements(s: seq<Pgno>, i: nat, x: Pgno)
    requires i <= |s|
    ensures Elements(s[..i] + [x] + s[i..]) == Elements(s) + {x}
  {
  }

  lemma InsertIsSorted(s: seq<Pgno>, x: Pgno)
    requires Ascending(s)
    ensures Ascending(Insert(s, x)) && Elements(Insert(s, x)) == Elements(s) + {x}
  {
    var i := Position(s, ComparePgno, x, 0);
    if i < |s| && s[i] == x {
      assert Insert(s, x) == s[i := x] == s;
    } else {
      assert Insert(s, x) == s[..i] + [x] + s[i..] by {
        assert i == |s| ==> s[..i] + [x] + s[i..] == s + seq(i - |s|, _ => 0) + [x];
      }
      SpliceIsSorted(s, i, x);
      SpliceElements(s, i, x);
    }
  }

  lemma {:induction false} AscendingSize(s: seq<Pgno>)
    requires Ascending(s)
    ensures |Elements(s)| == |s|
    decreases |s|
  {
    if s != [] {
      var front, last := s[..|s| - 1], s[|s| - 1];
      AscendingSize(front);
      assert Elements(s) == Elements(front) + {last};
      assert last !in Elements(front);
    }
  }

  /** Two strictly ascending sequences of the same pages are the same. */
  lemma {:induction false} AscendingUnique(s: seq<Pgno>, t: seq<Pgno>)
    requires Ascending(s) && Ascending(t) && Elements(s) == Elements(t)
    ensures s == t
    decreases |s|
  {
    AscendingSize(s);
    AscendingSize(t);
    if s != [] {
      var m := |s| - 1;
      assert s[m] in Elements(t) && t[m] in Elements(s);
      assert s[m] == t[m];
      assert Elements(s[..m]) == Elements(s) - {s[m]};
      assert Elements(t[..m]) == Elements(t) - {t[m]};
      AscendingUnique(s[..m], t[..m]);
      assert s == s[..m] + [s[m]] && t == t[..m] + [t[m]];
    }
  }

  lemma MoreElements(s: seq<Pgno>, k: nat)
    requires k < |s|
    ensures Elements(s[..k + 1]) == Elements(s[..k]) + {s[k]}
    ensures |Elements(s[..k])| <= |Elements(s[..k + 1])| <= |Elements(s[..k])| + 1
  {
    assert s[..k + 1] == s[..k] + [s[k]];
    if s[k] in Elements(s[..k]) {
      assert Elements(s[..k + 1]) == Elements(s[..k]);
    }
  }

  lemma {:induction false} FewerBefore(s: seq<Pgno>, k: nat, n: nat)
    requires k <= n <= |s|
    ensures |Elements(s[..k])| <= |Elements(s[..n])|
    decreases n
  {
    if k < n {
      MoreElements(s, n - 1);
      FewerBefore(s, k, n - 1);
    }
  }

  /** The capacities that the array goes through; the next one is stored as 0. */
  predicate Doubling(n: nat) {
    n in {16, 32, 64, 128, 256, 512, 1024, 2048, 4096, 8192, 16384, 32768}
  }

  /** The array survives the list: at most one insertion comes after the 32768th
      distinct page, since that one doubles the 16-bit capacity to 0. */
  predicate Fits(list: seq<Pgno>) {
    |list| < 2 || |Elements(list[..|list| - 2])| < 32768
  }

  /** The number of different pages among the first `k`. */
  function Distinct(list: seq<Pgno>, k: nat): nat
    requires k <= |list|
  {
    |Elements(list[..k])|
  }

  /** After `k` insertions the capacity has wrapped only if the last one was the one after
      32768 distinct pages. */
  predicate RoomOk(alloc: nat, room: nat, list: seq<Pgno>, k: nat)
    requires k <= |list|
  {
    (k > 0 && alloc != 0 ==> Distinct(list, k - 1) < 32768)
    && (alloc != 0 ==> alloc == room && Doubling(alloc))
    && (alloc == 0 ==> k > 0 && Distinct(list, k - 1) == 32768 && (k > 1 ==> Distinct(list, k - 2) < 32768))
  }

  /** The array holds the pages so far. */
  ghost predicate Collected(a: Array<Pgno>, list: seq<Pgno>, k: nat)
    requires k <= |list|
    reads a, a.mem
  {
    a.zero == 0 && a.used <= a.mem.Length && Ascending(a.Items()) && Elements(a.Items()) == Elements(list[..k])
    && RoomOk(a.alloc, a.mem.Length, list, k)
  }

  lemma NextRoom(alloc: nat, list: seq<Pgno>, k: nat)
    requires k < |list| && alloc != 0 && RoomOk(alloc, alloc, list, k) && Distinct(list, k) <= alloc
    ensures var room := Capacity(0, Distinct(list, k), alloc);
            alloc <= 32768 && RoomOk(room % FIELD, room, list, k + 1)
  {
    NextCapacity(Distinct(list, k), alloc);
    if Distinct(list, k) == alloc == 32768 {
      assert Capacity(0, Distinct(list, k), alloc) % FIELD == 0;
    }
  }

  method CollectOne(a: Array<Pgno>, list: seq<Pgno>, k: nat)
    requires k < |list| && Collected(a, list, k) && a.alloc != 0
    modifies a, a.mem
    ensures Collected(a, list, k + 1) && (a.mem == old(a.mem) || fresh(a.mem))
  {
    AscendingSize(a.Items());
    InsertIsSorted(a.Items(), list[k]);
    MoreElements(list, k);
    NextRoom(a.alloc, list, k);
    InsertOne(a, list[k]);
  }

  method InsertOne(a: Array<Pgno>, x: Pgno)
    requires a.Valid() && a.alloc <= 32768 && a.zero == 0
    modifies a, a.mem
    ensures a.used <= a.mem.Length && a.Items() == Insert(old(a.Items()), x)
    ensures a.mem == old(a.mem) || fresh(a.mem)
    ensures a.mem.Length == Capacity(0, old(a.used), old(a.alloc)) && a.alloc == a.mem.Length % FIELD
  {
    var pos := a.InsertEx(x, 0, Some(ComparePgno), true);
  }

  lemma NextCapacity(used: nat, alloc: nat)
    requires used <= alloc && Doubling(alloc)
    ensures alloc <= 32768
    ensures var c := Capacity(0, used, alloc);
            if used == alloc == 32768 then c == FIELD else c < FIELD && Doubling(c)
  {
  }

  /** The page-collection loop of on_request_state_update. It stops, where the source
      would go on with a capacity of 0, exactly when the list does not fit. */
  method Collect(list: seq<Pgno>) returns (ok: bool, a: Array<Pgno>)
    ensures ok <==> Fits(list)
    ensures fresh(a) && (ok ==> a.used <= a.mem.Length && Ascending(a.Items()) && Elements(a.Items()) == Elements(list))
  {
    a := new Array<Pgno>(16, 0);
    assert list[..0] == [];
    for k := 0 to |list|
      invariant fresh(a) && fresh(a.mem) && Collected(a, list, k)
    {
      if a.alloc == 0 {
        FewerBefore(list, k - 1, |list| - 2);
        return false, a;
      }
      CollectOne(a, list, k);
    }
    assert list[..|list|] == list;
    if a.alloc != 0 && |list| >= 2 {
      FewerBefore(list, |list| - 2, |list| - 1);
    }
    ok := true;
  }

  /** Fewer than 32768 distinct pages always fit. */
  lemma FewPagesFit(list: seq<Pgno>)
    requires |Elements(list)| < 32768
    ensures Fits(list)
  {
    if |list| >= 2 {
      FewerBefore(list, |list| - 2, |list|);
      assert list[..|list|] == list;
    }
  }

  /** More than 32769 never do: the capacity wraps and a further page follows. */
  lemma ManyPagesDoNotFit(list: seq<Pgno>)
    requires |Elements(list)| >= 32770
    ensures !Fits(list)
  {
    var n := |list|;
    FewerThanItems(list);
    assert list[..n] == list;
    MoreElements(list, n - 1);
    MoreElements(list, n - 2);
  }

  lemma {:induction false} FewerThanItems(list: seq<Pgno>)
    ensures |Elements(list)| <= |list|
    decreases |list|
  {
    if list != [] {
      var n := |list|;
      FewerThanItems(list[..n - 1]);
      MoreElements(list, n - 1);
      assert list[..n] == list;
    }
  }

  /** Such a list: the first 32770 pages of a database. */
  lemma FirstPagesDoNotFit()
    ensures !Fits(seq(32770, i => i))
  {
    var list: seq<Pgno> := seq(32770, i => i);
    AscendingSize(list);
    ManyPagesDoNotFit(list);
  }
}
