/** The intrusive singly linked list (common/linked_list.c): items carry their own
    `next`, and adding a chain splices it. */
module LinkedList {
  class Item {
    var next: Item?
    constructor ()
      ensures next == null
    {
      next := null;
    }
  }

  function At(s: seq<Item>, i: nat): Item? {
    if i < |s| then s[i] else null
  }

  /** `first` leads through exactly the items of `s`, in order, and then ends. */
  ghost predicate IsList(first: Item?, s: seq<Item>)
    reads s
  {
    first == At(s, 0)
    && (forall i :: 0 <= i < |s| ==> s[i].next == At(s, i + 1))
    && (forall i, j :: 0 <= i < j < |s| ==> s[i] != s[j])
  }

  /** A pointer leads through one sequence only. */
  lemma {:induction false} SameItems(first: Item?, s: seq<Item>, t: seq<Item>)
    requires IsList(first, s) && IsList(first, t)
    ensures s == t
    decreases |s|
  {
    if s != [] {
      var rest := s[0].next;
      assert IsList(rest, s[1..]) by { TailIsList(first, s); }
      assert IsList(rest, t[1..]) by { TailIsList(first, t); }
      SameItems(rest, s[1..], t[1..]);
      assert s == [s[0]] + s[1..] && t == [t[0]] + t[1..];
    }
  }

  lemma TailIsList(first: Item?, s: seq<Item>)
    requires IsList(first, s) && s != []
    ensures IsList(s[0].next, s[1..])
  {
  }

  /** llist_add: `toAdd` may be the head of a whole chain. */
  method Add(first: Item?, toAdd: Item?, ghost s: seq<Item>, ghost t: seq<Item>) returns (head: Item?)
    requires IsList(first, s) && IsList(toAdd, t)
    requires forall i, j :: 0 <= i < |s| && 0 <= j < |t| ==> s[i] != t[j]
    modifies set x | x in s && x == s[|s| - 1]
    ensures IsList(head, s + t)
  {
    if first == null {
      assert s + t == t;
      return toAdd;
    }
    var item: Item := first;
    ghost var i := 0;
    while item.next != null
      invariant i < |s| && item == s[i]
      decreases |s| - i
    {
      item := item.next;
      i := i + 1;
    }
    item.next := toAdd;
    head := first;
  }

  /** llist_prepend. */
  method Prepend(first: Item?, toAdd: Item, ghost s: seq<Item>) returns (head: Item)
    requires IsList(first, s) && toAdd !in s
    modifies toAdd
    ensures IsList(head, [toAdd] + s)
  {
    head := toAdd;
    toAdd.next := first;
  }

  /** llist_remove. Whether or not `toDel` is in the list, its `next` is cleared. */
  method Remove(first: Item?, toDel: Item, ghost s: seq<Item>, ghost k: nat) returns (head: Item?)
    requires IsList(first, s) && k <= |s|
    requires if k < |s| then s[k] == toDel else toDel !in s
    modifies toDel, set x | x in s && k > 0 && k < |s| && x == s[k - 1]
    ensures IsList(head, if k < |s| then s[..k] + s[k + 1..] else s)
    ensures toDel.next == null
  {
    head := first;
    if toDel == first {
      assert k == 0;
      head := toDel.next;
    } else {
      var item := first;
      ghost var i := 0;
      while item != null
        invariant i <= |s| && item == At(s, i)
        invariant k < |s| ==> i < k
        invariant forall j :: 0 <= j < |s| ==> s[j].next == At(s, j + 1)
        decreases |s| - i
      {
        if item.next == toDel {
          item.next := toDel.next;
          break;
        }
        item := item.next;
        i := i + 1;
      }
    }
    toDel.next := null;
    if k < |s| {
      Unlinked(head, s, k);
    }
  }

  /** The links of a list from which item `k` has been taken out. */
  lemma Unlinked(head: Item?, s: seq<Item>, k: nat)
    requires k < |s| && forall i, j :: 0 <= i < j < |s| ==> s[i] != s[j]
    requires head == if k == 0 then At(s, 1) else s[0]
    requires forall i :: 0 <= i < |s| && i != k ==> s[i].next == if i + 1 == k then At(s, k + 1) else At(s, i + 1)
    ensures IsList(head, s[..k] + s[k + 1..])
  {
    var t := s[..k] + s[k + 1..];
    assert forall i :: 0 <= i < |t| ==> t[i] == s[if i < k then i else i + 1];
    forall i | 0 <= i < |t| ensures t[i].next == At(t, i + 1) {
      assert t[i] == s[if i < k then i else i + 1];
    }
  }

  /** How choose_block_to_vote sets a block aside: out of one list, onto the end of
      the other. Adding the second list to the first brings all of them back. */
  method SetAside(first: Item?, aside: Item?, block: Item, ghost s: seq<Item>, ghost e: seq<Item>, ghost k: nat)
    returns (head: Item?, asideHead: Item?)
    requires IsList(first, s) && IsList(aside, e) && k < |s| && s[k] == block
    requires forall i, j :: 0 <= i < |s| && 0 <= j < |e| ==> s[i] != e[j]
    modifies block, set x | x in s && k > 0 && x == s[k - 1], set x | x in e && x == e[|e| - 1]
    ensures IsList(head, s[..k] + s[k + 1..]) && IsList(asideHead, e + [block])
    ensures multiset((s[..k] + s[k + 1..]) + (e + [block])) == multiset(s + e)
  {
    ghost var rest := s[..k] + s[k + 1..];
    RestDiffers(s, e, k);
    head := Remove(first, block, s, k);
    assert IsList(block, [block]);
    asideHead := Add(aside, block, e, [block]);
    MovedOver(s, e, k);
  }

  /** The items that stay are neither the one that moves nor among those set aside. */
  lemma RestDiffers(s: seq<Item>, e: seq<Item>, k: nat)
    requires k < |s| && forall i, j :: 0 <= i < j < |s| ==> s[i] != s[j]
    requires forall i, j :: 0 <= i < |s| && 0 <= j < |e| ==> s[i] != e[j]
    ensures forall x :: x in s[..k] + s[k + 1..] ==> x != s[k] && x !in e
  {
  }

  lemma MovedOver<T>(s: seq<T>, e: seq<T>, k: nat)
    requires k < |s|
    ensures multiset((s[..k] + s[k + 1..]) + (e + [s[k]])) == multiset(s + e)
  {
    assert s == s[..k] + [s[k]] + s[k + 1..];
  }
}
