/** The growable array of fixed-size items (common/array.c). Its capacity and length
    are 16-bit header fields. */
module GrowableArray {
  import opened Common

  const FIELD := 0x1_0000

  type Compare<!T> = (T, T) -> int

  /** Where the scan of array_insert_ex stops: at an equal item or before a larger one. */
  function Position<T>(s: seq<T>, cmp: Compare<T>, x: T, from: nat): (i: nat)
    requires from <= |s|
    ensures from <= i <= |s|
    ensures forall j :: from <= j < i ==> cmp(s[j], x) > 0
    ensures i < |s| ==> cmp(s[i], x) <= 0
    decreases |s| - from
  {
    if from == |s| || cmp(s[from], x) <= 0 then from else Position(s, cmp, x, from + 1)
  }

  /** The items after an insertion that does not fail. `zero` fills skipped places. */
  function Inserted<T>(s: seq<T>, zero: T, x: T, i: nat, overwrite: bool): seq<T> {
    if i >= |s| then s + seq(i - |s|, _ => zero) + [x]
    else if overwrite then s[i := x]
    else s[..i] + [x] + s[i..]
  }

  /** The items place by place: the new one at `i`, those before it as they were, those from
      `i` on one further unless they are overwritten, and zeros in skipped places. */
  lemma InsertedIs<T>(s: seq<T>, zero: T, x: T, i: nat, overwrite: bool, k: nat)
    requires k < |Inserted(s, zero, x, i, overwrite)|
    ensures |Inserted(s, zero, x, i, overwrite)|
         == if i >= |s| then i + 1 else if overwrite then |s| else |s| + 1
    ensures Inserted(s, zero, x, i, overwrite)[k]
         == if k == i then x else if k < i then (if k < |s| then s[k] else zero)
            else if overwrite then s[k] else s[k - 1]
  {
  }

  const ARRAY_EXISTS: int := -3

  datatype Insertion = At(index: nat, overwrite: bool) | Exists

  /** What array_insert_ex is going to do. */
  function Decide<T>(s: seq<T>, x: T, pos: int, cmp: Option<Compare<T>>, replace: bool): Insertion {
    match cmp
    case Some(c) =>
      var i := Position(s, c, x, 0);
      if i < |s| && c(s[i], x) == 0 then (if replace then At(i, true) else Exists) else At(i, false)
    case None =>
      if pos < 0 then At(|s|, replace) else At(pos, replace)
  }

  function Outcome<T>(s: seq<T>, zero: T, x: T, d: Insertion): seq<T> {
    if d.Exists? then s else Inserted(s, zero, x, d.index, d.overwrite)
  }

  /** The places after the growth step of an insertion. */
  function Capacity(pos: int, used: nat, alloc: nat): nat {
    if pos >= alloc then pos + 1 else if used == alloc then 2 * alloc else alloc
  }

  class Array<T(0)> {
    var mem: array<T>
    var alloc: nat
    var used: nat
    const zero: T

    /** The capacity field is the number of items there is room for. */
    ghost predicate Valid()
      reads this
    {
      used <= alloc == mem.Length < FIELD
    }

    function Items(): seq<T>
      requires used <= mem.Length
      reads this, mem
    {
      mem[..used]
    }

    constructor (numItems: nat, zero: T)
      requires numItems < FIELD
      ensures Valid() && fresh(mem) && Items() == [] && alloc == numItems && this.zero == zero
    {
      mem := new T[numItems](_ => zero);
      alloc, used := numItems, 0;
      this.zero := zero;
    }

    /** The growth step: doubling, or room for `pos`. The new capacity is stored in 16 bits. */
    method Grow(pos: int)
      requires Valid()
      modifies this`mem, this`alloc
      ensures used <= mem.Length && Items() == old(Items()) && (mem == old(mem) || fresh(mem))
      ensures mem.Length == Capacity(pos, used, old(alloc))
      ensures alloc == mem.Length % FIELD
    {
      if used == alloc || pos >= alloc {
        var size := if pos >= alloc then pos + 1 else alloc * 2;
        var bigger := new T[size](_ => zero);
        forall k | 0 <= k < used {
          bigger[k] := mem[k];
        }
        assert bigger[..used] == mem[..used];
        mem, alloc := bigger, size % FIELD;
      }
    }

    method Scan(c: Compare<T>, x: T) returns (i: nat)
      requires used <= mem.Length
      ensures i == Position(Items(), c, x, 0)
    {
      i := 0;
      while i < used && c(mem[i], x) > 0
        invariant i <= used && Position(Items(), c, x, 0) == Position(Items(), c, x, i)
      {
        i := i + 1;
      }
    }

    /** The end of array_insert_ex: shift, clear or extend, then store. The number of
        items is stored in 16 bits. */
    method Put(x: T, i: nat, overwrite: bool)
      requires used <= mem.Length && i < mem.Length && (i < used && !overwrite ==> used < mem.Length)
      modifies this`used, mem
      ensures var t := Inserted(old(Items()), zero, x, i, overwrite);
              used == |t| % FIELD && used <= mem.Length && Items() == t[..used]
    {
      ghost var s := Items();
      var count := used;
      if i < used && !overwrite {
        forall k | i <= k < used {
          mem[k + 1] := mem[k];
        }
        count := used + 1;
      } else if i > used {
        forall k | used <= k < i {
          mem[k] := zero;
        }
        count := i + 1;
      } else if i == used {
        count := used + 1;
      }
      mem[i] := x;
      ghost var t := Inserted(s, zero, x, i, overwrite);
      assert |t| == count <= mem.Length;
      assert forall k :: 0 <= k < count ==> mem[k] == t[k];
      used := count % FIELD;
    }

    /** Where the item goes: by comparison, at the end, or at a place. */
    method FindPlace(x: T, pos: int, cmp: Option<Compare<T>>, replace: bool) returns (d: Insertion)
      requires used <= mem.Length
      ensures d == Decide(Items(), x, pos, cmp, replace)
    {
      if cmp.None? {
        return if pos < 0 then At(used, replace) else At(pos, replace);
      }
      var i := Scan(cmp.value, x);
      if i < used && cmp.value(mem[i], x) == 0 {
        return if replace then At(i, true) else Exists;
      }
      return At(i, false);
    }

    /** array_insert_ex. An array of capacity 0 cannot be appended to: twice nothing is no
        room. */
    method InsertEx(x: T, pos: int, cmp: Option<Compare<T>>, replace: bool) returns (r: int)
      requires Valid() && (alloc > 0 || pos >= 0) && (cmp.Some? ==> pos == 0)
      modifies this, mem
      ensures var d := Decide(old(Items()), x, pos, cmp, replace);
              var t := Outcome(old(Items()), zero, x, d);
              r == (if d.At? then d.index else ARRAY_EXISTS)
              && used == |t| % FIELD && used <= mem.Length && Items() == t[..used]
      ensures mem == old(mem) || fresh(mem)
      ensures mem.Length == Capacity(pos, old(used), old(alloc))
      ensures alloc == mem.Length % FIELD
    {
      Grow(pos);
      var d := FindPlace(x, pos, cmp, replace);
      if d.Exists? {
        return ARRAY_EXISTS;
      }
      Put(x, d.index, d.overwrite);
      r := d.index;
    }

    /** array_find with a comparison to an item. */
    method Find(c: Compare<T>, x: T) returns (r: int)
      requires used <= mem.Length
      ensures -1 <= r < used
      ensures r >= 0 ==> c(Items()[r], x) == 0 && forall j :: 0 <= j < r ==> c(Items()[j], x) != 0
      ensures r < 0 ==> forall j :: 0 <= j < used ==> c(Items()[j], x) != 0
    {
      for i := 0 to used
        invariant forall j :: 0 <= j < i ==> c(Items()[j], x) != 0
      {
        if c(mem[i], x) == 0 {
          return i;
        }
      }
      r := -1;
    }

    /** array_remove: the first equal item, if any. */
    method Remove(c: Compare<T>, x: T) returns (ghost r: int)
      requires used <= mem.Length
      modifies this`used, mem
      ensures used <= mem.Length && -1 <= r < old(used)
      ensures if r < 0 then Items() == old(Items()) && (forall j :: 0 <= j < used ==> c(Items()[j], x) != 0)
              else c(old(Items())[r], x) == 0 && (forall j :: 0 <= j < r ==> c(old(Items())[j], x) != 0)
                   && Items() == old(Items())[..r] + old(Items())[r + 1..]
    {
      var p := Find(c, x);
      r := p;
      if p < 0 {
        return;
      }
      ghost var s := Items();
      if p < used - 1 {
        forall k | p <= k < used - 1 {
          mem[k] := mem[k + 1];
        }
      }
      used := used - 1;
      ghost var t := s[..p] + s[p + 1..];
      assert forall k :: 0 <= k < used ==> mem[k] == t[k];
    }
  }
}
