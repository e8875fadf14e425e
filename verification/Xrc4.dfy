/** The XRC4 stream cipher (core/xrc4.c): the s-box stays a permutation of 0..255, and
    encryption undoes itself, also in place. */
module Xrc4 {
  import opened Common
  import opened Bits

  predicate Permutation(s: seq<Byte>) {
    |s| == 256 && forall i, j :: 0 <= i < j < 256 ==> s[i] != s[j]
  }

  /** xrc4_coprime: an odd step that is not the last one used. */
  function Coprime(x: Byte, lastUsed: nat): Byte {
    var c := Xor(if x % 2 == 1 then x else x + 57, 96) % 256;
    if c == lastUsed then (c + 2) % 256 else c
  }

  lemma OddByte(c: nat)
    requires c % 2 == 1
    ensures c % 256 % 2 == 1 && (c % 256 + 2) % 256 % 2 == 1
  {
  }

  lemma CoprimeIsOdd(x: Byte, lastUsed: nat)
    ensures Coprime(x, lastUsed) % 2 == 1 && Coprime(x, lastUsed) != lastUsed
  {
    var y := if x % 2 == 1 then x else x + 57;
    XorBits(y, 96);
    OddByte(Xor(y, 96));
  }

  function Swap(s: seq<Byte>, i: nat, j: nat): (r: seq<Byte>)
    requires i < |s| && j < |s|
    ensures |r| == |s|
  {
    s[i := s[j]][j := s[i]]
  }

  lemma SwapKeeps(s: seq<Byte>, i: nat, j: nat)
    requires Permutation(s) && i < 256 && j < 256
    ensures Permutation(Swap(s, i, j))
  {
  }

  // ---- the odd step visits every index ----

  /** The index after `k + 1` steps. */
  function Visit(step: nat, k: nat): (i: nat)
    ensures i < 256
  {
    (k + 1) * step % 256
  }

  lemma Twice(a: nat, b: nat)
    ensures (2 * a) * b == 2 * (a * b) && a * (2 * b) == 2 * (a * b)
  {
  }

  lemma OddTimes(m: nat, h: nat)
    ensures m * (2 * h + 1) == 2 * (m * h) + m
  {
  }

  /** What an odd number times `m` is divisible by, `m` is divisible by. */
  lemma {:induction false} OddFactor(m: nat, q: nat, h: nat, n: nat)
    requires m * (2 * h + 1) == q * Pow2(n)
    ensures exists r: nat :: m == r * Pow2(n)
    decreases n
  {
    if n == 0 {
      assert m == m * Pow2(0);
    } else {
      var p := Pow2(n - 1);
      Twice(q, p);
      OddTimes(m, h);
      var m1 := m / 2;
      assert m == 2 * m1;
      Twice(m1, 2 * h + 1);
      OddFactor(m1, q, h, n - 1);
      var r: nat :| m1 == r * p;
      Twice(r, p);
      assert m == r * Pow2(n);
    }
  }

  lemma VisitsOnce(step: Byte, k: nat, l: nat)
    requires step % 2 == 1 && k < l < 256
    ensures Visit(step, k) != Visit(step, l)
  {
    if Visit(step, k) == Visit(step, l) {
      var a, b, m := (k + 1) * step, (l + 1) * step, l - k;
      TimesDifference(k, m, step);
      SameRemainder(a, b);
      var q := b / 256 - a / 256;
      Pow2Is256();
      OddFactor(m, q, step / 2, 8);
      var r: nat :| m == r * Pow2(8);
      TooSmall(m, r);
    }
  }

  lemma TimesDifference(k: nat, m: nat, step: nat)
    requires m > 0
    ensures m * step >= 0 && (k + m + 1) * step == (k + 1) * step + m * step
  {
  }

  lemma SameRemainder(a: nat, b: nat)
    requires a <= b && a % 256 == b % 256
    ensures b - a == (b / 256 - a / 256) * 256 && b / 256 >= a / 256
  {
  }

  lemma TooSmall(m: nat, r: nat)
    requires m == r * Pow2(8)
    ensures m == 0 || m >= 256
  {
    Pow2Is256();
  }

  lemma Pow2Is256()
    ensures Pow2(8) == 256
  {
  }

  function VisitedBy(step: nat, n: nat): set<nat> {
    set k | 0 <= k < n :: Visit(step, k)
  }

  lemma {:induction false} VisitedCount(step: Byte, n: nat)
    requires step % 2 == 1 && n <= 256
    ensures |VisitedBy(step, n)| == n
    decreases n
  {
    if n == 0 {
      assert VisitedBy(step, 0) == {};
    } else {
      VisitedCount(step, n - 1);
      assert VisitedBy(step, n) == VisitedBy(step, n - 1) + {Visit(step, n - 1)};
      if Visit(step, n - 1) in VisitedBy(step, n - 1) {
        var k :| 0 <= k < n - 1 && Visit(step, k) == Visit(step, n - 1);
        VisitsOnce(step, k, n - 1);
      }
    }
  }

  function Below(n: nat): (r: set<nat>)
    ensures forall i: nat :: i in r <==> i < n
  {
    if n == 0 then {} else Below(n - 1) + {n - 1}
  }

  lemma {:induction false} BelowCount(n: nat)
    ensures |Below(n)| == n
    decreases n
  {
    if n > 0 {
      BelowCount(n - 1);
    }
  }

  lemma VisitsAll(step: Byte, i: nat)
    requires step % 2 == 1 && i < 256
    ensures exists k :: 0 <= k < 256 && Visit(step, k) == i
  {
    VisitedCount(step, 256);
    BelowCount(256);
    assert VisitedBy(step, 256) <= Below(256);
    if i !in VisitedBy(step, 256) {
      assert VisitedBy(step, 256) <= Below(256) - {i};
      SubsetSize(VisitedBy(step, 256), Below(256) - {i});
    }
  }

  /** Writing 0, 1, 2, ... at the visited indices gives a permutation. */
  lemma FilledIsPermutation(step: Byte, s: seq<Byte>)
    requires step % 2 == 1 && |s| == 256 && forall k :: 0 <= k < 256 ==> s[Visit(step, k)] == k
    ensures Permutation(s)
  {
    forall i, j | 0 <= i < j < 256 ensures s[i] != s[j] {
      VisitsAll(step, i);
      VisitsAll(step, j);
      var k :| 0 <= k < 256 && Visit(step, k) == i;
      var l :| 0 <= l < 256 && Visit(step, l) == j;
    }
  }

  /** The box after the first `n` writes. */
  function Filling(step: nat, n: nat): (s: seq<Byte>)
    requires n <= 256
    ensures |s| == 256
    decreases n, step
  {
    if n == 0 then seq(256, _ => 0) else Filling(step, n - 1)[Visit(step, n - 1) := n - 1]
  }

  lemma {:induction false} FillingAt(step: Byte, n: nat, k: nat)
    requires step % 2 == 1 && k < n <= 256
    ensures Filling(step, n)[Visit(step, k)] == k
    decreases n
  {
    if k < n - 1 {
      VisitsOnce(step, k, n - 1);
      FillingAt(step, n - 1, k);
    }
  }

  /** What the box held before does not matter. */
  lemma FillingIs(step: Byte, s: seq<Byte>, n: nat)
    requires step % 2 == 1 && n == 256 == |s| && forall k :: 0 <= k < 256 ==> s[Visit(step, k)] == k
    ensures s == Filling(step, n)
  {
    forall i | 0 <= i < 256 ensures s[i] == Filling(step, n)[i] {
      VisitsAll(step, i);
      var k :| 0 <= k < 256 && Visit(step, k) == i;
      FillingAt(step, n, k);
    }
  }

  // ---- the key schedule ----

  function Add(a: nat, b: nat): Byte { (a + b) % 256 }

  /** A box and the two indices into it. */
  datatype Cursor = Cursor(s: seq<Byte>, i: nat, j: nat)

  predicate InBox(c: Cursor) {
    |c.s| == 256 && c.i < 256 && c.j < 256
  }

  /** Move to `i` and `j` and swap there. */
  function SwapAt(c: Cursor, i: Byte, j: Byte): (r: Cursor)
    requires InBox(c)
    ensures InBox(r)
  {
    Cursor(Swap(c.s, i, j), i, j)
  }

  function KeyStep(c: Cursor, key: seq<Byte>, step: Byte): (r: Cursor)
    requires InBox(c) && key != []
    ensures InBox(r)
  {
    var i := Add(c.i, step);
    SwapAt(c, i, Add(c.j + key[i % |key|], c.s[i]))
  }

  /** The swaps of xrc4_init after the box is filled. */
  function KeyMix(c: Cursor, key: seq<Byte>, step: Byte, n: nat): (r: Cursor)
    requires InBox(c) && key != []
    ensures InBox(r)
    decreases n, c
  {
    if n == 0 then c else KeyMix(KeyStep(c, key, step), key, step, n - 1)
  }

  lemma {:induction false} KeyMixKeeps(c: Cursor, key: seq<Byte>, step: Byte, n: nat)
    requires InBox(c) && Permutation(c.s) && key != []
    ensures Permutation(KeyMix(c, key, step, n).s)
    decreases n
  {
    if n > 0 {
      var i := Add(c.i, step);
      SwapKeeps(c.s, i, Add(c.j + key[i % |key|], c.s[i]));
      KeyMixKeeps(KeyStep(c, key, step), key, step, n - 1);
    }
  }

  method SwapIn(s: array<Byte>, i: nat, j: nat)
    requires s.Length == 256 && i < 256 && j < 256
    modifies s
    ensures s[..] == Swap(old(s[..]), i, j)
  {
    var temp := s[i];
    s[i] := s[j];
    s[j] := temp;
  }

  const SWAPS: nat := 256

  /** The box that xrc4_init makes of a key. */
  function BoxOf(key: seq<Byte>): (s: seq<Byte>)
    requires key != []
    ensures |s| == 256
  {
    var step := Coprime(key[0], 0);
    KeyMix(Cursor(Filling(step, SWAPS), 0, 0), key, Coprime(key[1 % |key|], step), 3 * SWAPS).s
  }

  /** xrc4_init: whatever the box held before, it becomes a permutation that depends
      only on the key. */
  method Init(key: seq<Byte>, sbox: array<Byte>)
    requires key != [] && sbox.Length == 256
    modifies sbox
    ensures sbox[..] == BoxOf(key) && Permutation(sbox[..])
  {
    var step := Coprime(key[0], 0);
    CoprimeIsOdd(key[0], 0);
    Fill(step, sbox);
    FilledIsPermutation(step, sbox[..]);
    FillingIs(step, sbox[..], SWAPS);
    step := Coprime(key[1 % |key|], step);
    MixKey(key, step, sbox, 3 * SWAPS);
  }

  method MixKey(key: seq<Byte>, step: Byte, sbox: array<Byte>, count: nat)
    requires key != [] && sbox.Length == 256
    modifies sbox
    ensures sbox[..] == KeyMix(Cursor(old(sbox[..]), 0, 0), key, step, count).s
    ensures Permutation(old(sbox[..])) ==> Permutation(sbox[..])
  {
    ghost var start := Cursor(sbox[..], 0, 0);
    ghost var goal := KeyMix(start, key, step, count);
    if Permutation(sbox[..]) {
      KeyMixKeeps(start, key, step, count);
    }
    var i: Byte, j: Byte := 0, 0;
    ghost var c := start;
    for n := 0 to count
      invariant InBox(c) && c == Cursor(sbox[..], i, j)
      invariant KeyMix(c, key, step, count - n) == goal
    {
      i, j := KeySwap(key, step, sbox, i, j);
      c := KeyStep(c, key, step);
    }
  }

  method KeySwap(key: seq<Byte>, step: Byte, sbox: array<Byte>, i0: Byte, j0: Byte) returns (i: Byte, j: Byte)
    requires key != [] && sbox.Length == 256
    modifies sbox
    ensures Cursor(sbox[..], i, j) == KeyStep(Cursor(old(sbox[..]), i0, j0), key, step)
  {
    i := Add(i0, step);
    j := Add(j0 + key[i % |key|], sbox[i]);
    SwapIn(sbox, i, j);
  }

  method Fill(step: Byte, sbox: array<Byte>)
    requires step % 2 == 1 && sbox.Length == 256
    modifies sbox
    ensures forall k :: 0 <= k < 256 ==> sbox[Visit(step, k)] == k
  {
    var i := 0;
    for n := 0 to 256
      invariant i == n * step % 256
      invariant forall k :: 0 <= k < n ==> sbox[Visit(step, k)] == k
    {
      NextVisit(step, n);
      i := (i + step) % 256;
      forall k | 0 <= k < n ensures Visit(step, k) != i {
        VisitsOnce(step, k, n);
      }
      sbox[i] := n;
    }
  }

  lemma NextVisit(step: nat, n: nat)
    ensures (n * step % 256 + step) % 256 == Visit(step, n)
  {
  }

  // ---- encryption ----

  /** One swap with the IV; without one, the current box takes its place. */
  function IvStep(c: Cursor, iv: seq<Byte>, step: Byte): (r: Cursor)
    requires InBox(c)
    ensures InBox(r)
  {
    var i := Add(c.i, step);
    SwapAt(c, i, Add(c.j + (if iv == [] then c.s[c.j] else iv[c.j % |iv|]), c.s[i]))
  }

  function IvMix(c: Cursor, iv: seq<Byte>, step: Byte, n: nat): (r: Cursor)
    requires InBox(c)
    ensures InBox(r)
    decreases n, c
  {
    if n == 0 then c else IvMix(IvStep(c, iv, step), iv, step, n - 1)
  }

  function StreamStep(c: Cursor, step: Byte): (r: Cursor)
    requires InBox(c)
    ensures InBox(r)
  {
    var i := Add(c.i, step);
    SwapAt(c, i, Add(c.j, c.s[i]))
  }

  /** The key byte that the box yields where it stands. */
  function Output(c: Cursor): Byte
    requires InBox(c)
  {
    c.s[Add(c.s[c.i], c.s[c.j])]
  }

  function After(c: Cursor, step: Byte, n: nat): (r: Cursor)
    requires InBox(c)
    ensures InBox(r)
    decreases n, c
  {
    if n == 0 then c else StreamStep(After(c, step, n - 1), step)
  }

  /** The box and cursor before the first byte, and the step of the stream. */
  function Ready(sbox: seq<Byte>, iv: seq<Byte>, counter: nat): (r: (Cursor, Byte))
    requires |sbox| == 256
    ensures InBox(r.0)
  {
    var step := Coprime(if iv == [] then sbox[0] else iv[0], 0);
    var mixed := IvMix(Cursor(sbox, counter / 0x1_0000 % 256, counter / 0x100_0000 % 256), iv, step, SWAPS);
    var i := counter % 256;
    (Cursor(mixed.s, i, counter / 0x100 % 256), Coprime(i, step))
  }

  /** The key stream: it does not depend on the text. */
  function Stream(sbox: seq<Byte>, iv: seq<Byte>, counter: nat, n: nat): Byte
    requires |sbox| == 256
  {
    var r := Ready(sbox, iv, counter);
    Output(After(r.0, r.1, n + 1))
  }

  lemma ByteXor(a: Byte, b: Byte)
    ensures Xor(a, b) < 256
  {
    Pow2Is256();
    XorBound(a, b, 8);
  }

  function Encrypted(text: seq<Byte>, sbox: seq<Byte>, iv: seq<Byte>, counter: nat): (r: seq<nat>)
    requires |sbox| == 256
    ensures |r| == |text|
  {
    seq(|text|, n requires 0 <= n < |text| => Xor(text[n], Stream(sbox, iv, counter, n)))
  }

  /** Decryption is encryption: with the same box, IV and counter it gives the text back. */
  lemma UndoesItself(text: seq<Byte>, cipher: seq<Byte>, sbox: seq<Byte>, iv: seq<Byte>, counter: nat)
    requires |sbox| == 256 && cipher == Encrypted(text, sbox, iv, counter)
    ensures Encrypted(cipher, sbox, iv, counter) == text
  {
    forall n | 0 <= n < |text| ensures Encrypted(cipher, sbox, iv, counter)[n] == text[n] {
      XorUndoes(text[n], Stream(sbox, iv, counter, n));
    }
  }

  /** The working box is a permutation before every byte, too. */
  lemma {:induction false} StreamKeeps(c: Cursor, step: Byte, n: nat)
    requires InBox(c) && Permutation(c.s)
    ensures Permutation(After(c, step, n).s)
    decreases n
  {
    if n > 0 {
      StreamKeeps(c, step, n - 1);
      var b := After(c, step, n - 1);
      var i := Add(b.i, step);
      SwapKeeps(b.s, i, Add(b.j, b.s[i]));
    }
  }

  /** xrc4_crypt: `out` and `text` may be the same buffer; `sbox` is only read. */
  method Crypt(out: array<Byte>, text: array<Byte>, len: nat, sbox: array<Byte>, iv: seq<Byte>, counter: nat)
    requires len <= out.Length && len <= text.Length && sbox.Length == 256 && out != sbox
    modifies out
    ensures out[..len] == Encrypted(old(text[..len]), sbox[..], iv, counter)
    ensures out[len..] == old(out[len..])
  {
    var s := new Byte[256](_ => 0);
    forall k | 0 <= k < 256 {
      s[k] := sbox[k];
    }
    assert s[..] == sbox[..];
    var step := Coprime(if iv == [] then s[0] else iv[0], 0);
    MixIv(s, iv, step, counter / 0x1_0000 % 256, counter / 0x100_0000 % 256);
    var i := counter % 256;
    step := Coprime(i, step);
    XorStream(out, text, len, s, i, counter / 0x100 % 256, step, sbox[..], iv, counter);
  }

  method MixIv(s: array<Byte>, iv: seq<Byte>, step: Byte, i0: Byte, j0: Byte)
    requires s.Length == 256
    modifies s
    ensures s[..] == IvMix(Cursor(old(s[..]), i0, j0), iv, step, SWAPS).s
  {
    var i, j := i0, j0;
    ghost var goal := IvMix(Cursor(s[..], i, j), iv, step, SWAPS);
    ghost var c := Cursor(s[..], i, j);
    for n := 0 to SWAPS
      invariant InBox(c) && c == Cursor(s[..], i, j) && IvMix(c, iv, step, SWAPS - n) == goal
    {
      i, j := IvSwap(s, iv, step, i, j);
      c := IvStep(c, iv, step);
    }
  }

  method IvSwap(s: array<Byte>, iv: seq<Byte>, step: Byte, i0: Byte, j0: Byte) returns (i: Byte, j: Byte)
    requires s.Length == 256
    modifies s
    ensures Cursor(s[..], i, j) == IvStep(Cursor(old(s[..]), i0, j0), iv, step)
  {
    i := Add(i0, step);
    j := Add(j0 + (if iv == [] then s[j0] else iv[j0 % |iv|]), s[i]);
    SwapIn(s, i, j);
  }

  method StreamSwap(s: array<Byte>, step: Byte, i0: Byte, j0: Byte) returns (i: Byte, j: Byte, k: Byte)
    requires s.Length == 256
    modifies s
    ensures var c := StreamStep(Cursor(old(s[..]), i0, j0), step);
            Cursor(s[..], i, j) == c && k == Output(c)
  {
    i := Add(i0, step);
    j := Add(j0, s[i]);
    SwapIn(s, i, j);
    k := s[Add(s[i], s[j])];
  }

  /** One byte of the text; it is read before its place is written. */
  method XorByte(out: array<Byte>, text: array<Byte>, n: nat, s: array<Byte>, i0: Byte, j0: Byte, step: Byte)
    returns (i: Byte, j: Byte)
    requires n < out.Length && n < text.Length && s.Length == 256 && s != out && s != text
    modifies out, s
    ensures var c := StreamStep(Cursor(old(s[..]), i0, j0), step);
            Cursor(s[..], i, j) == c && out[n] == Xor(old(text[n]), Output(c))
    ensures forall k :: 0 <= k < out.Length && k != n ==> out[k] == old(out[k])
  {
    var key;
    i, j, key := StreamSwap(s, step, i0, j0);
    ByteXor(text[n], key);
    out[n] := Xor(text[n], key);
  }

  /** The encryption loop. */
  method XorStream(out: array<Byte>, text: array<Byte>, len: nat, s: array<Byte>, i0: Byte, j0: Byte, step: Byte,
                   ghost box: seq<Byte>, ghost iv: seq<Byte>, ghost counter: nat)
    requires len <= out.Length && len <= text.Length && s.Length == 256 && s != out && s != text
    requires |box| == 256 && Ready(box, iv, counter) == (Cursor(s[..], i0, j0), step)
    modifies out, s
    ensures out[..len] == Encrypted(old(text[..len]), box, iv, counter)
    ensures out[len..] == old(out[len..])
  {
    var i, j := i0, j0;
    ghost var start := Cursor(s[..], i, j);
    ghost var c := start;
    for n := 0 to len
      invariant InBox(c) && c == Cursor(s[..], i, j) && c == After(start, step, n)
      invariant forall k :: 0 <= k < n ==> out[k] == Xor(old(text[k]), Stream(box, iv, counter, k))
      invariant forall k :: n <= k < text.Length ==> text[k] == old(text[k])
      invariant forall k :: n <= k < out.Length ==> out[k] == old(out[k])
    {
      assert c == Cursor(s[..], i, j);
      i, j := XorByte(out, text, n, s, i, j, step);
      c := StreamStep(c, step);
      assert Output(c) == Stream(box, iv, counter, n);
    }
  }

  const COUNTER: nat := 0x1122_3344

  /** xrc4_basic_crypt: the key serves as IV, too. */
  method BasicCrypt(out: array<Byte>, text: array<Byte>, len: nat, key: seq<Byte>)
    requires key != [] && len <= out.Length && len <= text.Length
    modifies out
    ensures out[..len] == Encrypted(old(text[..len]), BoxOf(key), key, COUNTER)
    ensures out[len..] == old(out[len..])
  {
    var sbox := new Byte[256](_ => 0);
    Init(key, sbox);
    Crypt(out, text, len, sbox, key, COUNTER);
  }

  /** Encrypting a buffer in place twice with the same key leaves it as it was. */
  method TwiceInPlace(buf: array<Byte>, key: seq<Byte>)
    requires key != []
    modifies buf
    ensures buf[..] == old(buf[..])
  {
    ghost var text := buf[..];
    assert buf[..buf.Length] == text;
    BasicCrypt(buf, buf, buf.Length, key);
    ghost var cipher := buf[..];
    assert buf[..buf.Length] == cipher;
    UndoesItself(text, cipher, BoxOf(key), key, COUNTER);
    BasicCrypt(buf, buf, buf.Length, key);
    assert buf[..buf.Length] == buf[..];
  }

  // ---- the rounds of the cipher ----

  predicate Swapped(s: seq<Byte>, t: seq<Byte>, i: nat, j: nat) {
    |s| == |t| == 256 && i < 256 && j < 256 && t[i] == s[j] && t[j] == s[i]
    && forall k :: 0 <= k < 256 && k != i && k != j ==> t[k] == s[k]
  }

  /** The first index moves on by the step, the second by the box there and `add`, and the
      bytes at both are swapped. */
  predicate Round(c: Cursor, d: Cursor, step: Byte, add: nat) {
    d.i == (c.i + step) % 256 && |c.s| == 256 && d.j == (c.j + add + c.s[d.i]) % 256 && Swapped(c.s, d.s, d.i, d.j)
  }

  lemma {:induction false} KeyMixMore(c: Cursor, key: seq<Byte>, step: Byte, n: nat)
    requires InBox(c) && key != []
    ensures KeyMix(c, key, step, n + 1) == KeyStep(KeyMix(c, key, step, n), key, step)
    decreases n
  {
    if n > 0 {
      KeyMixMore(KeyStep(c, key, step), key, step, n - 1);
    }
  }

  lemma {:induction false} IvMixMore(c: Cursor, iv: seq<Byte>, step: Byte, n: nat)
    requires InBox(c)
    ensures IvMix(c, iv, step, n + 1) == IvStep(IvMix(c, iv, step, n), iv, step)
    decreases n
  {
    if n > 0 {
      IvMixMore(IvStep(c, iv, step), iv, step, n - 1);
    }
  }

  /** Every round of the key schedule adds the byte of the key at the first index. */
  lemma KeyRounds(c: Cursor, key: seq<Byte>, step: Byte, n: nat)
    requires InBox(c) && key != []
    ensures var d := KeyMix(c, key, step, n + 1); Round(KeyMix(c, key, step, n), d, step, key[d.i % |key|])
  {
    KeyMixMore(c, key, step, n);
  }

  /** Every round with the IV adds its byte at the second index, or that of the box when
      there is no IV. */
  lemma IvRounds(c: Cursor, iv: seq<Byte>, step: Byte, n: nat)
    requires InBox(c)
    ensures var b := IvMix(c, iv, step, n);
            Round(b, IvMix(c, iv, step, n + 1), step, if iv == [] then b.s[b.j] else iv[b.j % |iv|])
  {
    IvMixMore(c, iv, step, n);
  }

  /** Every byte of the key stream takes one more round, which adds nothing, and is the byte
      of the box at the sum of the two that were swapped. */
  lemma StreamRounds(c: Cursor, step: Byte, n: nat)
    requires InBox(c)
    ensures var d := After(c, step, n + 1);
            Round(After(c, step, n), d, step, 0) && Output(d) == d.s[(d.s[d.i] as int + d.s[d.j]) % 256]
  {
  }

  /** The indices of the stream start at the two low bytes of the counter, in the box that
      the rounds with the IV leave; those start at its two high bytes. */
  lemma StreamStarts(sbox: seq<Byte>, iv: seq<Byte>, counter: nat)
    requires |sbox| == 256 && iv != []
    ensures var (start, step) := Ready(sbox, iv, counter);
            var mixed := Cursor(sbox, counter / 65536 % 256, counter / 65536 / 256 % 256);
            start == Cursor(IvMix(mixed, iv, Coprime(iv[0], 0), 256).s, counter % 256, counter / 256 % 256)
  {
    Quarter(counter);
  }

  lemma Quarter(counter: nat)
    ensures counter / 65536 / 256 == counter / 0x100_0000
  {
  }
}
