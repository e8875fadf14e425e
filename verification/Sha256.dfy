/** Streaming SHA-256 (common/sha256.c) over any compression function: any split into
    updates gives the fold over the padded message of FIPS 180-4, section 5.1.1. */
module Sha256 {
  import opened Common

  const M64 := 0x1_0000_0000_0000_0000

  datatype Chain = Chain(a: Word, b: Word, c: Word, d: Word, e: Word, f: Word, g: Word, h: Word)

  type Compress = (Chain, seq<Byte>) -> Chain

  const INITIAL := Chain(0x6a09e667, 0xbb67ae85, 0x3c6ef372, 0xa54ff53a, 0x510e527f, 0x9b05688c, 0x1f83d9ab, 0x5be0cd19)

  /** The chaining value after `n` blocks of 64 bytes. */
  function Fold(f: Compress, s: seq<Byte>, n: nat): Chain
    requires |s| == 64 * n
  {
    if n == 0 then INITIAL else f(Fold(f, s[..64 * (n - 1)], n - 1), s[64 * (n - 1)..])
  }

  function Zeros(n: nat): (s: seq<Byte>)
    ensures |s| == n
  {
    seq(n, _ => 0)
  }

  /** 64 bits, most significant byte first. */
  function BigEndian(n: nat): (s: seq<Byte>)
    requires n < M64
    ensures |s| == 8
  {
    [n / 0x100_0000_0000_0000, n / 0x1_0000_0000_0000 % 256, n / 0x100_0000_0000 % 256, n / 0x1_0000_0000 % 256,
     n / 0x100_0000 % 256, n / 0x1_0000 % 256, n / 0x100 % 256, n % 256]
  }

  /** The blocks of a padded message of `n` bytes: the fewest that have room for the
      bit 1 and the 64-bit length. */
  function BlockCount(n: nat): (k: nat)
    ensures 64 * k >= n + 9 && 64 * k < n + 9 + 64
  {
    n / 64 + if n % 64 < 56 then 1 else 2
  }

  /** The padded message: a bit 1, zeros, and the length in bits as 64 bits. */
  function Padded(msg: seq<Byte>): (s: seq<Byte>)
    ensures |s| == 64 * BlockCount(|msg|)
  {
    msg + [0x80] + Zeros(64 * BlockCount(|msg|) - |msg| - 9) + BigEndian(8 * |msg| % M64)
  }

  function WordBytes(w: Word): seq<Byte> {
    [w / 0x100_0000, w / 0x1_0000 % 256, w / 0x100 % 256, w % 256]
  }

  function ChainBytes(c: Chain): (s: seq<Byte>)
    ensures |s| == 32
  {
    WordBytes(c.a) + WordBytes(c.b) + WordBytes(c.c) + WordBytes(c.d)
    + WordBytes(c.e) + WordBytes(c.f) + WordBytes(c.g) + WordBytes(c.h)
  }

  function Digest(f: Compress, msg: seq<Byte>): seq<Byte> {
    ChainBytes(Fold(f, Padded(msg), BlockCount(|msg|)))
  }

  // ---- the digest and the padding in numbers ----

  /** The four bytes from `i` on, the most significant first. */
  function WordAt(s: seq<Byte>, i: nat): nat
    requires i + 4 <= |s|
  {
    ((s[i] as int * 256 + s[i + 1]) * 256 + s[i + 2]) * 256 + s[i + 3]
  }

  function WordOf(c: Chain, i: nat): Word
    requires i < 8
  {
    if i == 0 then c.a else if i == 1 then c.b else if i == 2 then c.c else if i == 3 then c.d
    else if i == 4 then c.e else if i == 5 then c.f else if i == 6 then c.g else c.h
  }

  /** The 32 bytes are the eight words in order, each with its most significant byte first. */
  predicate Spells(s: seq<Byte>, c: Chain) {
    |s| == 32 && forall i :: 0 <= i < 8 ==> WordAt(s, 4 * i) == WordOf(c, i)
  }

  lemma WordIsRead(w: Word)
    ensures |WordBytes(w)| == 4 && WordAt(WordBytes(w), 0) == w
  {
    assert w / 0x100 == w / 0x1_0000 * 256 + w / 0x100 % 256;
    assert w / 0x1_0000 == w / 0x100_0000 * 256 + w / 0x1_0000 % 256;
  }

  lemma WordInside(a: seq<Byte>, w: seq<Byte>, b: seq<Byte>)
    requires |w| == 4
    ensures WordAt(a + w + b, |a|) == WordAt(w, 0)
  {
  }

  lemma WordOfChain(c: Chain, i: nat)
    requires i < 8
    ensures ChainBytes(c)[4 * i..4 * i + 4] == WordBytes(WordOf(c, i))
  {
  }

  lemma ChainSpells(c: Chain)
    ensures Spells(ChainBytes(c), c)
  {
    var s := ChainBytes(c);
    forall i | 0 <= i < 8 ensures WordAt(s, 4 * i) == WordOf(c, i) {
      WordOfChain(c, i);
      WordIsRead(WordOf(c, i));
      var w := s[4 * i..4 * i + 4];
      assert s == s[..4 * i] + w + s[4 * i + 4..];
      WordInside(s[..4 * i], w, s[4 * i + 4..]);
    }
  }

  /** The digest is the chaining value after the padded message, word by word. */
  lemma DigestSpells(f: Compress, msg: seq<Byte>)
    ensures Spells(Digest(f, msg), Fold(f, Padded(msg), BlockCount(|msg|)))
  {
    ChainSpells(Fold(f, Padded(msg), BlockCount(|msg|)));
  }

  lemma LengthIsRead(a: seq<Byte>, n: nat)
    requires n < M64
    ensures var s := a + BigEndian(n); WordAt(s, |a|) * 0x1_0000_0000 + WordAt(s, |a| + 4) == n
  {
    var b := BigEndian(n);
    BytesOf64(n);
    WordInside(a, b[..4], b[4..]);
    WordInside(a + b[..4], b[4..], []);
    assert a + b == a + b[..4] + b[4..] == a + b[..4] + b[4..] + [];
    assert WordAt(b[..4], 0) == ((b[0] as int * 256 + b[1]) * 256 + b[2]) * 256 + b[3];
    assert WordAt(b[4..], 0) == ((b[4] as int * 256 + b[5]) * 256 + b[6]) * 256 + b[7];
  }

  lemma Parts(msg: seq<Byte>, zeros: seq<Byte>, tail: seq<Byte>)
    requires forall k :: 0 <= k < |zeros| ==> zeros[k] == 0
    ensures var s, n := msg + [0x80] + zeros + tail, |msg|;
            s[..n] == msg && s[n] == 0x80 && forall i :: n < i < |s| - |tail| ==> s[i] == 0
  {
    var s, n := msg + [0x80] + zeros + tail, |msg|;
    forall i | n < i < |s| - |tail| ensures s[i] == 0 {
      assert s[i] == zeros[i - n - 1];
    }
  }

  lemma WholeBlocks(msg: seq<Byte>)
    ensures |Padded(msg)| % 64 == 0 && |msg| + 9 <= |Padded(msg)| < |msg| + 9 + 64
  {
    var k := BlockCount(|msg|);
    assert 64 * k % 64 == 0;
  }

  /** The padded message: the message, the byte 0x80, fewer than 64 zeros, and the number of
      bits of the message in 64 bits with the most significant byte first; whole blocks. */
  lemma PaddedIs(msg: seq<Byte>)
    ensures var s, n := Padded(msg), |msg|;
            |s| % 64 == 0 && n + 9 <= |s| < n + 9 + 64 && s[..n] == msg && s[n] == 0x80
            && (forall i :: n < i < |s| - 8 ==> s[i] == 0)
            && WordAt(s, |s| - 8) * 0x1_0000_0000 + WordAt(s, |s| - 4) == 8 * n % M64
  {
    WholeBlocks(msg);
    var zeros, bits := Zeros(|Padded(msg)| - |msg| - 9), 8 * |msg| % M64;
    Parts(msg, zeros, BigEndian(bits));
    LengthIsRead(msg + [0x80] + zeros, bits);
  }

  /** The initial words are the first 32 bits of the fractional parts of the square roots of
      the first eight primes (FIPS 180-4, section 5.3.3). */
  predicate RootBits(p: nat, whole: nat, w: Word) {
    var x := whole * 0x1_0000_0000 + w;
    x * x <= p * M64 < (x + 1) * (x + 1)
  }

  lemma InitialIsRoots()
    ensures RootBits(2, 1, INITIAL.a) && RootBits(3, 1, INITIAL.b) && RootBits(5, 2, INITIAL.c)
    ensures RootBits(7, 2, INITIAL.d) && RootBits(11, 3, INITIAL.e) && RootBits(13, 3, INITIAL.f)
    ensures RootBits(17, 4, INITIAL.g) && RootBits(19, 4, INITIAL.h)
  {
  }

  // ---- laws of the padding ----

  lemma BigEndianInjective(n: nat, m: nat)
    requires n < M64 && m < M64 && BigEndian(n) == BigEndian(m)
    ensures n == m
  {
    BytesOf64(n);
    BytesOf64(m);
    var a, b := BigEndian(n), BigEndian(m);
    assert forall i :: 0 <= i < 8 ==> a[i] == b[i];
  }

  lemma BytesOf64(n: nat)
    requires n < M64
    ensures var s := BigEndian(n);
            n == ((((((s[0] as int * 256 + s[1]) * 256 + s[2]) * 256 + s[3]) * 256 + s[4]) * 256 + s[5]) * 256
                  + s[6]) * 256 + s[7]
  {
    NextByte(n, 0x100);
    NextByte(n, 0x1_0000);
    NextByte(n, 0x100_0000);
    NextByte(n, 0x1_0000_0000);
    NextByte(n, 0x100_0000_0000);
    NextByte(n, 0x1_0000_0000_0000);
  }

  /** One more byte of the quotient. */
  lemma NextByte(n: nat, p: nat)
    requires p > 0
    ensures n / p == n / (p * 256) * 256 + n / p % 256
  {
    var q, r := n / p, n % p;
    var high, low := q / 256, q % 256;
    Recombine(p, high, low, r);
    Quotient(n, p * 256, high, p * low + r);
  }

  lemma Recombine(p: nat, high: nat, low: nat, r: nat)
    requires r < p && low < 256
    ensures p * (high * 256 + low) + r == (p * 256) * high + (p * low + r)
    ensures 0 <= p * low + r < p * 256
  {
    Distribute(p, high * 256, low);
    Regroup(p, high);
    AtMost(p, low);
  }

  lemma Distribute(p: nat, a: nat, b: nat)
    ensures p * (a + b) == p * a + p * b
  {
  }

  lemma Regroup(p: nat, high: nat)
    ensures p * (high * 256) == (p * 256) * high
  {
  }

  lemma AtMost(p: nat, low: nat)
    requires low <= 255
    ensures p * low <= p * 255
  {
  }

  lemma Quotient(n: nat, d: nat, q: nat, r: nat)
    requires d > 0 && n == d * q + r && r < d
    ensures n / d == q
  {
    var x := n / d;
    assert d * x <= n < d * x + d;
    Minus(d, x, q);
    NoMultiple(d, x - q);
  }

  lemma Minus(d: int, a: int, b: int)
    ensures d * (a - b) == d * a - d * b
  {
  }

  lemma NoMultiple(d: int, k: int)
    requires d > 0 && -d < d * k < d
    ensures k == 0
  {
  }

  lemma EndsOfPadded(msg: seq<Byte>)
    ensures var s := Padded(msg); s[..|msg|] == msg && s[|s| - 8..] == BigEndian(8 * |msg| % M64)
  {
  }

  /** Below 2^61 bytes no two messages are padded to the same blocks, although the
      length field holds only 64 bits. */
  lemma PaddingInjective(a: seq<Byte>, b: seq<Byte>)
    requires |a| < M64 / 8 && |b| < M64 / 8 && Padded(a) == Padded(b)
    ensures a == b
  {
    EndsOfPadded(a);
    EndsOfPadded(b);
    SmallMod(8 * |a|);
    SmallMod(8 * |b|);
    BigEndianInjective(8 * |a|, 8 * |b|);
  }

  lemma SmallMod(n: nat)
    requires n < M64
    ensures n % M64 == n
  {
  }

  lemma AddMod(n: nat, k: nat)
    ensures (n % M64 + k) % M64 == (n + k) % M64
  {
  }

  lemma FoldMore(f: Compress, s: seq<Byte>, n: nat, block: seq<Byte>)
    requires |s| == 64 * n && |block| == 64
    ensures Fold(f, s + block, n + 1) == f(Fold(f, s, n), block)
  {
  }

  // ---- the context ----

  /** SHA256_CTX. `msg` is everything given to Update since the start, `blocks` how
      many blocks of it were compressed. */
  class Context {
    const compress: Compress
    var data: array<Byte>
    var datalen: nat
    var bitlen: nat
    var state: Chain
    ghost var msg: seq<Byte>
    ghost var blocks: nat

    ghost predicate Valid()
      reads this, data
    {
      data.Length == 64 && datalen < 64
      && |msg| == 64 * blocks + datalen
      && data[..datalen] == msg[64 * blocks..]
      && bitlen == 512 * blocks % M64
      && state == Fold(compress, msg[..64 * blocks], blocks)
    }

    /** sha256_init. */
    constructor (f: Compress)
      ensures Valid() && fresh(data) && msg == [] && compress == f
    {
      compress := f;
      data := new Byte[64](_ => 0);
      datalen, bitlen, state, msg, blocks := 0, 0, INITIAL, [], 0;
    }

    /** The full buffer is compressed. */
    method Compressed()
      requires data.Length == 64 && |msg| == 64 * blocks + 64 && data[..] == msg[64 * blocks..]
      requires bitlen == 512 * blocks % M64 && state == Fold(compress, msg[..64 * blocks], blocks)
      modifies this`datalen, this`bitlen, this`state, this`blocks
      ensures Valid()
    {
      FoldMore(compress, msg[..64 * blocks], blocks, data[..]);
      assert msg[..64 * blocks] + data[..] == msg[..64 * (blocks + 1)];
      state := compress(state, data[..]);
      AddMod(512 * blocks, 512);
      bitlen := (bitlen + 512) % M64;
      blocks := blocks + 1;
      datalen := 0;
    }

    method PutByte(x: Byte)
      requires Valid()
      modifies this`datalen, this`bitlen, this`state, this`msg, this`blocks, data
      ensures Valid() && msg == old(msg) + [x]
    {
      ghost var was := msg;
      data[datalen] := x;
      msg := msg + [x];
      datalen := datalen + 1;
      assert msg[..64 * blocks] == was[..64 * blocks];
      assert data[..datalen] == msg[64 * blocks..];
      if datalen == 64 {
        assert data[..] == data[..64];
        Compressed();
      }
    }

    /** sha256_update; the loop counter has 32 bits. */
    method Update(s: seq<Byte>)
      requires Valid() && |s| < 0x1_0000_0000
      modifies this`datalen, this`bitlen, this`state, this`msg, this`blocks, data
      ensures Valid() && msg == old(msg) + s
    {
      for i := 0 to |s|
        invariant Valid() && msg == old(msg) + s[..i]
      {
        assert s[..i + 1] == s[..i] + [s[i]];
        PutByte(s[i]);
      }
      assert s[..|s|] == s;
    }

    method Clear(from: nat, to: nat)
      requires from <= to <= data.Length
      modifies data
      ensures forall k :: 0 <= k < data.Length ==> data[k] == if from <= k < to then 0 else old(data[k])
    {
      for i := from to to
        invariant forall k :: 0 <= k < data.Length ==> data[k] == if from <= k < i then 0 else old(data[k])
      {
        data[i] := 0;
      }
    }

    /** Four bytes at a place of the buffer. */
    method StoreFour(at: nat, b0: Byte, b1: Byte, b2: Byte, b3: Byte)
      requires data.Length == 64 && 56 <= at <= 60
      modifies data
      ensures data[at..at + 4] == [b0, b1, b2, b3]
      ensures forall k :: 0 <= k < 64 && !(at <= k < at + 4) ==> data[k] == old(data[k])
    {
      data[at + 3] := b3;
      data[at + 2] := b2;
      data[at + 1] := b1;
      data[at] := b0;
    }

    method StoreLength(n: nat)
      requires data.Length == 64 && n < M64
      modifies data
      ensures data[..56] == old(data[..56]) && data[56..] == BigEndian(n)
    {
      StoreFour(60, n / 0x100_0000 % 256, n / 0x1_0000 % 256, n / 0x100 % 256, n % 256);
      ghost var low := data[60..64];
      StoreFour(56, n / 0x100_0000_0000_0000, n / 0x1_0000_0000_0000 % 256, n / 0x100_0000_0000 % 256,
                n / 0x1_0000_0000 % 256);
      assert data[56..] == data[56..60] + data[60..64] && data[60..64] == low;
    }

    /** The padding in sha256_final. A last block of 56 bytes or more is closed, and
        the length goes into one more. `full` blocks are then compressed. */
    method Pad() returns (ghost full: nat, ghost head: seq<Byte>)
      requires Valid()
      modifies this`state, data
      ensures full + 1 == BlockCount(|msg|) && |head| == 64 * full && state == Fold(compress, head, full)
      ensures head + data[..56] == msg + [0x80] + Zeros(64 * full + 55 - |msg|)
    {
      full, head := blocks, msg[..64 * blocks];
      ghost var tail := data[..datalen];
      assert msg == head + tail;
      data[datalen] := 0x80;
      if datalen < 56 {
        Clear(datalen + 1, 56);
        assert data[..56] == tail + [0x80] + Zeros(55 - datalen);
      } else {
        Clear(datalen + 1, 64);
        ghost var block := data[..];
        assert block == tail + [0x80] + Zeros(63 - datalen);
        FoldMore(compress, head, full, block);
        state := compress(state, data[..]);
        Clear(0, 56);
        assert data[..56] == Zeros(56);
        assert Zeros(119 - datalen) == Zeros(63 - datalen) + Zeros(56);
        full, head := full + 1, head + block;
      }
    }

    /** sha256_final. */
    method Final() returns (hash: seq<Byte>)
      requires Valid()
      modifies this`state, this`bitlen, data
      ensures hash == Digest(compress, msg) && Spells(hash, Fold(compress, Padded(msg), BlockCount(|msg|)))
    {
      DigestSpells(compress, msg);
      ghost var full, head := Pad();
      AddMod(512 * blocks, datalen * 8);
      bitlen := (bitlen + datalen * 8) % M64;
      StoreLength(bitlen);
      Assembled(head, data[..], msg, full);
      FoldMore(compress, head, full, data[..]);
      state := compress(state, data[..]);
      hash := ChainBytes(state);
    }
  }

  lemma Assembled(head: seq<Byte>, block: seq<Byte>, msg: seq<Byte>, full: nat)
    requires |block| == 64 && full + 1 == BlockCount(|msg|)
    requires head + block[..56] == msg + [0x80] + Zeros(64 * full + 55 - |msg|)
    requires block[56..] == BigEndian(8 * |msg| % M64)
    ensures head + block == Padded(msg)
  {
  }

  /** sha256: one update is one split among many. */
  method Sha256(f: Compress, data: seq<Byte>) returns (hash: seq<Byte>)
    requires |data| < 0x1_0000_0000
    ensures hash == Digest(f, data) && Spells(hash, Fold(f, Padded(data), BlockCount(|data|)))
  {
    var ctx := new Context(f);
    ctx.Update(data);
    assert [] + data == data;
    hash := ctx.Final();
  }
}
