/** Base58 text of byte strings (common/base58.c): two in-place bignum loops in
    different radices, proved against the numbers they stand for. */
module Base58 {
  import opened Common
  import opened Numerals

  /** A 32-bit limb holds values below this. */
  const LIMB := 0x1_0000_0000

  // ---- the alphabet ----

  /** b58digits_ordered: the digits and letters without 0, O, I and l. */
  function CharOf(d: nat): char
    requires d < 58
  {
    if d < 9 then '1' + d as char
    else if d < 17 then 'A' + (d - 9) as char
    else if d < 22 then 'J' + (d - 17) as char
    else if d < 33 then 'P' + (d - 22) as char
    else if d < 44 then 'a' + (d - 33) as char
    else 'm' + (d - 44) as char
  }

  /** b58digits_map, with -1 for every character that is no digit. */
  function DigitOf(c: char): (d: int)
    ensures -1 <= d < 58
  {
    if '1' <= c <= '9' then c as int - '1' as int
    else if 'A' <= c <= 'H' then c as int - 'A' as int + 9
    else if 'J' <= c <= 'N' then c as int - 'J' as int + 17
    else if 'P' <= c <= 'Z' then c as int - 'P' as int + 22
    else if 'a' <= c <= 'k' then c as int - 'a' as int + 33
    else if 'm' <= c <= 'z' then c as int - 'm' as int + 44
    else -1
  }

  lemma AlphabetInverse(c: char, d: nat)
    requires d < 58
    ensures DigitOf(CharOf(d)) == d
    ensures DigitOf(c) >= 0 ==> CharOf(DigitOf(c)) == c
  {
  }

  function CharsOf(ds: seq<nat>): (t: string)
    requires Below(ds, 58)
    ensures |t| == |ds|
  {
    seq(|ds|, i requires 0 <= i < |ds| => CharOf(ds[i]))
  }

  predicate AllDigits(t: string) {
    forall i :: 0 <= i < |t| ==> DigitOf(t[i]) >= 0
  }

  function DigitsIn(t: string): (ds: seq<nat>)
    requires AllDigits(t)
    ensures |ds| == |t| && Below(ds, 58)
  {
    seq(|t|, i requires 0 <= i < |t| => DigitOf(t[i]))
  }

  // ---- what the two directions compute ----

  function Ones(n: nat): (t: string)
    ensures |t| == n
  {
    seq(n, _ => '1')
  }

  /** The text of a byte string: a `1` for each leading zero byte, then the number
      in base 58 without leading zeros. */
  function TextOf(data: seq<Byte>): string {
    Ones(LeadingZeros(data)) + CharsOf(Digits(Value(data, 256), 58))
  }

  /** One less than the digit buffer, `(binsz - zcount) * 138 / 100 + 1` long. */
  function Room(data: seq<Byte>): nat {
    (|data| - LeadingZeros(data)) * 138 / 100
  }

  function LeadingOnes(t: string): (n: nat)
    ensures n <= |t|
    ensures forall i :: 0 <= i < n ==> t[i] == '1'
    ensures n < |t| ==> t[n] != '1'
  {
    if t == "" || t[0] != '1' then 0 else 1 + LeadingOnes(t[1..])
  }

  predicate Decodable(t: string, binsz: nat) {
    AllDigits(t) && Value(DigitsIn(t), 58) < Pow(256, binsz)
  }

  function BytesOf(t: string, binsz: nat): seq<nat>
    requires Decodable(t, binsz)
  {
    Numeral(Value(DigitsIn(t), 58), 256, binsz)
  }

  /** The byte count reported: `zerocount` is a 32-bit counter. */
  function SizeOf(t: string, binsz: nat): nat
    requires Decodable(t, binsz)
  {
    binsz - LeadingZeros(BytesOf(t, binsz)) + LeadingOnes(t) % LIMB
  }

  // ---- encoding ----

  datatype Encoding =
    | Wrapped                  // `j` is decremented below index 0
    | TooSmall(needed: nat)    // *b58sz is set to what is needed
    | Encoded(size: nat)       // the text and its final NUL are written

  lemma ByteStep(was: seq<nat>, before: seq<nat>, byte: nat, j: nat, carry: nat)
    requires |was| == |before| && j < |was| && before[j] == was[j]
    requires Partial(was, before, 58, 256, byte, j + 1, carry)
    ensures var t := carry + 256 * was[j]; Partial(was, before[j := t % 58], 58, 256, byte, j, t / 58)
  {
    var t := carry + 256 * was[j];
    var now := before[j := t % 58];
    assert now[j + 1..] == before[j + 1..];
    PartialStep(was, now, 58, 256, byte, j, carry, t / 58);
  }

  /** A carry is left for index 0 only when the number is too big. */
  lemma CarryLeft(was: seq<nat>, now: seq<nat>, byte: nat, carry: nat)
    requires |was| == |now| > 0 && was[0] == 0 && carry > 0
    requires Partial(was, now, 58, 256, byte, 1, carry)
    ensures Value(was, 58) * 256 + byte >= Pow(58, |was| - 1)
  {
    SkipZeros(was, 1, 58);
    CarryTooBig(carry, Pow(58, |was| - 1));
  }

  lemma NoCarryLeft(was: seq<nat>, now: seq<nat>, byte: nat, j: nat)
    requires |was| == |now| && j < |was| && Below(now, 58) && Partial(was, now, 58, 256, byte, j + 1, 0)
    requires forall k :: 0 <= k <= j ==> was[k] == now[k] == 0
    ensures Value(now, 58) == 256 * Value(was, 58) + byte
    ensures Value(now, 58) < Pow(58, |was| - 1)
  {
    PartialDone(was, now, 58, 256, byte, j + 1);
    SkipZeros(now, 1, 58);
    ValueBound(now[1..], 58);
  }

  /** One round of the encoder's outer loop: buf := buf * 256 + byte. The unsigned
      `j` wraps when a carry is left for index 0. */
  method AddByte(buf: array<nat>, high: nat, byte: Byte) returns (wrapped: bool, j: nat)
    requires high < buf.Length && Below(buf[..], 58)
    requires forall k :: 0 <= k <= high ==> buf[k] == 0
    modifies buf
    ensures wrapped <==> Value(old(buf[..]), 58) * 256 + byte >= Pow(58, buf.Length - 1)
    ensures !wrapped ==> Value(buf[..], 58) == Value(old(buf[..]), 58) * 256 + byte
    ensures !wrapped ==> Below(buf[..], 58) && j < buf.Length && forall k :: 0 <= k <= j ==> buf[k] == 0
  {
    ghost var was := buf[..];
    var carry: nat := byte;
    j := buf.Length - 1;
    assert was[j + 1..] == [];
    while j > high || carry != 0
      invariant j < buf.Length && carry < 256 && Below(buf[..], 58)
      invariant Partial(was, buf[..], 58, 256, byte, j + 1, carry)
      invariant forall k :: 0 <= k <= j ==> buf[k] == was[k]
      decreases j
    {
      if j == 0 {
        CarryLeft(was, buf[..], byte, carry);
        return true, 0;
      }
      ByteStep(was, buf[..], byte, j, carry);
      carry := carry + 256 * buf[j];
      buf[j] := carry % 58;
      carry := carry / 58;
      j := j - 1;
    }
    NoCarryLeft(was, buf[..], byte, j);
    wrapped := false;
  }

  method Encode(data: seq<Byte>, b58: array<char>, b58sz: nat) returns (r: Encoding)
    requires b58sz <= b58.Length
    modifies b58
    ensures r.Wrapped? <==> Value(data, 256) >= Pow(58, Room(data))
    ensures !r.Wrapped? ==>
              r == if b58sz <= |TextOf(data)| then TooSmall(|TextOf(data)| + 1) else Encoded(|TextOf(data)| + 1)
    ensures if r.Encoded? then Written(b58[..], old(b58[..]), TextOf(data)) else b58[..] == old(b58[..])
  {
    var zcount := 0;
    while zcount < |data| && data[zcount] == 0
      invariant zcount <= |data| && zcount <= LeadingZeros(data)
    {
      zcount := zcount + 1;
    }
    var size := (|data| - zcount) * 138 / 100 + 1;
    var buf := new nat[size](_ => 0);
    var i: nat, high: nat := zcount, size - 1;
    SkipZeros(data[..zcount], zcount, 256);
    ZerosHaveNoValue(buf[..], 58);
    while i < |data|
      invariant zcount <= i <= |data| && high < size
      invariant Below(buf[..], 58) && Value(buf[..], 58) == Value(data[..i], 256)
      invariant forall k :: 0 <= k <= high ==> buf[k] == 0
      invariant b58[..] == old(b58[..])
      invariant Value(data[..i], 256) < Pow(58, size - 1)
    {
      assert data[..i + 1][..i] == data[..i];
      var wrapped;
      wrapped, high := AddByte(buf, high, data[i]);
      if wrapped {
        PrefixIsLess(data, i + 1, 256);
        return Wrapped;
      }
      i := i + 1;
    }
    assert data[..i] == data;
    r := WriteText(data, zcount, buf, b58, b58sz);
  }

  lemma TextOfDigits(data: seq<Byte>, buf: seq<nat>)
    requires Below(buf, 58) && Value(buf, 58) == Value(data, 256)
    ensures TextOf(data) == Ones(LeadingZeros(data)) + CharsOf(buf[LeadingZeros(buf)..])
  {
    var digits := buf[LeadingZeros(buf)..];
    SkipZeros(buf, LeadingZeros(buf), 58);
    DigitsOfValue(digits, 58);
  }

  /** The end of base58_encode: skip the zero digits, check the room, write. */
  method WriteText(ghost data: seq<Byte>, zcount: nat, buf: array<nat>, b58: array<char>, b58sz: nat)
    returns (r: Encoding)
    requires b58sz <= b58.Length && zcount == LeadingZeros(data)
    requires Below(buf[..], 58) && Value(buf[..], 58) == Value(data, 256)
    modifies b58
    ensures r == if b58sz <= |TextOf(data)| then TooSmall(|TextOf(data)| + 1) else Encoded(|TextOf(data)| + 1)
    ensures if r.Encoded? then Written(b58[..], old(b58[..]), TextOf(data)) else b58[..] == old(b58[..])
  {
    var j := 0;
    while j < buf.Length && buf[j] == 0
      invariant j <= LeadingZeros(buf[..]) <= buf.Length
    {
      j := j + 1;
    }
    TextOfDigits(data, buf[..]);
    assert buf[..][j..] == buf[j..];
    var n := zcount + buf.Length - j;
    if b58sz <= n {
      return TooSmall(n + 1);
    }
    WriteDigits(zcount, buf, j, b58);
    r := Encoded(n + 1);
  }

  method WriteDigits(zcount: nat, buf: array<nat>, first: nat, b58: array<char>)
    requires first <= buf.Length && Below(buf[first..], 58) && zcount + buf.Length - first < b58.Length
    modifies b58
    ensures Written(b58[..], old(b58[..]), Ones(zcount) + CharsOf(buf[first..]))
  {
    for k := 0 to zcount
      invariant forall m :: 0 <= m < k ==> b58[m] == '1'
      invariant forall m :: k <= m < b58.Length ==> b58[m] == old(b58[m])
    {
      b58[k] := '1';
    }
    var j := first;
    ghost var digits := buf[first..];
    while j < buf.Length
      invariant first <= j <= buf.Length
      invariant forall m :: 0 <= m < zcount ==> b58[m] == '1'
      invariant forall m :: 0 <= m < j - first ==> b58[zcount + m] == CharOf(digits[m])
      invariant forall m :: zcount + j - first <= m < b58.Length ==> b58[m] == old(b58[m])
    {
      assert digits[j - first] == buf[j];
      b58[zcount + j - first] := CharOf(buf[j]);
      j := j + 1;
    }
    b58[zcount + j - first] := '\0';
    forall m | zcount <= m < zcount + |digits| ensures b58[m] == (Ones(zcount) + CharsOf(digits))[m] {
      assert b58[zcount + (m - zcount)] == CharOf(digits[m - zcount]);
    }
  }

  /** The buffer holds the text and a NUL, and is as it was behind them. */
  predicate Written(now: string, was: string, text: string) {
    |now| == |was| && |text| < |was|
    && (forall m :: 0 <= m < |text| ==> now[m] == text[m])
    && now[|text|] == '\0'
    && (forall m :: |text| < m < |was| ==> now[m] == was[m])
  }

  // ---- decoding ----

  /** `(t & 0x3f00000000) >> 32`. */
  function CarryOf(t: nat): nat { t / LIMB % 64 }

  /** The six bits kept of the carry are all it has. */
  lemma CarryMaskIsLossless(limb: nat, c: nat)
    requires limb < LIMB && c < 58
    ensures CarryOf(limb * 58 + c) == (limb * 58 + c) / LIMB < 58
    ensures (limb * 58 + c) % LIMB + CarryOf(limb * 58 + c) * LIMB == 58 * limb + c
  {
  }

  /** The inner loop of the decoder: outi := outi * 58 + digit, with a carry out. */
  method AddDigit(outi: array<nat>, digit: nat) returns (c: nat)
    requires digit < 58 && Below(outi[..], LIMB)
    modifies outi
    ensures c < 58 && Below(outi[..], LIMB)
    ensures Value(outi[..], LIMB) + c * Pow(LIMB, outi.Length) == 58 * Value(old(outi[..]), LIMB) + digit
  {
    ghost var was := outi[..];
    c := digit;
    var j := outi.Length;
    assert was[j..] == [];
    while j > 0
      invariant j <= outi.Length && c < 58 && Below(outi[..], LIMB)
      invariant Partial(was, outi[..], LIMB, 58, digit, j, c)
      invariant forall k :: 0 <= k < j ==> outi[k] == was[k]
    {
      j := j - 1;
      CarryMaskIsLossless(outi[j], c);
      var t := outi[j] * 58 + c;
      ghost var before := outi[..];
      outi[j] := t % LIMB;
      assert outi[..][j + 1..] == before[j + 1..];
      PartialStep(was, outi[..], LIMB, 58, digit, j, c, CarryOf(t));
      c := CarryOf(t);
    }
    assert was[0..] == was && outi[..][0..] == outi[..];
  }

  /** `outi[0] & zeromask`: the first limb may use only `binsz % 4` bytes. */
  predicate OverFilled(limb: nat, bytesleft: nat) {
    bytesleft != 0 && limb / Pow(256, bytesleft) != 0
  }

  lemma LimbPow(n: nat)
    ensures Pow(256, 4 * n) == Pow(LIMB, n)
    decreases n
  {
    if n > 0 {
      LimbPow(n - 1);
      assert Pow(256, 4 * n) == 256 * Pow(256, 4 * n - 1);
      assert Pow(256, 4 * n - 1) == 256 * Pow(256, 4 * n - 2);
      assert Pow(256, 4 * n - 2) == 256 * Pow(256, 4 * n - 3);
      assert Pow(256, 4 * n - 3) == 256 * Pow(256, 4 * n - 4);
    }
  }

  lemma SmallPow()
    ensures Pow(256, 1) == 256 && Pow(256, 2) == 65536 && Pow(256, 3) == 16777216
  {
  }

  lemma OverFilledIff(limb: nat, k: nat)
    requires 1 <= k <= 3
    ensures OverFilled(limb, k) <==> limb >= Pow(256, k)
    ensures Pow(256, k) < LIMB
  {
  }

  /** The two overflow tests accept exactly the numbers that fit in `binsz` bytes. */
  lemma FitsIff(limbs: seq<nat>, c: nat, binsz: nat)
    requires binsz > 0 && |limbs| == (binsz + 3) / 4 && Below(limbs, LIMB)
    ensures Value(limbs, LIMB) + c * Pow(LIMB, |limbs|) < Pow(256, binsz)
       <==> c == 0 && !OverFilled(limbs[0], binsz % 4)
  {
    var n, k := |limbs|, binsz % 4;
    if k == 0 {
      LimbPow(n);
      ValueBound(limbs, LIMB);
      CarryTooBig(c, Pow(LIMB, n));
    } else {
      BytesPow(n, binsz);
      OverFilledIff(limbs[0], k);
      FitsInLimbs(limbs, c, Pow(256, k));
    }
  }

  lemma {:induction false} BytesPow(n: nat, binsz: nat)
    requires binsz % 4 != 0 && n == (binsz + 3) / 4
    ensures Pow(256, binsz) == Pow(LIMB, n - 1) * Pow(256, binsz % 4)
  {
    assert binsz == 4 * (n - 1) + binsz % 4;
    LimbPow(n - 1);
    PowAdd(256, 4 * (n - 1), binsz % 4);
  }

  lemma FitsInLimbs(limbs: seq<nat>, c: nat, m: nat)
    requires limbs != [] && Below(limbs, LIMB) && m < LIMB
    ensures Value(limbs, LIMB) + c * Pow(LIMB, |limbs|) < Pow(LIMB, |limbs| - 1) * m <==> c == 0 && limbs[0] < m
  {
    FirstDigit(limbs, LIMB);
    ValueBound(limbs[1..], LIMB);
    FitsPartial(limbs[0], Value(limbs[1..], LIMB), Pow(LIMB, |limbs| - 1), c, m);
  }

  lemma FitsPartial(w: nat, rest: nat, p: nat, c: nat, m: nat)
    requires rest < p && w < LIMB && m < LIMB
    ensures w * p + rest + c * (LIMB * p) < p * m <==> c == 0 && w < m
  {
    CarryTooBig(c, LIMB * p);
    Scales(m, LIMB, p);
    TopDigit(w, p, rest, m);
  }

  lemma CarryTooBig(c: nat, p: nat)
    ensures c > 0 ==> c * p >= p
    ensures c == 0 ==> c * p == 0
  {
  }

  lemma TopDigit(w: nat, p: nat, rest: nat, m: nat)
    requires rest < p
    ensures w * p + rest < m * p <==> w < m
  {
    Scales(w + 1, m, p);
    Scales(m, w, p);
  }

  /** One limb becomes four bytes, the most significant first. */
  lemma ByteSplit(w: nat)
    requires w < LIMB
    ensures w == ((w / 0x100_0000 % 256 * 256 + w / 0x1_0000 % 256) * 256 + w / 0x100 % 256) * 256 + w % 256
  {
    assert w / 0x100 == w / 0x1_0000 * 256 + w / 0x100 % 256;
    assert w / 0x1_0000 == w / 0x100_0000 * 256 + w / 0x1_0000 % 256;
  }

  lemma LimbBytes(s: seq<nat>, w: nat)
    requires w < LIMB
    ensures Value(s + [w / 0x100_0000 % 256, w / 0x1_0000 % 256, w / 0x100 % 256, w % 256], 256)
         == Value(s, 256) * LIMB + w
  {
    var b3, b2, b1, b0 := w / 0x100_0000 % 256, w / 0x1_0000 % 256, w / 0x100 % 256, w % 256;
    ByteSplit(w);
    AppendFour(s, b3, b2, b1, b0);
  }

  lemma AppendFour(s: seq<nat>, b3: nat, b2: nat, b1: nat, b0: nat)
    ensures Value(s + [b3, b2, b1, b0], 256) == Value(s, 256) * LIMB + ((b3 * 256 + b2) * 256 + b1) * 256 + b0
  {
    Append(s, b3);
    Append(s + [b3], b2);
    Append(s + [b3] + [b2], b1);
    Append(s + [b3] + [b2] + [b1], b0);
    assert s + [b3, b2, b1, b0] == s + [b3] + [b2] + [b1] + [b0];
  }

  lemma Append(s: seq<nat>, d: nat)
    ensures Value(s + [d], 256) == Value(s, 256) * 256 + d
  {
  }

  method WriteLimb(bin: array<Byte>, p: nat, w: nat)
    requires w < LIMB && p + 4 <= bin.Length
    modifies bin
    ensures Value(bin[..p + 4], 256) == Value(old(bin[..p]), 256) * LIMB + w
    ensures forall k :: p + 4 <= k < bin.Length ==> bin[k] == old(bin[k])
  {
    LimbBytes(bin[..p], w);
    bin[p] := w / 0x100_0000 % 256;
    bin[p + 1] := w / 0x1_0000 % 256;
    bin[p + 2] := w / 0x100 % 256;
    bin[p + 3] := w % 256;
    assert bin[..p + 4] == old(bin[..p]) + [bin[p], bin[p + 1], bin[p + 2], bin[p + 3]];
  }

  method WriteFirst(bin: array<Byte>, w: nat, bytesleft: nat)
    requires 1 <= bytesleft <= 3 && bytesleft <= bin.Length && !OverFilled(w, bytesleft)
    modifies bin
    ensures Value(bin[..bytesleft], 256) == w
    ensures forall k :: bytesleft <= k < bin.Length ==> bin[k] == old(bin[k])
  {
    var p := 0;
    if bytesleft == 3 {
      bin[p] := w / 0x1_0000 % 256;
      p := p + 1;
    }
    if bytesleft >= 2 {
      bin[p] := w / 0x100 % 256;
      p := p + 1;
    }
    bin[p] := w % 256;
    PartialLimb(bin[..bytesleft], w, bytesleft);
  }

  /** The copy of the limbs to the output: a partial first limb, then whole ones. */
  method WriteBytes(outi: array<nat>, bin: array<Byte>, binsz: nat)
    requires 1 <= binsz <= bin.Length && outi.Length == (binsz + 3) / 4
    requires Below(outi[..], LIMB) && !OverFilled(outi[0], binsz % 4)
    modifies bin
    ensures Value(bin[..binsz], 256) == Value(outi[..], LIMB)
    ensures forall k :: binsz <= k < bin.Length ==> bin[k] == old(bin[k])
  {
    var bytesleft := binsz % 4;
    var p, j := 0, 0;
    assert bin[..0] == [] && outi[..0] == [];
    if bytesleft != 0 {
      WriteFirst(bin, outi[0], bytesleft);
      p, j := bytesleft, 1;
      assert outi[..1] == [outi[0]] && outi[..1][..0] == [];
    }
    while j < outi.Length
      invariant j <= outi.Length && binsz - p == 4 * (outi.Length - j)
      invariant Value(bin[..p], 256) == Value(outi[..j], LIMB)
      invariant forall k :: binsz <= k < bin.Length ==> bin[k] == old(bin[k])
    {
      WriteLimb(bin, p, outi[j]);
      assert outi[..j + 1][..j] == outi[..j];
      p, j := p + 4, j + 1;
    }
    assert outi[..j] == outi[..];
  }

  lemma PartialLimb(s: seq<nat>, w: nat, k: nat)
    requires 1 <= k <= 3 && |s| == k && !OverFilled(w, k)
    requires s[k - 1] == w % 256
    requires k >= 2 ==> s[k - 2] == w / 0x100 % 256
    requires k == 3 ==> s[0] == w / 0x1_0000 % 256
    ensures Value(s, 256) == w
  {
    SmallPow();
    OverFilledIff(w, k);
    ByteSplit(w);
    var b2, b1 := if k == 3 then s[0] else 0, if k >= 2 then s[k - 2] else 0;
    var padded := [0, b2, b1, s[k - 1]];
    ZerosHaveNoValue([], 256);
    AppendFour([], 0, b2, b1, s[k - 1]);
    assert [] + padded == padded;
    SkipZeros(padded, 4 - k, 256);
    assert padded[4 - k..] == s;
  }

  /** The characters base58_decode looks at: all up to the NUL when the size is 0. */
  function TextRead(b58: string, b58sz: nat): string
    requires if b58sz == 0 then '\0' in b58 else b58sz <= |b58|
  {
    if b58sz == 0 then b58[..Strlen(b58)] else b58[..b58sz]
  }

  function Strlen(s: string): (n: nat)
    requires '\0' in s
    ensures n < |s| && s[n] == '\0' && '\0' !in s[..n]
  {
    if s[0] == '\0' then 0 else 1 + Strlen(s[1..])
  }

  /** The first loop: leading `1` characters are only counted, in 32 bits. */
  method CountOnes(text: string) returns (i: nat, zerocount: nat)
    ensures i == LeadingOnes(text) && zerocount == i % LIMB
    ensures AllDigits(text[..i]) && Value(DigitsIn(text[..i]), 58) == 0
  {
    zerocount, i := 0, 0;
    while i < |text| && text[i] == '1'
      invariant i <= LeadingOnes(text) && zerocount == i % LIMB
    {
      zerocount := (zerocount + 1) % LIMB;
      i := i + 1;
    }
    ZerosHaveNoValue(DigitsIn(text[..i]), 58);
  }

  /** The second loop: one digit after the other into the limbs. */
  method Accumulate(text: string, first: nat, outi: array<nat>, binsz: nat) returns (ok: bool)
    requires binsz >= 1 && outi.Length == (binsz + 3) / 4 && forall k :: 0 <= k < outi.Length ==> outi[k] == 0
    requires first <= |text| && AllDigits(text[..first]) && Value(DigitsIn(text[..first]), 58) == 0
    modifies outi
    ensures ok <==> Decodable(text, binsz)
    ensures ok ==> Below(outi[..], LIMB) && !OverFilled(outi[0], binsz % 4)
                   && Value(outi[..], LIMB) == Value(DigitsIn(text), 58)
  {
    ZerosHaveNoValue(outi[..], LIMB);
    FitsIff(outi[..], 0, binsz);
    var i := first;
    while i < |text|
      invariant i <= |text| && Below(outi[..], LIMB) && AllDigits(text[..i])
      invariant Value(outi[..], LIMB) == Value(DigitsIn(text[..i]), 58) < Pow(256, binsz)
      invariant !OverFilled(outi[0], binsz % 4)
    {
      var d := DigitOf(text[i]);
      if d == -1 {
        return false;
      }
      NextDigit(text, i);
      var c := AddDigit(outi, d);
      FitsIff(outi[..], c, binsz);
      if c != 0 || OverFilled(outi[0], binsz % 4) {
        TooBig(text, i + 1, binsz);
        return false;
      }
      i := i + 1;
    }
    assert text[..i] == text;
    ok := true;
  }

  method Decode(b58: string, b58sz: nat, bin: array<Byte>, binsz: nat) returns (ok: bool, size: nat)
    requires 1 <= binsz <= bin.Length
    requires if b58sz == 0 then '\0' in b58 else b58sz <= |b58|
    modifies bin
    ensures ok <==> Decodable(TextRead(b58, b58sz), binsz)
    ensures ok ==> bin[..binsz] == BytesOf(TextRead(b58, b58sz), binsz)
                   && size == SizeOf(TextRead(b58, b58sz), binsz)
    ensures ok ==> bin[binsz..] == old(bin[binsz..])
    ensures !ok ==> bin[..] == old(bin[..]) && size == binsz
  {
    size := binsz;
    var text := TextRead(b58, b58sz);
    var outi := new nat[(binsz + 3) / 4](_ => 0);
    var i, zerocount := CountOnes(text);
    ok := Accumulate(text, i, outi, binsz);
    if !ok {
      return;
    }
    WriteBytes(outi, bin, binsz);
    NumeralOfValue(bin[..binsz], 256);
    size := CountBytes(bin, binsz);
    size := size + zerocount;
  }

  method CountBytes(bin: array<Byte>, binsz: nat) returns (size: nat)
    requires binsz <= bin.Length
    ensures size == binsz - LeadingZeros(bin[..binsz])
  {
    size := binsz;
    var i := 0;
    while i < binsz && bin[i] == 0
      invariant i <= LeadingZeros(bin[..binsz]) && size == binsz - i
    {
      size := size - 1;
      i := i + 1;
    }
  }

  lemma NextDigit(text: string, i: nat)
    requires i < |text| && AllDigits(text[..i]) && DigitOf(text[i]) >= 0
    ensures AllDigits(text[..i + 1])
    ensures Value(DigitsIn(text[..i + 1]), 58) == Value(DigitsIn(text[..i]), 58) * 58 + DigitOf(text[i])
  {
    assert DigitsIn(text[..i + 1])[..i] == DigitsIn(text[..i]);
  }

  lemma TooBig(text: string, i: nat, binsz: nat)
    requires i <= |text| && AllDigits(text[..i]) && Value(DigitsIn(text[..i]), 58) >= Pow(256, binsz)
    ensures !Decodable(text, binsz)
  {
    if AllDigits(text) {
      assert DigitsIn(text)[..i] == DigitsIn(text[..i]);
      PrefixIsLess(DigitsIn(text), i, 58);
    }
  }
}
