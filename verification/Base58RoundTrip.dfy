/** The two directions undo each other, and when the encoder's index wraps. */
module Base58RoundTrip {
  import opened Common
  import opened Numerals
  import opened Base58

  lemma LeadingOnesIs(t: string, n: nat)
    requires n <= |t| && (forall i :: 0 <= i < n ==> t[i] == '1') && (n < |t| ==> t[n] != '1')
    ensures LeadingOnes(t) == n
  {
  }

  lemma LeadingZerosIs(s: seq<nat>, n: nat)
    requires n <= |s| && (forall i :: 0 <= i < n ==> s[i] == 0) && (n < |s| ==> s[n] != 0)
    ensures LeadingZeros(s) == n
  {
  }

  lemma CharsAreDigits(ds: seq<nat>)
    requires Below(ds, 58)
    ensures AllDigits(CharsOf(ds)) && DigitsIn(CharsOf(ds)) == ds
  {
  }

  lemma DigitsAreChars(t: string)
    requires AllDigits(t)
    ensures CharsOf(DigitsIn(t)) == t
  {
  }

  lemma ZeroIsOne(c: char)
    ensures DigitOf(c) == 0 <==> c == '1'
  {
  }

  /** A text of some `1` characters and then digits without a leading zero. */
  lemma TextAfterOnes(n: nat, u: string)
    requires AllDigits(u) && (u != "" ==> u[0] != '1')
    ensures var t := Ones(n) + u;
            AllDigits(t) && LeadingOnes(t) == n && DigitsIn(t) == seq(n, _ => 0) + DigitsIn(u)
    ensures Value(DigitsIn(Ones(n) + u), 58) == Value(DigitsIn(u), 58)
  {
    var t := Ones(n) + u;
    ZeroIsOne('1');
    LeadingOnesIs(t, n);
    assert DigitsIn(t) == seq(n, _ => 0) + DigitsIn(u);
    SkipZeros(DigitsIn(t), n, 58);
    assert DigitsIn(t)[n..] == DigitsIn(u);
  }

  lemma NumberInText(data: seq<Byte>)
    ensures var t := TextOf(data);
            AllDigits(t) && Value(DigitsIn(t), 58) == Value(data, 256) && LeadingOnes(t) == LeadingZeros(data)
  {
    var ds := Digits(Value(data, 256), 58);
    CharsAreDigits(ds);
    if ds != [] {
      ZeroIsOne(CharsOf(ds)[0]);
      assert DigitsIn(CharsOf(ds))[0] == ds[0];
    }
    TextAfterOnes(LeadingZeros(data), CharsOf(ds));
    ValueOfDigits(Value(data, 256), 58);
  }

  lemma DecodesNumber(t: string, data: seq<nat>)
    requires Below(data, 256)
    requires AllDigits(t) && Value(DigitsIn(t), 58) == Value(data, 256)
    ensures Decodable(t, |data|) && BytesOf(t, |data|) == data
  {
    ValueBound(data, 256);
    NumeralOfValue(data, 256);
  }

  lemma ReportedSize(n: nat, zeros: nat)
    requires zeros <= n
    ensures n - zeros + zeros % LIMB == n <==> zeros < LIMB
  {
  }

  /** Decoding the text of any non-empty byte string into a buffer of its length
      gives the bytes back; the reported length is right as long as the 32-bit
      count of leading `1` characters does not overflow. */
  lemma RoundTrip(data: seq<Byte>)
    requires data != []
    ensures Decodable(TextOf(data), |data|)
    ensures BytesOf(TextOf(data), |data|) == data
    ensures SizeOf(TextOf(data), |data|) == |data| <==> LeadingZeros(data) < LIMB
  {
    NumberInText(data);
    DecodesNumber(TextOf(data), data);
    ReportedSize(|data|, LeadingZeros(data));
  }

  /** A decodable text is determined by its leading `1` count and its number. */
  lemma TextFromNumber(t: string)
    requires AllDigits(t)
    ensures t == Ones(LeadingOnes(t)) + CharsOf(Digits(Value(DigitsIn(t), 58), 58))
  {
    var n := LeadingOnes(t);
    var u := t[n..];
    assert t == Ones(n) + u;
    TextAfterOnes(n, u);
    DigitsAreChars(u);
    if u != "" {
      ZeroIsOne(u[0]);
    }
    DigitsOfValue(DigitsIn(u), 58);
  }

  lemma NumberOfBytes(t: string, binsz: nat)
    requires Decodable(t, binsz)
    ensures Value(DigitsIn(t), 58) == Value(BytesOf(t, binsz), 256)
  {
    ValueOfNumeral(Value(DigitsIn(t), 58), 256, binsz);
  }

  lemma OnesFromSize(t: string, binsz: nat)
    requires Decodable(t, binsz) && LeadingOnes(t) < LIMB
    ensures LeadingOnes(t) == SizeOf(t, binsz) - binsz + LeadingZeros(BytesOf(t, binsz))
  {
  }

  /** Dropping some leading zero bytes keeps the number. */
  lemma DropZeros(bytes: seq<nat>, k: nat)
    requires k <= LeadingZeros(bytes)
    ensures Value(bytes[k..], 256) == Value(bytes, 256) && LeadingZeros(bytes[k..]) == LeadingZeros(bytes) - k
  {
    SkipZeros(bytes, k, 256);
    LeadingZerosIs(bytes[k..], LeadingZeros(bytes) - k);
  }

  /** The bytes that a decoded text reports encode to that text again, whenever the
      buffer could hold them. */
  lemma {:induction false} TextRoundTrip(t: string, binsz: nat)
    requires Decodable(t, binsz) && LeadingOnes(t) < LIMB && SizeOf(t, binsz) <= binsz
    ensures TextOf(BytesOf(t, binsz)[binsz - SizeOf(t, binsz)..]) == t
  {
    var bytes, k := BytesOf(t, binsz), binsz - SizeOf(t, binsz);
    NumberOfBytes(t, binsz);
    OnesFromSize(t, binsz);
    DropZeros(bytes, k);
    TextFromNumber(t);
    var kept: seq<Byte> := bytes[k..];
    SameNumber(kept, LeadingOnes(t), Value(DigitsIn(t), 58));
  }

  lemma SameNumber(bytes: seq<Byte>, ones: nat, v: nat)
    requires LeadingZeros(bytes) == ones && Value(bytes, 256) == v
    ensures TextOf(bytes) == Ones(ones) + CharsOf(Digits(v, 58))
  {
  }

  lemma SameText(t: string, u: string)
    requires AllDigits(t) && AllDigits(u)
    requires LeadingOnes(t) == LeadingOnes(u) && Value(DigitsIn(t), 58) == Value(DigitsIn(u), 58)
    ensures t == u
  {
    TextFromNumber(t);
    TextFromNumber(u);
  }

  /** Two texts that decode to the same bytes and the same size are the same. */
  lemma DecodesOnce(t: string, u: string, binsz: nat)
    requires Decodable(t, binsz) && Decodable(u, binsz) && LeadingOnes(t) < LIMB && LeadingOnes(u) < LIMB
    requires BytesOf(t, binsz) == BytesOf(u, binsz) && SizeOf(t, binsz) == SizeOf(u, binsz)
    ensures t == u
  {
    NumberOfBytes(t, binsz);
    NumberOfBytes(u, binsz);
    OnesFromSize(t, binsz);
    OnesFromSize(u, binsz);
    SameText(t, u);
  }

  // ---- when the index wraps ----

  lemma {:induction false} AllOnes(n: nat)
    ensures Value(seq(n, _ => 255), 256) == Pow(256, n) - 1
    decreases n
  {
    var s := seq(n, _ => 255);
    if n > 0 {
      AllOnes(n - 1);
      assert s[..n - 1] == seq(n - 1, _ => 255);
    }
  }

  lemma SafeWhen(data: seq<Byte>, n: nat)
    requires |data| == n > 0 && data[0] != 0 && Pow(256, n) <= Pow(58, n * 138 / 100)
    ensures Value(data, 256) < Pow(58, Room(data))
  {
    ValueBound(data, 256);
  }

  /** No input of `n` bytes with a nonzero first byte makes the index wrap if and
      only if 256^n is at most 58^(n * 138 / 100): the rounded-down 1.38 falls
      short of log(256) / log(58) for some lengths. */
  lemma SafeLengthIff(n: nat)
    requires n > 0
    ensures (forall data: seq<Byte> :: |data| == n && data[0] != 0 ==> Value(data, 256) < Pow(58, Room(data)))
       <==> Pow(256, n) <= Pow(58, n * 138 / 100)
  {
    if Pow(256, n) <= Pow(58, n * 138 / 100) {
      forall data: seq<Byte> | |data| == n && data[0] != 0 ensures Value(data, 256) < Pow(58, Room(data)) {
        SafeWhen(data, n);
      }
    } else {
      var worst: seq<Byte> := seq(n, _ => 255);
      AllOnes(n);
      assert worst[0] != 0 && Value(worst, 256) >= Pow(58, Room(worst));
    }
  }

  /** 38 bytes with a nonzero first byte, the length of a binary address, are always safe. */
  lemma SafeAt38(data: seq<Byte>)
    requires |data| == 38 && data[0] != 0
    ensures Value(data, 256) < Pow(58, Room(data))
  {
    var n := |data|;
    Powers(n, n * 138 / 100);
    SafeWhen(data, n);
  }

  lemma PowIs(b: nat, m: nat, n: nat, x: nat, y: nat)
    requires Pow(b, m) == x && Pow(b, n) == y
    ensures Pow(b, m + n) == x * y
  {
    PowAdd(b, m, n);
  }

  lemma Powers(m: nat, n: nat)
    requires m == 38 && n == 52
    ensures Pow(256, m) <= Pow(58, n)
  {
    assert Pow(58, 1) == 58 && Pow(256, 1) == 256;
    PowIs(58, 1, 1, 58, 58);
    PowIs(58, 1, 2, 58, 3364);
    PowIs(58, 3, 3, 195112, 195112);
    PowIs(58, 1, 6, 58, 38068692544);
    PowIs(58, 6, 7, 38068692544, 2207984167552);
    PowIs(58, 13, 13, 84055070416556869132288, 84055070416556869132288);
    PowIs(58, 26, 26, 7065254862732333761310239421614111190044114944, 7065254862732333761310239421614111190044114944);
    PowIs(256, 1, 1, 256, 256);
    PowIs(256, 1, 2, 256, 65536);
    PowIs(256, 3, 3, 16777216, 16777216);
    PowIs(256, 6, 6, 281474976710656, 281474976710656);
    PowIs(256, 6, 12, 281474976710656, 79228162514264337593543950336);
    PowIs(256, 1, 18, 256, 22300745198530623141535718272648361505980416);
    PowIs(256, 19, 19, 5708990770823839524233143877797980545530986496, 5708990770823839524233143877797980545530986496);
  }

  /** A single byte wraps exactly from 58 on. */
  lemma SingleByte(b: Byte)
    ensures Value([b], 256) >= Pow(58, Room([b])) <==> b >= 58
  {
  }

  // ---- the alphabet ----

  /** b58digits_ordered in rows. */
  function Row(r: nat): string {
    match r
    case 0 => "123456789A"
    case 1 => "BCDEFGHJKL"
    case 2 => "MNPQRSTUVW"
    case 3 => "XYZabcdefg"
    case 4 => "hijkmnopqr"
    case _ => "stuvwxyz"
  }

  lemma AlphabetIs(d: nat)
    requires d < 58
    ensures d % 10 < |Row(d / 10)| && CharOf(d) == Row(d / 10)[d % 10]
  {
    var k := d % 10;
    assert k == 0 || k == 1 || k == 2 || k == 3 || k == 4 || k == 5 || k == 6 || k == 7 || k == 8 || k == 9;
  }
}
