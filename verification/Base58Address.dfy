/** Account addresses: a version byte, a public key and a checksum in Base58. */
module Base58Address {
  import opened Common
  import opened Numerals
  import opened Base58
  import opened Base58RoundTrip

  const VERSION: Byte := 0x42
  const ADDRESS_LENGTH := 52
  const PUBKEY_LENGTH := 33

  /** The first four bytes of the double SHA-256 of some input. */
  datatype Sum = Sum(b0: Byte, b1: Byte, b2: Byte, b3: Byte) {
    function Bytes(): seq<Byte> { [b0, b1, b2, b3] }
  }

  type Checksum = seq<Byte> -> Sum

  /** base58check_encode: what is put into text. */
  function Checked(h: Checksum, pubkey: seq<Byte>): seq<Byte> {
    [VERSION] + pubkey + h([VERSION] + pubkey).Bytes()
  }

  /** pubkey_to_address without the final NUL. */
  function AddressOf(h: Checksum, pubkey: seq<Byte>): string {
    TextOf(Checked(h, pubkey))
  }

  /** base58_check on the bytes and the size that base58_decode produced. A size
      beyond the 38-byte buffer never yields the version byte (it needs more leading
      `1` characters than leading zero bytes), nor does a zero first byte. */
  function CheckBytes(h: Checksum, text: string, bin: seq<Byte>, binsz: nat): int
    requires text != "" && bin != []
  {
    if binsz < 4 then -4
    else if binsz == 4 then -2
    else if binsz > |bin| || bin[binsz - 4..binsz] != h(bin[..binsz - 4]).Bytes() then -1
    else if bin[0] != 0 && text[0] == '1' then -3
    else bin[0]
  }

  /** address_to_pubkey. */
  function PubkeyOf(h: Checksum, text: string): Option<seq<Byte>> {
    if |text| != ADDRESS_LENGTH || !Decodable(text, 38) then None
    else
      var bin: seq<Byte> := BytesOf(text, 38);
      if CheckBytes(h, text, bin, SizeOf(text, 38)) != VERSION then None else Some(bin[1..34])
  }

  lemma {:induction false} AtLeast(ds: seq<nat>, base: nat)
    requires base > 0 && ds != [] && ds[0] > 0
    ensures Value(ds, base) >= Pow(base, |ds| - 1)
  {
    FirstDigit(ds, base);
    TimesAtLeast(ds[0], Pow(base, |ds| - 1));
  }

  lemma TimesAtLeast(d: nat, p: nat)
    requires d > 0
    ensures d * p >= p
  {
  }

  lemma SameLength(v: nat, k: nat, n: nat)
    requires k > 0 && n > 0 && Pow(58, n - 1) <= v < Pow(58, n) && Pow(58, k - 1) <= v < Pow(58, k)
    ensures k == n
  {
    PowMonotone(58, if k < n then k else n, if k < n then n - 1 else if n < k then k - 1 else n);
  }

  lemma DigitCount(v: nat, n: nat)
    requires n > 0 && Pow(58, n - 1) <= v < Pow(58, n)
    ensures |Digits(v, 58)| == n
  {
    var ds := Digits(v, 58);
    ValueOfDigits(v, 58);
    ValueBound(ds, 58);
    AtLeast(ds, 58);
    SameLength(v, |ds|, n);
  }

  lemma Powers51(m: nat, n: nat)
    requires m == 37 && n == 51
    ensures Pow(58, n) <= VERSION * Pow(256, m)
  {
    assert Pow(58, 1) == 58 && Pow(256, 1) == 256;
    PowIs(58, 1, 1, 58, 58);
    PowIs(58, 1, 2, 58, 3364);
    PowIs(58, 3, 3, 195112, 195112);
    PowIs(58, 6, 6, 38068692544, 38068692544);
    PowIs(58, 12, 12, 1449225352009601191936, 1449225352009601191936);
    PowIs(58, 24, 24, 2100254120907352485526230505830591911428096, 2100254120907352485526230505830591911428096);
    PowIs(58, 3, 48, 195112, 4411067372388315992860700508871397707604375080488126236526447381866738070646178185216);
    PowIs(256, 1, 1, 256, 256);
    PowIs(256, 1, 2, 256, 65536);
    PowIs(256, 3, 3, 16777216, 16777216);
    PowIs(256, 6, 6, 281474976710656, 281474976710656);
    PowIs(256, 6, 12, 281474976710656, 79228162514264337593543950336);
    PowIs(256, 18, 18, 22300745198530623141535718272648361505980416, 22300745198530623141535718272648361505980416);
    PowIs(256, 1, 36, 256, 497323236409786642155382248146820840100456150797347717440463976893159497012533375533056);
  }

  lemma LargeEnough(data: seq<Byte>, m: nat, n: nat)
    requires |data| == m + 1 == 38 && n == 51 && data[0] == VERSION
    ensures Pow(58, n) <= Value(data, 256)
  {
    FirstDigit(data, 256);
    Powers51(m, n);
  }

  /** Every address has the length the reader insists on. */
  lemma AddressLength(h: Checksum, pubkey: seq<Byte>)
    requires |pubkey| == PUBKEY_LENGTH
    ensures |AddressOf(h, pubkey)| == ADDRESS_LENGTH
  {
    var data := Checked(h, pubkey);
    var n := Room(data);
    LargeEnough(data, |data| - 1, n - 1);
    SafeAt38(data);
    DigitCount(Value(data, 256), n);
  }

  /** An address leads back to its key. */
  lemma AddressToKey(h: Checksum, pubkey: seq<Byte>)
    requires |pubkey| == PUBKEY_LENGTH
    ensures PubkeyOf(h, AddressOf(h, pubkey)) == Some(pubkey)
  {
    var data := Checked(h, pubkey);
    AddressLength(h, pubkey);
    RoundTrip(data);
    NumberInText(data);
    assert LeadingZeros(data) == 0;
    assert data[..34] == [VERSION] + pubkey && data[34..38] == h(data[..34]).Bytes();
    assert data[1..34] == pubkey;
  }

  /** The bytes behind an address: 0x42, the key, and four bytes of the hash of both. */
  lemma AddressBytes(h: Checksum, pubkey: seq<Byte>)
    requires |pubkey| == 33
    ensures var text := AddressOf(h, pubkey);
            Decodable(text, 38) && |BytesOf(text, 38)| == 38
    ensures var b, sum := BytesOf(AddressOf(h, pubkey), 38), h([0x42] + pubkey);
            b[0] == 0x42 && b[1..34] == pubkey && b[34..] == [sum.b0, sum.b1, sum.b2, sum.b3]
  {
    var data := Checked(h, pubkey);
    RoundTrip(data);
    assert data[1..34] == pubkey && data[34..] == h([VERSION] + pubkey).Bytes();
  }

  lemma Parts(bin: seq<Byte>)
    requires |bin| == 38
    ensures bin == [bin[0]] + bin[1..34] + bin[34..38] && bin[..34] == [bin[0]] + bin[1..34]
  {
  }

  /** An address is accepted exactly when it is the address of some key, and then
      that key is the one returned. */
  lemma AcceptsExactlyAddresses(h: Checksum, text: string, pubkey: seq<Byte>)
    requires |pubkey| == PUBKEY_LENGTH
    ensures PubkeyOf(h, text) == Some(pubkey) <==> text == AddressOf(h, pubkey)
  {
    AddressToKey(h, pubkey);
    if PubkeyOf(h, text) == Some(pubkey) {
      var bin: seq<Byte> := BytesOf(text, 38);
      assert bin[0] == VERSION && LeadingZeros(bin) == 0 && LeadingOnes(text) == 0;
      Parts(bin);
      assert bin == Checked(h, pubkey);
      TextRoundTrip(text, 38);
      assert bin[0..] == bin;
    }
  }

  // ---- a reported size beyond the buffer ----

  /** How many leading zero bytes a number has follows from its size. */
  lemma {:induction false} ZerosIff(bytes: seq<nat>, k: nat)
    requires Below(bytes, 256) && k <= |bytes|
    ensures LeadingZeros(bytes) >= k <==> Value(bytes, 256) < Pow(256, |bytes| - k)
  {
    var z := LeadingZeros(bytes);
    SkipZeros(bytes, if z < k then z else k, 256);
    if z >= k {
      ValueBound(bytes[k..], 256);
    } else {
      AtLeast(bytes[z..], 256);
      PowMonotone(256, |bytes| - k, |bytes| - z - 1);
    }
  }

  /** The reported size exceeds the buffer, and base58_check looks behind it, if and only
      if a text has leading `1` characters and its value, without them, needs more bytes
      than they leave. The decoder counts them in 32 bits. */
  lemma SizeBeyondIff(text: string, n: nat)
    requires Decodable(text, n)
    ensures var ones := LeadingOnes(text) % LIMB;
            SizeOf(text, n) > n <==>
            ones > 0 && (ones > n || Value(DigitsIn(text), 58) >= Pow(256, n - ones))
  {
    var ones := LeadingOnes(text) % LIMB;
    NumberOfBytes(text, n);
    if ones <= n {
      ZerosIff(BytesOf(text, n), ones);
    }
  }

  /** No key is read then. */
  lemma NoKeyBeyond(h: Checksum, text: string)
    requires Decodable(text, 38) && SizeOf(text, 38) > 38
    ensures PubkeyOf(h, text) == None
  {
  }

  lemma Powers50(m: nat, n: nat)
    requires m == 37 && n == 50
    ensures Pow(256, m) <= 57 * Pow(58, n)
  {
    assert Pow(58, 1) == 58 && Pow(256, 1) == 256;
    PowIs(58, 1, 1, 58, 58);
    PowIs(58, 2, 1, 3364, 58);
    PowIs(58, 3, 3, 195112, 195112);
    PowIs(58, 6, 6, 38068692544, 38068692544);
    PowIs(58, 12, 12, 1449225352009601191936, 1449225352009601191936);
    PowIs(58, 24, 24, 2100254120907352485526230505830591911428096, 2100254120907352485526230505830591911428096);
    PowIs(58, 48, 2, 4411067372388315992860700508871397707604375080488126236526447381866738070646178185216, 3364);
    PowIs(256, 1, 1, 256, 256);
    PowIs(256, 1, 2, 256, 65536);
    PowIs(256, 3, 3, 16777216, 16777216);
    PowIs(256, 6, 6, 281474976710656, 281474976710656);
    PowIs(256, 6, 12, 281474976710656, 79228162514264337593543950336);
    PowIs(256, 18, 18, 22300745198530623141535718272648361505980416, 22300745198530623141535718272648361505980416);
    PowIs(256, 1, 36, 256, 497323236409786642155382248146820840100456150797347717440463976893159497012533375533056);
  }

  lemma TopByte(bytes: seq<nat>, m: nat)
    requires |bytes| == m + 1 && Below(bytes, 256) && Value(bytes, 256) >= Pow(256, m)
    ensures bytes[0] != 0 && LeadingZeros(bytes) == 0
  {
    FirstDigit(bytes, 256);
    ValueBound(bytes[1..], 256);
  }

  lemma LargeText(ds: seq<nat>, m: nat, n: nat)
    requires |ds| == n + 2 && n == 50 && m == 37 && Below(ds, 58) && ds[0] == 0 && ds[1] == 57
    ensures Pow(256, m) <= Value(ds, 58) < Pow(256, m + 1)
  {
    var rest := ds[1..];
    FirstDigit(ds, 58);
    FirstDigit(rest, 58);
    ValueBound(rest, 58);
    Powers50(m, n);
    Powers51(m, n + 1);
    PowPositive(m);
  }

  lemma PowPositive(m: nat)
    ensures Pow(256, m + 1) == 256 * Pow(256, m) && Pow(256, m) > 0
  {
  }

  lemma OneMoreOne(text: string, m: nat)
    requires AllDigits(text) && LeadingOnes(text) == 1
    requires Pow(256, m) <= Value(DigitsIn(text), 58) < Pow(256, m + 1)
    ensures Decodable(text, m + 1) && SizeOf(text, m + 1) == m + 2
  {
    NumberOfBytes(text, m + 1);
    TopByte(BytesOf(text, m + 1), m);
    OnesFromSize(text, m + 1);
  }

  /** That happens, for instance, to every text of 52 digits that starts with `1z`. */
  lemma ReadsBeyond(text: string)
    requires |text| == ADDRESS_LENGTH && AllDigits(text) && text[0] == '1' && text[1] == 'z'
    ensures Decodable(text, 38) && SizeOf(text, 38) == 39
  {
    LeadingOnesIs(text, 1);
    LargeText(DigitsIn(text), 37, 50);
    OneMoreOne(text, 37);
  }
}
