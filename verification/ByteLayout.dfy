/** Bytes, little-endian integers, hexadecimal text and the buffer operations the SDK uses. */
module ByteLayout {
  import opened Wrappers

  type Byte = x: int | 0 <= x < 256

  type Bytes = seq<Byte>

  const KEY_SIZE := 32

  type Key = b: Bytes | |b| == KEY_SIZE witness seq(KEY_SIZE, _ => 0)

  const U32: nat := 0x1_0000_0000
  const U64: nat := 0x1_0000_0000_0000_0000

  // ----- Little-endian integers -----

  /** How many values `width` bytes have. */
  function Range(width: nat): nat {
    if width == 0 then 1 else 256 * Range(width - 1)
  }

  function Le(n: nat, width: nat): (b: Bytes)
    ensures |b| == width
  {
    if width == 0 then [] else [n % 256] + Le(n / 256, width - 1)
  }

  function Value(b: Bytes): nat {
    if b == [] then 0 else b[0] + 256 * Value(b[1..])
  }

  lemma {:induction false} ValueOfLe(n: nat, width: nat)
    requires n < Range(width)
    ensures Value(Le(n, width)) == n
  {
    if width > 0 {
      ValueOfLe(n / 256, width - 1);
      assert Le(n, width)[1..] == Le(n / 256, width - 1);
    }
  }

  lemma {:induction false} LowByte(low: Byte, rest: nat)
    ensures (low + 256 * rest) % 256 == low && (low + 256 * rest) / 256 == rest
  {
  }

  lemma {:induction false} LeOfValue(b: Bytes)
    ensures Value(b) < Range(|b|)
    ensures Le(Value(b), |b|) == b
  {
    if b != [] {
      LeOfValue(b[1..]);
      LowByte(b[0], Value(b[1..]));
      assert b == [b[0]] + b[1..];
    }
  }

  lemma {:induction false} ScaledSum(low: int, rest: int, range: int, high: int)
    ensures low + 256 * (rest + range * high) == low + 256 * rest + (256 * range) * high
  {
    assert 256 * (range * high) == (256 * range) * high;
  }

  /** The least significant byte comes first: what follows `low` counts in units of the values `low` can have. */
  lemma {:induction false} LittleEndian(low: Bytes, high: Bytes)
    ensures Value(low + high) == Value(low) + Range(|low|) * Value(high)
    ensures |low| == 1 ==> Value(low) == low[0]
  {
    if low == [] {
      assert low + high == high;
    } else {
      LittleEndian(low[1..], high);
      assert (low + high)[1..] == low[1..] + high;
      ScaledSum(low[0], Value(low[1..]), Range(|low| - 1), Value(high));
    }
  }

  lemma {:induction false} ByteAt(data: Bytes, i: nat)
    requires i < |data|
    ensures Value(data[i..i + 1]) == data[i]
  {
    LittleEndian(data[i..i + 1], []);
  }

  lemma {:induction false} WordRanges()
    ensures Range(1) == 256 && Range(4) == U32 && Range(8) == U64
  {
    assert Range(2) == 0x1_0000 && Range(3) == 0x100_0000;
    assert Range(5) == 0x100_0000_0000 && Range(6) == 0x1_0000_0000_0000 && Range(7) == 0x100_0000_0000_0000;
  }

  // ----- Buffers -----

  /** `Buffer.slice`, which clips both ends to the buffer. */
  function Slice(data: Bytes, from: nat, to: nat): Bytes
    requires from <= to
  {
    var lo := if from < |data| then from else |data|;
    var hi := if to < |data| then to else |data|;
    data[lo..hi]
  }

  datatype BufferError = OutOfRange

  /** An unsigned little-endian read; it throws when it would leave the buffer. */
  function Read(data: Bytes, offset: nat, width: nat): Result<nat, BufferError> {
    if offset + width <= |data| then Ok(Value(data[offset..offset + width])) else Err(OutOfRange)
  }

  /** `s` with `b` written over it at `offset`. */
  function Overwritten(s: Bytes, offset: nat, b: Bytes): (r: Bytes)
    requires offset + |b| <= |s|
    ensures |r| == |s|
  {
    s[..offset] + b + s[offset + |b|..]
  }

  /** `Buffer.copy` of the whole of `b`. */
  method Copy(data: array<Byte>, offset: nat, b: Bytes)
    requires offset + |b| <= data.Length
    modifies data
    ensures data[..] == Overwritten(old(data[..]), offset, b)
  {
    forall i | 0 <= i < |b| {
      data[offset + i] := b[i];
    }
  }

  /** An unsigned little-endian write; it throws, and writes nothing, when the value does not fit. */
  method Write(data: array<Byte>, offset: nat, width: nat, n: int) returns (ok: bool)
    requires offset + width <= data.Length
    modifies data
    ensures ok <==> 0 <= n < Range(width)
    ensures data[..] == if ok then Overwritten(old(data[..]), offset, Le(n, width)) else old(data[..])
  {
    ok := 0 <= n < Range(width);
    if ok {
      Copy(data, offset, Le(n, width));
    }
  }

  // ----- Records of consecutive fields -----

  function Join(parts: seq<Bytes>): Bytes {
    if parts == [] then [] else Join(parts[..|parts| - 1]) + parts[|parts| - 1]
  }

  /** A table of offsets: where each field starts, and at last where the record ends. */
  predicate IsTable(offsets: seq<nat>) {
    && offsets != [] && offsets[0] == 0
    && forall k :: 0 <= k < |offsets| - 1 ==> offsets[k] <= offsets[k + 1]
  }

  lemma {:induction false} TableAscends(offsets: seq<nat>, i: nat, j: nat)
    requires IsTable(offsets) && i <= j < |offsets|
    ensures offsets[i] <= offsets[j]
  {
    if i < j { TableAscends(offsets, i, j - 1); }
  }

  predicate Follows(parts: seq<Bytes>, offsets: seq<nat>) {
    && IsTable(offsets) && |offsets| == |parts| + 1
    && forall k :: 0 <= k < |parts| ==> offsets[k + 1] == offsets[k] + |parts[k]|
  }

  /** The fields of a buffer that is long enough for the table. */
  function Cut(data: Bytes, offsets: seq<nat>): (parts: seq<Bytes>)
    requires IsTable(offsets) && offsets[|offsets| - 1] <= |data|
    ensures |parts| == |offsets| - 1
  {
    seq(|offsets| - 1, k requires 0 <= k < |offsets| - 1 =>
      TableAscends(offsets, k, |offsets| - 1);
      TableAscends(offsets, k + 1, |offsets| - 1);
      data[offsets[k]..offsets[k + 1]])
  }

  lemma {:induction false} JoinLength(parts: seq<Bytes>, offsets: seq<nat>)
    requires Follows(parts, offsets)
    ensures |Join(parts)| == offsets[|parts|]
    decreases |parts|
  {
    if parts != [] {
      var n := |parts| - 1;
      JoinLength(parts[..n], offsets[..n + 1]);
    }
  }

  /** Cutting undoes joining, whatever follows the record. */
  lemma {:induction false} CutOfJoin(parts: seq<Bytes>, offsets: seq<nat>, rest: Bytes)
    requires Follows(parts, offsets)
    ensures |Join(parts)| == offsets[|parts|]
    ensures Cut(Join(parts) + rest, offsets) == parts
    decreases |parts|
  {
    JoinLength(parts, offsets);
    if parts != [] {
      var n := |parts| - 1;
      var init, last := parts[..n], parts[n];
      JoinLength(init, offsets[..n + 1]);
      CutOfJoin(init, offsets[..n + 1], last + rest);
      var data := Join(parts) + rest;
      assert data == Join(init) + (last + rest);
      assert data[offsets[n]..offsets[n + 1]] == last;
      forall k | 0 <= k < n ensures Cut(data, offsets)[k] == parts[k] {
        assert Cut(data, offsets[..n + 1])[k] == init[k];
      }
    }
  }

  /** Joining undoes cutting. */
  lemma {:induction false} JoinOfCut(data: Bytes, offsets: seq<nat>)
    requires IsTable(offsets) && offsets[|offsets| - 1] <= |data|
    ensures Join(Cut(data, offsets)) == data[..offsets[|offsets| - 1]]
    decreases |offsets|
  {
    if |offsets| > 1 {
      var n := |offsets| - 2;
      var parts, init := Cut(data, offsets), Cut(data, offsets[..n + 1]);
      TableAscends(offsets, n, n + 1);
      JoinOfCut(data, offsets[..n + 1]);
      assert parts[..n] == init;
      assert parts[n] == data[offsets[n]..offsets[n + 1]];
      assert data[..offsets[n + 1]] == data[..offsets[n]] + parts[n];
    }
  }

  lemma {:induction false} CutFollows(data: Bytes, offsets: seq<nat>)
    requires IsTable(offsets) && offsets[|offsets| - 1] <= |data|
    ensures Follows(Cut(data, offsets), offsets)
  {
    forall k | 0 <= k < |offsets| - 1 ensures offsets[k + 1] == offsets[k] + |Cut(data, offsets)[k]| {
      TableAscends(offsets, k + 1, |offsets| - 1);
    }
  }

  // ----- Hexadecimal text -----

  predicate IsHex(c: char) {
    '0' <= c <= '9' || 'a' <= c <= 'f' || 'A' <= c <= 'F'
  }

  function Digit(c: char): (d: nat)
    requires IsHex(c)
    ensures d < 16
  {
    if '0' <= c <= '9' then c as int - '0' as int
    else if 'a' <= c <= 'f' then c as int - 'a' as int + 10
    else c as int - 'A' as int + 10
  }

  function HexDigit(d: nat): (c: char)
    requires d < 16
    ensures IsHex(c) && Lower(c) == c && Digit(c) == d
  {
    if d < 10 then ('0' as int + d) as char else ('a' as int + d - 10) as char
  }

  /**
   Lower case for the letters A to Z. No other character turns into a hexadecimal digit when it is
   lower-cased, so leaving the others alone makes no difference to a comparison with hexadecimal text.
   */
  function Lower(c: char): char {
    if 'A' <= c <= 'Z' then (c as int + 32) as char else c
  }

  function LowerCase(s: string): (r: string)
    ensures |r| == |s|
  {
    seq(|s|, i requires 0 <= i < |s| => Lower(s[i]))
  }

  /** `Buffer.from(s, 'hex')`: stops at the first pair that is not hexadecimal and drops an odd digit. */
  function FromHex(s: string): Bytes {
    if |s| >= 2 && IsHex(s[0]) && IsHex(s[1]) then [16 * Digit(s[0]) + Digit(s[1])] + FromHex(s[2..]) else []
  }

  /** `buffer.toString('hex')`. */
  function ToHex(b: Bytes): (s: string)
    ensures |s| == 2 * |b|
  {
    if b == [] then "" else [HexDigit(b[0] / 16), HexDigit(b[0] % 16)] + ToHex(b[1..])
  }

  lemma {:induction false} FromToHex(b: Bytes)
    ensures FromHex(ToHex(b)) == b
  {
    if b != [] {
      FromToHex(b[1..]);
      assert ToHex(b)[2..] == ToHex(b[1..]);
      assert b == [b[0]] + b[1..];
    }
  }

  const HEX_DIGITS := "0123456789abcdef"

  /** Each byte is written as two digits, the high one first. */
  lemma {:induction false} HexText(b: Bytes, i: nat)
    requires i < |b|
    ensures ToHex(b)[2 * i] == HEX_DIGITS[b[i] / 16] && ToHex(b)[2 * i + 1] == HEX_DIGITS[b[i] % 16]
  {
    if i == 0 {
      HexDigits(b[0] / 16);
      HexDigits(b[0] % 16);
    } else {
      HexText(b[1..], i - 1);
      assert ToHex(b)[2..] == ToHex(b[1..]);
    }
  }

  lemma {:induction false} HexDigits(d: nat)
    requires d < 16
    ensures HexDigit(d) == HEX_DIGITS[d]
  {
    assert d == 0 || d == 1 || d == 2 || d == 3 || d == 4 || d == 5 || d == 6 || d == 7 || d == 8 || d == 9
        || d == 10 || d == 11 || d == 12 || d == 13 || d == 14 || d == 15;
  }

  lemma {:induction false} ToHexInjective(a: Bytes, b: Bytes)
    requires ToHex(a) == ToHex(b)
    ensures a == b
  {
    FromToHex(a);
    FromToHex(b);
  }

  predicate AllHex(s: string) {
    forall i :: 0 <= i < |s| ==> IsHex(s[i])
  }

  lemma {:induction false} AllHexPairs(s: string)
    requires |s| >= 2
    ensures AllHex(s) <==> IsHex(s[0]) && IsHex(s[1]) && AllHex(s[2..])
  {
    if AllHex(s) {
      forall i | 0 <= i < |s[2..]| ensures IsHex(s[2..][i]) { assert s[2..][i] == s[i + 2]; }
    } else {
      var i :| 0 <= i < |s| && !IsHex(s[i]);
      if i >= 2 { assert s[2..][i - 2] == s[i]; }
    }
  }

  lemma {:induction false} LowerCasePairs(s: string)
    requires |s| >= 2
    ensures LowerCase(s) == [Lower(s[0]), Lower(s[1])] + LowerCase(s[2..])
  {
  }

  lemma {:induction false} HexDigitOfDigit(c: char)
    requires IsHex(c)
    ensures HexDigit(Digit(c)) == Lower(c)
  {
  }

  lemma {:induction false} FromHexPairs(s: string)
    requires |s| >= 2 && IsHex(s[0]) && IsHex(s[1])
    ensures ToHex(FromHex(s)) == [Lower(s[0]), Lower(s[1])] + ToHex(FromHex(s[2..]))
  {
    ToHexOfChars(FromHex(s), s[0], s[1], FromHex(s[2..]));
  }

  lemma {:induction false} ToHexOfChars(b: Bytes, c: char, d: char, rest: Bytes)
    requires IsHex(c) && IsHex(d) && b == [16 * Digit(c) + Digit(d)] + rest
    ensures ToHex(b) == [Lower(c), Lower(d)] + ToHex(rest)
  {
    HexDigitOfDigit(c);
    HexDigitOfDigit(d);
    ToHexOfPair(Digit(c), Digit(d), rest);
  }

  lemma {:induction false} ToHexOfPair(hi: nat, lo: nat, rest: Bytes)
    requires hi < 16 && lo < 16
    ensures ToHex([16 * hi + lo] + rest) == [HexDigit(hi), HexDigit(lo)] + ToHex(rest)
  {
    assert ([16 * hi + lo] + rest)[1..] == rest;
    assert (16 * hi + lo) / 16 == hi && (16 * hi + lo) % 16 == lo;
  }

  lemma {:induction false} SamePrefix(a: string, b: string, prefix: string)
    ensures prefix + a == prefix + b <==> a == b
  {
    assert (prefix + a)[|prefix|..] == a && (prefix + b)[|prefix|..] == b;
  }

  lemma {:induction false} NotHexReadsNothing(s: string)
    requires |s| >= 2 && !(IsHex(s[0]) && IsHex(s[1]))
    ensures ToHex(FromHex(s)) == "" != LowerCase(s)
  {
  }

  lemma {:induction false} HexPairFirst(s: string)
    requires |s| >= 2 && IsHex(s[0]) && IsHex(s[1])
    ensures ToHex(FromHex(s)) == LowerCase(s) <==> ToHex(FromHex(s[2..])) == LowerCase(s[2..])
    ensures AllHex(s) <==> AllHex(s[2..])
  {
    LowerCasePairs(s);
    AllHexPairs(s);
    FromHexPairs(s);
    SamePrefix(ToHex(FromHex(s[2..])), LowerCase(s[2..]), [Lower(s[0]), Lower(s[1])]);
  }

  /** A text is read back as itself exactly if it is pairs of hexadecimal digits, up to their case. */
  lemma {:induction false} ToFromHex(s: string)
    ensures ToHex(FromHex(s)) == LowerCase(s) <==> |s| % 2 == 0 && AllHex(s)
  {
    if |s| < 2 {
    } else if IsHex(s[0]) && IsHex(s[1]) {
      ToFromHex(s[2..]);
      HexPairFirst(s);
    } else {
      AllHexPairs(s);
      NotHexReadsNothing(s);
    }
  }

  lemma {:induction false} HexIgnoresCase(s: string)
    ensures FromHex(LowerCase(s)) == FromHex(s)
  {
    if |s| >= 2 {
      HexIgnoresCase(s[2..]);
      assert LowerCase(s)[2..] == LowerCase(s[2..]);
    }
  }
}
