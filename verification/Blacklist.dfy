/** The raw scan of the blacklist account (sdk/src/ComplianceModule.ts, `isBlacklisted`). */
module Blacklist {
  import opened Wrappers
  import opened ByteLayout

  /** discriminator, mint and authority */
  const VEC_LEN_OFFSET := 8 + KEY_SIZE + KEY_SIZE
  const ENTRIES_OFFSET := VEC_LEN_OFFSET + 4

  /** How many entries the account claims and how many whole ones it has. */
  function EntryCount(data: Bytes): nat
    requires |data| >= ENTRIES_OFFSET
  {
    var claimed, whole := Value(data[VEC_LEN_OFFSET..ENTRIES_OFFSET]), (|data| - ENTRIES_OFFSET) / KEY_SIZE;
    if claimed <= whole then claimed else whole
  }

  /** The whole entries of an account, up to the number it claims. */
  function Listed(data: Bytes): seq<Bytes> {
    if |data| < ENTRIES_OFFSET then []
    else seq(EntryCount(data), i requires 0 <= i < EntryCount(data) => EntryAt(data, i))
  }

  function EntryAt(data: Bytes, i: nat): Bytes
    requires |data| >= ENTRIES_OFFSET && i < EntryCount(data)
  {
    var start := ENTRIES_OFFSET + i * KEY_SIZE;
    data[start..start + KEY_SIZE]
  }

  method IsBlacklisted(account: Option<Bytes>, address: Key) returns (found: bool)
    ensures found <==> account.Some? && address in Listed(account.value)
  {
    if account.None? {
      return false;
    }
    var data := account.value;
    if |data| < VEC_LEN_OFFSET + 4 {
      return false;
    }
    var vecLen := Value(data[VEC_LEN_OFFSET..VEC_LEN_OFFSET + 4]);
    var i := 0;
    while i < vecLen
      invariant 0 <= i <= EntryCount(data)
      invariant forall k :: 0 <= k < i ==> EntryAt(data, k) != address
    {
      var start := ENTRIES_OFFSET + i * KEY_SIZE;
      if start + KEY_SIZE > |data| {
        break;
      }
      var pk := Slice(data, start, start + KEY_SIZE);
      if pk == address {
        assert Listed(data)[i] == address;
        return true;
      }
      i := i + 1;
    }
    assert i == EntryCount(data);
    return false;
  }

  // ----- Against an encoded list -----

  function EncodeList(header: Bytes, keys: seq<Key>): Bytes {
    header + Le(|keys|, 4) + Join(keys)
  }

  lemma {:induction false} JoinOfKeys(keys: seq<Key>)
    ensures |Join(keys)| == |keys| * KEY_SIZE
    ensures forall i :: 0 <= i < |keys| ==> Join(keys)[i * KEY_SIZE..i * KEY_SIZE + KEY_SIZE] == keys[i]
  {
    if keys != [] {
      var n := |keys| - 1;
      var init: seq<Key> := keys[..n];
      JoinOfKeys(init);
      forall i | 0 <= i < |keys| ensures Join(keys)[i * KEY_SIZE..i * KEY_SIZE + KEY_SIZE] == keys[i] {
        if i < n {
          assert Join(keys)[i * KEY_SIZE..i * KEY_SIZE + KEY_SIZE] == Join(init)[i * KEY_SIZE..i * KEY_SIZE + KEY_SIZE];
        }
      }
    }
  }

  lemma {:induction false} CountInPlace(header: Bytes, keys: seq<Key>, rest: Bytes)
    requires |header| == VEC_LEN_OFFSET
    ensures |EncodeList(header, keys) + rest| >= ENTRIES_OFFSET
    ensures (EncodeList(header, keys) + rest)[VEC_LEN_OFFSET..ENTRIES_OFFSET] == Le(|keys|, 4)
  {
    var count := Le(|keys|, 4);
    assert EncodeList(header, keys) + rest == header + (count + (Join(keys) + rest));
    assert (count + (Join(keys) + rest))[..4] == count;
  }

  /** Any cut of an encoded list lists the keys that are there in full, whatever follows a whole one. */
  lemma {:induction false} TruncatedList(header: Bytes, keys: seq<Key>, rest: Bytes, n: nat)
    requires |header| == 72 && |keys| < U32 && n <= |EncodeList(header, keys) + rest|
    ensures Listed((EncodeList(header, keys) + rest)[..n])
         == if n < 76 then [] else if (n - 76) / 32 < |keys| then keys[..(n - 76) / 32] else keys
  {
    var whole := EncodeList(header, keys) + rest;
    var data := whole[..n];
    if n >= ENTRIES_OFFSET {
      WordRanges();
      ValueOfLe(|keys|, 4);
      JoinOfKeys(keys);
      CountInPlace(header, keys, rest);
      assert data[VEC_LEN_OFFSET..ENTRIES_OFFSET] == whole[VEC_LEN_OFFSET..ENTRIES_OFFSET];
      var count := EntryCount(data);
      forall i | 0 <= i < count ensures EntryAt(data, i) == keys[i] {
        EntryOfEncoded(header, keys, rest, i);
        var start := ENTRIES_OFFSET + i * KEY_SIZE;
        assert data[start..start + KEY_SIZE] == whole[start..start + KEY_SIZE];
      }
      assert Listed(data) == keys[..count];
      assert keys[..|keys|] == keys;
    }
  }

  lemma {:induction false} EntryOfEncoded(header: Bytes, keys: seq<Key>, rest: Bytes, i: nat)
    requires |header| == VEC_LEN_OFFSET && i < |keys|
    ensures var start := ENTRIES_OFFSET + i * KEY_SIZE;
      && start + KEY_SIZE <= |EncodeList(header, keys) + rest|
      && (EncodeList(header, keys) + rest)[start..start + KEY_SIZE] == keys[i]
  {
    JoinOfKeys(keys);
    var at := i * KEY_SIZE;
    var data, joined := EncodeList(header, keys) + rest, Join(keys);
    assert data[ENTRIES_OFFSET..ENTRIES_OFFSET + |joined|] == joined;
    assert data[ENTRIES_OFFSET + at..ENTRIES_OFFSET + at + KEY_SIZE] == joined[at..at + KEY_SIZE];
  }

  /** On an encoded list of any length, padded or not, the scan is exactly membership. */
  lemma {:induction false} EncodedListIsListed(header: Bytes, keys: seq<Key>, rest: Bytes)
    requires |header| == 72 && |keys| < U32
    ensures Listed(EncodeList(header, keys) + rest) == keys
  {
    var whole := EncodeList(header, keys) + rest;
    JoinOfKeys(keys);
    TruncatedList(header, keys, rest, |whole|);
    assert whole[..|whole|] == whole;
  }
}
