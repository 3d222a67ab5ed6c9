/**
 Byte layouts of the agent payment channel (sdk/src/AgentPaymentChannelModule.ts): the channel account and the
 instruction data.
 */
module ChannelCodec {
  import opened Wrappers
  import opened ByteLayout

  const DISC_SIZE := 8
  const CHANNEL_SIZE := 214

  datatype Channel = Channel(
    config: Bytes,
    opener: Bytes,
    counterparty: Bytes,
    stableMint: Bytes,
    deposit: nat,
    settleAmount: nat,
    disputePolicy: nat,
    timeoutSlots: nat,
    settleProposedAt: nat,
    lastOutputHash: Bytes,
    lastProofType: nat,
    channelId: nat,
    status: nat,
    openerSigned: bool,
    counterpartySigned: bool,
    bump: nat)

  /** The values a channel account can hold. */
  predicate Fits(c: Channel) {
    && |c.config| == |c.opener| == |c.counterparty| == |c.stableMint| == KEY_SIZE && |c.lastOutputHash| == KEY_SIZE
    && c.deposit < U64 && c.settleAmount < U64 && c.timeoutSlots < U64 && c.settleProposedAt < U64 && c.channelId < U64
    && c.disputePolicy < 256 && c.lastProofType < 256 && c.status < 256 && c.bump < 256
  }

  function Flag(b: bool): nat {
    if b then 1 else 0
  }

  // ----- The documented layout, field after field -----

  /** The fields as byte strings, in the order of the layout. */
  function Fields(discriminator: Bytes, c: Channel): seq<Bytes> {
    [discriminator, c.config, c.opener, c.counterparty, c.stableMint,
     Le(c.deposit, 8), Le(c.settleAmount, 8), Le(c.disputePolicy, 1), Le(c.timeoutSlots, 8), Le(c.settleProposedAt, 8),
     c.lastOutputHash, Le(c.lastProofType, 1), Le(c.channelId, 8), Le(c.status, 1),
     Le(Flag(c.openerSigned), 1), Le(Flag(c.counterpartySigned), 1), Le(c.bump, 1)]
  }

  const CHANNEL_TABLE: seq<nat> :=
    [0, 8, 40, 72, 104, 136, 144, 152, 153, 161, 169, 201, 202, 210, 211, 212, 213, 214]

  function Encode(discriminator: Bytes, c: Channel): Bytes {
    Join(Fields(discriminator, c))
  }

  function ChannelOf(parts: seq<Bytes>): Channel
    requires |parts| == 17
  {
    Channel(parts[1], parts[2], parts[3], parts[4],
            Value(parts[5]), Value(parts[6]), Value(parts[7]), Value(parts[8]), Value(parts[9]),
            parts[10], Value(parts[11]), Value(parts[12]), Value(parts[13]),
            Value(parts[14]) == 1, Value(parts[15]) == 1, Value(parts[16]))
  }

  /** What the account says, if it is long enough. */
  function Decoded(data: Bytes): Result<Channel, BufferError> {
    if |data| < CHANNEL_SIZE then Err(OutOfRange) else Ok(ChannelOf(Cut(data, CHANNEL_TABLE)))
  }

  method DecodeChannel(data: Bytes) returns (r: Result<Channel, BufferError>)
    ensures r == Decoded(data)
  {
    var offset := DISC_SIZE;

    var config := Slice(data, offset, offset + 32); offset := offset + 32;
    var opener := Slice(data, offset, offset + 32); offset := offset + 32;
    var counterparty := Slice(data, offset, offset + 32); offset := offset + 32;
    var stableMint := Slice(data, offset, offset + 32); offset := offset + 32;

    var deposit :- Read(data, offset, 8); offset := offset + 8;
    var settleAmount :- Read(data, offset, 8); offset := offset + 8;
    var disputePolicy :- Read(data, offset, 1); offset := offset + 1;
    var timeoutSlots :- Read(data, offset, 8); offset := offset + 8;
    var settleProposedAt :- Read(data, offset, 8); offset := offset + 8;

    var lastOutputHash := Slice(data, offset, offset + 32); offset := offset + 32;
    var lastProofType :- Read(data, offset, 1); offset := offset + 1;
    var channelId :- Read(data, offset, 8); offset := offset + 8;
    var status :- Read(data, offset, 1); offset := offset + 1;
    var openerSigned :- Read(data, offset, 1); offset := offset + 1;
    var counterpartySigned :- Read(data, offset, 1); offset := offset + 1;
    var bump :- Read(data, offset, 1);

    r := Ok(Channel(config, opener, counterparty, stableMint, deposit, settleAmount, disputePolicy, timeoutSlots,
                    settleProposedAt, lastOutputHash, lastProofType, channelId, status,
                    openerSigned == 1, counterpartySigned == 1, bump));
  }

  /** Where each field stands in the account, byte by byte. */
  lemma {:induction false} FieldOffsets(data: Bytes)
    requires |data| >= 214
    ensures Decoded(data).Ok?
    ensures var c := Decoded(data).value;
      && c.config == data[8..40] && c.opener == data[40..72] && c.counterparty == data[72..104]
      && c.stableMint == data[104..136]
      && c.deposit == Value(data[136..144]) && c.settleAmount == Value(data[144..152]) && c.disputePolicy == data[152]
      && c.timeoutSlots == Value(data[153..161]) && c.settleProposedAt == Value(data[161..169])
      && c.lastOutputHash == data[169..201] && c.lastProofType == data[201]
      && c.channelId == Value(data[202..210]) && c.status == data[210]
      && (c.openerSigned <==> data[211] == 1) && (c.counterpartySigned <==> data[212] == 1) && c.bump == data[213]
  {
    ByteAt(data, 152);
    ByteAt(data, 201);
    ByteAt(data, 210);
    ByteAt(data, 211);
    ByteAt(data, 212);
    ByteAt(data, 213);
  }

  // ----- Round trips -----

  lemma {:induction false} FieldsFollow(discriminator: Bytes, c: Channel)
    requires |discriminator| == DISC_SIZE && Fits(c)
    ensures Follows(Fields(discriminator, c), CHANNEL_TABLE)
  {
    ChannelTableIsTable();
    var fields := Fields(discriminator, c);
    forall k | 0 <= k < |fields| ensures CHANNEL_TABLE[k + 1] == CHANNEL_TABLE[k] + |fields[k]| {
      if k < 9 { EarlyField(discriminator, c, k); } else { LateField(discriminator, c, k); }
    }
  }

  lemma {:induction false} EarlyField(discriminator: Bytes, c: Channel, k: nat)
    requires |discriminator| == DISC_SIZE && Fits(c) && k < 9
    ensures CHANNEL_TABLE[k + 1] == CHANNEL_TABLE[k] + |Fields(discriminator, c)[k]|
  {
  }

  lemma {:induction false} LateField(discriminator: Bytes, c: Channel, k: nat)
    requires |discriminator| == DISC_SIZE && Fits(c) && 9 <= k < 17
    ensures CHANNEL_TABLE[k + 1] == CHANNEL_TABLE[k] + |Fields(discriminator, c)[k]|
  {
  }

  lemma {:induction false} ChannelTableIsTable()
    ensures IsTable(CHANNEL_TABLE)
  {
  }

  lemma {:induction false} FieldsComeBack(discriminator: Bytes, c: Channel)
    requires Fits(c)
    ensures ChannelOf(Fields(discriminator, c)) == c
  {
    WordRanges();
    ValueOfLe(c.deposit, 8);
    ValueOfLe(c.settleAmount, 8);
    ValueOfLe(c.timeoutSlots, 8);
    ValueOfLe(c.settleProposedAt, 8);
    ValueOfLe(c.channelId, 8);
    ValueOfLe(c.disputePolicy, 1);
    ValueOfLe(c.lastProofType, 1);
    ValueOfLe(c.status, 1);
    ValueOfLe(Flag(c.openerSigned), 1);
    ValueOfLe(Flag(c.counterpartySigned), 1);
    ValueOfLe(c.bump, 1);
  }

  /** Decoding an encoded account gives every field back, whatever follows the account in the buffer. */
  lemma {:induction false} DecodeOfEncode(discriminator: Bytes, c: Channel, rest: Bytes)
    requires |discriminator| == DISC_SIZE && Fits(c)
    ensures |Encode(discriminator, c)| == CHANNEL_SIZE
    ensures Decoded(Encode(discriminator, c) + rest) == Ok(c)
  {
    FieldsFollow(discriminator, c);
    CutOfJoin(Fields(discriminator, c), CHANNEL_TABLE, rest);
    FieldsComeBack(discriminator, c);
  }

  lemma {:induction false} FlagKept(b: Bytes)
    requires |b| == 1
    ensures Le(Flag(Value(b) == 1), 1) == b <==> Value(b) <= 1
  {
    WordRanges();
    LeOfValue(b);
    ValueOfLe(Flag(Value(b) == 1), 1);
  }

  lemma {:induction false} WidthOf(parts: seq<Bytes>, k: nat)
    requires Follows(parts, CHANNEL_TABLE) && k < |parts|
    ensures |parts[k]| == CHANNEL_TABLE[k + 1] - CHANNEL_TABLE[k]
    ensures Value(parts[k]) < Range(|parts[k]|) && Le(Value(parts[k]), |parts[k]|) == parts[k]
  {
    LeOfValue(parts[k]);
  }

  lemma {:induction false} PartsFit(parts: seq<Bytes>)
    requires Follows(parts, CHANNEL_TABLE)
    ensures Fits(ChannelOf(parts)) && |parts[0]| == DISC_SIZE
  {
    WordRanges();
    WidthOf(parts, 0);
    WidthOf(parts, 1);
    WidthOf(parts, 2);
    WidthOf(parts, 3);
    WidthOf(parts, 4);
    WidthOf(parts, 5);
    WidthOf(parts, 6);
    WidthOf(parts, 7);
    WidthOf(parts, 8);
    WidthOf(parts, 9);
    WidthOf(parts, 10);
    WidthOf(parts, 11);
    WidthOf(parts, 12);
    WidthOf(parts, 13);
    WidthOf(parts, 16);
  }

  /** Everything but the two flags is kept byte for byte. */
  lemma {:induction false} PartKept(parts: seq<Bytes>, k: nat)
    requires Follows(parts, CHANNEL_TABLE) && k < |parts| && k != 14 && k != 15
    ensures Fields(parts[0], ChannelOf(parts))[k] == parts[k]
  {
    WidthOf(parts, k);
  }

  lemma {:induction false} SameButTwo(a: seq<Bytes>, b: seq<Bytes>, i: nat, j: nat)
    requires |a| == |b| && i < |a| && j < |a|
    requires forall k :: 0 <= k < |a| && k != i && k != j ==> a[k] == b[k]
    ensures a == b <==> a[i] == b[i] && a[j] == b[j]
  {
  }

  /** A flag is kept exactly if it is 0 or 1. */
  lemma {:induction false} PartsKept(parts: seq<Bytes>)
    requires Follows(parts, CHANNEL_TABLE)
    ensures Fields(parts[0], ChannelOf(parts)) == parts <==> Value(parts[14]) <= 1 && Value(parts[15]) <= 1
  {
    var fields := Fields(parts[0], ChannelOf(parts));
    forall k | 0 <= k < |parts| && k != 14 && k != 15 ensures fields[k] == parts[k] { PartKept(parts, k); }
    SameButTwo(fields, parts, 14, 15);
    WidthOf(parts, 14);
    WidthOf(parts, 15);
    FlagKept(parts[14]);
    FlagKept(parts[15]);
  }

  lemma {:induction false} JoinSameTable(parts: seq<Bytes>, others: seq<Bytes>, table: seq<nat>)
    requires Follows(parts, table) && Follows(others, table)
    ensures Join(parts) == Join(others) <==> parts == others
  {
    CutOfJoin(parts, table, []);
    CutOfJoin(others, table, []);
    assert Join(parts) + [] == Join(parts) && Join(others) + [] == Join(others);
  }

  const OPENER_SIGNED_AT := 211
  const COUNTERPARTY_SIGNED_AT := 212

  /**
   Encoding what was decoded restores the account exactly if both flag bytes are 0 or 1; any other flag is read as
   false and would be written as 0.
   */
  lemma {:induction false} EncodeOfDecode(data: Bytes)
    requires |data| >= CHANNEL_SIZE
    ensures Fits(Decoded(data).value)
    ensures Encode(data[..DISC_SIZE], Decoded(data).value) == data[..CHANNEL_SIZE]
       <==> data[OPENER_SIGNED_AT] <= 1 && data[COUNTERPARTY_SIGNED_AT] <= 1
  {
    var parts := Cut(data, CHANNEL_TABLE);
    CutFollows(data, CHANNEL_TABLE);
    PartsFit(parts);
    PartsKept(parts);
    FieldsFollow(parts[0], ChannelOf(parts));
    JoinSameTable(Fields(parts[0], ChannelOf(parts)), parts, CHANNEL_TABLE);
    JoinOfCut(data, CHANNEL_TABLE);
    assert parts[0] == data[..DISC_SIZE];
    assert parts[14] == [data[OPENER_SIGNED_AT]] && parts[15] == [data[COUNTERPARTY_SIGNED_AT]];
  }
}
