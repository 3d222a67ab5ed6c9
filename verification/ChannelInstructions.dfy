/**
 Instruction data of the agent payment channel (sdk/src/AgentPaymentChannelModule.ts): each builder fills a zeroed
 buffer of fixed size, field by field, at literal offsets.
 */
module ChannelInstructions {
  import opened Wrappers
  import opened ByteLayout

  datatype BuildError = ZeroCounterparty | TaskHashLength | OutputHashLength | ValueOutOfRange

  const ZERO_KEY: Bytes := seq(KEY_SIZE, _ => 0)
  const DISC_OPEN_CHANNEL: Bytes := [0x5b, 0x2d, 0xfd, 0x47, 0x8c, 0xa6, 0x6b, 0x6d]
  const DISC_SUBMIT_WORK_PROOF: Bytes := [0x39, 0x92, 0x7a, 0x26, 0x2f, 0x36, 0x8d, 0xc1]
  const DISC_PROPOSE_SETTLE: Bytes := [0x88, 0xd8, 0x00, 0x00, 0x81, 0x97, 0x73, 0x95]

  /** The front of the buffer holds these fields, one after the other. */
  ghost predicate Filled(data: Bytes, fields: seq<Bytes>, end: nat) {
    |Join(fields)| == end <= |data| && data[..end] == Join(fields)
  }

  lemma {:induction false} FillNext(data: Bytes, fields: seq<Bytes>, end: nat, field: Bytes)
    requires Filled(data, fields, end) && end + |field| <= |data|
    ensures Filled(Overwritten(data, end, field), fields + [field], end + |field|)
  {
    assert (fields + [field])[..|fields|] == fields;
  }

  /** `Copy` and `Write` at the end of what is filled. */
  method CopyNext(data: array<Byte>, ghost fields: seq<Bytes>, offset: nat, b: Bytes)
    requires Filled(data[..], fields, offset) && offset + |b| <= data.Length
    modifies data
    ensures Filled(data[..], fields + [b], offset + |b|)
  {
    FillNext(data[..], fields, offset, b);
    Copy(data, offset, b);
  }

  method WriteNext(data: array<Byte>, ghost fields: seq<Bytes>, offset: nat, width: nat, n: int) returns (ok: bool)
    requires Filled(data[..], fields, offset) && offset + width <= data.Length
    modifies data
    ensures ok <==> 0 <= n < Range(width)
    ensures ok ==> Filled(data[..], fields + [Le(n, width)], offset + width)
  {
    ghost var before := data[..];
    ok := Write(data, offset, width, n);
    if ok { FillNext(before, fields, offset, Le(n, width)); }
  }

  // ----- openChannel -----

  datatype OpenChannel = OpenChannel(
    counterparty: Key, deposit: int, channelId: int, disputePolicy: int, timeoutSlots: int)
  {
    predicate InRange() {
      0 <= deposit < U64 && 0 <= channelId < U64 && 0 <= disputePolicy < 256 && 0 <= timeoutSlots < U64
    }

    function Fields(): seq<Bytes>
      requires InRange()
    {
      [DISC_OPEN_CHANNEL, counterparty, Le(deposit, 8), Le(channelId, 8), Le(disputePolicy, 1), Le(timeoutSlots, 8)]
    }
  }

  const OPEN_TABLE: seq<nat> := [0, 8, 40, 48, 56, 57, 65]

  method OpenChannelData(p: OpenChannel) returns (r: Result<Bytes, BuildError>)
    ensures r.Ok? <==> p.counterparty != ZERO_KEY && p.InRange()
    ensures r.Ok? ==> r.value == Join(p.Fields())
    ensures r.Err? ==> r.error == if p.counterparty == ZERO_KEY then ZeroCounterparty else ValueOutOfRange
    ensures r == Err(ZeroCounterparty) <==> forall i :: 0 <= i < 32 ==> p.counterparty[i] == 0
  {
    WordRanges();
    if p.counterparty == ZERO_KEY {
      return Err(ZeroCounterparty);
    }
    var data := new Byte[65](_ => 0);
    CopyNext(data, [], 0, DISC_OPEN_CHANNEL);
    ghost var f1 := [DISC_OPEN_CHANNEL];
    CopyNext(data, f1, 8, p.counterparty);
    ghost var f2 := f1 + [p.counterparty];
    var ok := WriteNext(data, f2, 40, 8, p.deposit);
    if !ok { return Err(ValueOutOfRange); }
    ghost var f3 := f2 + [Le(p.deposit, 8)];
    ok := WriteNext(data, f3, 48, 8, p.channelId);
    if !ok { return Err(ValueOutOfRange); }
    ghost var f4 := f3 + [Le(p.channelId, 8)];
    ok := WriteNext(data, f4, 56, 1, p.disputePolicy);
    if !ok { return Err(ValueOutOfRange); }
    ghost var f5 := f4 + [Le(p.disputePolicy, 1)];
    ok := WriteNext(data, f5, 57, 8, p.timeoutSlots);
    if !ok { return Err(ValueOutOfRange); }
    assert f5 + [Le(p.timeoutSlots, 8)] == p.Fields();
    r := Ok(data[..]);
  }

  /** What the program reads from the data: the fields of its parameter record in order. */
  function ParseOpenChannel(data: Bytes): OpenChannel
    requires |data| == 65
  {
    var parts := Cut(data, OPEN_TABLE);
    OpenChannel(parts[1], Value(parts[2]), Value(parts[3]), Value(parts[4]), Value(parts[5]))
  }

  /** The data holds each parameter once: all of them can be read back. */
  lemma {:induction false} OpenChannelParses(p: OpenChannel)
    requires p.InRange()
    ensures |Join(p.Fields())| == 65
    ensures ParseOpenChannel(Join(p.Fields())) == p
    ensures Join(p.Fields())[..8] == DISC_OPEN_CHANNEL
  {
    CutWhole(p.Fields(), OPEN_TABLE);
    WordRanges();
    ValueOfLe(p.deposit, 8);
    ValueOfLe(p.channelId, 8);
    ValueOfLe(p.disputePolicy, 1);
    ValueOfLe(p.timeoutSlots, 8);
  }

  /** Where each parameter stands in the data. */
  lemma {:induction false} OpenChannelLayout(p: OpenChannel)
    requires p.InRange()
    ensures var data := Join(p.Fields());
      && |data| == 65
      && data[..8] == [0x5b, 0x2d, 0xfd, 0x47, 0x8c, 0xa6, 0x6b, 0x6d]
      && data[8..40] == p.counterparty && Value(data[40..48]) == p.deposit && Value(data[48..56]) == p.channelId
      && data[56] == p.disputePolicy && Value(data[57..65]) == p.timeoutSlots
  {
    var data := Join(p.Fields());
    OpenChannelParses(p);
    ByteAt(data, 56);
    assert Cut(data, OPEN_TABLE)[4] == data[56..57];
  }

  lemma {:induction false} CutWhole(fields: seq<Bytes>, table: seq<nat>)
    requires Follows(fields, table)
    ensures |Join(fields)| == table[|fields|] && Cut(Join(fields), table) == fields
  {
    CutOfJoin(fields, table, []);
    assert Join(fields) + [] == Join(fields);
  }

  // ----- submitWorkProof -----

  datatype WorkProof = WorkProof(channelId: int, taskHash: Bytes, outputHash: Bytes, proofType: int)
  {
    predicate InRange() { 0 <= channelId < U64 && 0 <= proofType < 256 }

    function Fields(): seq<Bytes>
      requires InRange()
    {
      [DISC_SUBMIT_WORK_PROOF, Le(channelId, 8), taskHash, outputHash, Le(proofType, 1)]
    }
  }

  const WORK_PROOF_TABLE: seq<nat> := [0, 8, 16, 48, 80, 81]

  method SubmitWorkProofData(p: WorkProof) returns (r: Result<Bytes, BuildError>)
    ensures r.Ok? <==> |p.taskHash| == 32 && |p.outputHash| == 32 && p.InRange()
    ensures r.Ok? ==> r.value == Join(p.Fields())
    ensures r.Err? ==>
      r.error == (if |p.taskHash| != 32 then TaskHashLength
                  else if |p.outputHash| != 32 then OutputHashLength
                  else ValueOutOfRange)
  {
    WordRanges();
    if |p.taskHash| != 32 { return Err(TaskHashLength); }
    if |p.outputHash| != 32 { return Err(OutputHashLength); }
    var data := new Byte[81](_ => 0);
    CopyNext(data, [], 0, DISC_SUBMIT_WORK_PROOF);
    ghost var f1 := [DISC_SUBMIT_WORK_PROOF];
    var ok := WriteNext(data, f1, 8, 8, p.channelId);
    if !ok { return Err(ValueOutOfRange); }
    ghost var f2 := f1 + [Le(p.channelId, 8)];
    CopyNext(data, f2, 16, p.taskHash);
    ghost var f3 := f2 + [p.taskHash];
    CopyNext(data, f3, 48, p.outputHash);
    ghost var f4 := f3 + [p.outputHash];
    ok := WriteNext(data, f4, 80, 1, p.proofType);
    if !ok { return Err(ValueOutOfRange); }
    assert f4 + [Le(p.proofType, 1)] == p.Fields();
    r := Ok(data[..]);
  }

  function ParseWorkProof(data: Bytes): WorkProof
    requires |data| == 81
  {
    var parts := Cut(data, WORK_PROOF_TABLE);
    WorkProof(Value(parts[1]), parts[2], parts[3], Value(parts[4]))
  }

  lemma {:induction false} WorkProofParses(p: WorkProof)
    requires p.InRange() && |p.taskHash| == 32 && |p.outputHash| == 32
    ensures |Join(p.Fields())| == 81
    ensures ParseWorkProof(Join(p.Fields())) == p
    ensures Join(p.Fields())[..8] == DISC_SUBMIT_WORK_PROOF
  {
    CutWhole(p.Fields(), WORK_PROOF_TABLE);
    WordRanges();
    ValueOfLe(p.channelId, 8);
    ValueOfLe(p.proofType, 1);
  }

  /** Where each parameter stands in the data. */
  lemma {:induction false} WorkProofLayout(p: WorkProof)
    requires p.InRange() && |p.taskHash| == 32 && |p.outputHash| == 32
    ensures var data := Join(p.Fields());
      && |data| == 81
      && data[..8] == [0x39, 0x92, 0x7a, 0x26, 0x2f, 0x36, 0x8d, 0xc1]
      && Value(data[8..16]) == p.channelId && data[16..48] == p.taskHash && data[48..80] == p.outputHash
      && data[80] == p.proofType
  {
    var data := Join(p.Fields());
    WorkProofParses(p);
    ByteAt(data, 80);
    assert Cut(data, WORK_PROOF_TABLE)[4] == data[80..81];
  }

  // ----- proposeSettle -----

  datatype Settlement = Settlement(channelId: int, amount: int)
  {
    predicate InRange() { 0 <= channelId < U64 && 0 <= amount < U64 }

    function Fields(): seq<Bytes>
      requires InRange()
    {
      [DISC_PROPOSE_SETTLE, Le(channelId, 8), Le(amount, 8)]
    }
  }

  const SETTLE_TABLE: seq<nat> := [0, 8, 16, 24]

  method ProposeSettleData(p: Settlement) returns (r: Result<Bytes, BuildError>)
    ensures r.Ok? <==> p.InRange()
    ensures r.Ok? ==> r.value == Join(p.Fields())
    ensures r.Err? ==> r.error == ValueOutOfRange
  {
    WordRanges();
    var data := new Byte[24](_ => 0);
    CopyNext(data, [], 0, DISC_PROPOSE_SETTLE);
    ghost var f1 := [DISC_PROPOSE_SETTLE];
    var ok := WriteNext(data, f1, 8, 8, p.channelId);
    if !ok { return Err(ValueOutOfRange); }
    ghost var f2 := f1 + [Le(p.channelId, 8)];
    ok := WriteNext(data, f2, 16, 8, p.amount);
    if !ok { return Err(ValueOutOfRange); }
    assert f2 + [Le(p.amount, 8)] == p.Fields();
    r := Ok(data[..]);
  }

  function ParseSettlement(data: Bytes): Settlement
    requires |data| == 24
  {
    var parts := Cut(data, SETTLE_TABLE);
    Settlement(Value(parts[1]), Value(parts[2]))
  }

  lemma {:induction false} SettlementParses(p: Settlement)
    requires p.InRange()
    ensures |Join(p.Fields())| == 24
    ensures ParseSettlement(Join(p.Fields())) == p
    ensures Join(p.Fields())[..8] == DISC_PROPOSE_SETTLE
  {
    CutWhole(p.Fields(), SETTLE_TABLE);
    WordRanges();
    ValueOfLe(p.channelId, 8);
    ValueOfLe(p.amount, 8);
  }

  /** Where each parameter stands in the data. */
  lemma {:induction false} SettlementLayout(p: Settlement)
    requires p.InRange()
    ensures var data := Join(p.Fields());
      && |data| == 24
      && data[..8] == [0x88, 0xd8, 0x00, 0x00, 0x81, 0x97, 0x73, 0x95]
      && Value(data[8..16]) == p.channelId && Value(data[16..24]) == p.amount
  {
    SettlementParses(p);
  }

  /** The data of one instruction never begins like that of another. */
  lemma {:induction false} InstructionsDiffer(p: OpenChannel, q: WorkProof, r: Settlement)
    requires p.InRange() && q.InRange() && |q.taskHash| == 32 && |q.outputHash| == 32 && r.InRange()
    ensures var open, proof, settle := Join(p.Fields()), Join(q.Fields()), Join(r.Fields());
      && |open| >= 8 && |proof| >= 8 && |settle| >= 8
      && open[..8] != proof[..8] && open[..8] != settle[..8] && proof[..8] != settle[..8]
  {
    OpenChannelLayout(p);
    WorkProofLayout(q);
    SettlementLayout(r);
    assert Join(p.Fields())[0] == 0x5b && Join(q.Fields())[0] == 0x39 && Join(r.Fields())[0] == 0x88;
  }
}
