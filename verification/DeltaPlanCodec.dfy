/**
 A whole delta in one body (src/transfer/sync_codec.cpp): the header, a count that may differ from the number of listed
 operations, and the operations. The count decides how many operations a reader expects.
 */
module DeltaPlanCodec {
  import opened Base
  import opened Wire
  import opened Delta
  import opened SyncCodec
  import opened SyncCodecTheorems

  /** A count of zero stands for the number of listed operations. */
  function WrittenCount(p: DeltaPlan): U32 {
    if p.opCount == 0 then |p.ops| % U32_LIMIT else p.opCount
  }

  function DeltaPlanBytes(p: DeltaPlan): Bytes {
    HeaderBytes(p.sourceSize, p.sourceSha256) + (U32Bytes(WrittenCount(p)) + ManyBytes(OpBody, p.ops))
  }

  function ParseDeltaPlan(b: Bytes): Parsed<DeltaPlan> {
    var (header, b) :- ParseHeader(b);
    var (count, b) :- ParseU32(b);
    var (ops, b) :- ParseMany(ParseOp, count, b);
    Got(DeltaPlan(header.sourceSize, header.sourceSha256, count, ops), b)
  }

  method EncodeDeltaPlan(p: DeltaPlan) returns (body: Bytes)
    ensures body == DeltaPlanBytes(p)
  {
    hide U64Bytes, U32Bytes, TextBytes, OpBody;
    var w := new Writer();
    w.AppendU64(p.sourceSize);
    w.AppendString(p.sourceSha256);
    w.AppendU32(WrittenCount(p));
    ghost var front := w.output;
    for i := 0 to |p.ops|
      invariant w.output == front + ManyBytes(OpBody, p.ops[..i])
    {
      var op := EncodeDeltaOp(p.ops[i]);
      w.AppendBytes(op);
      ManyAppend(OpBody, p.ops[..i], p.ops[i]);
      assert p.ops[..i + 1] == p.ops[..i] + [p.ops[i]];
      JoinAssoc(front, ManyBytes(OpBody, p.ops[..i]), OpBody(p.ops[i]));
    }
    assert p.ops[..|p.ops|] == p.ops;
    body := w.output;
  }

  method ReadDeltaOp(reader: Reader) returns (r: Result<DeltaOp>)
    requires reader.Valid()
    modifies reader
    ensures reader.Reads(ParseOp(old(reader.Rest())), r)
  {
    hide ParseU8, ParseU64, ParseBytes;
    var code := reader.ReadU8();
    if code.Err? {
      return Err(code.error);
    }
    if code.value > 1 {
      return Err(ProtocolError);
    }
    var basisOffset := reader.ReadU64();
    if basisOffset.Err? {
      return Err(basisOffset.error);
    }
    var size := reader.ReadU64();
    if size.Err? {
      return Err(size.error);
    }
    var data := reader.ReadBytes();
    if data.Err? {
      return Err(data.error);
    }
    r := Ok(DeltaOp(if code.value == 0 then CopyFromBasis else LiteralData, basisOffset.value, size.value, data.value));
  }

  method ReadDeltaOps(reader: Reader, count: U32) returns (r: Result<seq<DeltaOp>>)
    requires reader.Valid()
    modifies reader
    ensures reader.Reads(ParseMany(ParseOp, count, old(reader.Rest())), r)
  {
    hide ParseOp;
    var ops: seq<DeltaOp> := [];
    ghost var all := ParseMany(ParseOp, count, reader.Rest());
    assert all.Got? ==> [] + all.value == all.value;
    for i := 0 to count
      invariant reader.Valid()
      invariant all == Prepend(ops, ParseMany(ParseOp, count - i, reader.Rest()))
    {
      var next := ReadDeltaOp(reader);
      if next.Err? {
        return Err(next.error);
      }
      PrependOne(ops, next.value, ParseMany(ParseOp, count - i - 1, reader.Rest()));
      ops := ops + [next.value];
    }
    assert ops + [] == ops;
    r := Ok(ops);
  }

  method ReadHeader(reader: Reader) returns (r: Result<DeltaHeader>)
    requires reader.Valid()
    modifies reader
    ensures reader.Reads(ParseHeader(old(reader.Rest())), r)
  {
    hide ParseU64, ParseText;
    var sourceSize := reader.ReadU64();
    if sourceSize.Err? {
      return Err(sourceSize.error);
    }
    var sourceSha256 := reader.ReadString();
    if sourceSha256.Err? {
      return Err(sourceSha256.error);
    }
    r := Ok(DeltaHeader(sourceSize.value, sourceSha256.value));
  }

  method ReadDeltaPlan(reader: Reader) returns (r: Result<DeltaPlan>)
    requires reader.Valid()
    modifies reader
    ensures reader.Reads(ParseDeltaPlan(old(reader.Rest())), r)
  {
    hide ParseHeader, ParseU32, ParseOp, ParseMany;
    var header := ReadHeader(reader);
    if header.Err? {
      return Err(header.error);
    }
    var opCount := reader.ReadU32();
    if opCount.Err? {
      return Err(opCount.error);
    }
    var ops := ReadDeltaOps(reader, opCount.value);
    if ops.Err? {
      return Err(ops.error);
    }
    r := Ok(DeltaPlan(header.value.sourceSize, header.value.sourceSha256, opCount.value, ops.value));
  }

  method DecodeDeltaPlan(body: Bytes) returns (r: Result<DeltaPlan>)
    ensures r == Whole(ParseDeltaPlan(body))
  {
    hide ParseDeltaPlan;
    var reader := new Reader(body);
    var plan := ReadDeltaPlan(reader);
    if plan.Err? {
      return Err(plan.error);
    }
    var done := reader.Done();
    r := if done then plan else Err(ProtocolError);
  }

  // ----- When encoding and decoding undo each other -----

  /** What is left after the header and the count of a delta plan's body. */
  lemma ReadsFront(p: DeltaPlan)
    requires ShortText(p.sourceSha256)
    ensures var ops := ParseMany(ParseOp, WrittenCount(p), ManyBytes(OpBody, p.ops));
            ParseDeltaPlan(DeltaPlanBytes(p))
            == if ops.Bad? then Bad else Got(DeltaPlan(p.sourceSize, p.sourceSha256, WrittenCount(p), ops.value), ops.rest)
  {
    hide ParseU32, U32Bytes, ParseMany, ManyBytes, ParseHeader, HeaderBytes, ParseOp, OpBody, WrittenCount;
    var b := ManyBytes(OpBody, p.ops);
    ReadsHeader(DeltaHeader(p.sourceSize, p.sourceSha256), U32Bytes(WrittenCount(p)) + b);
    ReadsU32(WrittenCount(p), b);
  }

  /** A reader that expects another number of items than were written does not use up the body exactly. */
  lemma {:induction false} Miscounted(n: nat, ops: seq<DeltaOp>)
    requires n != |ops| && forall i :: 0 <= i < |ops| ==> |ops[i].data| < U64_LIMIT
    ensures var r := ParseMany(ParseOp, n, ManyBytes(OpBody, ops)); r.Bad? || r.rest != []
    decreases |ops|
  {
    hide ParseOp, OpBody;
    if ops == [] {
      NothingIsNoOp();
    } else {
      ReadsOp(ops[0], ManyBytes(OpBody, ops[1..]));
      if n == 0 {
        OpIsSomething(ops[0]);
      } else {
        Miscounted(n - 1, ops[1..]);
      }
    }
  }

  lemma NothingIsNoOp()
    ensures ParseOp([]).Bad?
  {
  }

  lemma OpIsSomething(op: DeltaOp)
    ensures OpBody(op) != []
  {
  }

  /**
   What becomes of any delta plan: it comes back with the count that was written if that is the number of its operations,
   and is rejected otherwise. So it comes back as it was exactly when its count is the number of its operations, a count
   of zero comes back filled in, and any other count is rejected.
   */
  lemma DeltaPlanRoundTrip(p: DeltaPlan)
    requires ShortText(p.sourceSha256) && forall i :: 0 <= i < |p.ops| ==> |p.ops[i].data| < U64_LIMIT
    ensures var r := Whole(ParseDeltaPlan(DeltaPlanBytes(p)));
            && (r == Ok(p) <==> p.opCount == |p.ops|)
            && (p.opCount == 0 && |p.ops| < U32_LIMIT ==> r == Ok(p.(opCount := |p.ops|)))
            && (p.opCount != 0 && p.opCount != |p.ops| ==> r == Err(ProtocolError))
            && (|p.ops| >= U32_LIMIT ==> r == Err(ProtocolError))
  {
    hide ParseMany, ManyBytes, ParseDeltaPlan, DeltaPlanBytes, OpBody, ParseOp;
    ReadsFront(p);
    if WrittenCount(p) == |p.ops| {
      forall i, r: Bytes | 0 <= i < |p.ops| ensures ParseOp(OpBody(p.ops[i]) + r) == Got(p.ops[i], r) {
        ReadsOp(p.ops[i], r);
      }
      ReadsMany(ParseOp, OpBody, p.ops, []);
      assert ManyBytes(OpBody, p.ops) + [] == ManyBytes(OpBody, p.ops);
    } else {
      Miscounted(WrittenCount(p), p.ops);
    }
  }
}
