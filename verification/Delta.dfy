/**
 The delta engine (src/transfer/delta.cpp): a sender slides a window over the source and emits copy and
 literal operations while it reads; a receiver replays them over its basis file.
 */
module Delta {
  import opened Base
  import opened Checksum
  import opened FileIO
  import opened BlockSignatures

  datatype OpKind = CopyFromBasis | LiteralData

  datatype DeltaOp = DeltaOp(kind: OpKind, basisOffset: U64, size: U64, data: Bytes)

  datatype DeltaPlan = DeltaPlan(sourceSize: U64, sourceSha256: Text, opCount: U32, ops: seq<DeltaOp>)

  /** The hash multimap: the signatures under each weak checksum, in the order they are iterated. */
  type Lookup = map<U32, seq<BlockSignature>>

  // ----- What replaying operations means -----

  /** What one operation appends to the output; None when it cannot be applied. A basis of None is not readable. */
  function OpBytes(basis: Option<Bytes>, op: DeltaOp): Option<Bytes> {
    if op.kind == LiteralData then Some(op.data)
    else if basis.None? || op.basisOffset >= U63_LIMIT then None
    else if op.size == 0 then Some([])
    else if op.basisOffset + op.size <= |basis.value| then
      Some(basis.value[op.basisOffset..op.basisOffset + op.size])
    else None
  }

  /** What a list of operations rebuilds. */
  function Replay(basis: Option<Bytes>, ops: seq<DeltaOp>): Option<Bytes> {
    if ops == [] then Some([])
    else
      var front := Replay(basis, ops[..|ops| - 1]);
      var last := OpBytes(basis, ops[|ops| - 1]);
      if front.None? || last.None? then None else Some(front.value + last.value)
  }

  lemma {:induction false} ReplayAppend(basis: Option<Bytes>, xs: seq<DeltaOp>, ys: seq<DeltaOp>)
    requires Replay(basis, xs).Some? && Replay(basis, ys).Some?
    ensures Replay(basis, xs + ys) == Some(Replay(basis, xs).value + Replay(basis, ys).value)
  {
    if ys == [] {
      assert xs + ys == xs;
      assert Replay(basis, xs).value + [] == Replay(basis, xs).value;
    } else {
      var front, last := ys[..|ys| - 1], OpBytes(basis, ys[|ys| - 1]);
      assert (xs + ys)[..|xs + ys| - 1] == xs + front;
      ReplayAppend(basis, xs, front);
      assert Replay(basis, xs).value + (Replay(basis, front).value + last.value)
          == Replay(basis, xs).value + Replay(basis, front).value + last.value;
    }
  }

  lemma ReplayOne(basis: Option<Bytes>, op: DeltaOp)
    ensures Replay(basis, [op]) == OpBytes(basis, op)
  {
    assert [op][..0] == [];
    assert Replay(basis, [op][..0]) == Some([]);
    if OpBytes(basis, op).Some? {
      assert [] + OpBytes(basis, op).value == OpBytes(basis, op).value;
    }
  }

  method ApplyDeltaOp(basis: Option<Bytes>, output: OutputFile, op: DeltaOp) returns (r: Result<bool>)
    modifies output`data
    ensures r.Ok? ==> OpBytes(basis, op).Some? && output.data == old(output.data) + OpBytes(basis, op).value
    ensures r.Err? ==> old(output.data) <= output.data && (output.faulty || OpBytes(basis, op).None?)
    ensures !output.faulty ==>
              (r.Ok? <==> op.kind == LiteralData || (basis.Some? && op.basisOffset < U63_LIMIT
                                                     && (op.size == 0 || op.basisOffset + op.size <= |basis.value|)))
    ensures r.Ok? && op.kind == LiteralData ==> output.data == old(output.data) + op.data
    ensures r.Ok? && op.kind == CopyFromBasis && op.size > 0 ==>
              && basis.Some? && op.basisOffset + op.size <= |basis.value|
              && output.data == old(output.data) + basis.value[op.basisOffset..op.basisOffset + op.size]
    ensures r.Ok? && op.kind == CopyFromBasis && op.size == 0 ==> output.data == old(output.data)
  {
    if op.kind == LiteralData {
      r := output.Write(op.data);
      return;
    }
    if basis.None? {
      return Err(IoError);
    }
    if op.basisOffset >= U63_LIMIT {
      return Err(IoError);
    }
    if op.size != 0 {
      var fails: bool := *;
      if op.basisOffset + op.size > |basis.value| || (output.faulty && fails) {
        return Err(IoError);
      }
      r := output.Write(basis.value[op.basisOffset..op.basisOffset + op.size]);
    } else {
      r := output.Write([]);
    }
  }

  method ApplyDelta(basis: Option<Bytes>, ops: seq<DeltaOp>, faulty: bool) returns (r: Result<Bytes>)
    ensures r.Ok? ==> Replay(basis, ops) == Some(r.value)
    ensures !faulty ==> (r.Ok? <==> Replay(basis, ops).Some?)
  {
    if faulty {
      var fails: bool := *;
      if fails {
        return Err(IoError);
      }
    }
    var output := new OutputFile(faulty);
    for i := 0 to |ops|
      invariant Replay(basis, ops[..i]) == Some(output.data)
    {
      assert ops[..i + 1][..i] == ops[..i];
      var applied := ApplyDeltaOp(basis, output, ops[i]);
      if applied.Err? {
        if OpBytes(basis, ops[i]).None? {
          ReplayNeedsEveryOp(basis, ops, i);
        }
        return Err(applied.error);
      }
    }
    assert ops[..|ops|] == ops;
    r := Ok(output.data);
  }

  lemma {:induction false} ReplayNeedsEveryOp(basis: Option<Bytes>, ops: seq<DeltaOp>, i: nat)
    requires i < |ops| && OpBytes(basis, ops[i]).None?
    ensures Replay(basis, ops).None?
  {
    if i < |ops| - 1 {
      ReplayNeedsEveryOp(basis, ops[..|ops| - 1], i);
    }
  }

  // ----- The naive greedy matcher: recompute the checksum at every position -----

  /** What is compared within a bucket; the weak checksums there are equal already. */
  predicate Matches(h: Digest, s: BlockSignature, w: Bytes) {
    s.size == |w| && s.strong == h(w)
  }

  /** The first signature of a list that matches the window. */
  function FirstMatch(h: Digest, sigs: seq<BlockSignature>, w: Bytes): (m: Option<BlockSignature>)
    ensures m.Some? ==> m.value in sigs && Matches(h, m.value, w)
    ensures m.None? ==> forall s :: s in sigs ==> !Matches(h, s, w)
  {
    if sigs == [] then None
    else if Matches(h, sigs[0], w) then Some(sigs[0])
    else FirstMatch(h, sigs[1..], w)
  }

  function Bucket(lookup: Lookup, weak: U32): seq<BlockSignature> {
    if weak in lookup then lookup[weak] else []
  }

  function Found(h: Digest, lookup: Lookup, w: Bytes): Option<BlockSignature> {
    FirstMatch(h, Bucket(lookup, WeakOf(w)), w)
  }

  function Copy(s: BlockSignature): DeltaOp {
    DeltaOp(CopyFromBasis, s.offset, s.size, [])
  }

  function Literal(data: Bytes): DeltaOp
    requires |data| < U64_LIMIT
  {
    DeltaOp(LiteralData, 0, |data|, data)
  }

  function Flushed(literal: Bytes): seq<DeltaOp>
    requires |literal| < U64_LIMIT
  {
    if literal == [] then [] else [Literal(literal)]
  }

  /** Data cut into literals of one size, the last one possibly shorter. */
  function ChunksOf(data: Bytes, chunkSize: U32): seq<DeltaOp>
    requires chunkSize > 0
    decreases |data|
  {
    if data == [] then []
    else if |data| <= chunkSize then [Literal(data)]
    else [Literal(data[..chunkSize])] + ChunksOf(data[chunkSize..], chunkSize)
  }

  /** The operations for the rest of a source when `literal` is already waiting to be sent. */
  function Greedy(h: Digest, lookup: Lookup, blockSize: U32, source: Bytes, literal: Bytes): seq<DeltaOp>
    requires |literal| < blockSize
    decreases |source|
  {
    if |source| < blockSize then
      if source == [] then Flushed(literal)
      else
        var m := Found(h, lookup, source);
        if m.Some? then Flushed(literal) + [Copy(m.value)] else Flushed(literal + source)
    else
      var m := Found(h, lookup, source[..blockSize]);
      if m.Some? then
        Flushed(literal) + [Copy(m.value)] + Greedy(h, lookup, blockSize, source[blockSize..], [])
      else
        var longer := literal + [source[0]];
        if |longer| >= blockSize then
          [Literal(longer)] + Greedy(h, lookup, blockSize, source[1..], [])
        else
          Greedy(h, lookup, blockSize, source[1..], longer)
  }

  /** The operations for a whole source. */
  function DeltaOps(h: Digest, lookup: Lookup, blockSize: U32, source: Bytes): seq<DeltaOp>
    requires blockSize > 0
  {
    Greedy(h, lookup, blockSize, source, [])
  }

  /** The index holds exactly the given signatures, each under its weak checksum. */
  ghost predicate Indexes(lookup: Lookup, sigs: seq<BlockSignature>) {
    && (forall k, s :: k in lookup && s in lookup[k] ==> s in sigs && s.weak == k)
    && (forall s :: s in sigs ==> s.weak in lookup && s in lookup[s.weak])
  }

  /** Entries under one key keep no order the program can rely on, so each goes to any place in its bucket. */
  method BuildLookup(sigs: seq<BlockSignature>) returns (lookup: Lookup)
    ensures Indexes(lookup, sigs)
  {
    lookup := map[];
    for i := 0 to |sigs|
      invariant Indexes(lookup, sigs[..i])
    {
      var s := sigs[i];
      var bucket := Bucket(lookup, s.weak);
      var at: nat :| at <= |bucket|;
      assert forall t :: t in bucket <==> t in bucket[..at] || t in bucket[at..] by {
        assert bucket == bucket[..at] + bucket[at..];
      }
      lookup := lookup[s.weak := bucket[..at] + [s] + bucket[at..]];
      assert sigs[..i + 1] == sigs[..i] + [s];
    }
    assert sigs[..|sigs|] == sigs;
  }

  // ----- The streaming matcher -----

  /** The callback that receives operations; `answer` is its reply to the n-th one. */
  class OpSink {
    const answer: (nat, DeltaOp) -> Result<bool>
    var ops: seq<DeltaOp>

    constructor (answer: (nat, DeltaOp) -> Result<bool>)
      ensures ops == [] && this.answer == answer
    {
      this.answer, ops := answer, [];
    }

    ghost predicate Takes(op: DeltaOp, n: nat) {
      answer(n, op) == Ok(true)
    }

    /** Everything received so far was accepted. */
    ghost predicate Valid()
      reads this
    {
      forall i :: 0 <= i < |ops| ==> Takes(ops[i], i)
    }

    method Accept(op: DeltaOp) returns (r: Result<bool>)
      requires Valid()
      modifies this`ops
      ensures Valid()
      ensures r == answer(|old(ops)|, op)
      ensures ops == if Takes(op, |old(ops)|) then old(ops) + [op] else old(ops)
    {
      r := answer(|ops|, op);
      if r == Ok(true) {
        ops := ops + [op];
      }
    }
  }

  class DeltaStream {
    const h: Digest
    const lookup: Lookup
    const blockSize: U32
    const input: InputFile
    const sink: OpSink
    var window: Bytes
    var literal: Bytes
    var opCount: U32

    /** What is emitted and what is still to come make up `all`. */
    ghost predicate Streaming(all: seq<DeltaOp>)
      reads this, input, sink
    {
      && input.Valid()
      && sink.Valid()
      && |literal| < blockSize
      && |window| <= blockSize
      && opCount == |sink.ops|
      && sink.ops + Greedy(h, lookup, blockSize, window + input.Rest(), literal) == all
    }

    /** Why the stream may stop early, and what has been emitted by then. */
    ghost predicate Stopped(all: seq<DeltaOp>)
      reads input, sink
    {
      && input.Valid()
      && sink.Valid()
      && sink.ops <= all
      && (input.faulty || Refused(all, |sink.ops|))
    }

    /** Operation n cannot be sent: the counter is full or the callback does not take it. */
    ghost predicate Refused(all: seq<DeltaOp>, n: nat) {
      n < |all| && n < U32_LIMIT && (n == U32_LIMIT - 1 || !sink.Takes(all[n], n))
    }

    constructor (h: Digest, lookup: Lookup, blockSize: U32, input: InputFile, sink: OpSink)
      requires blockSize > 0 && input.Valid() && sink.ops == []
      ensures Streaming(Greedy(h, lookup, blockSize, input.Rest(), []))
      ensures this.h == h && this.lookup == lookup && this.blockSize == blockSize
      ensures this.input == input && this.sink == sink && window == []
    {
      this.h, this.lookup, this.blockSize, this.input, this.sink := h, lookup, blockSize, input, sink;
      window, literal, opCount := [], [], 0;
      new;
      assert [] + input.Rest() == input.Rest();
    }

    method FillWindow(ghost all: seq<DeltaOp>) returns (r: Result<bool>)
      requires Streaming(all)
      modifies this`window, input`pos
      ensures r.Ok? ==> Streaming(all) && (|window| < blockSize ==> input.Rest() == [])
      ensures r.Err? ==> Stopped(all)
      ensures |window| + |input.data| - input.pos <= old(|window| + |input.data| - input.pos)
    {
      while |window| < blockSize
        invariant Streaming(all)
        invariant |window| + |input.data| - input.pos <= old(|window| + |input.data| - input.pos)
        decreases blockSize - |window|
      {
        ghost var rest := input.Rest();
        ghost var before := window;
        var byte := input.GetByte();
        if byte.Err? {
          return Err(byte.error);
        }
        if byte.value.None? {
          return Ok(true);
        }
        window := window + [byte.value.value];
        assert window + input.Rest() == before + rest;
      }
      r := Ok(true);
    }

    method FindMatch(weak: U32) returns (m: Option<BlockSignature>)
      requires weak == WeakOf(window)
      ensures m == Found(h, lookup, window)
    {
      var range := Bucket(lookup, weak);
      var strong: Option<Text> := None;
      for i := 0 to |range|
        invariant strong.Some? ==> strong.value == h(window)
        invariant FirstMatch(h, range, window) == FirstMatch(h, range[i..], window)
      {
        var s := range[i];
        assert range[i..][0] == s && range[i..][1..] == range[i + 1..];
        if s.size == |window| {
          if strong.None? {
            strong := Some(h(window));
          }
          if strong.value == s.strong {
            return Some(s);
          }
        }
      }
      m := None;
    }

    /** Sends one operation; the counter must not leave 32 bits. */
    method EmitOp(op: DeltaOp) returns (r: Result<bool>)
      requires opCount == |sink.ops| && sink.Valid()
      modifies this`opCount, sink`ops
      ensures sink.Valid()
      ensures r.Ok? ==> sink.ops == old(sink.ops) + [op] && opCount == |sink.ops|
      ensures r.Err? ==> sink.ops == old(sink.ops)
      ensures r.Err? ==> |sink.ops| == U32_LIMIT - 1 || !sink.Takes(op, |sink.ops|)
    {
      if opCount == U32_LIMIT - 1 {
        return Err(InvalidArgument);
      }
      var emitted := sink.Accept(op);
      if emitted.Err? {
        return emitted;
      }
      if !emitted.value {
        return Err(InternalError);
      }
      opCount := opCount + 1;
      r := Ok(true);
    }

    method FlushLiteral() returns (r: Result<bool>)
      requires opCount == |sink.ops| && |literal| < U64_LIMIT && sink.Valid()
      modifies this`opCount, this`literal, sink`ops
      ensures sink.Valid()
      ensures r.Ok? ==> sink.ops == old(sink.ops) + Flushed(old(literal)) && opCount == |sink.ops| && literal == []
      ensures r.Err? ==> sink.ops == old(sink.ops) && Flushed(old(literal)) != []
      ensures r.Err? ==> |sink.ops| == U32_LIMIT - 1 || !sink.Takes(Flushed(old(literal))[0], |sink.ops|)
    {
      if literal == [] {
        return Ok(true);
      }
      var op := Literal(literal);
      literal := [];
      r := EmitOp(op);
    }

    /** Flushes what is waiting, then copies a matched block. */
    method EmitMatch(s: BlockSignature, ghost all: seq<DeltaOp>, ghost rest: seq<DeltaOp>) returns (r: Result<bool>)
      requires opCount == |sink.ops| && |literal| < U64_LIMIT && input.Valid() && sink.Valid()
      requires sink.ops + (Flushed(literal) + [Copy(s)] + rest) == all
      modifies this`opCount, this`literal, sink`ops
      ensures r.Ok? ==> sink.ops + rest == all && opCount == |sink.ops| && literal == [] && sink.Valid()
      ensures r.Err? ==> Stopped(all)
    {
      ghost var flush := Flushed(literal);
      assert all == sink.ops + flush + ([Copy(s)] + rest);
      r := FlushLiteral();
      if r.Err? {
        return;
      }
      assert all == sink.ops + [Copy(s)] + rest;
      r := EmitOp(Copy(s));
    }

    /** Moves the front byte of a full window that matches nothing to the literal. */
    method ShiftFront(ghost all: seq<DeltaOp>) returns (r: Result<bool>)
      requires Streaming(all) && |window| == blockSize && Found(h, lookup, window).None?
      modifies this`opCount, this`literal, this`window, sink`ops
      ensures window == old(window)[1..]
      ensures r.Ok? ==> Streaming(all)
      ensures r.Err? ==> Stopped(all)
    {
      ghost var source := window + input.Rest();
      assert source[..blockSize] == window && source[1..] == window[1..] + input.Rest();
      literal := literal + [window[0]];
      window := window[1..];
      if |literal| >= blockSize {
        ghost var rest := Greedy(h, lookup, blockSize, source[1..], []);
        assert all == sink.ops + [Literal(literal)] + rest;
        r := FlushLiteral();
      } else {
        r := Ok(true);
      }
    }

    /** Copies the block a full window matches and refills the window. */
    method CopyWindow(s: BlockSignature, ghost all: seq<DeltaOp>) returns (r: Result<bool>)
      requires Streaming(all) && |window| == blockSize && Found(h, lookup, window) == Some(s)
      modifies this`opCount, this`literal, this`window, sink`ops, input`pos
      ensures r.Ok? ==> Streaming(all) && (|window| < blockSize ==> input.Rest() == [])
      ensures r.Ok? ==> |window| + |input.data| - input.pos < old(|window| + |input.data| - input.pos)
      ensures r.Err? ==> Stopped(all)
    {
      ghost var source := window + input.Rest();
      assert source[..blockSize] == window && source[blockSize..] == input.Rest();
      r := EmitMatch(s, all, Greedy(h, lookup, blockSize, input.Rest(), []));
      if r.Err? {
        return;
      }
      window := [];
      assert window + input.Rest() == input.Rest();
      r := FillWindow(all);
    }

    /**
     One pass over a full window that slides a byte at a time until it matches or the source ends.
     The checksum is never recomputed while it slides.
     */
    method SlideUntilMatch(ghost all: seq<DeltaOp>) returns (r: Result<bool>)
      requires Streaming(all) && |window| == blockSize
      modifies this`opCount, this`literal, this`window, sink`ops, input`pos
      ensures r.Ok? ==> Streaming(all) && (|window| < blockSize ==> input.Rest() == [])
      ensures r.Ok? ==> |window| + |input.data| - input.pos < old(|window| + |input.data| - input.pos)
      ensures r.Err? ==> Stopped(all)
    {
      hide Greedy, Found;
      var checksum := new RollingChecksum.FromWindow(window);
      while |window| == blockSize
        invariant Streaming(all)
        invariant |window| == blockSize ==> checksum.Tracks(window)
        invariant |window| < blockSize ==> input.Rest() == []
        invariant fresh(checksum)
        invariant |window| + |input.data| - input.pos <= old(|window| + |input.data| - input.pos)
        invariant |window| < blockSize ==>
                    |window| + |input.data| - input.pos < old(|window| + |input.data| - input.pos)
        decreases |window| + |input.data| - input.pos
      {
        var weak := checksum.Value();
        var found := FindMatch(weak);
        if found.Some? {
          r := CopyWindow(found.value, all);
          return;
        }
        var oldByte := window[0];
        ghost var slid := window;
        r := ShiftFront(all);
        if r.Err? {
          return;
        }
        ghost var rest := input.Rest();
        var next := input.GetByte();
        if next.Err? {
          return Err(next.error);
        }
        if next.value.None? {
          break;
        }
        assert window + rest == window + [next.value.value] + input.Rest();
        window := window + [next.value.value];
        checksum.Slide(oldByte, next.value.value, slid);
      }
      r := Ok(true);
    }

    /** The part of the source after the last full window. */
    method Finish(ghost all: seq<DeltaOp>) returns (r: Result<bool>)
      requires Streaming(all) && |window| < blockSize && input.Rest() == []
      modifies this`opCount, this`literal, sink`ops
      ensures r.Ok? ==> sink.ops == all && opCount == |sink.ops| && sink.Valid()
      ensures r.Err? ==> Stopped(all)
    {
      assert window + input.Rest() == window;
      if window != [] {
        var weak := WeakChecksum(window);
        assert window[..|window| % U32_LIMIT] == window;
        var found := FindMatch(weak);
        if found.Some? {
          r := EmitMatch(found.value, all, []);
          if r.Err? {
            return;
          }
        } else {
          literal := literal + window;
          if |literal| >= blockSize {
            r := FlushLiteral();
            if r.Err? {
              return;
            }
          }
        }
      }
      r := FlushLiteral();
    }

    method Run(ghost all: seq<DeltaOp>) returns (r: Result<U32>)
      requires Streaming(all) && window == []
      modifies this, sink`ops, input`pos
      ensures r.Ok? ==> sink.ops == all && r.value == |all| && sink.Valid()
      ensures r.Err? ==> Stopped(all)
    {
      var filled := FillWindow(all);
      if filled.Err? {
        return Err(filled.error);
      }
      while |window| == blockSize
        invariant Streaming(all)
        invariant |window| < blockSize ==> input.Rest() == []
        decreases |window| + |input.data| - input.pos
      {
        var slid := SlideUntilMatch(all);
        if slid.Err? {
          return Err(slid.error);
        }
      }
      var finished := Finish(all);
      if finished.Err? {
        return Err(finished.error);
      }
      r := Ok(opCount);
    }
  }

  /**
   The streaming matcher with its O(1) checksum update emits what the naive matcher computes,
   and stops early only for a read error, a refusing callback or a 33-bit operation count.
   */
  method StreamDeltaOps(h: Digest, input: InputFile, sigs: seq<BlockSignature>, lookup: Lookup,
                        blockSize: U32, sink: OpSink)
    returns (r: Result<U32>)
    requires input.Valid() && sink.ops == [] && Indexes(lookup, sigs)
    modifies input`pos, sink`ops
    ensures blockSize == 0 ==> r == Err(InvalidArgument) && sink.ops == []
    ensures blockSize > 0 ==> sink.Valid() && sink.ops <= DeltaOps(h, lookup, blockSize, old(input.Rest()))
    ensures r.Ok? ==> sink.ops == DeltaOps(h, lookup, blockSize, old(input.Rest())) && r.value == |sink.ops|
    ensures blockSize > 0 && !input.faulty ==>
              var all := DeltaOps(h, lookup, blockSize, old(input.Rest()));
              && (r.Ok? <==> |all| < U32_LIMIT && forall i :: 0 <= i < |all| ==> sink.Takes(all[i], i))
              && (r.Err? ==> var n := |sink.ops|; n < |all| && n < U32_LIMIT && (n == U32_LIMIT - 1 || !sink.Takes(all[n], n)))
  {
    if blockSize == 0 {
      return Err(InvalidArgument);
    }
    var stream := new DeltaStream(h, lookup, blockSize, input, sink);
    r := stream.Run(Greedy(h, lookup, blockSize, input.Rest(), []));
  }

  /** The whole delta of a source at once: its size, its digest, and what the streaming matcher emits. */
  method BuildDelta(h: Digest, source: Option<Bytes>, sigs: seq<BlockSignature>, lookup: Lookup, blockSize: U32, faulty: bool)
    returns (r: Result<DeltaPlan>)
    requires Indexes(lookup, sigs) && (source.Some? ==> |source.value| < U63_LIMIT)
    ensures r.Ok? ==>
              && source.Some? && blockSize > 0
              && var ops := DeltaOps(h, lookup, blockSize, source.value);
                 |ops| < U32_LIMIT && r.value == DeltaPlan(|source.value|, h(source.value), |ops|, ops)
    ensures !faulty ==>
              (r.Ok? <==> blockSize > 0 && source.Some? && |DeltaOps(h, lookup, blockSize, source.value)| < U32_LIMIT)
  {
    hide Greedy;
    if blockSize == 0 {
      return Err(InvalidArgument);
    }
    var unreadable: bool := *;
    if source.None? || (faulty && unreadable) {
      return Err(IoError);
    }
    var input := new InputFile(source.value, faulty);
    assert input.Rest() == source.value;
    var sink := new OpSink((n: nat, op: DeltaOp) => Ok(true));
    var opCount := StreamDeltaOps(h, input, sigs, lookup, blockSize, sink);
    if opCount.Err? {
      return Err(opCount.error);
    }
    r := Ok(DeltaPlan(|source.value|, h(source.value), opCount.value, sink.ops));
  }
}
