/**
 What the delta engine is for: the operations sent for a source rebuild exactly that source from the basis.
 */
module DeltaTheorems {
  import opened Base
  import opened Checksum
  import opened BlockSignatures
  import opened Delta

  /**
   The digest tells the signed blocks of the basis apart from the windows of the source they are compared with.
   Nothing is assumed about other inputs.
   */
  ghost predicate NoCollision(h: Digest, basis: Bytes, sigs: seq<BlockSignature>, source: Bytes) {
    forall s, i, j :: s in sigs && s.offset + s.size <= |basis| && 0 <= i <= j <= |source|
                      && h(Block(basis, s)) == h(source[i..j]) && j - i == s.size
                      ==> Block(basis, s) == source[i..j]
  }

  /** Everything that holds when a sender has the index of a receiver's signatures of this basis. */
  ghost predicate Matched(h: Digest, basis: Bytes, sigs: seq<BlockSignature>, lookup: Lookup, blockSize: U32) {
    blockSize > 0 && Signs(h, basis, blockSize, sigs) && Indexes(lookup, sigs)
  }

  lemma SignedInside(h: Digest, basis: Bytes, sigs: seq<BlockSignature>, blockSize: U32, s: BlockSignature)
    requires Signs(h, basis, blockSize, sigs) && s in sigs
    ensures Describes(h, basis, blockSize, s)
  {
    var i :| 0 <= i < |sigs| && sigs[i] == s;
    assert SignsNth(h, basis, blockSize, sigs, i);
  }

  /**
   The window matches exactly when some signed block has the same bytes: a strong-hash comparison behind a
   weak-checksum index neither misses such a block nor, without a collision, accepts another.
   */
  lemma FoundIffBlock(h: Digest, basis: Bytes, sigs: seq<BlockSignature>, lookup: Lookup, blockSize: U32, source: Bytes,
                      i: nat, j: nat)
    requires Matched(h, basis, sigs, lookup, blockSize) && i <= j <= |source|
    requires NoCollision(h, basis, sigs, source)
    ensures Found(h, lookup, source[i..j]).Some? <==> exists s :: Stands(basis, sigs, s, source[i..j])
    ensures Found(h, lookup, source[i..j]).Some? ==> Stands(basis, sigs, Found(h, lookup, source[i..j]).value, source[i..j])
  {
    var w := source[i..j];
    var m := Found(h, lookup, w);
    if m.Some? {
      FoundInside(h, basis, sigs, lookup, blockSize, w);
      assert Stands(basis, sigs, m.value, w);
    }
    if s :| Stands(basis, sigs, s, w) {
      NeverMissed(h, basis, sigs, lookup, blockSize, s);
    }
  }

  /** A signature of the list whose block has exactly the bytes of the window. */
  ghost predicate Stands(basis: Bytes, sigs: seq<BlockSignature>, s: BlockSignature, w: Bytes) {
    s in sigs && s.offset + s.size <= |basis| && Block(basis, s) == w
  }

  /** A block equal to the window is never missed, whatever the digest is. */
  lemma NeverMissed(h: Digest, basis: Bytes, sigs: seq<BlockSignature>, lookup: Lookup, blockSize: U32, s: BlockSignature)
    requires Matched(h, basis, sigs, lookup, blockSize) && s in sigs && s.offset + s.size <= |basis|
    ensures Found(h, lookup, Block(basis, s)).Some?
  {
    SignedInside(h, basis, sigs, blockSize, s);
    var w := Block(basis, s);
    assert s in Bucket(lookup, WeakOf(w)) && Matches(h, s, w);
  }

  lemma FoundInside(h: Digest, basis: Bytes, sigs: seq<BlockSignature>, lookup: Lookup, blockSize: U32, w: Bytes)
    requires Matched(h, basis, sigs, lookup, blockSize)
    ensures Found(h, lookup, w).Some? ==>
              var s := Found(h, lookup, w).value;
              s in sigs && Describes(h, basis, blockSize, s) && s.size == |w| && s.strong == h(w)
  {
    var m := Found(h, lookup, w);
    if m.Some? {
      SignedInside(h, basis, sigs, blockSize, m.value);
    }
  }

  // ----- Rebuilding -----

  lemma ReplayFlushed(basis: Bytes, literal: Bytes)
    requires |literal| < U64_LIMIT
    ensures Replay(Some(basis), Flushed(literal)) == Some(literal)
  {
    if literal != [] {
      ReplayOne(Some(basis), Literal(literal));
    }
  }

  /** A flushed literal, a copy of a block, then the rest. */
  lemma ReplayMatch(basis: Bytes, literal: Bytes, s: BlockSignature, rest: seq<DeltaOp>, tail: Bytes)
    requires |literal| < U64_LIMIT && s.offset + s.size <= |basis| < U63_LIMIT
    requires Replay(Some(basis), rest) == Some(tail)
    ensures Replay(Some(basis), Flushed(literal) + [Copy(s)] + rest) == Some(literal + Block(basis, s) + tail)
  {
    ReplayFlushed(basis, literal);
    ReplayOne(Some(basis), Copy(s));
    assert s.size == 0 ==> Block(basis, s) == [];
    ReplayAppend(Some(basis), Flushed(literal), [Copy(s)]);
    ReplayAppend(Some(basis), Flushed(literal) + [Copy(s)], rest);
  }

  /** Every match the index reports for a window of this source is a true one. */
  ghost predicate Faithful(h: Digest, basis: Bytes, lookup: Lookup, source: Bytes) {
    forall i, j :: 0 <= i <= j <= |source| ==> TrueMatch(basis, Found(h, lookup, source[i..j]), source[i..j])
  }

  ghost predicate TrueMatch(basis: Bytes, m: Option<BlockSignature>, w: Bytes) {
    m.Some? ==> m.value.offset + m.value.size <= |basis| && Block(basis, m.value) == w
  }

  lemma {:induction false} GreedyRebuilds(h: Digest, basis: Bytes, lookup: Lookup, blockSize: U32,
                                          source: Bytes, literal: Bytes)
    requires |basis| < U63_LIMIT && Faithful(h, basis, lookup, source) && |literal| < blockSize
    ensures Replay(Some(basis), Greedy(h, lookup, blockSize, source, literal)) == Some(literal + source)
    decreases |source|
  {
    if |source| < blockSize {
      GreedyRebuildsTail(h, basis, lookup, blockSize, source, literal);
    } else if Found(h, lookup, source[..blockSize]).Some? {
      FaithfulSuffix(h, basis, lookup, source, blockSize);
      GreedyRebuilds(h, basis, lookup, blockSize, source[blockSize..], []);
      GreedyRebuildsMatch(h, basis, lookup, blockSize, source, literal);
    } else {
      FaithfulSuffix(h, basis, lookup, source, 1);
      GreedyRebuilds(h, basis, lookup, blockSize, source[1..],
                     if |literal| + 1 >= blockSize then [] else literal + [source[0]]);
      GreedyRebuildsShift(h, basis, lookup, blockSize, source, literal);
    }
  }

  lemma GreedyRebuildsMatch(h: Digest, basis: Bytes, lookup: Lookup, blockSize: U32, source: Bytes, literal: Bytes)
    requires |basis| < U63_LIMIT && |literal| < blockSize <= |source|
    requires Faithful(h, basis, lookup, source) && Found(h, lookup, source[..blockSize]).Some?
    requires Replay(Some(basis), Greedy(h, lookup, blockSize, source[blockSize..], [])) == Some([] + source[blockSize..])
    ensures Replay(Some(basis), Greedy(h, lookup, blockSize, source, literal)) == Some(literal + source)
  {
    var m := Found(h, lookup, source[..blockSize]);
    var rest := Greedy(h, lookup, blockSize, source[blockSize..], []);
    assert TrueMatch(basis, m, source[..blockSize]) by {
      assert source[0..blockSize] == source[..blockSize];
    }
    assert [] + source[blockSize..] == source[blockSize..];
    ReplayMatch(basis, literal, m.value, rest, source[blockSize..]);
    JoinSplit(literal, source, blockSize);
  }

  lemma GreedyRebuildsShift(h: Digest, basis: Bytes, lookup: Lookup, blockSize: U32, source: Bytes, literal: Bytes)
    requires |literal| < blockSize <= |source| && Found(h, lookup, source[..blockSize]).None?
    requires var longer := literal + [source[0]];
             var next := if |longer| >= blockSize then [] else longer;
             Replay(Some(basis), Greedy(h, lookup, blockSize, source[1..], next)) == Some(next + source[1..])
    ensures Replay(Some(basis), Greedy(h, lookup, blockSize, source, literal)) == Some(literal + source)
  {
    var longer := literal + [source[0]];
    MoveFirst(literal, source);
    if |longer| >= blockSize {
      var rest := Greedy(h, lookup, blockSize, source[1..], []);
      assert [] + source[1..] == source[1..];
      assert Greedy(h, lookup, blockSize, source, literal) == Flushed(longer) + rest;
      ReplayFlushed(basis, longer);
      ReplayAppend(Some(basis), Flushed(longer), rest);
    }
  }

  lemma GreedyRebuildsTail(h: Digest, basis: Bytes, lookup: Lookup, blockSize: U32, source: Bytes, literal: Bytes)
    requires |basis| < U63_LIMIT && Faithful(h, basis, lookup, source) && |literal| < blockSize && |source| < blockSize
    ensures Replay(Some(basis), Greedy(h, lookup, blockSize, source, literal)) == Some(literal + source)
  {
    var m := Found(h, lookup, source);
    assert source[0..|source|] == source && TrueMatch(basis, m, source);
    ReplayFlushed(basis, literal);
    ReplayFlushed(basis, literal + source);
    if source == [] {
      assert literal + source == literal;
    } else if m.Some? {
      ReplayMatch(basis, literal, m.value, [], []);
      assert Flushed(literal) + [Copy(m.value)] + [] == Flushed(literal) + [Copy(m.value)];
      assert literal + source + [] == literal + source;
    }
  }

  lemma FaithfulSuffix(h: Digest, basis: Bytes, lookup: Lookup, source: Bytes, k: nat)
    requires Faithful(h, basis, lookup, source) && k <= |source|
    ensures Faithful(h, basis, lookup, source[k..])
  {
    forall i, j | 0 <= i <= j <= |source[k..]|
      ensures TrueMatch(basis, Found(h, lookup, source[k..][i..j]), source[k..][i..j])
    {
      assert source[k..][i..j] == source[k + i..k + j];
    }
  }

  lemma NoCollisionIsFaithful(h: Digest, basis: Bytes, sigs: seq<BlockSignature>, lookup: Lookup, blockSize: U32, source: Bytes)
    requires Matched(h, basis, sigs, lookup, blockSize) && NoCollision(h, basis, sigs, source)
    ensures Faithful(h, basis, lookup, source)
  {
    forall i, j | 0 <= i <= j <= |source|
      ensures TrueMatch(basis, Found(h, lookup, source[i..j]), source[i..j])
    {
      FoundIffBlock(h, basis, sigs, lookup, blockSize, source, i, j);
    }
  }

  /**
   For every basis, source, block size, cut of the basis into blocks and iteration order of the index:
   replaying the operations over the basis gives the source.
   */
  lemma DeltaRebuildsSource(h: Digest, basis: Bytes, sigs: seq<BlockSignature>, lookup: Lookup, blockSize: U32, source: Bytes)
    requires Matched(h, basis, sigs, lookup, blockSize) && |basis| < U63_LIMIT
    requires NoCollision(h, basis, sigs, source)
    ensures Replay(Some(basis), DeltaOps(h, lookup, blockSize, source)) == Some(source)
  {
    NoCollisionIsFaithful(h, basis, sigs, lookup, blockSize, source);
    GreedyRebuilds(h, basis, lookup, blockSize, source, []);
    assert [] + source == source;
  }

  /**
   The hypothesis on the digest is needed: with a digest that collides, two blocks with the same weak checksum
   are confused and the rebuilt file has the right size but the wrong bytes.
   */
  lemma CollisionCorrupts()
    returns (h: Digest, basis: Bytes, sigs: seq<BlockSignature>, lookup: Lookup, source: Bytes)
    ensures Matched(h, basis, sigs, lookup, 3) && |source| == |basis| && source != basis
    ensures Replay(Some(basis), DeltaOps(h, lookup, 3, source)) == Some(basis)
  {
    h, basis, source := (b: Bytes) => [], [0, 2, 0], [1, 0, 1];
    SameWeakSums();
    var s := BlockSignature(0, 0, 3, WeakOf(basis), []);
    sigs, lookup := [s], map[s.weak := [s]];
    assert Block(basis, s) == basis;
    assert SignsNth(h, basis, 3, [s], 0);
    assert Signs(h, basis, 3, [s]);
    assert Indexes(lookup, [s]);
    assert Matches(h, s, source);
    assert FirstMatch(h, [s], source) == Some(s);
    OneBlock(h, lookup, source, s);
    ReplayOne(Some(basis), Copy(s));
  }

  lemma SameWeakSums()
    ensures WeakOf([0, 2, 0]) == WeakOf([1, 0, 1])
  {
    var x: Bytes, y: Bytes := [0, 2, 0], [1, 0, 1];
    assert x[1..] == [2, 0] && x[1..][1..] == [0] && x[1..][1..][1..] == [];
    assert y[1..] == [0, 1] && y[1..][1..] == [1] && y[1..][1..][1..] == [];
  }

  lemma OneBlock(h: Digest, lookup: Lookup, source: Bytes, s: BlockSignature)
    requires |source| == 3 && Found(h, lookup, source) == Some(s)
    ensures DeltaOps(h, lookup, 3, source) == [Copy(s)]
  {
    assert source[..3] == source && source[3..] == [];
    assert Greedy(h, lookup, 3, [], []) == [];
  }

  // ----- Shape of the operations -----

  /** Largest literal an operation may carry: a block, or a literal one byte short of a block plus such a tail. */
  function LiteralBound(blockSize: U32): nat
    requires blockSize > 0
  {
    if blockSize == 1 then 1 else 2 * blockSize - 2
  }

  /** A literal carries its own non-empty data; a copy carries none and stays inside the basis. */
  ghost predicate WellShaped(op: DeltaOp, basisSize: nat, literalLimit: nat) {
    match op.kind
    case LiteralData => op.basisOffset == 0 && 0 < op.size == |op.data| <= literalLimit
    case CopyFromBasis => op.data == [] && 0 < op.size && op.basisOffset + op.size <= basisSize
  }

  function TotalSize(ops: seq<DeltaOp>): nat {
    if ops == [] then 0 else ops[0].size + TotalSize(ops[1..])
  }

  lemma {:induction false} TotalSizeAppend(xs: seq<DeltaOp>, ys: seq<DeltaOp>)
    ensures TotalSize(xs + ys) == TotalSize(xs) + TotalSize(ys)
  {
    if xs == [] {
      assert xs + ys == ys;
    } else {
      assert (xs + ys)[1..] == xs[1..] + ys;
      TotalSizeAppend(xs[1..], ys);
    }
  }

  /** Every operation but the last stays within a block; the last one within the bound. */
  ghost predicate ShapedStream(ops: seq<DeltaOp>, basisSize: nat, blockSize: U32)
    requires blockSize > 0
  {
    forall i :: 0 <= i < |ops| ==>
      WellShaped(ops[i], basisSize, if i < |ops| - 1 then blockSize else LiteralBound(blockSize))
  }

  /** Every copy the index reports stays inside the basis and has the size of the window. */
  ghost predicate InsideBasis(h: Digest, lookup: Lookup, basisSize: nat) {
    forall w :: InsideMatch(Found(h, lookup, w), basisSize, |w|)
  }

  ghost predicate InsideMatch(m: Option<BlockSignature>, basisSize: nat, size: nat) {
    m.Some? ==> 0 < m.value.size == size && m.value.offset + m.value.size <= basisSize
  }

  ghost predicate Shaped(ops: seq<DeltaOp>, basisSize: nat, blockSize: U32, total: nat)
    requires blockSize > 0
  {
    ShapedStream(ops, basisSize, blockSize) && TotalSize(ops) == total
  }

  lemma ShapedPrefix(xs: seq<DeltaOp>, ys: seq<DeltaOp>, basisSize: nat, blockSize: U32, m: nat, n: nat)
    requires blockSize > 0
    requires TotalSize(xs) == m && forall i :: 0 <= i < |xs| ==> WellShaped(xs[i], basisSize, blockSize)
    requires Shaped(ys, basisSize, blockSize, n)
    ensures Shaped(xs + ys, basisSize, blockSize, m + n)
  {
    TotalSizeAppend(xs, ys);
    forall i | 0 <= i < |xs + ys|
      ensures WellShaped((xs + ys)[i], basisSize, if i < |xs + ys| - 1 then blockSize else LiteralBound(blockSize))
    {
      if i < |xs| {
        assert (xs + ys)[i] == xs[i];
      } else {
        assert (xs + ys)[i] == ys[i - |xs|];
      }
    }
  }

  lemma {:induction false} GreedyShape(h: Digest, lookup: Lookup, basisSize: nat, blockSize: U32, source: Bytes, literal: Bytes)
    requires InsideBasis(h, lookup, basisSize) && |literal| < blockSize
    ensures Shaped(Greedy(h, lookup, blockSize, source, literal), basisSize, blockSize, |literal| + |source|)
    decreases |source|
  {
    if |source| < blockSize {
      GreedyShapeTail(h, lookup, basisSize, blockSize, source, literal);
    } else if Found(h, lookup, source[..blockSize]).Some? {
      GreedyShape(h, lookup, basisSize, blockSize, source[blockSize..], []);
      GreedyShapeMatch(h, lookup, basisSize, blockSize, source, literal);
    } else if |literal| + 1 >= blockSize {
      GreedyShape(h, lookup, basisSize, blockSize, source[1..], []);
      var longer := literal + [source[0]];
      var rest := Greedy(h, lookup, blockSize, source[1..], []);
      assert TotalSize([Literal(longer)]) == |longer|;
      ShapedPrefix([Literal(longer)], rest, basisSize, blockSize, |longer|, |source| - 1);
      assert Greedy(h, lookup, blockSize, source, literal) == [Literal(longer)] + rest;
    } else {
      GreedyShape(h, lookup, basisSize, blockSize, source[1..], literal + [source[0]]);
    }
  }

  lemma ShapedFlush(literal: Bytes, basisSize: nat, blockSize: U32)
    requires blockSize > 0 && |literal| <= LiteralBound(blockSize)
    ensures Shaped(Flushed(literal), basisSize, blockSize, |literal|)
  {
  }

  lemma GreedyShapeTail(h: Digest, lookup: Lookup, basisSize: nat, blockSize: U32, source: Bytes, literal: Bytes)
    requires InsideBasis(h, lookup, basisSize) && |literal| < blockSize && |source| < blockSize
    ensures Shaped(Greedy(h, lookup, blockSize, source, literal), basisSize, blockSize, |literal| + |source|)
  {
    hide Found, Flushed, Shaped, WellShaped, TotalSize;
    var m := Found(h, lookup, source);
    assert InsideMatch(m, basisSize, |source|);
    if source != [] && m.Some? {
      FlushFrontShape(literal, basisSize, blockSize);
      CopyShape(m.value, basisSize, blockSize);
      ShapedPrefix(Flushed(literal), [Copy(m.value)], basisSize, blockSize, |literal|, |source|);
    } else {
      ShapedFlush(literal + source, basisSize, blockSize);
      assert source == [] ==> literal + source == literal;
    }
  }

  lemma FlushFrontShape(literal: Bytes, basisSize: nat, blockSize: U32)
    requires |literal| < blockSize
    ensures TotalSize(Flushed(literal)) == |literal|
    ensures forall i :: 0 <= i < |Flushed(literal)| ==> WellShaped(Flushed(literal)[i], basisSize, blockSize)
  {
  }

  lemma CopyShape(s: BlockSignature, basisSize: nat, blockSize: U32)
    requires 0 < s.size <= blockSize && s.offset + s.size <= basisSize
    ensures Shaped([Copy(s)], basisSize, blockSize, s.size)
  {
  }

  lemma GreedyShapeMatch(h: Digest, lookup: Lookup, basisSize: nat, blockSize: U32, source: Bytes, literal: Bytes)
    requires InsideBasis(h, lookup, basisSize) && |literal| < blockSize <= |source|
    requires Found(h, lookup, source[..blockSize]).Some?
    requires Shaped(Greedy(h, lookup, blockSize, source[blockSize..], []), basisSize, blockSize, |source| - blockSize)
    ensures Shaped(Greedy(h, lookup, blockSize, source, literal), basisSize, blockSize, |literal| + |source|)
  {
    hide Found, Flushed, Shaped, WellShaped, TotalSize;
    var m := Found(h, lookup, source[..blockSize]);
    assert InsideMatch(m, basisSize, blockSize);
    var rest := Greedy(h, lookup, blockSize, source[blockSize..], []);
    var front := Flushed(literal) + [Copy(m.value)];
    MatchFrontShape(literal, m.value, basisSize, blockSize);
    ShapedPrefix(front, rest, basisSize, blockSize, |literal| + blockSize, |source| - blockSize);
    assert Greedy(h, lookup, blockSize, source, literal) == front + rest;
  }

  /** A flushed literal and the copy of a full block. */
  lemma MatchFrontShape(literal: Bytes, s: BlockSignature, basisSize: nat, blockSize: U32)
    requires |literal| < blockSize == s.size && s.offset + s.size <= basisSize
    ensures var front := Flushed(literal) + [Copy(s)];
            TotalSize(front) == |literal| + blockSize
            && forall i :: 0 <= i < |front| ==> WellShaped(front[i], basisSize, blockSize)
  {
    hide Flushed;
    FlushFrontShape(literal, basisSize, blockSize);
    TotalSizeAppend(Flushed(literal), [Copy(s)]);
  }

  /**
   Operation sizes add up to the source, no literal is empty, every copy lies inside the basis, and only the
   last operation may carry more than a block.
   */
  lemma DeltaOpsShape(h: Digest, basis: Bytes, sigs: seq<BlockSignature>, lookup: Lookup, blockSize: U32, source: Bytes)
    requires Matched(h, basis, sigs, lookup, blockSize)
    ensures ShapedStream(DeltaOps(h, lookup, blockSize, source), |basis|, blockSize)
    ensures TotalSize(DeltaOps(h, lookup, blockSize, source)) == |source|
  {
    forall w ensures InsideMatch(Found(h, lookup, w), |basis|, |w|) {
      FoundInside(h, basis, sigs, lookup, blockSize, w);
    }
    GreedyShape(h, lookup, |basis|, blockSize, source, []);
  }

  /** The bound is reached: a source of that length over an empty basis is one literal. */
  lemma {:induction false} LiteralBoundReached(h: Digest, blockSize: U32, source: Bytes, literal: Bytes)
    requires blockSize > 1 && 0 < |source| && |literal| + |source| == 2 * blockSize - 2 && |literal| < blockSize
    ensures Greedy(h, map[], blockSize, source, literal) == [Literal(literal + source)]
    decreases |source|
  {
    if |source| >= blockSize {
      assert (literal + [source[0]]) + source[1..] == literal + source;
      LiteralBoundReached(h, blockSize, source[1..], literal + [source[0]]);
    }
  }

  // ----- An unchanged file costs no literal data -----

  /** The basis was read without short reads: every block but the last is full. */
  ghost predicate FullBlocks(sigs: seq<BlockSignature>, blockSize: nat) {
    forall i :: 0 <= i < |sigs| - 1 ==> sigs[i].size == blockSize
  }

  ghost predicate CopiesOnly(ops: seq<DeltaOp>) {
    forall i :: 0 <= i < |ops| ==> ops[i].kind == CopyFromBasis
  }

  /** A matched block, full or the last one, followed by copies only. */
  lemma CopiesOnlyStep(h: Digest, lookup: Lookup, blockSize: U32, basis: Bytes, s: BlockSignature)
    requires 0 < s.size <= blockSize && s.offset + s.size <= |basis| && Found(h, lookup, Block(basis, s)).Some?
    requires s.size < blockSize ==> s.offset + s.size == |basis|
    requires CopiesOnly(DeltaOps(h, lookup, blockSize, basis[s.offset + s.size..]))
    ensures CopiesOnly(DeltaOps(h, lookup, blockSize, basis[s.offset..]))
  {
    hide FirstMatch;
    var rest := basis[s.offset..];
    DropTake(basis, s.offset, s.size);
    DropDrop(basis, s.offset, s.size);
    if s.size == blockSize {
      var m := Found(h, lookup, rest[..blockSize]);
      assert Greedy(h, lookup, blockSize, rest, []) == [] + [Copy(m.value)] + Greedy(h, lookup, blockSize, rest[blockSize..], []);
    } else {
      assert rest == Block(basis, s);
    }
  }

  lemma {:induction false} UnchangedFrom(h: Digest, basis: Bytes, sigs: seq<BlockSignature>, lookup: Lookup, blockSize: U32,
                                         k: nat)
    requires Matched(h, basis, sigs, lookup, blockSize) && FullBlocks(sigs, blockSize)
    requires k <= |sigs| && EndAt(sigs, k) <= |basis|
    ensures CopiesOnly(DeltaOps(h, lookup, blockSize, basis[EndAt(sigs, k)..]))
    decreases |sigs| - k
  {
    hide Greedy, Found, CopiesOnly;
    if k < |sigs| {
      var s := sigs[k];
      assert SignsNth(h, basis, blockSize, sigs, k);
      NeverMissed(h, basis, sigs, lookup, blockSize, s);
      UnchangedFrom(h, basis, sigs, lookup, blockSize, k + 1);
      CopiesOnlyStep(h, lookup, blockSize, basis, s);
    } else {
      assert basis[EndAt(sigs, k)..] == [];
      NothingToCopy(h, lookup, blockSize);
    }
  }

  lemma NothingToCopy(h: Digest, lookup: Lookup, blockSize: U32)
    requires blockSize > 0
    ensures CopiesOnly(DeltaOps(h, lookup, blockSize, []))
  {
  }

  /** Sending a file the receiver already has, signed in full blocks, sends copies only. */
  lemma UnchangedFileSendsNoLiteral(h: Digest, basis: Bytes, sigs: seq<BlockSignature>, lookup: Lookup, blockSize: U32)
    requires Matched(h, basis, sigs, lookup, blockSize) && FullBlocks(sigs, blockSize)
    ensures CopiesOnly(DeltaOps(h, lookup, blockSize, basis))
  {
    assert basis[0..] == basis;
    UnchangedFrom(h, basis, sigs, lookup, blockSize, 0);
  }
}
