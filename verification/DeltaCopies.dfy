/**
 When a delta copies from its basis at all: exactly when a block of the basis occurs in the new file where the matcher
 looks for it, which is anywhere for whole blocks and at the very end for shorter ones.
 */
module DeltaCopies {
  import opened Base
  import opened BlockSignatures
  import opened Delta
  import opened DeltaTheorems

  /** Some operation copies from the basis. */
  predicate HasCopy(ops: seq<DeltaOp>) {
    exists k :: 0 <= k < |ops| && ops[k].kind == CopyFromBasis
  }

  lemma {:induction false} LiteralsNeedNoBasis(ops: seq<DeltaOp>, first: Option<Bytes>, second: Option<Bytes>)
    requires !HasCopy(ops)
    ensures Replay(first, ops) == Replay(second, ops)
  {
    if ops != [] {
      var n := |ops| - 1;
      forall k | 0 <= k < n ensures ops[..n][k].kind != CopyFromBasis {
        assert ops[..n][k] == ops[k];
      }
      LiteralsNeedNoBasis(ops[..n], first, second);
      assert ops[n].kind != CopyFromBasis;
    }
  }

  function FirstCopy(ops: seq<DeltaOp>): (k: nat)
    requires HasCopy(ops)
    ensures k < |ops| && ops[k].kind == CopyFromBasis && forall i :: 0 <= i < k ==> ops[i].kind == LiteralData
  {
    if ops[0].kind == CopyFromBasis then 0 else
      assert HasCopy(ops[1..]) by {
        var k :| 0 <= k < |ops| && ops[k].kind == CopyFromBasis;
        assert ops[1..][k - 1] == ops[k];
      }
      1 + FirstCopy(ops[1..])
  }

  lemma CopyNeedsBasis(ops: seq<DeltaOp>)
    requires HasCopy(ops)
    ensures Replay(None, ops).None?
  {
    var i :| 0 <= i < |ops| && ops[i].kind == CopyFromBasis;
    ReplayNeedsEveryOp(None, ops, i);
  }

  // ----- Which windows decide -----

  lemma CopyInPrefix(front: seq<DeltaOp>, s: BlockSignature, rest: seq<DeltaOp>)
    ensures HasCopy(front + [Copy(s)] + rest)
  {
    assert (front + [Copy(s)] + rest)[|front|] == Copy(s);
  }

  lemma LiteralInFront(op: DeltaOp, rest: seq<DeltaOp>)
    requires op.kind == LiteralData
    ensures HasCopy([op] + rest) <==> HasCopy(rest)
  {
    if i :| 0 <= i < |rest| && rest[i].kind == CopyFromBasis {
      assert ([op] + rest)[i + 1] == rest[i];
    }
    if i :| 0 <= i < |[op] + rest| && ([op] + rest)[i].kind == CopyFromBasis {
      assert rest[i - 1] == ([op] + rest)[i];
    }
  }

  lemma FlushedHasNoCopy(literal: Bytes)
    requires |literal| < U64_LIMIT
    ensures !HasCopy(Flushed(literal))
  {
  }

  /** Where the window stands that is too short for a whole block, when nothing has matched before it. */
  function TailStart(source: Bytes, blockSize: U32): (k: nat)
    ensures k <= |source|
  {
    if blockSize == 0 || |source| < blockSize then 0 else |source| - blockSize + 1
  }

  predicate FoundAt(h: Digest, lookup: Lookup, blockSize: U32, source: Bytes, o: nat) {
    o + blockSize <= |source| && Found(h, lookup, source[o..o + blockSize]).Some?
  }

  predicate FullWindowFound(h: Digest, lookup: Lookup, blockSize: U32, source: Bytes) {
    exists o :: 0 <= o <= |source| && FoundAt(h, lookup, blockSize, source, o)
  }

  predicate TailFound(h: Digest, lookup: Lookup, blockSize: U32, source: Bytes) {
    var tail := source[TailStart(source, blockSize)..];
    tail != [] && Found(h, lookup, tail).Some?
  }

  /** The matcher, as far as finding anything at all goes. */
  predicate AnyFound(h: Digest, lookup: Lookup, blockSize: U32, source: Bytes)
    requires blockSize > 0
  {
    if |source| < blockSize then source != [] && Found(h, lookup, source).Some?
    else Found(h, lookup, source[..blockSize]).Some? || AnyFound(h, lookup, blockSize, source[1..])
  }

  lemma {:induction false} CopiesIffAnyFound(h: Digest, lookup: Lookup, blockSize: U32, source: Bytes, literal: Bytes)
    requires |literal| < blockSize
    ensures HasCopy(Greedy(h, lookup, blockSize, source, literal)) <==> AnyFound(h, lookup, blockSize, source)
    decreases |source|
  {
    hide HasCopy, Found;
    if |source| < blockSize {
      var m := Found(h, lookup, source);
      if source != [] && m.Some? {
        CopyInPrefix(Flushed(literal), m.value, []);
        assert Flushed(literal) + [Copy(m.value)] + [] == Flushed(literal) + [Copy(m.value)];
      } else {
        FlushedHasNoCopy(literal);
        FlushedHasNoCopy(literal + source);
      }
    } else {
      var m := Found(h, lookup, source[..blockSize]);
      if m.Some? {
        CopyInPrefix(Flushed(literal), m.value, Greedy(h, lookup, blockSize, source[blockSize..], []));
      } else {
        var longer := literal + [source[0]];
        if |longer| >= blockSize {
          CopiesIffAnyFound(h, lookup, blockSize, source[1..], []);
          LiteralInFront(Literal(longer), Greedy(h, lookup, blockSize, source[1..], []));
        } else {
          CopiesIffAnyFound(h, lookup, blockSize, source[1..], longer);
        }
      }
    }
  }

  lemma {:induction false} AnyFoundIsWindows(h: Digest, lookup: Lookup, blockSize: U32, source: Bytes)
    requires blockSize > 0
    ensures AnyFound(h, lookup, blockSize, source)
            <==> FullWindowFound(h, lookup, blockSize, source) || TailFound(h, lookup, blockSize, source)
    decreases |source|
  {
    hide Found;
    if |source| < blockSize {
      assert source[0..] == source;
    } else {
      var rest := source[1..];
      AnyFoundIsWindows(h, lookup, blockSize, rest);
      assert source[0..0 + blockSize] == source[..blockSize];
      assert FoundAt(h, lookup, blockSize, source, 0) <==> Found(h, lookup, source[..blockSize]).Some?;
      assert rest[TailStart(rest, blockSize)..] == source[TailStart(source, blockSize)..];
      forall o: nat ensures FoundAt(h, lookup, blockSize, rest, o) <==> FoundAt(h, lookup, blockSize, source, o + 1) {
        if o + blockSize <= |rest| {
          assert source[o + 1..o + 1 + blockSize] == rest[o..o + blockSize];
        }
      }
      if o :| 0 <= o <= |source| && FoundAt(h, lookup, blockSize, source, o) {
        assert o > 0 ==> FoundAt(h, lookup, blockSize, source, o - 1 + 1) && FoundAt(h, lookup, blockSize, rest, o - 1);
      }
    }
  }

  /**
   For every digest and every index: a delta copies if and only if some window of a whole block is found anywhere in the
   source, or the last window, one byte short of a block or the whole of a shorter source, is found.
   */
  lemma CopiesIffWindowFound(h: Digest, lookup: Lookup, blockSize: U32, source: Bytes)
    requires blockSize > 0
    ensures HasCopy(DeltaOps(h, lookup, blockSize, source))
            <==> FullWindowFound(h, lookup, blockSize, source) || TailFound(h, lookup, blockSize, source)
  {
    hide HasCopy, Greedy, AnyFound, FullWindowFound, TailFound;
    CopiesIffAnyFound(h, lookup, blockSize, source, []);
    AnyFoundIsWindows(h, lookup, blockSize, source);
  }

  // ----- In terms of the two files -----

  predicate OccursAt(block: Bytes, source: Bytes, o: nat) {
    o + |block| <= |source| && source[o..o + |block|] == block
  }

  /** A whole block occurs anywhere in the new file, or a shorter one is exactly its last window. */
  predicate BlockOccurs(block: Bytes, blockSize: U32, source: Bytes) {
    || (|block| == blockSize && exists o :: 0 <= o <= |source| && OccursAt(block, source, o))
    || (block != [] && source[TailStart(source, blockSize)..] == block)
  }

  ghost predicate SomeBlockOccurs(basis: Bytes, sigs: seq<BlockSignature>, blockSize: U32, source: Bytes) {
    exists s :: s in sigs && s.offset + s.size <= |basis| && BlockOccurs(Block(basis, s), blockSize, source)
  }

  /**
   Without a collision a delta copies if and only if some signed block of the basis occurs in the new file. A caller can
   tell from the two files and where reads have cut the basis.
   */
  lemma CopiesIffBlockOccurs(h: Digest, basis: Bytes, sigs: seq<BlockSignature>, lookup: Lookup, blockSize: U32, source: Bytes)
    requires Matched(h, basis, sigs, lookup, blockSize) && NoCollision(h, basis, sigs, source)
    ensures HasCopy(DeltaOps(h, lookup, blockSize, source)) <==> SomeBlockOccurs(basis, sigs, blockSize, source)
  {
    assert blockSize > 0;
    hide HasCopy, Matched, NoCollision, Found, Greedy, FullWindowFound, TailFound, BlockOccurs;
    CopiesIffWindowFound(h, lookup, blockSize, source);
    if FullWindowFound(h, lookup, blockSize, source) || TailFound(h, lookup, blockSize, source) {
      FoundOccurs(h, basis, sigs, lookup, blockSize, source);
    }
    if s :| s in sigs && s.offset + s.size <= |basis| && BlockOccurs(Block(basis, s), blockSize, source) {
      OccursFound(h, basis, sigs, lookup, blockSize, source, s);
    }
  }

  lemma FoundOccurs(h: Digest, basis: Bytes, sigs: seq<BlockSignature>, lookup: Lookup, blockSize: U32, source: Bytes)
    requires Matched(h, basis, sigs, lookup, blockSize) && NoCollision(h, basis, sigs, source)
    requires FullWindowFound(h, lookup, blockSize, source) || TailFound(h, lookup, blockSize, source)
    ensures SomeBlockOccurs(basis, sigs, blockSize, source)
  {
    hide Matched, NoCollision, Found;
    if o :| 0 <= o <= |source| && FoundAt(h, lookup, blockSize, source, o) {
      FoundIffBlock(h, basis, sigs, lookup, blockSize, source, o, o + blockSize);
      var s := Found(h, lookup, source[o..o + blockSize]).value;
      assert OccursAt(Block(basis, s), source, o);
    } else {
      var t := TailStart(source, blockSize);
      assert source[t..] == source[t..|source|];
      FoundIffBlock(h, basis, sigs, lookup, blockSize, source, t, |source|);
      var s := Found(h, lookup, source[t..]).value;
      assert BlockOccurs(Block(basis, s), blockSize, source);
    }
  }

  lemma OccursFound(h: Digest, basis: Bytes, sigs: seq<BlockSignature>, lookup: Lookup, blockSize: U32, source: Bytes,
                    s: BlockSignature)
    requires Matched(h, basis, sigs, lookup, blockSize) && s in sigs && s.offset + s.size <= |basis|
    requires BlockOccurs(Block(basis, s), blockSize, source)
    ensures FullWindowFound(h, lookup, blockSize, source) || TailFound(h, lookup, blockSize, source)
  {
    hide Matched, Found;
    NeverMissed(h, basis, sigs, lookup, blockSize, s);
    var block := Block(basis, s);
    if |block| == blockSize && exists o :: 0 <= o <= |source| && OccursAt(block, source, o) {
      var o :| 0 <= o <= |source| && OccursAt(block, source, o);
      assert source[o..o + blockSize] == block;
      assert FoundAt(h, lookup, blockSize, source, o);
    }
  }
}
