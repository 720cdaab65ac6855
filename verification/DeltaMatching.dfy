/**
 What the streaming matcher looks for, from the first byte of a source to the last: the first window that is found is
 copied and everything before it is literal, and then the matcher starts afresh behind it, until nothing more is found.
 */
module DeltaMatching {
  import opened Base
  import opened Delta
  import opened DeltaTheorems
  import opened DeltaCopies

  // ----- From one match to the next -----

  lemma ChunksOfShort(literal: Bytes, blockSize: U32)
    requires |literal| < blockSize
    ensures ChunksOf(literal, blockSize) == Flushed(literal)
  {
  }

  lemma ChunksOfFull(literal: Bytes, rest: Bytes, blockSize: U32)
    requires 0 < blockSize == |literal|
    ensures ChunksOf(literal + rest, blockSize) == [Literal(literal)] + ChunksOf(rest, blockSize)
  {
    var data := literal + rest;
    assert data[..blockSize] == literal && data[blockSize..] == rest;
    if rest == [] {
      assert data == literal;
    }
  }

  /** One byte further, with nothing found at the front. */
  lemma SlideOne(h: Digest, lookup: Lookup, blockSize: U32, source: Bytes, literal: Bytes)
    requires |literal| < blockSize <= |source| && !FoundAt(h, lookup, blockSize, source, 0)
    ensures var longer := literal + [source[0]];
            Greedy(h, lookup, blockSize, source, literal)
            == if |longer| == blockSize then [Literal(longer)] + Greedy(h, lookup, blockSize, source[1..], [])
               else Greedy(h, lookup, blockSize, source[1..], longer)
  {
    assert source[0..0 + blockSize] == source[..blockSize];
  }

  /** What waits is flushed, and the window is copied. */
  lemma AtMatch(h: Digest, lookup: Lookup, blockSize: U32, source: Bytes, literal: Bytes)
    requires |literal| < blockSize && FoundAt(h, lookup, blockSize, source, 0)
    ensures Greedy(h, lookup, blockSize, source, literal)
         == ChunksOf(literal + source[..0], blockSize) + [Copy(Found(h, lookup, source[0..0 + blockSize]).value)]
            + DeltaOps(h, lookup, blockSize, source[0 + blockSize..])
  {
    hide Found;
    assert source[0..0 + blockSize] == source[..blockSize] && literal + source[..0] == literal;
    ChunksOfShort(literal, blockSize);
  }

  lemma FoundShifts(h: Digest, lookup: Lookup, blockSize: U32, source: Bytes, k: nat, o: nat)
    requires k <= |source|
    ensures FoundAt(h, lookup, blockSize, source[k..], o) <==> FoundAt(h, lookup, blockSize, source, k + o)
  {
    if k + o + blockSize <= |source| {
      assert source[k..][o..o + blockSize] == source[k + o..k + o + blockSize];
    }
  }

  lemma SlicesShift(literal: Bytes, source: Bytes, o: nat, n: nat)
    requires 0 < o && o + n <= |source|
    ensures var rest := source[1..];
            && rest[o - 1..o - 1 + n] == source[o..o + n] && rest[o - 1 + n..] == source[o + n..]
            && (literal + [source[0]]) + rest[..o - 1] == literal + source[..o]
  {
  }

  /** Up to the first window that is found. */
  lemma {:induction false} UpToMatch(h: Digest, lookup: Lookup, blockSize: U32, source: Bytes, literal: Bytes, o: nat)
    requires |literal| < blockSize && FoundAt(h, lookup, blockSize, source, o)
    requires forall p :: 0 <= p < o ==> !FoundAt(h, lookup, blockSize, source, p)
    ensures Greedy(h, lookup, blockSize, source, literal)
         == ChunksOf(literal + source[..o], blockSize) + [Copy(Found(h, lookup, source[o..o + blockSize]).value)]
            + DeltaOps(h, lookup, blockSize, source[o + blockSize..])
    decreases o
  {
    hide Found, ChunksOf, Greedy;
    if o == 0 {
      AtMatch(h, lookup, blockSize, source, literal);
    } else {
      assert !FoundAt(h, lookup, blockSize, source, 0);
      SlideOne(h, lookup, blockSize, source, literal);
      var rest, longer := source[1..], literal + [source[0]];
      forall p: nat ensures FoundAt(h, lookup, blockSize, rest, p) <==> FoundAt(h, lookup, blockSize, source, 1 + p) {
        FoundShifts(h, lookup, blockSize, source, 1, p);
      }
      SlicesShift(literal, source, o, blockSize);
      if |longer| == blockSize {
        UpToMatch(h, lookup, blockSize, rest, [], o - 1);
        assert [] + rest[..o - 1] == rest[..o - 1];
        ChunksOfFull(longer, rest[..o - 1], blockSize);
      } else {
        UpToMatch(h, lookup, blockSize, rest, longer, o - 1);
      }
    }
  }

  /** The literals of one whole block each at the front of some data. */
  function WholeLiterals(data: Bytes, blockSize: U32): seq<DeltaOp>
    requires blockSize > 0
    decreases |data|
  {
    if |data| < blockSize then [] else [Literal(data[..blockSize])] + WholeLiterals(data[blockSize..], blockSize)
  }

  /** What is left behind them. */
  function Leftover(data: Bytes, blockSize: U32): (rest: Bytes)
    requires blockSize > 0
    ensures |rest| < blockSize && |rest| <= |data| && rest == data[|data| - |rest|..]
    decreases |data|
  {
    if |data| < blockSize then data else Leftover(data[blockSize..], blockSize)
  }

  /**
   When no whole window is found any more: behind what waits already, the last, shorter window is copied if it is found
   and otherwise joins the last literal.
   */
  function Unmatched(h: Digest, lookup: Lookup, blockSize: U32, waiting: Bytes, source: Bytes): seq<DeltaOp>
    requires blockSize > 0
  {
    var t := TailStart(source, blockSize);
    var before, tail := waiting + source[..t], source[t..];
    var m := Found(h, lookup, tail);
    if tail != [] && m.Some? then WholeLiterals(before, blockSize) + Flushed(Leftover(before, blockSize)) + [Copy(m.value)]
    else WholeLiterals(before, blockSize) + Flushed(Leftover(before, blockSize) + tail)
  }

  lemma {:induction false} WithoutMatch(h: Digest, lookup: Lookup, blockSize: U32, source: Bytes, literal: Bytes)
    requires |literal| < blockSize
    requires forall p :: 0 <= p <= |source| ==> !FoundAt(h, lookup, blockSize, source, p)
    ensures Greedy(h, lookup, blockSize, source, literal) == Unmatched(h, lookup, blockSize, literal, source)
    decreases |source|
  {
    hide Found, ChunksOf;
    if |source| < blockSize {
      AtTail(h, lookup, blockSize, source, literal);
    } else {
      assert !FoundAt(h, lookup, blockSize, source, 0);
      SlideOne(h, lookup, blockSize, source, literal);
      hide Greedy;
      var rest, longer := source[1..], literal + [source[0]];
      forall p | 0 <= p <= |rest| ensures !FoundAt(h, lookup, blockSize, rest, p) {
        FoundShifts(h, lookup, blockSize, source, 1, p);
      }
      if |longer| == blockSize {
        WithoutMatch(h, lookup, blockSize, rest, []);
        FullInFront(h, lookup, blockSize, source, literal);
      } else {
        WithoutMatch(h, lookup, blockSize, rest, longer);
        SameUnmatched(h, lookup, blockSize, source, literal);
      }
    }
  }

  /** The last window of a source that is shorter than a block. */
  lemma AtTail(h: Digest, lookup: Lookup, blockSize: U32, source: Bytes, literal: Bytes)
    requires |literal| < blockSize && |source| < blockSize
    ensures Greedy(h, lookup, blockSize, source, literal) == Unmatched(h, lookup, blockSize, literal, source)
  {
    hide Found;
    assert source[0..] == source && literal + source[..0] == literal && literal + [] == literal;
  }

  /** The byte in front only moves from the source to what waits. */
  lemma SameUnmatched(h: Digest, lookup: Lookup, blockSize: U32, source: Bytes, literal: Bytes)
    requires |literal| + 1 < blockSize <= |source|
    ensures Unmatched(h, lookup, blockSize, literal + [source[0]], source[1..]) == Unmatched(h, lookup, blockSize, literal, source)
  {
    hide Found, WholeLiterals, Leftover;
    var longer, rest := literal + [source[0]], source[1..];
    var t := TailStart(rest, blockSize);
    assert longer + rest[..t] == literal + source[..TailStart(source, blockSize)];
    assert rest[t..] == source[TailStart(source, blockSize)..];
  }

  lemma OneWholeMore(front: Bytes, rest: Bytes, blockSize: U32)
    requires 0 < blockSize == |front|
    ensures WholeLiterals(front + rest, blockSize) == [Literal(front)] + WholeLiterals(rest, blockSize)
    ensures Leftover(front + rest, blockSize) == Leftover(rest, blockSize)
  {
    assert (front + rest)[..blockSize] == front && (front + rest)[blockSize..] == rest;
  }

  /** A full literal is sent in front. */
  lemma FullInFront(h: Digest, lookup: Lookup, blockSize: U32, source: Bytes, literal: Bytes)
    requires |literal| + 1 == blockSize <= |source|
    ensures Unmatched(h, lookup, blockSize, literal, source)
         == [Literal(literal + [source[0]])] + Unmatched(h, lookup, blockSize, [], source[1..])
  {
    hide Found, WholeLiterals, Leftover, Flushed;
    var longer, rest := literal + [source[0]], source[1..];
    var t := TailStart(rest, blockSize);
    var tail := rest[t..];
    assert literal + source[..TailStart(source, blockSize)] == longer + rest[..t] && [] + rest[..t] == rest[..t];
    assert tail == source[TailStart(source, blockSize)..];
    OneWholeMore(longer, rest[..t], blockSize);
    var front, back, left := [Literal(longer)], WholeLiterals(rest[..t], blockSize), Leftover(rest[..t], blockSize);
    if tail != [] && Found(h, lookup, tail).Some? {
      ThreeParts(front, back, Flushed(left), [Copy(Found(h, lookup, tail).value)]);
    } else {
      JoinAssoc(front, back, Flushed(left + tail));
    }
  }

  lemma ThreeParts<T>(a: seq<T>, b: seq<T>, c: seq<T>, d: seq<T>)
    ensures (a + b) + c + d == a + (b + c + d)
  {
  }

  /**
   What the matcher sends for any source, digest and index, from match to match: literals of one block up to the first
   window that is found, a copy of what it is found to be, and then what it sends for the bytes behind that window as a
   source of their own; and, when no window is found, literals up to the last, shorter window.
   */
  lemma DeltaFollowsMatches(h: Digest, lookup: Lookup, blockSize: U32, source: Bytes)
    requires blockSize > 0
    ensures forall o :: 0 <= o <= |source| && FoundAt(h, lookup, blockSize, source, o)
                        && (forall p :: 0 <= p < o ==> !FoundAt(h, lookup, blockSize, source, p)) ==>
                          DeltaOps(h, lookup, blockSize, source)
                          == ChunksOf(source[..o], blockSize) + [Copy(Found(h, lookup, source[o..o + blockSize]).value)]
                             + DeltaOps(h, lookup, blockSize, source[o + blockSize..])
    ensures (forall o :: 0 <= o <= |source| ==> !FoundAt(h, lookup, blockSize, source, o)) ==>
              DeltaOps(h, lookup, blockSize, source) == Unmatched(h, lookup, blockSize, [], source)
  {
    hide Found, Greedy, Unmatched;
    forall o | 0 <= o <= |source| && FoundAt(h, lookup, blockSize, source, o)
               && (forall p :: 0 <= p < o ==> !FoundAt(h, lookup, blockSize, source, p))
      ensures DeltaOps(h, lookup, blockSize, source)
           == ChunksOf(source[..o], blockSize) + [Copy(Found(h, lookup, source[o..o + blockSize]).value)]
              + DeltaOps(h, lookup, blockSize, source[o + blockSize..])
    {
      UpToMatch(h, lookup, blockSize, source, [], o);
      assert [] + source[..o] == source[..o];
    }
    if forall o :: 0 <= o <= |source| ==> !FoundAt(h, lookup, blockSize, source, o) {
      WithoutMatch(h, lookup, blockSize, source, []);
    }
  }

  // ----- Position by position -----

  /** Position o of the source is covered by a literal. */
  predicate InLiteral(ops: seq<DeltaOp>, o: nat) {
    ops != [] && if o < ops[0].size then ops[0].kind == LiteralData else InLiteral(ops[1..], o - ops[0].size)
  }

  /** An operation begins at position o of the source. */
  predicate StartsAt(ops: seq<DeltaOp>, o: nat, op: DeltaOp) {
    ops != [] && if o < ops[0].size then o == 0 && ops[0] == op else StartsAt(ops[1..], o - ops[0].size, op)
  }

  lemma {:induction false} PositionsJoin(xs: seq<DeltaOp>, ys: seq<DeltaOp>, o: nat, op: DeltaOp)
    ensures InLiteral(xs + ys, o) <==>
              if o < TotalSize(xs) then InLiteral(xs, o) else InLiteral(ys, o - TotalSize(xs))
    ensures StartsAt(xs + ys, o, op) <==>
              if o < TotalSize(xs) then StartsAt(xs, o, op) else StartsAt(ys, o - TotalSize(xs), op)
  {
    if xs == [] {
      assert xs + ys == ys;
    } else {
      assert (xs + ys)[1..] == xs[1..] + ys;
      if o >= xs[0].size {
        PositionsJoin(xs[1..], ys, o - xs[0].size, op);
      }
    }
  }

  lemma {:induction false} ChunksAreLiterals(data: Bytes, blockSize: U32, o: nat, op: DeltaOp)
    requires blockSize > 0
    ensures TotalSize(ChunksOf(data, blockSize)) == |data|
    ensures StartsAt(ChunksOf(data, blockSize), o, op) ==> op.kind == LiteralData
    decreases |data|
  {
    if data == [] {
    } else if |data| <= blockSize {
      assert ChunksOf(data, blockSize) == [Literal(data)] && [Literal(data)][1..] == [];
      assert TotalSize([]) == 0 && (o >= |data| ==> !StartsAt([], o - |data|, op));
    } else {
      var rest := ChunksOf(data[blockSize..], blockSize);
      ChunksAreLiterals(data[blockSize..], blockSize, if o < blockSize then 0 else o - blockSize, op);
      assert ChunksOf(data, blockSize) == [Literal(data[..blockSize])] + rest && ([Literal(data[..blockSize])] + rest)[1..] == rest;
    }
  }

  lemma {:induction false} FirstFound(h: Digest, lookup: Lookup, blockSize: U32, source: Bytes, n: nat) returns (o: nat)
    requires n <= |source| + 1
    ensures o <= n && (o < n ==> FoundAt(h, lookup, blockSize, source, o))
    ensures forall p :: 0 <= p < o ==> !FoundAt(h, lookup, blockSize, source, p)
  {
    hide FoundAt;
    o := 0;
    if n > 0 {
      o := FirstFound(h, lookup, blockSize, source, n - 1);
      if o == n - 1 && !FoundAt(h, lookup, blockSize, source, o) {
        o := n;
      }
    }
  }

  /** The window at a position, cut short by the end of the source. */
  function WindowAt(source: Bytes, blockSize: U32, o: nat): Bytes
    requires o <= |source|
  {
    source[o..if o + blockSize <= |source| then o + blockSize else |source|]
  }

  /** A copy of what the window at this position is found to be. */
  predicate CopiesFound(h: Digest, lookup: Lookup, blockSize: U32, source: Bytes, o: nat, op: DeltaOp) {
    && o <= |source| && Found(h, lookup, WindowAt(source, blockSize, o)).Some?
    && op == Copy(Found(h, lookup, WindowAt(source, blockSize, o)).value)
  }

  lemma OneCopy(op: DeltaOp, o: nat, other: DeltaOp)
    requires op.kind == CopyFromBasis && op.size > 0
    ensures TotalSize([op]) == op.size && !InLiteral([op], o)
    ensures StartsAt([op], o, other) <==> o == 0 && other == op
  {
    assert [op][1..] == [] && TotalSize([]) == 0;
    assert o >= op.size ==> !InLiteral([], o - op.size) && !StartsAt([], o - op.size, other);
  }

  /** Positions in literals, a copy, and what follows. */
  lemma PositionsAround(chunks: seq<DeltaOp>, copy: DeltaOp, rest: seq<DeltaOp>, o: nat, op: DeltaOp)
    requires copy.kind == CopyFromBasis && copy.size > 0
    requires StartsAt(chunks, o, op) ==> op.kind == LiteralData
    ensures var n, all := TotalSize(chunks), chunks + [copy] + rest;
            && (InLiteral(all, o) ==> o < n || (o >= n + copy.size && InLiteral(rest, o - n - copy.size)))
            && (StartsAt(all, o, op) && op.kind == CopyFromBasis ==>
                  (o == n && op == copy) || (o >= n + copy.size && StartsAt(rest, o - n - copy.size, op)))
  {
    hide InLiteral, StartsAt, TotalSize;
    var n := TotalSize(chunks);
    JoinAssoc(chunks, [copy], rest);
    PositionsJoin(chunks, [copy] + rest, o, op);
    if o >= n {
      PositionsJoin([copy], rest, o - n, op);
      OneCopy(copy, o - n, op);
    }
  }

  /** What holds at a position of the bytes behind a match holds at that position of the whole. */
  lemma CopiesFoundShifts(h: Digest, lookup: Lookup, blockSize: U32, source: Bytes, k: nat, q: nat, op: DeltaOp)
    requires k <= |source| && CopiesFound(h, lookup, blockSize, source[k..], q, op)
    ensures CopiesFound(h, lookup, blockSize, source, k + q, op)
  {
    hide Found;
    assert WindowAt(source[k..], blockSize, q) == WindowAt(source, blockSize, k + q);
  }

  lemma MatchIsCopied(h: Digest, lookup: Lookup, blockSize: U32, source: Bytes, m: nat)
    requires FoundAt(h, lookup, blockSize, source, m)
    ensures CopiesFound(h, lookup, blockSize, source, m, Copy(Found(h, lookup, source[m..m + blockSize]).value))
  {
    hide Found;
  }

  /** Every position, from the positions behind the first match. */
  lemma PositionFromMatch(h: Digest, lookup: Lookup, blockSize: U32, source: Bytes, m: nat, o: nat, op: DeltaOp)
    requires blockSize > 0 && FoundAt(h, lookup, blockSize, source, m)
    requires forall p :: 0 <= p < m ==> !FoundAt(h, lookup, blockSize, source, p)
    ensures var all := DeltaOps(h, lookup, blockSize, source);
            var rest := DeltaOps(h, lookup, blockSize, source[m + blockSize..]);
            && (InLiteral(all, o) && FoundAt(h, lookup, blockSize, source, o) ==>
                  o >= m + blockSize && InLiteral(rest, o - m - blockSize))
            && (StartsAt(all, o, op) && op.kind == CopyFromBasis ==>
                  || CopiesFound(h, lookup, blockSize, source, o, op)
                  || (o >= m + blockSize && StartsAt(rest, o - m - blockSize, op)))
  {
    hide Found, Greedy, InLiteral, StartsAt, ChunksOf, CopiesFound;
    UpToMatch(h, lookup, blockSize, source, [], m);
    assert [] + source[..m] == source[..m];
    assert CopiesFound(h, lookup, blockSize, source, m, Copy(Found(h, lookup, source[m..m + blockSize]).value)) by {
      MatchIsCopied(h, lookup, blockSize, source, m);
    }
    var copy := Copy(Found(h, lookup, source[m..m + blockSize]).value);
    FoundSize(h, lookup, source[m..m + blockSize]);
    ChunksAreLiterals(source[..m], blockSize, o, op);
    PositionsAround(ChunksOf(source[..m], blockSize), copy, DeltaOps(h, lookup, blockSize, source[m + blockSize..]), o, op);
  }

  /**
   For every digest and index, over the whole list: where a literal covers the source no window was found, and each copy
   is of what the window where it starts is found to be.
   */
  lemma {:induction false} EveryPosition(h: Digest, lookup: Lookup, blockSize: U32, source: Bytes, o: nat, op: DeltaOp)
    requires blockSize > 0
    ensures InLiteral(DeltaOps(h, lookup, blockSize, source), o) ==> !FoundAt(h, lookup, blockSize, source, o)
    ensures StartsAt(DeltaOps(h, lookup, blockSize, source), o, op) && op.kind == CopyFromBasis ==>
              CopiesFound(h, lookup, blockSize, source, o, op)
    decreases |source|
  {
    hide Found, Greedy, InLiteral, StartsAt, CopiesFound, Unmatched;
    var m := FirstFound(h, lookup, blockSize, source, |source| + 1);
    if m <= |source| {
      PositionFromMatch(h, lookup, blockSize, source, m, o, op);
      if o >= m + blockSize {
        var k, q := m + blockSize, o - m - blockSize;
        EveryPosition(h, lookup, blockSize, source[k..], q, op);
        FoundShifts(h, lookup, blockSize, source, k, q);
        if CopiesFound(h, lookup, blockSize, source[k..], q, op) {
          CopiesFoundShifts(h, lookup, blockSize, source, k, q, op);
        }
      }
    } else {
      WithoutMatch(h, lookup, blockSize, source, []);
      assert o <= |source| ==> !FoundAt(h, lookup, blockSize, source, o);
      UnmatchedCopies(h, lookup, blockSize, source, o, op);
    }
  }

  lemma FoundSize(h: Digest, lookup: Lookup, w: Bytes)
    ensures Found(h, lookup, w).Some? ==> Found(h, lookup, w).value.size == |w|
  {
  }

  lemma {:induction false} WholesAreLiterals(data: Bytes, blockSize: U32, o: nat, op: DeltaOp)
    requires blockSize > 0
    ensures TotalSize(WholeLiterals(data, blockSize)) + |Leftover(data, blockSize)| == |data|
    ensures StartsAt(WholeLiterals(data, blockSize), o, op) ==> op.kind == LiteralData
    decreases |data|
  {
    if |data| >= blockSize {
      var rest := WholeLiterals(data[blockSize..], blockSize);
      WholesAreLiterals(data[blockSize..], blockSize, if o < blockSize then 0 else o - blockSize, op);
      assert ([Literal(data[..blockSize])] + rest)[1..] == rest;
    }
  }

  lemma FlushedIsLiteral(data: Bytes, o: nat, op: DeltaOp)
    requires |data| < U64_LIMIT
    ensures TotalSize(Flushed(data)) == |data| && (StartsAt(Flushed(data), o, op) ==> op.kind == LiteralData)
  {
    if data != [] {
      assert [Literal(data)][1..] == [] && TotalSize([]) == 0;
      assert o >= |data| ==> !StartsAt([], o - |data|, op);
    }
  }

  /** The one copy there can be when no whole window is found. */
  lemma UnmatchedCopies(h: Digest, lookup: Lookup, blockSize: U32, source: Bytes, o: nat, op: DeltaOp)
    requires blockSize > 0
    ensures StartsAt(Unmatched(h, lookup, blockSize, [], source), o, op) && op.kind == CopyFromBasis ==>
              CopiesFound(h, lookup, blockSize, source, o, op)
  {
    hide Found, InLiteral, StartsAt, TotalSize, WholeLiterals, Leftover, Flushed;
    var t := TailStart(source, blockSize);
    var before, tail := [] + source[..t], source[t..];
    var wholes, left := WholeLiterals(before, blockSize), Leftover(before, blockSize);
    WholesAreLiterals(before, blockSize, o, op);
    var at := if o < TotalSize(wholes) then 0 else o - TotalSize(wholes);
    if tail != [] && Found(h, lookup, tail).Some? {
      FoundSize(h, lookup, tail);
      FlushedIsLiteral(left, at, op);
      PositionsJoin(wholes, Flushed(left), o, op);
      TotalSizeAppend(wholes, Flushed(left));
      var copy := Copy(Found(h, lookup, tail).value);
      var front := wholes + Flushed(left);
      assert front + [copy] + [] == front + [copy];
      PositionsAround(front, copy, [], o, op);
      NoPosition(if o < t + copy.size then 0 else o - t - copy.size, op);
      assert tail == WindowAt(source, blockSize, t);
    } else {
      FlushedIsLiteral(left + tail, at, op);
      PositionsJoin(wholes, Flushed(left + tail), o, op);
    }
  }

  lemma NoPosition(o: nat, op: DeltaOp)
    ensures !StartsAt([], o, op)
  {
  }
}
