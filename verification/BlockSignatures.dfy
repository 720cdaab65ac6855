/**
 Block signatures of a basis file (src/transfer/block_signature.cpp).
 Short reads may cut the basis anywhere, so blocks need not have the nominal block size.
 */
module BlockSignatures {
  import opened Base
  import opened Checksum
  import opened FileIO

  datatype BlockSignature = BlockSignature(index: U64, offset: U64, size: U32, weak: U32, strong: Text)

  /** Where the first n blocks end. */
  function EndAt(sigs: seq<BlockSignature>, n: nat): nat
    requires n <= |sigs|
  {
    if n == 0 then 0 else sigs[n - 1].offset + sigs[n - 1].size
  }

  /** The signature describes a non-empty range of the basis, at most one block long. */
  ghost predicate Describes(h: Digest, basis: Bytes, blockSize: nat, s: BlockSignature) {
    && 0 < s.size <= blockSize
    && s.offset + s.size <= |basis|
    && s.weak == WeakOf(Block(basis, s))
    && s.strong == h(Block(basis, s))
  }

  /** The bytes a signature stands for. */
  function Block(basis: Bytes, s: BlockSignature): Bytes
    requires s.offset + s.size <= |basis|
  {
    basis[s.offset..s.offset + s.size]
  }

  /** The signatures describe consecutive blocks, numbered from zero, of a prefix of the basis. */
  ghost predicate SignsPrefix(h: Digest, basis: Bytes, blockSize: nat, sigs: seq<BlockSignature>) {
    forall i :: 0 <= i < |sigs| ==> SignsNth(h, basis, blockSize, sigs, i)
  }

  ghost predicate SignsNth(h: Digest, basis: Bytes, blockSize: nat, sigs: seq<BlockSignature>, i: nat)
    requires i < |sigs|
  {
    Describes(h, basis, blockSize, sigs[i]) && sigs[i].index == i && sigs[i].offset == EndAt(sigs, i)
  }

  /** The signatures describe all of the basis. */
  ghost predicate Signs(h: Digest, basis: Bytes, blockSize: nat, sigs: seq<BlockSignature>) {
    SignsPrefix(h, basis, blockSize, sigs) && EndAt(sigs, |sigs|) == |basis|
  }

  /** The first n blocks in order, joined. */
  ghost function Joined(h: Digest, basis: Bytes, blockSize: nat, sigs: seq<BlockSignature>, n: nat): Bytes
    requires SignsPrefix(h, basis, blockSize, sigs) && n <= |sigs|
  {
    if n == 0 then [] else
      assert SignsNth(h, basis, blockSize, sigs, n - 1);
      Joined(h, basis, blockSize, sigs, n - 1) + Block(basis, sigs[n - 1])
  }

  /** However short reads cut the basis, the signed blocks rebuild it: no gap, no overlap, right order. */
  lemma {:induction false} SignedBlocksRebuildBasis(h: Digest, basis: Bytes, blockSize: nat, sigs: seq<BlockSignature>, n: nat)
    requires SignsPrefix(h, basis, blockSize, sigs) && n <= |sigs|
    ensures EndAt(sigs, n) <= |basis|
    ensures Joined(h, basis, blockSize, sigs, n) == basis[..EndAt(sigs, n)]
  {
    if n > 0 {
      SignedBlocksRebuildBasis(h, basis, blockSize, sigs, n - 1);
      var s := sigs[n - 1];
      assert SignsNth(h, basis, blockSize, sigs, n - 1);
      assert basis[..s.offset] + basis[s.offset..s.offset + s.size] == basis[..s.offset + s.size];
    }
  }

  lemma SignsLonger(h: Digest, basis: Bytes, blockSize: nat, sigs: seq<BlockSignature>, s: BlockSignature)
    requires SignsPrefix(h, basis, blockSize, sigs) && Describes(h, basis, blockSize, s)
    requires s.index == |sigs| && s.offset == EndAt(sigs, |sigs|)
    ensures SignsPrefix(h, basis, blockSize, sigs + [s]) && EndAt(sigs + [s], |sigs| + 1) == s.offset + s.size
  {
    var longer := sigs + [s];
    forall i | 0 <= i < |longer| ensures SignsNth(h, basis, blockSize, longer, i) {
      if i < |sigs| {
        assert SignsNth(h, basis, blockSize, sigs, i);
      }
    }
  }

  method BuildBlockSignatures(h: Digest, file: InputFile, blockSize: U32) returns (r: Result<seq<BlockSignature>>)
    requires file.Valid() && file.pos == 0
    requires |file.data| < U63_LIMIT
    modifies file`pos
    ensures blockSize == 0 ==> r == Err(InvalidArgument)
    ensures r.Ok? ==> Signs(h, file.data, blockSize, r.value)
    ensures r.Ok? && file.whole ==> forall i :: 0 <= i < |r.value| - 1 ==> r.value[i].size == blockSize
    ensures blockSize != 0 && !file.faulty ==> r.Ok?
  {
    if blockSize == 0 {
      return Err(InvalidArgument);
    }
    var signatures: seq<BlockSignature> := [];
    var offset: U64, index: U64 := 0, 0;
    while true
      invariant file.Valid()
      invariant SignsPrefix(h, file.data, blockSize, signatures)
      invariant offset == EndAt(signatures, |signatures|) == file.pos
      invariant index == |signatures| <= offset
      invariant file.whole ==> forall i :: 0 <= i < |signatures| ==> signatures[i].size == blockSize || file.Rest() == []
      invariant file.whole ==> forall i :: 0 <= i < |signatures| - 1 ==> signatures[i].size == blockSize
      decreases |file.data| - file.pos
    {
      ghost var before := file.pos;
      var bytes := file.Read(blockSize);
      if bytes.Err? {
        return Err(bytes.error);
      }
      var block := bytes.value;
      if block == [] {
        return Ok(signatures);
      }
      assert block == file.data[before..file.pos];
      var weak := WeakChecksum(block);
      assert block[..|block| % U32_LIMIT] == block;
      var signature := BlockSignature(index, offset, |block|, weak, h(block));
      SignsLonger(h, file.data, blockSize, signatures, signature);
      signatures := signatures + [signature];
      offset := offset + |block|;
      index := index + 1;
    }
  }
}
