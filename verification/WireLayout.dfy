/**
 Where each field of a message stands, byte by byte: integers most significant byte first, texts behind their lengths,
 and the numbers that stand for kinds and actions.
 */
module WireLayout {
  import opened Base
  import opened Wire
  import opened Frames
  import opened BlockSignatures
  import opened Delta
  import opened SyncCodec
  import opened SyncCodecTheorems
  import opened DeltaPlanCodec
  import opened SingleFile

  // ----- Integers -----

  /** The most significant byte comes first. */
  lemma SomeNumbers()
    ensures U32Bytes(0x01020304) == [1, 2, 3, 4] && U64Bytes(0x0102030405060708) == [1, 2, 3, 4, 5, 6, 7, 8]
    ensures FromBigEndian([1, 2, 3, 4]) == 0x01020304
  {
    Widths();
    assert BigEndian(4, 0x01020304) == [1, 2, 3, 4];
    BigEndianRoundTrip(4, 0x01020304);
    assert BigEndian(4, 0x01020304) + [5] + [6] + [7] + [8] == [1, 2, 3, 4, 5, 6, 7, 8];
    assert BigEndian(6, 0x010203040506) == [1, 2, 3, 4, 5, 6];
  }

  lemma NumbersRead(v: U32, w: U64)
    ensures FromBigEndian(U32Bytes(v)) == v && FromBigEndian(U64Bytes(w)) == w
  {
    Widths();
    BigEndianRoundTrip(4, v);
    BigEndianRoundTrip(8, w);
  }

  // ----- Frames -----

  /** The sixteen bytes of the header, and the body behind them. */
  lemma FrameLayout(f: Frame)
    requires |f.body| <= MAX_FRAME_BODY
    ensures MAX_FRAME_BODY == 67108864
    ensures var b := FrameBytes(f);
            && |b| == 16 + |f.body| && b[..4] == [76, 70, 84, 80] && b[4] == 1
            && b[5] == match f.kind {
                 case Hello => 1
                 case FileBegin => 2
                 case Chunk => 3
                 case FileEnd => 4
                 case ErrorMessage => 5
                 case Ack => 6
                 case ManifestMessage => 7
                 case PlanMessage => 8
                 case DeltaMessage => 9
                 case DeltaBegin => 10
                 case DeltaEnd => 11
               }
            && FromBigEndian(b[6..8]) == f.flags && FromBigEndian(b[8..16]) == |f.body| && b[16..] == f.body
  {
    hide BigEndian, FromBigEndian;
    Widths();
    BigEndianRoundTrip(2, f.flags);
    BigEndianRoundTrip(8, |f.body|);
    var h := HeaderOf(f);
    assert h[..4] == FRAME_MAGIC && h[6..8] == BigEndian(2, f.flags) && h[8..16] == BigEndian(8, |f.body|);
    assert FrameBytes(f)[6..8] == h[6..8] && FrameBytes(f)[8..16] == h[8..16] && FrameBytes(f)[..4] == h[..4];
  }

  // ----- Entries, signatures, operations -----

  lemma Cut(a: Bytes, b: Bytes)
    ensures (a + b)[..|a|] == a && (a + b)[|a|..] == b
  {
  }

  /** A slice of what lies behind a part is a slice of the whole. */
  lemma Behind(whole: Bytes, k: nat, i: nat, j: nat)
    requires k <= |whole| && i <= j <= |whole| - k
    ensures whole[k..][i..j] == whole[k + i..k + j]
  {
  }

  lemma EntryLayout(e: ManifestEntry)
    requires ShortText(e.path) && ShortText(e.sha256)
    ensures var b, n, k := EntryBytes(e), |e.path|, |e.sha256|;
            && |b| == 28 + n + k
            && FromBigEndian(b[..4]) == n && b[4..4 + n] == e.path
            && FromBigEndian(b[4 + n..12 + n]) == e.size
            && FromBigEndian(b[12 + n..16 + n]) == k && b[16 + n..16 + n + k] == e.sha256
            && FromBigEndian(b[16 + n + k..24 + n + k]) == e.mtime
            && FromBigEndian(b[24 + n + k..28 + n + k]) == e.mode
  {
    hide BigEndian, FromBigEndian;
    var b, n, k := EntryBytes(e), |e.path|, |e.sha256|;
    NumbersRead(n, e.size);
    NumbersRead(k, e.mtime);
    NumbersRead(e.mode, 0);
    assert b[..4] == U32Bytes(n) && b[4..4 + n] == e.path && b[4 + n..12 + n] == U64Bytes(e.size);
    assert b[12 + n..16 + n] == U32Bytes(k) && b[16 + n..16 + n + k] == e.sha256;
    assert b[16 + n + k..24 + n + k] == U64Bytes(e.mtime) && b[24 + n + k..28 + n + k] == U32Bytes(e.mode);
  }

  lemma SignatureLayout(s: BlockSignature)
    requires ShortText(s.strong)
    ensures var b := SignatureBytes(s);
            && |b| == 28 + |s.strong|
            && FromBigEndian(b[..8]) == s.index && FromBigEndian(b[8..16]) == s.offset
            && FromBigEndian(b[16..20]) == s.size && FromBigEndian(b[20..24]) == s.weak
            && FromBigEndian(b[24..28]) == |s.strong| && b[28..] == s.strong
  {
    hide BigEndian, FromBigEndian;
    var b := SignatureBytes(s);
    NumbersRead(s.size, s.index);
    NumbersRead(s.weak, s.offset);
    NumbersRead(|s.strong|, 0);
    assert b[..8] == U64Bytes(s.index) && b[8..16] == U64Bytes(s.offset) && b[16..20] == U32Bytes(s.size);
    assert b[20..24] == U32Bytes(s.weak) && b[24..28] == U32Bytes(|s.strong|);
  }

  lemma OpLayout(op: DeltaOp)
    requires |op.data| < U64_LIMIT
    ensures var b := OpBody(op);
            && |b| == 25 + |op.data| && b[0] == (if op.kind == CopyFromBasis then 0 else 1)
            && FromBigEndian(b[1..9]) == op.basisOffset && FromBigEndian(b[9..17]) == op.size
            && FromBigEndian(b[17..25]) == |op.data| && b[25..] == op.data
  {
    hide BigEndian, FromBigEndian;
    var b := OpBody(op);
    NumbersRead(0, op.basisOffset);
    NumbersRead(0, op.size);
    NumbersRead(0, |op.data|);
    assert b[1..9] == U64Bytes(op.basisOffset) && b[9..17] == U64Bytes(op.size) && b[17..25] == U64Bytes(|op.data|);
  }

  lemma HeaderLayout(sourceSize: U64, sha256: Text)
    requires ShortText(sha256)
    ensures var b := HeaderBytes(sourceSize, sha256);
            && |b| == 12 + |sha256| && FromBigEndian(b[..8]) == sourceSize
            && FromBigEndian(b[8..12]) == |sha256| && b[12..] == sha256
  {
    hide BigEndian, FromBigEndian;
    var b := HeaderBytes(sourceSize, sha256);
    NumbersRead(|sha256|, sourceSize);
    assert b[..8] == U64Bytes(sourceSize) && b[8..12] == U32Bytes(|sha256|);
  }

  lemma EndLayout(opCount: U32)
    ensures |EndBytes(opCount)| == 4 && FromBigEndian(EndBytes(opCount)) == opCount
  {
    NumbersRead(opCount, 0);
  }

  lemma ChunkLayout(c: ChunkBody)
    ensures var b := ChunkBytes(c); |b| == 8 + |c.data| && FromBigEndian(b[..8]) == c.offset && b[8..] == c.data
  {
    hide BigEndian, FromBigEndian;
    NumbersRead(0, c.offset);
    assert ChunkBytes(c)[..8] == U64Bytes(c.offset);
  }

  // ----- Lists -----

  lemma PlanEntryLayout(p: SyncPlanEntry)
    requires |p.basis| < U32_LIMIT
    ensures var b, n := PlanEntryBytes(p), |EntryBytes(p.manifestEntry)|;
            && |b| >= 5 + n && b[0] == (match p.action case Skip => 0 case Full => 1 case DeltaSync => 2)
            && b[1..1 + n] == EntryBytes(p.manifestEntry) && FromBigEndian(b[1 + n..5 + n]) == |p.basis|
            && b[5 + n..] == ManyBytes(SignatureBytes, p.basis)
  {
    hide BigEndian, FromBigEndian, EntryBytes, ManyBytes;
    var b, n := PlanEntryBytes(p), |EntryBytes(p.manifestEntry)|;
    NumbersRead(|p.basis|, 0);
    assert b[1 + n..5 + n] == U32Bytes(|p.basis|);
  }

  lemma PlanLayout(p: SyncPlan)
    requires |p.entries| < U32_LIMIT
    ensures var b := PlanBytes(p);
            && |b| >= 8 && FromBigEndian(b[..4]) == p.blockSize && FromBigEndian(b[4..8]) == |p.entries|
            && b[8..] == ManyBytes(PlanEntryBytes, p.entries)
  {
    hide BigEndian, FromBigEndian, ManyBytes;
    var b := PlanBytes(p);
    NumbersRead(p.blockSize, 0);
    NumbersRead(|p.entries|, 0);
    assert b[..4] == U32Bytes(p.blockSize) && b[4..8] == U32Bytes(|p.entries|);
  }

  lemma ManifestLayout(m: Manifest)
    requires ShortText(m.rootName) && |m.files| < U32_LIMIT
    ensures var b, n := ManifestBytes(m), |m.rootName|;
            && |b| >= 12 + n && b[..4] == [76, 77, 50, 1] && FromBigEndian(b[4..8]) == n && b[8..8 + n] == m.rootName
            && FromBigEndian(b[8 + n..12 + n]) == |m.files| && b[12 + n..] == ManyBytes(EntryBytes, m.files)
  {
    MagicIs();
    hide BigEndian, FromBigEndian, ManyBytes;
    var b, n := ManifestBytes(m), |m.rootName|;
    NumbersRead(n, 0);
    NumbersRead(|m.files|, 0);
    assert b[..4] == U32Bytes(MANIFEST_V2_MAGIC) && b[4..8] == U32Bytes(n) && b[8 + n..12 + n] == U32Bytes(|m.files|);
  }

  lemma MagicIs()
    ensures U32Bytes(MANIFEST_V2_MAGIC) == [76, 77, 50, 1]
  {
    assert BigEndian(4, 0x4c4d3201) == [76, 77, 50, 1];
  }

  /** The bodies in a list follow each other in order. */
  lemma {:induction false} ManyLayout<T>(encode: T -> Bytes, xs: seq<T>, i: nat)
    requires i < |xs|
    ensures var at := |ManyBytes(encode, xs[..i])|;
            at + |encode(xs[i])| <= |ManyBytes(encode, xs)| && ManyBytes(encode, xs)[at..at + |encode(xs[i])|] == encode(xs[i])
  {
    if i == 0 {
      assert xs[..0] == [];
    } else {
      ManyLayout(encode, xs[1..], i - 1);
      assert xs[..i][0] == xs[0] && xs[..i][1..] == xs[1..][..i - 1];
      var at := |ManyBytes(encode, xs[1..][..i - 1])|;
      Behind(ManyBytes(encode, xs), |encode(xs[0])|, at, at + |encode(xs[i])|);
    }
  }

  lemma DeltaPlanLayout(p: DeltaPlan)
    requires ShortText(p.sourceSha256) && |p.ops| < U32_LIMIT
    ensures var b, n := DeltaPlanBytes(p), |p.sourceSha256|;
            && |b| >= 16 + n && FromBigEndian(b[..8]) == p.sourceSize && FromBigEndian(b[8..12]) == n
            && b[12..12 + n] == p.sourceSha256
            && FromBigEndian(b[12 + n..16 + n]) == (if p.opCount == 0 then |p.ops| else p.opCount)
            && b[16 + n..] == ManyBytes(OpBody, p.ops)
  {
    hide BigEndian, FromBigEndian, ManyBytes;
    var b, n := DeltaPlanBytes(p), |p.sourceSha256|;
    NumbersRead(n, p.sourceSize);
    NumbersRead(WrittenCount(p), 0);
    assert b[..8] == U64Bytes(p.sourceSize) && b[8..12] == U32Bytes(n) && b[12 + n..16 + n] == U32Bytes(WrittenCount(p));
  }

  // ----- What is not accepted, and the older manifest -----

  /** A manifest without the magic number and the root name is read as its files, unless their number looks like the magic. */
  lemma OldManifestIsRead(files: seq<ManifestEntry>)
    requires |files| < U32_LIMIT && |files| != 0x4c4d3201 && forall i :: 0 <= i < |files| ==> EncodableEntry(files[i])
    ensures Whole(ParseManifest(U32Bytes(|files|) + ManyBytes(EntryBytes, files))) == Ok(Manifest([], files))
  {
    hide ParseU32, U32Bytes, ParseMany, ManyBytes, EntryBytes, ParseEntry, EncodableEntry;
    forall i, r: Bytes | 0 <= i < |files| ensures ParseEntry(EntryBytes(files[i]) + r) == Got(files[i], r) {
      ReadsEntry(files[i], r);
    }
    ReadsU32(|files|, ManyBytes(EntryBytes, files));
    ReadsMany(ParseEntry, EntryBytes, files, []);
    assert ManyBytes(EntryBytes, files) + [] == ManyBytes(EntryBytes, files);
  }

  /** An entry is read back with its path normalised if that is safe, and refused if it is not. */
  lemma EntryIsRead(e: ManifestEntry, rest: Bytes)
    requires ShortText(e.path) && ShortText(e.sha256)
    ensures ParseEntry(EntryBytes(e) + rest) == if IsSafePath(e.path) then Got(e.(path := Normalised(e.path)), rest) else Bad
  {
    hide ParseText, ParseU64, ParseU32, TextBytes, U64Bytes, U32Bytes, IsSafePath, Normalised;
    var d := U32Bytes(e.mode);
    var c := U64Bytes(e.mtime) + d;
    var b := TextBytes(e.sha256) + c;
    var a := U64Bytes(e.size) + b;
    JoinAssoc(TextBytes(e.path), a, rest);
    ReadsText(e.path, a + rest);
    JoinAssoc(U64Bytes(e.size), b, rest);
    ReadsU64(e.size, b + rest);
    JoinAssoc(TextBytes(e.sha256), c, rest);
    ReadsText(e.sha256, c + rest);
    JoinAssoc(U64Bytes(e.mtime), d, rest);
    ReadsU64(e.mtime, d + rest);
    ReadsU32(e.mode, rest);
  }

  /** Action codes above two and operation codes above one are refused. */
  lemma UnknownCodesRefused(code: Byte, rest: Bytes)
    ensures code > 2 ==> ParsePlanEntry([code] + rest).Bad?
    ensures code > 1 ==> ParseOp([code] + rest).Bad?
  {
    hide ParseEntry, ParseMany, ParseU64, ParseBytes;
    assert ([code] + rest)[..1] == [code];
  }
}
