/**
 Message bodies of a directory synchronisation (src/transfer/sync_codec.cpp): manifest, sync plan, delta header,
 delta operation and delta end. Each body has a byte-level meaning as a function; the methods compute it.
 */
module SyncCodec {
  import opened Base
  import opened Wire
  import opened BlockSignatures
  import opened Delta

  datatype ManifestEntry = ManifestEntry(path: Text, size: U64, sha256: Text, mtime: U64, mode: U32)

  datatype Manifest = Manifest(rootName: Text, files: seq<ManifestEntry>)

  datatype SyncAction = Skip | Full | DeltaSync

  datatype SyncPlanEntry = SyncPlanEntry(manifestEntry: ManifestEntry, action: SyncAction, basis: seq<BlockSignature>)

  datatype SyncPlan = SyncPlan(blockSize: U32, entries: seq<SyncPlanEntry>)

  const MANIFEST_V2_MAGIC: U32 := 0x4c4d3201
  const SLASH: Byte := 47
  const DOT: Byte := 46

  // ----- Relative paths -----

  function FirstComponent(p: Text): (c: Text)
    ensures |c| <= |p|
  {
    if p == [] || p[0] == SLASH then [] else [p[0]] + FirstComponent(p[1..])
  }

  predicate HasDotComponent(p: Text) {
    var c := FirstComponent(p);
    c == [DOT] || c == [DOT, DOT] || (|c| < |p| && HasDotComponent(p[|c| + 1..]))
  }

  predicate IsSafePath(p: Text) {
    p != [] && p[0] != SLASH && !HasDotComponent(p)
  }

  /** Lexical normalisation of a safe path: repeated separators become one. */
  function Normalised(p: Text): Text {
    if |p| < 2 then p
    else if p[0] == SLASH && p[1] == SLASH then Normalised(p[1..])
    else [p[0]] + Normalised(p[1..])
  }

  predicate IsCleanPath(p: Text) {
    IsSafePath(p) && Normalised(p) == p
  }

  // ----- Encodings -----

  function EntryBytes(e: ManifestEntry): Bytes {
    TextBytes(e.path) + (U64Bytes(e.size) + (TextBytes(e.sha256) + (U64Bytes(e.mtime) + U32Bytes(e.mode))))
  }

  function ManifestBytes(m: Manifest): Bytes {
    U32Bytes(MANIFEST_V2_MAGIC) + (TextBytes(m.rootName)
      + (U32Bytes(|m.files| % U32_LIMIT) + ManyBytes(EntryBytes, m.files)))
  }

  function SignatureBytes(s: BlockSignature): Bytes {
    U64Bytes(s.index) + (U64Bytes(s.offset) + (U32Bytes(s.size) + (U32Bytes(s.weak) + TextBytes(s.strong))))
  }

  function ActionCode(a: SyncAction): U8 {
    match a
    case Skip => 0
    case Full => 1
    case DeltaSync => 2
  }

  function PlanEntryBytes(e: SyncPlanEntry): Bytes {
    U8Bytes(ActionCode(e.action)) + (EntryBytes(e.manifestEntry)
      + (U32Bytes(|e.basis| % U32_LIMIT) + ManyBytes(SignatureBytes, e.basis)))
  }

  function PlanBytes(p: SyncPlan): Bytes {
    U32Bytes(p.blockSize) + (U32Bytes(|p.entries| % U32_LIMIT) + ManyBytes(PlanEntryBytes, p.entries))
  }

  function HeaderBytes(sourceSize: U64, sourceSha256: Text): Bytes {
    U64Bytes(sourceSize) + TextBytes(sourceSha256)
  }

  function KindCode(k: OpKind): U8 {
    match k
    case CopyFromBasis => 0
    case LiteralData => 1
  }

  function OpBody(op: DeltaOp): Bytes {
    U8Bytes(KindCode(op.kind)) + (U64Bytes(op.basisOffset) + (U64Bytes(op.size) + BlobBytes(op.data)))
  }

  function EndBytes(opCount: U32): Bytes {
    U32Bytes(opCount)
  }

  // ----- Decodings -----

  /** A body must be used up exactly. */
  function Whole<T>(p: Parsed<T>): Result<T> {
    if p.Got? && p.rest == [] then Ok(p.value) else Err(ProtocolError)
  }

  function ParseEntry(b: Bytes): Parsed<ManifestEntry> {
    var (path, b) :- ParseText(b);
    var (size, b) :- ParseU64(b);
    var (sha256, b) :- ParseText(b);
    var (mtime, b) :- ParseU64(b);
    var (mode, b) :- ParseU32(b);
    if IsSafePath(path) then Got(ManifestEntry(Normalised(path), size, sha256, mtime, mode), b) else Bad
  }

  /** The root name may be missing. */
  function ParseRootName(b: Bytes): Parsed<Text> {
    var (name, b) :- ParseText(b);
    if name == [] then Got([], b)
    else if IsSafePath(name) then Got(Normalised(name), b)
    else Bad
  }

  /** The first version of the body had no magic number and no root name. */
  function ParseManifest(b: Bytes): Parsed<Manifest> {
    var (first, b) :- ParseU32(b);
    if first == MANIFEST_V2_MAGIC then
      var (rootName, b) :- ParseRootName(b);
      var (count, b) :- ParseU32(b);
      var (files, b) :- ParseMany(ParseEntry, count, b);
      Got(Manifest(rootName, files), b)
    else
      var (files, b) :- ParseMany(ParseEntry, first, b);
      Got(Manifest([], files), b)
  }

  function ParseSignature(b: Bytes): Parsed<BlockSignature> {
    var (index, b) :- ParseU64(b);
    var (offset, b) :- ParseU64(b);
    var (size, b) :- ParseU32(b);
    var (weak, b) :- ParseU32(b);
    var (strong, b) :- ParseText(b);
    Got(BlockSignature(index, offset, size, weak, strong), b)
  }

  function ActionOf(code: U8): SyncAction
    requires code <= 2
  {
    if code == 0 then Skip else if code == 1 then Full else DeltaSync
  }

  function ParsePlanEntry(b: Bytes): Parsed<SyncPlanEntry> {
    var (code, b) :- ParseU8(b);
    if code > 2 then Bad else
      var (entry, b) :- ParseEntry(b);
      var (count, b) :- ParseU32(b);
      var (basis, b) :- ParseMany(ParseSignature, count, b);
      Got(SyncPlanEntry(entry, ActionOf(code), basis), b)
  }

  function ParsePlan(b: Bytes): Parsed<SyncPlan> {
    var (blockSize, b) :- ParseU32(b);
    var (count, b) :- ParseU32(b);
    var (entries, b) :- ParseMany(ParsePlanEntry, count, b);
    Got(SyncPlan(blockSize, entries), b)
  }

  datatype DeltaHeader = DeltaHeader(sourceSize: U64, sourceSha256: Text)

  function ParseHeader(b: Bytes): Parsed<DeltaHeader> {
    var (sourceSize, b) :- ParseU64(b);
    var (sourceSha256, b) :- ParseText(b);
    Got(DeltaHeader(sourceSize, sourceSha256), b)
  }

  function ParseOp(b: Bytes): Parsed<DeltaOp> {
    var (code, b) :- ParseU8(b);
    if code > 1 then Bad else
      var (basisOffset, b) :- ParseU64(b);
      var (size, b) :- ParseU64(b);
      var (data, b) :- ParseBytes(b);
      Got(DeltaOp(if code == 0 then CopyFromBasis else LiteralData, basisOffset, size, data), b)
  }

  // ----- Encoders -----

  method AppendEntry(w: Writer, e: ManifestEntry)
    modifies w
    ensures w.output == old(w.output) + EntryBytes(e)
  {
    hide TextBytes, U64Bytes, U32Bytes;
    w.AppendString(e.path);
    w.AppendU64(e.size);
    w.AppendString(e.sha256);
    w.AppendU64(e.mtime);
    w.AppendU32(e.mode);
  }

  method AppendSignature(w: Writer, s: BlockSignature)
    modifies w
    ensures w.output == old(w.output) + SignatureBytes(s)
  {
    hide TextBytes, U64Bytes, U32Bytes;
    w.AppendU64(s.index);
    w.AppendU64(s.offset);
    w.AppendU32(s.size);
    w.AppendU32(s.weak);
    w.AppendString(s.strong);
  }

  method EncodeManifest(m: Manifest) returns (body: Bytes)
    ensures body == ManifestBytes(m)
  {
    hide TextBytes, U64Bytes, U32Bytes, EntryBytes;
    var w := new Writer();
    w.AppendU32(MANIFEST_V2_MAGIC);
    w.AppendString(m.rootName);
    w.AppendU32(|m.files| % U32_LIMIT);
    ghost var front := w.output;
    for i := 0 to |m.files|
      invariant w.output == front + ManyBytes(EntryBytes, m.files[..i])
    {
      AppendEntry(w, m.files[i]);
      ManyAppend(EntryBytes, m.files[..i], m.files[i]);
      assert m.files[..i + 1] == m.files[..i] + [m.files[i]];
      JoinAssoc(front, ManyBytes(EntryBytes, m.files[..i]), EntryBytes(m.files[i]));
    }
    assert m.files[..|m.files|] == m.files;
    body := w.output;
  }

  method AppendPlanEntry(w: Writer, e: SyncPlanEntry)
    modifies w
    ensures w.output == old(w.output) + PlanEntryBytes(e)
  {
    hide TextBytes, U64Bytes, U32Bytes, EntryBytes, SignatureBytes;
    w.AppendU8(ActionCode(e.action));
    AppendEntry(w, e.manifestEntry);
    w.AppendU32(|e.basis| % U32_LIMIT);
    ghost var front := w.output;
    for i := 0 to |e.basis|
      invariant w.output == front + ManyBytes(SignatureBytes, e.basis[..i])
    {
      AppendSignature(w, e.basis[i]);
      ManyAppend(SignatureBytes, e.basis[..i], e.basis[i]);
      assert e.basis[..i + 1] == e.basis[..i] + [e.basis[i]];
      JoinAssoc(front, ManyBytes(SignatureBytes, e.basis[..i]), SignatureBytes(e.basis[i]));
    }
    assert e.basis[..|e.basis|] == e.basis;
  }

  method EncodeSyncPlan(p: SyncPlan) returns (body: Bytes)
    ensures body == PlanBytes(p)
  {
    hide U32Bytes, PlanEntryBytes;
    var w := new Writer();
    w.AppendU32(p.blockSize);
    w.AppendU32(|p.entries| % U32_LIMIT);
    ghost var front := w.output;
    for i := 0 to |p.entries|
      invariant w.output == front + ManyBytes(PlanEntryBytes, p.entries[..i])
    {
      AppendPlanEntry(w, p.entries[i]);
      ManyAppend(PlanEntryBytes, p.entries[..i], p.entries[i]);
      assert p.entries[..i + 1] == p.entries[..i] + [p.entries[i]];
      JoinAssoc(front, ManyBytes(PlanEntryBytes, p.entries[..i]), PlanEntryBytes(p.entries[i]));
    }
    assert p.entries[..|p.entries|] == p.entries;
    body := w.output;
  }

  method EncodeDeltaOp(op: DeltaOp) returns (body: Bytes)
    ensures body == OpBody(op)
  {
    hide U64Bytes;
    var w := new Writer();
    w.AppendU8(KindCode(op.kind));
    w.AppendU64(op.basisOffset);
    w.AppendU64(op.size);
    w.AppendU64(|op.data| % U64_LIMIT);
    w.AppendBytes(op.data);
    body := w.output;
  }

  method EncodeDeltaHeader(sourceSize: U64, sourceSha256: Text) returns (body: Bytes)
    ensures body == HeaderBytes(sourceSize, sourceSha256)
  {
    var w := new Writer();
    w.AppendU64(sourceSize);
    w.AppendString(sourceSha256);
    body := w.output;
  }

  /** A count of zero stands for the number of listed operations. */
  method EncodeDeltaEnd(opCount: U32, ops: seq<DeltaOp>) returns (body: Bytes)
    ensures body == EndBytes(if opCount == 0 then |ops| % U32_LIMIT else opCount)
  {
    var w := new Writer();
    w.AppendU32(if opCount == 0 then |ops| % U32_LIMIT else opCount);
    body := w.output;
  }

  // ----- Decoders -----

  method ReadManifestEntry(reader: Reader) returns (r: Result<ManifestEntry>)
    requires reader.Valid()
    modifies reader
    ensures reader.Reads(ParseEntry(old(reader.Rest())), r)
  {
    hide ParseText, ParseU64, ParseU32, IsSafePath, Normalised;
    var path := reader.ReadString();
    if path.Err? {
      return Err(path.error);
    }
    var size := reader.ReadU64();
    if size.Err? {
      return Err(size.error);
    }
    var sha256 := reader.ReadString();
    if sha256.Err? {
      return Err(sha256.error);
    }
    var mtime := reader.ReadU64();
    if mtime.Err? {
      return Err(mtime.error);
    }
    var mode := reader.ReadU32();
    if mode.Err? {
      return Err(mode.error);
    }
    if !IsSafePath(path.value) {
      return Err(ProtocolError);
    }
    r := Ok(ManifestEntry(Normalised(path.value), size.value, sha256.value, mtime.value, mode.value));
  }

  method ReadSafePath(reader: Reader) returns (r: Result<Text>)
    requires reader.Valid()
    modifies reader
    ensures reader.Reads(ParseRootName(old(reader.Rest())), r)
  {
    var path := reader.ReadString();
    if path.Err? {
      return Err(path.error);
    }
    if path.value == [] {
      return Ok([]);
    }
    if !IsSafePath(path.value) {
      return Err(ProtocolError);
    }
    r := Ok(Normalised(path.value));
  }

  method ReadSignature(reader: Reader) returns (r: Result<BlockSignature>)
    requires reader.Valid()
    modifies reader
    ensures reader.Reads(ParseSignature(old(reader.Rest())), r)
  {
    hide ParseText, ParseU64, ParseU32;
    var index := reader.ReadU64();
    if index.Err? {
      return Err(index.error);
    }
    var offset := reader.ReadU64();
    if offset.Err? {
      return Err(offset.error);
    }
    var size := reader.ReadU32();
    if size.Err? {
      return Err(size.error);
    }
    var weak := reader.ReadU32();
    if weak.Err? {
      return Err(weak.error);
    }
    var strong := reader.ReadString();
    if strong.Err? {
      return Err(strong.error);
    }
    r := Ok(BlockSignature(index.value, offset.value, size.value, weak.value, strong.value));
  }

  lemma PrependOne<T>(xs: seq<T>, x: T, p: Parsed<seq<T>>)
    ensures Prepend(xs, Prepend([x], p)) == Prepend(xs + [x], p)
  {
    if p.Got? {
      JoinAssoc(xs, [x], p.value);
    }
  }

  method ReadEntries(reader: Reader, count: U32) returns (r: Result<seq<ManifestEntry>>)
    requires reader.Valid()
    modifies reader
    ensures reader.Reads(ParseMany(ParseEntry, count, old(reader.Rest())), r)
  {
    hide ParseEntry;
    var files: seq<ManifestEntry> := [];
    ghost var all := ParseMany(ParseEntry, count, reader.Rest());
    assert all.Got? ==> [] + all.value == all.value;
    for i := 0 to count
      invariant reader.Valid()
      invariant all == Prepend(files, ParseMany(ParseEntry, count - i, reader.Rest()))
    {
      var next := ReadManifestEntry(reader);
      if next.Err? {
        return Err(next.error);
      }
      PrependOne(files, next.value, ParseMany(ParseEntry, count - i - 1, reader.Rest()));
      files := files + [next.value];
    }
    assert files + [] == files;
    r := Ok(files);
  }

  method ReadManifest(reader: Reader) returns (r: Result<Manifest>)
    requires reader.Valid()
    modifies reader
    ensures reader.Reads(ParseManifest(old(reader.Rest())), r)
  {
    hide ParseU32, ParseEntry, ParseRootName, ParseMany;
    var count := reader.ReadU32();
    if count.Err? {
      return Err(count.error);
    }
    var rootName: Text := [];
    if count.value == MANIFEST_V2_MAGIC {
      var name := ReadSafePath(reader);
      if name.Err? {
        return Err(name.error);
      }
      rootName := name.value;
      count := reader.ReadU32();
      if count.Err? {
        return Err(count.error);
      }
    }
    var files := ReadEntries(reader, count.value);
    if files.Err? {
      return Err(files.error);
    }
    r := Ok(Manifest(rootName, files.value));
  }

  method DecodeManifest(body: Bytes) returns (r: Result<Manifest>)
    ensures r == Whole(ParseManifest(body))
  {
    hide ParseManifest;
    var reader := new Reader(body);
    var manifest := ReadManifest(reader);
    if manifest.Err? {
      return Err(manifest.error);
    }
    var done := reader.Done();
    r := if done then manifest else Err(ProtocolError);
  }

  method ReadSignatures(reader: Reader, count: U32) returns (r: Result<seq<BlockSignature>>)
    requires reader.Valid()
    modifies reader
    ensures reader.Reads(ParseMany(ParseSignature, count, old(reader.Rest())), r)
  {
    hide ParseSignature;
    var signatures: seq<BlockSignature> := [];
    ghost var all := ParseMany(ParseSignature, count, reader.Rest());
    assert all.Got? ==> [] + all.value == all.value;
    for i := 0 to count
      invariant reader.Valid()
      invariant all == Prepend(signatures, ParseMany(ParseSignature, count - i, reader.Rest()))
    {
      var next := ReadSignature(reader);
      if next.Err? {
        return Err(next.error);
      }
      PrependOne(signatures, next.value, ParseMany(ParseSignature, count - i - 1, reader.Rest()));
      signatures := signatures + [next.value];
    }
    assert signatures + [] == signatures;
    r := Ok(signatures);
  }

  method ReadPlanEntry(reader: Reader) returns (r: Result<SyncPlanEntry>)
    requires reader.Valid()
    modifies reader
    ensures reader.Reads(ParsePlanEntry(old(reader.Rest())), r)
  {
    hide ParseU8, ParseU32, ParseEntry, ParseSignature, ParseMany;
    var code := reader.ReadU8();
    if code.Err? {
      return Err(code.error);
    }
    if code.value > 2 {
      return Err(ProtocolError);
    }
    var entry := ReadManifestEntry(reader);
    if entry.Err? {
      return Err(entry.error);
    }
    var count := reader.ReadU32();
    if count.Err? {
      return Err(count.error);
    }
    var basis := ReadSignatures(reader, count.value);
    if basis.Err? {
      return Err(basis.error);
    }
    r := Ok(SyncPlanEntry(entry.value, ActionOf(code.value), basis.value));
  }

  method ReadPlanEntries(reader: Reader, count: U32) returns (r: Result<seq<SyncPlanEntry>>)
    requires reader.Valid()
    modifies reader
    ensures reader.Reads(ParseMany(ParsePlanEntry, count, old(reader.Rest())), r)
  {
    hide ParsePlanEntry;
    var entries: seq<SyncPlanEntry> := [];
    ghost var all := ParseMany(ParsePlanEntry, count, reader.Rest());
    assert all.Got? ==> [] + all.value == all.value;
    for i := 0 to count
      invariant reader.Valid()
      invariant all == Prepend(entries, ParseMany(ParsePlanEntry, count - i, reader.Rest()))
    {
      var next := ReadPlanEntry(reader);
      if next.Err? {
        return Err(next.error);
      }
      PrependOne(entries, next.value, ParseMany(ParsePlanEntry, count - i - 1, reader.Rest()));
      entries := entries + [next.value];
    }
    assert entries + [] == entries;
    r := Ok(entries);
  }

  method ReadPlan(reader: Reader) returns (r: Result<SyncPlan>)
    requires reader.Valid()
    modifies reader
    ensures reader.Reads(ParsePlan(old(reader.Rest())), r)
  {
    hide ParseU32, ParsePlanEntry, ParseMany;
    var blockSize := reader.ReadU32();
    if blockSize.Err? {
      return Err(blockSize.error);
    }
    var count := reader.ReadU32();
    if count.Err? {
      return Err(count.error);
    }
    var entries := ReadPlanEntries(reader, count.value);
    if entries.Err? {
      return Err(entries.error);
    }
    r := Ok(SyncPlan(blockSize.value, entries.value));
  }

  method DecodeSyncPlan(body: Bytes) returns (r: Result<SyncPlan>)
    ensures r == Whole(ParsePlan(body))
  {
    hide ParsePlan;
    var reader := new Reader(body);
    var plan := ReadPlan(reader);
    if plan.Err? {
      return Err(plan.error);
    }
    var done := reader.Done();
    r := if done then plan else Err(ProtocolError);
  }

  method DecodeDeltaHeader(body: Bytes) returns (r: Result<DeltaHeader>)
    ensures r == Whole(ParseHeader(body))
  {
    var reader := new Reader(body);
    var sourceSize := reader.ReadU64();
    if sourceSize.Err? {
      return Err(sourceSize.error);
    }
    var sourceSha256 := reader.ReadString();
    if sourceSha256.Err? {
      return Err(sourceSha256.error);
    }
    var done := reader.Done();
    r := if done then Ok(DeltaHeader(sourceSize.value, sourceSha256.value)) else Err(ProtocolError);
  }

  method DecodeDeltaOp(body: Bytes) returns (r: Result<DeltaOp>)
    ensures r == Whole(ParseOp(body))
  {
    hide ParseU8, ParseU64, ParseBytes;
    var reader := new Reader(body);
    var code := reader.ReadU8();
    if code.Err? {
      return Err(code.error);
    }
    if code.value > 1 {
      return Err(ProtocolError);
    }
    var basisOffset := reader.ReadU64();
    if basisOffset.Err? {
      return Err(basisOffset.error);
    }
    var size := reader.ReadU64();
    if size.Err? {
      return Err(size.error);
    }
    var data := reader.ReadBytes();
    if data.Err? {
      return Err(data.error);
    }
    var done := reader.Done();
    r := if done then
           Ok(DeltaOp(if code.value == 0 then CopyFromBasis else LiteralData, basisOffset.value, size.value, data.value))
         else Err(ProtocolError);
  }

  method DecodeDeltaEnd(body: Bytes) returns (r: Result<U32>)
    ensures r == Whole(ParseU32(body))
  {
    var reader := new Reader(body);
    var opCount := reader.ReadU32();
    if opCount.Err? {
      return Err(opCount.error);
    }
    var done := reader.Done();
    r := if done then opCount else Err(ProtocolError);
  }
}
