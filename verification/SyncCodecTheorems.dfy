/**
 Round trips of the synchronisation bodies, and rejection of everything shorter or longer than an encoding.
 */
module SyncCodecTheorems {
  import opened Base
  import opened Wire
  import opened BlockSignatures
  import opened Delta
  import opened SyncCodec

  // ----- What survives the 32-bit lengths -----

  predicate ShortText(s: Text) {
    |s| < U32_LIMIT
  }

  predicate EncodableEntry(e: ManifestEntry) {
    IsCleanPath(e.path) && ShortText(e.path) && ShortText(e.sha256)
  }

  predicate EncodableManifest(m: Manifest) {
    && (m.rootName == [] || IsCleanPath(m.rootName)) && ShortText(m.rootName)
    && |m.files| < U32_LIMIT
    && forall i :: 0 <= i < |m.files| ==> EncodableEntry(m.files[i])
  }

  predicate EncodableSignature(s: BlockSignature) {
    ShortText(s.strong)
  }

  predicate EncodablePlanEntry(e: SyncPlanEntry) {
    && EncodableEntry(e.manifestEntry) && |e.basis| < U32_LIMIT
    && forall i :: 0 <= i < |e.basis| ==> EncodableSignature(e.basis[i])
  }

  predicate EncodablePlan(p: SyncPlan) {
    && |p.entries| < U32_LIMIT
    && forall i :: 0 <= i < |p.entries| ==> EncodablePlanEntry(p.entries[i])
  }

  // ----- Reading back -----

  lemma ReadsEntry(e: ManifestEntry, rest: Bytes)
    requires EncodableEntry(e)
    ensures ParseEntry(EntryBytes(e) + rest) == Got(e, rest)
  {
    hide ParseText, ParseU64, ParseU32, TextBytes, U64Bytes, U32Bytes, IsSafePath, Normalised;
    var d := U32Bytes(e.mode);
    var c := U64Bytes(e.mtime) + d;
    var b := TextBytes(e.sha256) + c;
    var a := U64Bytes(e.size) + b;
    JoinAssoc(TextBytes(e.path), a, rest);
    ReadsText(e.path, a + rest);
    JoinAssoc(U64Bytes(e.size), b, rest);
    ReadsU64(e.size, b + rest);
    JoinAssoc(TextBytes(e.sha256), c, rest);
    ReadsText(e.sha256, c + rest);
    JoinAssoc(U64Bytes(e.mtime), d, rest);
    ReadsU64(e.mtime, d + rest);
    ReadsU32(e.mode, rest);
  }

  lemma ReadsSignature(s: BlockSignature, rest: Bytes)
    requires EncodableSignature(s)
    ensures ParseSignature(SignatureBytes(s) + rest) == Got(s, rest)
  {
    hide ParseText, ParseU64, ParseU32, TextBytes, U64Bytes, U32Bytes;
    var d := TextBytes(s.strong);
    var c := U32Bytes(s.weak) + d;
    var b := U32Bytes(s.size) + c;
    var a := U64Bytes(s.offset) + b;
    JoinAssoc(U64Bytes(s.index), a, rest);
    ReadsU64(s.index, a + rest);
    JoinAssoc(U64Bytes(s.offset), b, rest);
    ReadsU64(s.offset, b + rest);
    JoinAssoc(U32Bytes(s.size), c, rest);
    ReadsU32(s.size, c + rest);
    JoinAssoc(U32Bytes(s.weak), d, rest);
    ReadsU32(s.weak, d + rest);
    ReadsText(s.strong, rest);
  }

  lemma ReadsPlanEntry(e: SyncPlanEntry, rest: Bytes)
    requires EncodablePlanEntry(e)
    ensures ParsePlanEntry(PlanEntryBytes(e) + rest) == Got(e, rest)
  {
    hide ParseU8, ParseU32, U8Bytes, U32Bytes, EntryBytes, ParseEntry, ParseMany, ManyBytes, SignatureBytes, ParseSignature;
    forall i, r: Bytes | 0 <= i < |e.basis|
      ensures ParseSignature(SignatureBytes(e.basis[i]) + r) == Got(e.basis[i], r)
    {
      ReadsSignature(e.basis[i], r);
    }
    var c := ManyBytes(SignatureBytes, e.basis);
    var b := U32Bytes(|e.basis|) + c;
    var a := EntryBytes(e.manifestEntry) + b;
    JoinAssoc(U8Bytes(ActionCode(e.action)), a, rest);
    ReadsU8(ActionCode(e.action), a + rest);
    JoinAssoc(EntryBytes(e.manifestEntry), b, rest);
    ReadsEntry(e.manifestEntry, b + rest);
    JoinAssoc(U32Bytes(|e.basis|), c, rest);
    ReadsU32(|e.basis|, c + rest);
    ReadsMany(ParseSignature, SignatureBytes, e.basis, rest);
  }

  lemma ReadsPlan(p: SyncPlan, rest: Bytes)
    requires EncodablePlan(p)
    ensures ParsePlan(PlanBytes(p) + rest) == Got(p, rest)
  {
    hide ParseU32, U32Bytes, ParseMany, ManyBytes, PlanEntryBytes, ParsePlanEntry;
    forall i, r: Bytes | 0 <= i < |p.entries|
      ensures ParsePlanEntry(PlanEntryBytes(p.entries[i]) + r) == Got(p.entries[i], r)
    {
      ReadsPlanEntry(p.entries[i], r);
    }
    var b := ManyBytes(PlanEntryBytes, p.entries);
    var a := U32Bytes(|p.entries|) + b;
    JoinAssoc(U32Bytes(p.blockSize), a, rest);
    ReadsU32(p.blockSize, a + rest);
    JoinAssoc(U32Bytes(|p.entries|), b, rest);
    ReadsU32(|p.entries|, b + rest);
    ReadsMany(ParsePlanEntry, PlanEntryBytes, p.entries, rest);
  }

  lemma ReadsManifest(m: Manifest, rest: Bytes)
    requires EncodableManifest(m)
    ensures ParseManifest(ManifestBytes(m) + rest) == Got(m, rest)
  {
    hide ParseText, TextBytes, ParseU32, U32Bytes, ParseMany, ManyBytes, EntryBytes, ParseEntry, IsSafePath, Normalised;
    forall i, r: Bytes | 0 <= i < |m.files|
      ensures ParseEntry(EntryBytes(m.files[i]) + r) == Got(m.files[i], r)
    {
      ReadsEntry(m.files[i], r);
    }
    var c := ManyBytes(EntryBytes, m.files);
    var b := U32Bytes(|m.files|) + c;
    var a := TextBytes(m.rootName) + b;
    JoinAssoc(U32Bytes(MANIFEST_V2_MAGIC), a, rest);
    ReadsU32(MANIFEST_V2_MAGIC, a + rest);
    JoinAssoc(TextBytes(m.rootName), b, rest);
    ReadsText(m.rootName, b + rest);
    JoinAssoc(U32Bytes(|m.files|), c, rest);
    ReadsU32(|m.files|, c + rest);
    ReadsMany(ParseEntry, EntryBytes, m.files, rest);
  }

  lemma ReadsHeader(h: DeltaHeader, rest: Bytes)
    requires ShortText(h.sourceSha256)
    ensures ParseHeader(HeaderBytes(h.sourceSize, h.sourceSha256) + rest) == Got(h, rest)
  {
    hide ParseText, TextBytes, ParseU64, U64Bytes;
    JoinAssoc(U64Bytes(h.sourceSize), TextBytes(h.sourceSha256), rest);
    ReadsU64(h.sourceSize, TextBytes(h.sourceSha256) + rest);
    ReadsText(h.sourceSha256, rest);
  }

  lemma ReadsOp(op: DeltaOp, rest: Bytes)
    requires |op.data| < U64_LIMIT
    ensures ParseOp(OpBody(op) + rest) == Got(op, rest)
  {
    hide ParseU8, U8Bytes, ParseU64, U64Bytes, ParseBytes, BlobBytes;
    var c := BlobBytes(op.data);
    var b := U64Bytes(op.size) + c;
    var a := U64Bytes(op.basisOffset) + b;
    JoinAssoc(U8Bytes(KindCode(op.kind)), a, rest);
    ReadsU8(KindCode(op.kind), a + rest);
    JoinAssoc(U64Bytes(op.basisOffset), b, rest);
    ReadsU64(op.basisOffset, b + rest);
    JoinAssoc(U64Bytes(op.size), c, rest);
    ReadsU64(op.size, c + rest);
    ReadsBytes(op.data, rest);
  }

  // ----- A successful read does not depend on what follows -----

  lemma EntryStable(b: Bytes, more: Bytes)
    ensures StableAt(ParseEntry, b, more)
  {
    hide ParseText, ParseU64, ParseU32, IsSafePath, Normalised;
    if ParseEntry(b).Got? {
      TextStable(b, more);
      var b1 := ParseText(b).rest;
      U64Stable(b1, more);
      var b2 := ParseU64(b1).rest;
      TextStable(b2, more);
      var b3 := ParseText(b2).rest;
      U64Stable(b3, more);
      U32Stable(ParseU64(b3).rest, more);
    }
  }

  lemma SignatureStable(b: Bytes, more: Bytes)
    ensures StableAt(ParseSignature, b, more)
  {
    hide ParseText, ParseU64, ParseU32;
    if ParseSignature(b).Got? {
      U64Stable(b, more);
      var b1 := ParseU64(b).rest;
      U64Stable(b1, more);
      var b2 := ParseU64(b1).rest;
      U32Stable(b2, more);
      var b3 := ParseU32(b2).rest;
      U32Stable(b3, more);
      TextStable(ParseU32(b3).rest, more);
    }
  }

  lemma PlanEntryStable(b: Bytes, more: Bytes)
    ensures StableAt(ParsePlanEntry, b, more)
  {
    hide ParseU8, ParseU32, ParseEntry, ParseSignature, ParseMany;
    if ParsePlanEntry(b).Got? {
      U8Stable(b, more);
      var b1 := ParseU8(b).rest;
      EntryStable(b1, more);
      var b2 := ParseEntry(b1).rest;
      U32Stable(b2, more);
      forall c ensures StableAt(ParseSignature, c, more) {
        SignatureStable(c, more);
      }
      ManyStable(ParseSignature, ParseU32(b2).value, ParseU32(b2).rest, more);
    }
  }

  lemma PlanStable(b: Bytes, more: Bytes)
    ensures StableAt(ParsePlan, b, more)
  {
    hide ParseU32, ParsePlanEntry, ParseMany;
    if ParsePlan(b).Got? {
      U32Stable(b, more);
      var b1 := ParseU32(b).rest;
      U32Stable(b1, more);
      forall c ensures StableAt(ParsePlanEntry, c, more) {
        PlanEntryStable(c, more);
      }
      ManyStable(ParsePlanEntry, ParseU32(b1).value, ParseU32(b1).rest, more);
    }
  }

  lemma ManifestStable(b: Bytes, more: Bytes)
    ensures StableAt(ParseManifest, b, more)
  {
    hide ParseU32, ParseText, ParseEntry, ParseMany, IsSafePath, Normalised;
    if ParseManifest(b).Got? {
      U32Stable(b, more);
      var n := ParseU32(b);
      forall c ensures StableAt(ParseEntry, c, more) {
        EntryStable(c, more);
      }
      if n.value == MANIFEST_V2_MAGIC {
        TextStable(n.rest, more);
        var b1 := ParseText(n.rest).rest;
        U32Stable(b1, more);
        ManyStable(ParseEntry, ParseU32(b1).value, ParseU32(b1).rest, more);
      } else {
        ManyStable(ParseEntry, n.value, n.rest, more);
      }
    }
  }

  lemma OpStable(b: Bytes, more: Bytes)
    ensures StableAt(ParseOp, b, more)
  {
    hide ParseU8, ParseU64, ParseBytes;
    if ParseOp(b).Got? {
      U8Stable(b, more);
      var b1 := ParseU8(b).rest;
      U64Stable(b1, more);
      var b2 := ParseU64(b1).rest;
      U64Stable(b2, more);
      BytesStable(ParseU64(b2).rest, more);
    }
  }

  // ----- Exactly one body per value -----

  /** No strict prefix of a complete body, and no extension of one, is accepted. */
  ghost predicate SelfDelimiting<T>(parse: Bytes -> Parsed<T>, body: Bytes) {
    && (forall k :: 0 <= k < |body| ==> Whole(parse(body[..k])).Err?)
    && (forall more: Bytes :: more != [] ==> Whole(parse(body + more)).Err?)
  }

  lemma CompleteIsSelfDelimiting<T>(parse: Bytes -> Parsed<T>, body: Bytes, x: T)
    requires parse(body) == Got(x, [])
    requires forall b, more :: StableAt(parse, b, more)
    ensures SelfDelimiting(parse, body)
  {
    forall k | 0 <= k < |body| ensures Whole(parse(body[..k])).Err? {
      assert StableAt(parse, body[..k], body[k..]);
      assert body[..k] + body[k..] == body;
    }
    forall more: Bytes | more != [] ensures Whole(parse(body + more)).Err? {
      assert StableAt(parse, body, more);
      assert [] + more == more;
    }
  }

  /** A plan, with its nested entries and signatures, is what its body decodes to, and nothing near it decodes. */
  lemma PlanRoundTrip(p: SyncPlan)
    requires EncodablePlan(p)
    ensures Whole(ParsePlan(PlanBytes(p))) == Ok(p)
    ensures SelfDelimiting(ParsePlan, PlanBytes(p))
  {
    hide ParsePlan, PlanBytes;
    var body := PlanBytes(p);
    assert body + [] == body;
    ReadsPlan(p, []);
    forall b, more ensures StableAt(ParsePlan, b, more) {
      PlanStable(b, more);
    }
    CompleteIsSelfDelimiting(ParsePlan, body, p);
  }

  lemma ManifestRoundTrip(m: Manifest)
    requires EncodableManifest(m)
    ensures Whole(ParseManifest(ManifestBytes(m))) == Ok(m)
    ensures SelfDelimiting(ParseManifest, ManifestBytes(m))
  {
    hide ParseManifest, ManifestBytes;
    var body := ManifestBytes(m);
    assert body + [] == body;
    ReadsManifest(m, []);
    forall b, more ensures StableAt(ParseManifest, b, more) {
      ManifestStable(b, more);
    }
    CompleteIsSelfDelimiting(ParseManifest, body, m);
  }

  lemma OpRoundTrip(op: DeltaOp)
    requires |op.data| < U64_LIMIT
    ensures Whole(ParseOp(OpBody(op))) == Ok(op)
    ensures SelfDelimiting(ParseOp, OpBody(op))
  {
    hide ParseOp, OpBody;
    var body := OpBody(op);
    assert body + [] == body;
    ReadsOp(op, []);
    forall b, more ensures StableAt(ParseOp, b, more) {
      OpStable(b, more);
    }
    CompleteIsSelfDelimiting(ParseOp, body, op);
  }

  lemma HeaderRoundTrip(h: DeltaHeader)
    requires ShortText(h.sourceSha256)
    ensures Whole(ParseHeader(HeaderBytes(h.sourceSize, h.sourceSha256))) == Ok(h)
  {
    hide ParseHeader, HeaderBytes;
    var body := HeaderBytes(h.sourceSize, h.sourceSha256);
    assert body + [] == body;
    ReadsHeader(h, []);
  }

  lemma EndRoundTrip(opCount: U32)
    ensures Whole(ParseU32(EndBytes(opCount))) == Ok(opCount)
  {
    hide ParseU32, U32Bytes;
    assert EndBytes(opCount) + [] == EndBytes(opCount);
    ReadsU32(opCount, []);
  }

  /** Delta operations are canonical: re-encoding an accepted body gives the same bytes. */
  lemma OpCanonical(body: Bytes)
    requires Whole(ParseOp(body)).Ok?
    ensures OpBody(Whole(ParseOp(body)).value) == body
  {
    hide ParseU8, U8Bytes, ParseU64, U64Bytes, ParseBytes, BlobBytes;
    U8Canonical(body);
    var b1 := ParseU8(body).rest;
    U64Canonical(b1);
    var b2 := ParseU64(b1).rest;
    U64Canonical(b2);
    var b3 := ParseU64(b2).rest;
    BytesCanonical(b3);
    assert b3 == BlobBytes(ParseBytes(b3).value) + [];
  }
}
