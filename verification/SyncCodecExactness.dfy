/**
 Exactly which plans and manifests survive encoding and decoding: those with clean paths and lengths and counts below
 2^32.
 */
module SyncCodecExactness {
  import opened Base
  import opened Wire
  import opened BlockSignatures
  import opened SyncCodec
  import opened SyncCodecTheorems

  lemma {:induction false} NormalisedIsShorter(p: Text)
    ensures |Normalised(p)| <= |p|
  {
    if |p| >= 2 {
      NormalisedIsShorter(p[1..]);
    }
  }

  /** A path that is read back as it was written is short and clean. */
  lemma PathExact(path: Text, rest: Bytes)
    requires var r := ParseText(TextBytes(path) + rest); r.Got? && IsSafePath(r.value) && Normalised(r.value) == path
    ensures ShortText(path) && IsCleanPath(path)
  {
    hide IsSafePath, TextBytes;
    var r := ParseText(TextBytes(path) + rest);
    TextIsShort(TextBytes(path) + rest);
    NormalisedIsShorter(r.value);
    ReadsText(path, rest);
  }

  lemma EntryExact(e: ManifestEntry, rest: Bytes)
    requires ParseEntry(EntryBytes(e) + rest).Got? && ParseEntry(EntryBytes(e) + rest).value == e
    ensures EncodableEntry(e)
  {
    hide ParseText, ParseU64, ParseU32, TextBytes, U64Bytes, U32Bytes, IsSafePath, Normalised, IsCleanPath;
    var d := U32Bytes(e.mode);
    var c := U64Bytes(e.mtime) + d;
    var b := TextBytes(e.sha256) + c;
    var a := U64Bytes(e.size) + b;
    JoinAssoc(TextBytes(e.path), a, rest);
    PathExact(e.path, a + rest);
    ReadsText(e.path, a + rest);
    JoinAssoc(U64Bytes(e.size), b, rest);
    ReadsU64(e.size, b + rest);
    TextIsShort(b + rest);
  }

  lemma SignatureExact(s: BlockSignature, rest: Bytes)
    requires ParseSignature(SignatureBytes(s) + rest).Got? && ParseSignature(SignatureBytes(s) + rest).value == s
    ensures EncodableSignature(s)
  {
    hide ParseText, ParseU64, ParseU32, TextBytes, U64Bytes, U32Bytes;
    var b1 := SignatureBytes(s) + rest;
    var b2 := ParseU64(b1).rest;
    var b3 := ParseU64(b2).rest;
    var b4 := ParseU32(b3).rest;
    TextIsShort(ParseU32(b4).rest);
  }

  lemma BasisExact(basis: seq<BlockSignature>, rest: Bytes)
    requires var r := ParseMany(ParseSignature, |basis|, ManyBytes(SignatureBytes, basis) + rest); r.Got? && r.value == basis
    ensures forall i :: 0 <= i < |basis| ==> EncodableSignature(basis[i])
  {
    hide ParseSignature, SignatureBytes, EncodableSignature;
    forall s, r | EncodableSignature(s) ensures ParseSignature(SignatureBytes(s) + r) == Got(s, r) {
      ReadsSignature(s, r);
    }
    forall i, r | 0 <= i < |basis| && ParseSignature(SignatureBytes(basis[i]) + r).Got?
                  && ParseSignature(SignatureBytes(basis[i]) + r).value == basis[i]
      ensures EncodableSignature(basis[i])
    {
      SignatureExact(basis[i], r);
    }
    ManyExact(ParseSignature, SignatureBytes, EncodableSignature, basis, rest);
  }

  lemma PlanEntryExact(e: SyncPlanEntry, rest: Bytes)
    requires ParsePlanEntry(PlanEntryBytes(e) + rest).Got? && ParsePlanEntry(PlanEntryBytes(e) + rest).value == e
    ensures EncodablePlanEntry(e)
  {
    hide ParseEntry, EntryBytes, EncodableEntry, ParseU8, U8Bytes, ParseU32, U32Bytes, ParseMany, ManyBytes, ParseSignature,
         SignatureBytes, EncodableSignature;
    var code := ActionCode(e.action);
    var c := ManyBytes(SignatureBytes, e.basis);
    var b := U32Bytes(|e.basis| % U32_LIMIT) + c;
    var a := EntryBytes(e.manifestEntry) + b;
    JoinAssoc(U8Bytes(code), a, rest);
    ReadsU8(code, a + rest);
    JoinAssoc(EntryBytes(e.manifestEntry), b, rest);
    EntryExact(e.manifestEntry, b + rest);
    ReadsEntry(e.manifestEntry, b + rest);
    JoinAssoc(U32Bytes(|e.basis| % U32_LIMIT), c, rest);
    ReadsU32(|e.basis| % U32_LIMIT, c + rest);
    ManyIsMany(ParseSignature, |e.basis| % U32_LIMIT, c + rest);
    BasisExact(e.basis, rest);
  }

  lemma PlanEntriesExact(entries: seq<SyncPlanEntry>, rest: Bytes)
    requires var r := ParseMany(ParsePlanEntry, |entries|, ManyBytes(PlanEntryBytes, entries) + rest); r.Got? && r.value == entries
    ensures forall i :: 0 <= i < |entries| ==> EncodablePlanEntry(entries[i])
  {
    hide ParsePlanEntry, PlanEntryBytes, EncodablePlanEntry;
    forall e, r | EncodablePlanEntry(e) ensures ParsePlanEntry(PlanEntryBytes(e) + r) == Got(e, r) {
      ReadsPlanEntry(e, r);
    }
    forall i, r | 0 <= i < |entries| && ParsePlanEntry(PlanEntryBytes(entries[i]) + r).Got?
                  && ParsePlanEntry(PlanEntryBytes(entries[i]) + r).value == entries[i]
      ensures EncodablePlanEntry(entries[i])
    {
      PlanEntryExact(entries[i], r);
    }
    ManyExact(ParsePlanEntry, PlanEntryBytes, EncodablePlanEntry, entries, rest);
  }

  lemma EntriesExact(files: seq<ManifestEntry>, rest: Bytes)
    requires var r := ParseMany(ParseEntry, |files|, ManyBytes(EntryBytes, files) + rest); r.Got? && r.value == files
    ensures forall i :: 0 <= i < |files| ==> EncodableEntry(files[i])
  {
    hide ParseEntry, EntryBytes, EncodableEntry;
    forall e, r | EncodableEntry(e) ensures ParseEntry(EntryBytes(e) + r) == Got(e, r) {
      ReadsEntry(e, r);
    }
    forall i, r | 0 <= i < |files| && ParseEntry(EntryBytes(files[i]) + r).Got?
                  && ParseEntry(EntryBytes(files[i]) + r).value == files[i]
      ensures EncodableEntry(files[i])
    {
      EntryExact(files[i], r);
    }
    ManyExact(ParseEntry, EntryBytes, EncodableEntry, files, rest);
  }

  /** A plan decodes to itself exactly when all its paths are clean and all its lengths and counts fit 32 bits. */
  lemma PlanSurvivesIffEncodable(p: SyncPlan)
    ensures Whole(ParsePlan(PlanBytes(p))) == Ok(p) <==> EncodablePlan(p)
  {
    hide ParsePlanEntry, PlanEntryBytes, EncodablePlanEntry, ParseU32, U32Bytes, ParseMany, ManyBytes;
    if EncodablePlan(p) {
      PlanRoundTrip(p);
    } else if Whole(ParsePlan(PlanBytes(p))) == Ok(p) {
      var n, b := |p.entries| % U32_LIMIT, ManyBytes(PlanEntryBytes, p.entries);
      ReadsU32(p.blockSize, U32Bytes(n) + b);
      ReadsU32(n, b);
      ManyIsMany(ParsePlanEntry, n, b);
      assert b + [] == b;
      PlanEntriesExact(p.entries, []);
    }
  }

  /** The same for manifests. */
  lemma ManifestSurvivesIffEncodable(m: Manifest)
    ensures Whole(ParseManifest(ManifestBytes(m))) == Ok(m) <==> EncodableManifest(m)
  {
    hide ParseEntry, EntryBytes, EncodableEntry, ParseU32, U32Bytes, ParseMany, ManyBytes, ParseText, TextBytes, IsSafePath,
         Normalised, IsCleanPath;
    if EncodableManifest(m) {
      ManifestRoundTrip(m);
    } else if Whole(ParseManifest(ManifestBytes(m))) == Ok(m) {
      var n, b := |m.files| % U32_LIMIT, ManyBytes(EntryBytes, m.files);
      ReadsU32(MANIFEST_V2_MAGIC, TextBytes(m.rootName) + (U32Bytes(n) + b));
      RootExact(m.rootName, U32Bytes(n) + b);
      ReadsText(m.rootName, U32Bytes(n) + b);
      ReadsU32(n, b);
      ManyIsMany(ParseEntry, n, b);
      assert b + [] == b;
      EntriesExact(m.files, []);
    }
  }

  lemma RootExact(name: Text, rest: Bytes)
    requires ParseRootName(TextBytes(name) + rest).Got? && ParseRootName(TextBytes(name) + rest).value == name
    ensures ShortText(name) && (name == [] || IsCleanPath(name))
  {
    hide ParseText, TextBytes, IsSafePath, Normalised, IsCleanPath;
    if ParseText(TextBytes(name) + rest).value != [] {
      PathExact(name, rest);
    }
  }
}
