/**
 The receiver's directory as the synchronisation code uses it: regular files by relative path, each with contents,
 modification time and mode; a part file next to each target while it is being written.
 */
module Trees {
  import opened Base
  import opened SyncCodec

  datatype FileState = FileState(bytes: Bytes, mtime: int, mode: int)

  type Tree = map<Text, FileState>

  /** What the platform adds: the error of converting a time to or from the file clock, and the mode of new files. */
  datatype Platform = Platform(setError: Text -> int, readError: Text -> int, newMode: int)

  const PART_SUFFIX: Text := [46, 112, 97, 114, 116]

  function PartPath(target: Text): (part: Text)
    ensures part != target
  {
    target + PART_SUFFIX
  }

  function Contents(tree: Tree, path: Text): Option<Bytes> {
    if path in tree then Some(tree[path].bytes) else None
  }

  /** 64 unsigned bits reinterpreted as signed nanoseconds. */
  function SignedNs(ns: U64): int {
    if ns < U63_LIMIT then ns else ns - U64_LIMIT
  }

  /** The signed number with the same 64 bits, in two's complement. */
  lemma SignedNsIsTwosComplement(ns: U64)
    ensures -U63_LIMIT <= SignedNs(ns) < U63_LIMIT && (SignedNs(ns) - ns) % U64_LIMIT == 0
  {
  }

  /** A freshly written file after its times and mode have been set from the manifest. */
  function Stamped(platform: Platform, e: ManifestEntry, bytes: Bytes): FileState {
    FileState(bytes, SignedNs(e.mtime) + platform.setError(e.path), if e.mode != 0 then e.mode % 0x1000 else platform.newMode)
  }

  /** The tree after `bytes` were committed for an entry: the target replaced, the part file consumed. */
  function Committed(platform: Platform, tree: Tree, e: ManifestEntry, bytes: Bytes): Tree {
    (tree - {PartPath(e.path)})[e.path := Stamped(platform, e, bytes)]
  }

  class Disk {
    const platform: Platform
    const faulty: bool
    var files: Tree

    constructor (platform: Platform, files: Tree, faulty: bool)
      ensures this.platform == platform && this.files == files && this.faulty == faulty
    {
      this.platform, this.files, this.faulty := platform, files, faulty;
    }

    method Fails() returns (fails: bool)
      ensures fails ==> faulty
    {
      fails := *;
      fails := fails && faulty;
    }

    /** Opens a file for writing from scratch. */
    method Create(path: Text) returns (r: Result<bool>)
      modifies this`files
      ensures r.Err? ==> faulty && files == old(files)
      ensures r.Ok? ==> files == old(files)[path := FileState([], 0, platform.newMode)]
    {
      var fails := Fails();
      if fails {
        return Err(IoError);
      }
      files := files[path := FileState([], 0, platform.newMode)];
      r := Ok(true);
    }

    /** Writes at the end of an open file; a failed write may leave a part of the bytes behind. */
    method Append(path: Text, bytes: Bytes) returns (r: Result<bool>)
      requires path in files
      modifies this`files
      ensures files.Keys == old(files).Keys && forall p :: p in files && p != path ==> files[p] == old(files)[p]
      ensures r.Err? ==> faulty
      ensures r.Ok? ==> files == old(files)[path := old(files)[path].(bytes := old(files)[path].bytes + bytes)]
    {
      var fails := Fails();
      if fails {
        var n: nat :| n <= |bytes|;
        files := files[path := files[path].(bytes := files[path].bytes + bytes[..n])];
        return Err(IoError);
      }
      files := files[path := files[path].(bytes := files[path].bytes + bytes)];
      r := Ok(true);
    }

    /** Flushes and closes an open file. */
    method Close(path: Text, bytes: Bytes) returns (r: Result<bool>)
      modifies this`files
      ensures files.Keys == old(files).Keys + {path} && forall p :: p in files && p != path ==> files[p] == old(files)[p]
      ensures r.Err? ==> faulty
      ensures r.Ok? ==> files == old(files)[path := FileState(bytes, 0, platform.newMode)]
    {
      var fails := Fails();
      if fails {
        var n: nat :| n <= |bytes|;
        files := files[path := FileState(bytes[..n], 0, platform.newMode)];
        return Err(IoError);
      }
      files := files[path := FileState(bytes, 0, platform.newMode)];
      r := Ok(true);
    }

    /** Replaces the destination in one step. */
    method Rename(from: Text, to: Text) returns (r: Result<bool>)
      requires from in files && from != to
      modifies this`files
      ensures r.Err? ==> faulty && files == old(files)
      ensures r.Ok? ==> files == (old(files) - {from})[to := old(files)[from]]
    {
      var fails := Fails();
      if fails {
        return Err(IoError);
      }
      files := (files - {from})[to := files[from]];
      r := Ok(true);
    }

    method Remove(path: Text)
      modifies this`files
      ensures files == old(files) - {path}
    {
      files := files - {path};
    }

    /** Sets the modification time, then the mode when the manifest carries one. */
    method ApplyMetadata(e: ManifestEntry) returns (r: Result<bool>)
      requires e.path in files && files[e.path].mode == platform.newMode
      modifies this`files
      ensures files.Keys == old(files).Keys && files[e.path].bytes == old(files[e.path].bytes)
      ensures forall p :: p in files && p != e.path ==> files[p] == old(files)[p]
      ensures r.Err? ==> faulty
      ensures r.Ok? ==> files == old(files)[e.path := Stamped(platform, e, old(files[e.path].bytes))]
      ensures r.Ok? ==>
                && files[e.path].mtime == SignedNs(e.mtime) + platform.setError(e.path)
                && files[e.path].mode == if e.mode != 0 then e.mode % 4096 else platform.newMode
    {
      var timeFails := Fails();
      if timeFails {
        return Err(IoError);
      }
      files := files[e.path := files[e.path].(mtime := SignedNs(e.mtime) + platform.setError(e.path))];
      if e.mode != 0 {
        var modeFails := Fails();
        if modeFails {
          return Err(IoError);
        }
        files := files[e.path := files[e.path].(mode := e.mode % 0x1000)];
      }
      r := Ok(true);
    }
  }
}
