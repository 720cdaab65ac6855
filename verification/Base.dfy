/**
 Shared vocabulary: bytes, fixed-width integer bounds, error codes and results.
 */
module Base {

  newtype Byte = b: int | 0 <= b < 0x100

  type Bytes = seq<Byte>

  /** A byte string used as text: a path, a hexadecimal digest, a message. */
  type Text = seq<Byte>

  /** SHA-256 is a parameter of every member that needs it: any function from contents to digest text. */
  type Digest = Bytes -> Text

  const U16_LIMIT: int := 0x1_0000
  const U32_LIMIT: int := 0x1_0000_0000
  const U63_LIMIT: int := 0x8000_0000_0000_0000
  const U64_LIMIT: int := 0x1_0000_0000_0000_0000

  type U8 = x: int | 0 <= x < 0x100
  type U16 = x: int | 0 <= x < U16_LIMIT
  type U32 = x: int | 0 <= x < U32_LIMIT
  type U64 = x: int | 0 <= x < U64_LIMIT

  datatype Option<+T> = None | Some(value: T)

  datatype ErrorCode =
    | InvalidArgument
    | NotFound
    | IoError
    | NetworkError
    | ProtocolError
    | ChecksumMismatch
    | Cancelled
    | InternalError

  datatype Result<+T> = Ok(value: T) | Err(error: ErrorCode)

  // ----- Sequence facts, kept apart so that proofs can name the one they need -----

  lemma JoinAssoc<T>(a: seq<T>, b: seq<T>, c: seq<T>)
    ensures (a + b) + c == a + (b + c)
  {
  }

  lemma JoinSplit<T>(a: seq<T>, s: seq<T>, k: nat)
    requires k <= |s|
    ensures a + s[..k] + s[k..] == a + s
  {
  }

  lemma MoveFirst<T>(a: seq<T>, s: seq<T>)
    requires s != []
    ensures (a + [s[0]]) + s[1..] == a + s
  {
  }

  lemma DropDrop<T>(s: seq<T>, i: nat, j: nat)
    requires i + j <= |s|
    ensures s[i..][j..] == s[i + j..]
  {
  }

  lemma DropTake<T>(s: seq<T>, i: nat, n: nat)
    requires i + n <= |s|
    ensures s[i..][..n] == s[i..i + n]
  {
  }
}
