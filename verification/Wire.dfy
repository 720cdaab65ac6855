/**
 Byte-level encoding: big-endian integers, length-prefixed strings, and a cursor that reads them back
 (src/transfer/sync_codec.cpp, src/protocol/frame.cpp, src/transfer/chunk_codec.cpp).
 */
module Wire {
  import opened Base

  // ----- Big-endian integers -----

  function Pow256(n: nat): nat {
    if n == 0 then 1 else 256 * Pow256(n - 1)
  }

  /** The n low-order bytes of v, most significant first. */
  function BigEndian(n: nat, v: nat): (b: Bytes)
    ensures |b| == n
  {
    if n == 0 then [] else BigEndian(n - 1, v / 256) + [(v % 256) as Byte]
  }

  function FromBigEndian(b: Bytes): nat {
    if b == [] then 0 else FromBigEndian(b[..|b| - 1]) * 256 + b[|b| - 1] as int
  }

  lemma {:induction false} BigEndianRoundTrip(n: nat, v: nat)
    requires v < Pow256(n)
    ensures FromBigEndian(BigEndian(n, v)) == v
  {
    if n > 0 {
      var b := BigEndian(n, v);
      assert b[..n - 1] == BigEndian(n - 1, v / 256);
      BigEndianRoundTrip(n - 1, v / 256);
    }
  }

  lemma {:induction false} BigEndianCanonical(b: Bytes)
    ensures FromBigEndian(b) < Pow256(|b|)
    ensures BigEndian(|b|, FromBigEndian(b)) == b
  {
    if b != [] {
      var n := |b| - 1;
      BigEndianCanonical(b[..n]);
      var hi, lo := FromBigEndian(b[..n]), b[n] as int;
      assert (hi * 256 + lo) / 256 == hi && (hi * 256 + lo) % 256 == lo;
      assert b == b[..n] + [b[n]];
    }
  }

  lemma Widths()
    ensures Pow256(1) == 0x100 && Pow256(2) == U16_LIMIT && Pow256(4) == U32_LIMIT && Pow256(8) == U64_LIMIT
  {
    assert Pow256(3) == 0x100_0000;
    assert Pow256(6) == 0x1_0000_0000_0000;
  }

  /** v shifted right by i bytes. */
  function ShiftBytes(v: nat, i: nat): nat {
    if i == 0 then v else ShiftBytes(v, i - 1) / 256
  }

  // ----- Parsing -----

  /** The outcome of reading one value from the front of a body: the value and what follows it. */
  datatype Parsed<+T> = Got(value: T, rest: Bytes) | Bad {
    predicate IsFailure() {
      Bad?
    }

    function PropagateFailure<U>(): Parsed<U>
      requires Bad?
    {
      Bad
    }

    function Extract(): (T, Bytes)
      requires Got?
    {
      (value, rest)
    }

    /** The same value with more bytes following. */
    function Then(more: Bytes): Parsed<T> {
      if Bad? then Bad else Got(value, rest + more)
    }
  }

  function Take(n: nat, b: Bytes): Parsed<Bytes> {
    if |b| < n then Bad else Got(b[..n], b[n..])
  }

  function ParseUint(n: nat, b: Bytes): Parsed<nat> {
    var (bytes, rest) :- Take(n, b);
    Got(FromBigEndian(bytes), rest)
  }

  function ParseU8(b: Bytes): Parsed<U8> {
    var (bytes, rest) :- Take(1, b);
    Got(bytes[0] as int, rest)
  }

  function ParseU32(b: Bytes): Parsed<U32> {
    var (v, rest) :- ParseUint(4, b);
    ParseUintBound(4, b);
    Got(v, rest)
  }

  function ParseU64(b: Bytes): Parsed<U64> {
    var (v, rest) :- ParseUint(8, b);
    ParseUintBound(8, b);
    Got(v, rest)
  }

  /** A 32-bit length, then that many bytes. */
  function ParseText(b: Bytes): Parsed<Text> {
    var (n, rest) :- ParseU32(b);
    Take(n, rest)
  }

  lemma TextIsShort(b: Bytes)
    requires ParseText(b).Got?
    ensures |ParseText(b).value| < U32_LIMIT
  {
  }

  /** A 64-bit length, then that many bytes. */
  function ParseBytes(b: Bytes): Parsed<Bytes> {
    var (n, rest) :- ParseU64(b);
    Take(n, rest)
  }

  function U8Bytes(v: U8): Bytes {
    [v as Byte]
  }

  function U32Bytes(v: U32): Bytes {
    BigEndian(4, v)
  }

  function U64Bytes(v: U64): Bytes {
    BigEndian(8, v)
  }

  /** The length is written as 32 bits, so it wraps for longer strings. */
  function TextBytes(s: Text): Bytes {
    U32Bytes(|s| % U32_LIMIT) + s
  }

  function BlobBytes(s: Bytes): Bytes {
    U64Bytes(|s| % U64_LIMIT) + s
  }

  lemma ParseUintBound(n: nat, b: Bytes)
    ensures n == 4 && ParseUint(n, b).Got? ==> ParseUint(n, b).value < U32_LIMIT
    ensures n == 8 && ParseUint(n, b).Got? ==> ParseUint(n, b).value < U64_LIMIT
  {
    Widths();
    if |b| >= n {
      BigEndianCanonical(b[..n]);
    }
  }

  // Reading back what was written, with anything behind it.

  lemma TakeFront(x: Bytes, rest: Bytes)
    ensures Take(|x|, x + rest) == Got(x, rest)
  {
  }

  lemma ReadsU8(v: U8, rest: Bytes)
    ensures ParseU8(U8Bytes(v) + rest) == Got(v, rest)
  {
    TakeFront(U8Bytes(v), rest);
  }

  lemma ReadsU32(v: U32, rest: Bytes)
    ensures ParseU32(U32Bytes(v) + rest) == Got(v, rest)
  {
    Widths();
    TakeFront(U32Bytes(v), rest);
    BigEndianRoundTrip(4, v);
  }

  lemma ReadsU64(v: U64, rest: Bytes)
    ensures ParseU64(U64Bytes(v) + rest) == Got(v, rest)
  {
    Widths();
    TakeFront(U64Bytes(v), rest);
    BigEndianRoundTrip(8, v);
  }

  /** A string comes back exactly when its length fits the 32-bit prefix. */
  lemma ReadsText(s: Text, rest: Bytes)
    ensures ParseText(TextBytes(s) + rest) == Got(s, rest) <==> |s| < U32_LIMIT
  {
    hide BigEndian, FromBigEndian;
    var n := |s| % U32_LIMIT;
    JoinAssoc(U32Bytes(n), s, rest);
    ReadsU32(n, s + rest);
    if n == |s| {
      TakeFront(s, rest);
    } else {
      assert |ParseText(TextBytes(s) + rest).value| == n;
    }
  }

  lemma ReadsBytes(s: Bytes, rest: Bytes)
    requires |s| < U64_LIMIT
    ensures ParseBytes(BlobBytes(s) + rest) == Got(s, rest)
  {
    hide BigEndian, FromBigEndian;
    JoinAssoc(U64Bytes(|s|), s, rest);
    ReadsU64(|s|, s + rest);
    TakeFront(s, rest);
  }

  // A read that succeeds does not look at what follows: more bytes behind change nothing but the rest.

  lemma TakeStable(n: nat, b: Bytes, more: Bytes)
    requires Take(n, b).Got?
    ensures Take(n, b + more) == Take(n, b).Then(more)
  {
    assert (b + more)[n..] == b[n..] + more;
    assert (b + more)[..n] == b[..n];
  }

  lemma U8Stable(b: Bytes, more: Bytes)
    requires ParseU8(b).Got?
    ensures ParseU8(b + more) == ParseU8(b).Then(more)
  {
    TakeStable(1, b, more);
  }

  lemma U32Stable(b: Bytes, more: Bytes)
    requires ParseU32(b).Got?
    ensures ParseU32(b + more) == ParseU32(b).Then(more)
  {
    TakeStable(4, b, more);
  }

  lemma U64Stable(b: Bytes, more: Bytes)
    requires ParseU64(b).Got?
    ensures ParseU64(b + more) == ParseU64(b).Then(more)
  {
    TakeStable(8, b, more);
  }

  lemma TextStable(b: Bytes, more: Bytes)
    requires ParseText(b).Got?
    ensures ParseText(b + more) == ParseText(b).Then(more)
  {
    U32Stable(b, more);
    TakeStable(ParseU32(b).value, ParseU32(b).rest, more);
  }

  lemma BytesStable(b: Bytes, more: Bytes)
    requires ParseBytes(b).Got?
    ensures ParseBytes(b + more) == ParseBytes(b).Then(more)
  {
    U64Stable(b, more);
    TakeStable(ParseU64(b).value, ParseU64(b).rest, more);
  }

  // A fixed-width or length-prefixed value has one encoding only.

  lemma TakeCanonical(n: nat, b: Bytes)
    requires Take(n, b).Got?
    ensures b == Take(n, b).value + Take(n, b).rest && |Take(n, b).value| == n
  {
  }

  lemma U8Canonical(b: Bytes)
    requires ParseU8(b).Got?
    ensures b == U8Bytes(ParseU8(b).value) + ParseU8(b).rest
  {
    TakeCanonical(1, b);
  }

  lemma U64Canonical(b: Bytes)
    requires ParseU64(b).Got?
    ensures b == U64Bytes(ParseU64(b).value) + ParseU64(b).rest
  {
    TakeCanonical(8, b);
    BigEndianCanonical(b[..8]);
  }

  lemma BytesCanonical(b: Bytes)
    requires ParseBytes(b).Got?
    ensures b == BlobBytes(ParseBytes(b).value) + ParseBytes(b).rest
  {
    hide BigEndian, FromBigEndian;
    U64Canonical(b);
    var n := ParseU64(b);
    TakeCanonical(n.value, n.rest);
    JoinAssoc(U64Bytes(n.value), ParseBytes(b).value, ParseBytes(b).rest);
  }

  // ----- Counted lists -----

  function ParseMany<T>(parse: Bytes -> Parsed<T>, n: nat, b: Bytes): Parsed<seq<T>> {
    if n == 0 then Got([], b) else
      var (x, rest) :- parse(b);
      var (xs, rest') :- ParseMany(parse, n - 1, rest);
      Got([x] + xs, rest')
  }

  function ManyBytes<T>(encode: T -> Bytes, xs: seq<T>): Bytes {
    if xs == [] then [] else encode(xs[0]) + ManyBytes(encode, xs[1..])
  }

  lemma {:induction false} ReadsMany<T>(parse: Bytes -> Parsed<T>, encode: T -> Bytes, xs: seq<T>, rest: Bytes)
    requires forall i, r :: 0 <= i < |xs| ==> parse(encode(xs[i]) + r) == Got(xs[i], r)
    ensures ParseMany(parse, |xs|, ManyBytes(encode, xs) + rest) == Got(xs, rest)
  {
    if xs == [] {
      assert [] + rest == rest;
    } else {
      var tail := ManyBytes(encode, xs[1..]);
      assert encode(xs[0]) + tail + rest == encode(xs[0]) + (tail + rest);
      ReadsMany(parse, encode, xs[1..], rest);
      assert [xs[0]] + xs[1..] == xs;
    }
  }

  lemma {:induction false} ManyIsMany<T>(parse: Bytes -> Parsed<T>, n: nat, b: Bytes)
    requires ParseMany(parse, n, b).Got?
    ensures |ParseMany(parse, n, b).value| == n
  {
    if n > 0 {
      ManyIsMany(parse, n - 1, parse(b).rest);
    }
  }

  /** What a reader gives for a list is good only element by element, when good elements are read as they were written. */
  lemma {:induction false} ManyExact<T(!new)>(parse: Bytes -> Parsed<T>, encode: T -> Bytes, good: T -> bool, xs: seq<T>, rest: Bytes)
    requires forall x, r :: good(x) ==> parse(encode(x) + r) == Got(x, r)
    requires forall i, r :: 0 <= i < |xs| && parse(encode(xs[i]) + r).Got? && parse(encode(xs[i]) + r).value == xs[i] ==> good(xs[i])
    requires ParseMany(parse, |xs|, ManyBytes(encode, xs) + rest).Got?
    requires ParseMany(parse, |xs|, ManyBytes(encode, xs) + rest).value == xs
    ensures forall i :: 0 <= i < |xs| ==> good(xs[i])
  {
    if xs != [] {
      var tail := ManyBytes(encode, xs[1..]) + rest;
      JoinAssoc(encode(xs[0]), ManyBytes(encode, xs[1..]), rest);
      var all := ParseMany(parse, |xs|, encode(xs[0]) + tail);
      assert parse(encode(xs[0]) + tail).value == all.value[0] == xs[0];
      assert all.value[1..] == ParseMany(parse, |xs| - 1, tail).value;
      ManyExact(parse, encode, good, xs[1..], rest);
    }
  }

  ghost predicate StableAt<T>(parse: Bytes -> Parsed<T>, b: Bytes, more: Bytes) {
    parse(b).Got? ==> parse(b + more) == parse(b).Then(more)
  }

  lemma {:induction false} ManyStable<T>(parse: Bytes -> Parsed<T>, n: nat, b: Bytes, more: Bytes)
    requires forall c :: StableAt(parse, c, more)
    requires ParseMany(parse, n, b).Got?
    ensures ParseMany(parse, n, b + more) == ParseMany(parse, n, b).Then(more)
  {
    if n > 0 {
      var first := parse(b);
      assert StableAt(parse, b, more);
      ManyStable(parse, n - 1, first.rest, more);
      var tail := ParseMany(parse, n - 1, first.rest);
      assert ParseMany(parse, n - 1, first.rest + more) == tail.Then(more);
    }
  }

  /** Values already read go in front of what a later read gives. */
  function Prepend<T>(xs: seq<T>, p: Parsed<seq<T>>): Parsed<seq<T>> {
    if p.Bad? then Bad else Got(xs + p.value, p.rest)
  }

  lemma {:induction false} ManyAppend<T>(encode: T -> Bytes, xs: seq<T>, x: T)
    ensures ManyBytes(encode, xs + [x]) == ManyBytes(encode, xs) + encode(x)
  {
    if xs == [] {
      assert [x][1..] == [];
      assert ManyBytes(encode, [x]) == encode(x) + [];
      assert [] + [x] == [x];
    } else {
      assert (xs + [x])[1..] == xs[1..] + [x];
      ManyAppend(encode, xs[1..], x);
      assert encode(xs[0]) + (ManyBytes(encode, xs[1..]) + encode(x)) == encode(xs[0]) + ManyBytes(encode, xs[1..]) + encode(x);
    }
  }

  // ----- The growing output vector -----

  class Writer {
    var output: Bytes

    constructor ()
      ensures output == []
    {
      output := [];
    }

    method AppendU8(v: U8)
      modifies this
      ensures output == old(output) + U8Bytes(v)
    {
      output := output + [v as Byte];
    }

    /** The bytes of v from the top one down, each shifted out and masked. */
    method AppendUint(n: nat, v: nat)
      modifies this
      ensures output == old(output) + BigEndian(n, v)
    {
      var i := n;
      while i > 0
        invariant 0 <= i <= n
        invariant output == old(output) + BigEndian(n - i, ShiftBytes(v, i))
      {
        i := i - 1;
        output := output + [(ShiftBytes(v, i) % 256) as Byte];
      }
    }

    method AppendU32(v: U32)
      modifies this
      ensures output == old(output) + U32Bytes(v)
    {
      AppendUint(4, v);
    }

    method AppendU64(v: U64)
      modifies this
      ensures output == old(output) + U64Bytes(v)
    {
      AppendUint(8, v);
    }

    method AppendBytes(data: Bytes)
      modifies this
      ensures output == old(output) + data
    {
      output := output + data;
    }

    method AppendString(s: Text)
      modifies this
      ensures output == old(output) + TextBytes(s)
    {
      AppendU32(|s| % U32_LIMIT);
      AppendBytes(s);
    }
  }

  // ----- The cursor over a received body -----

  class Reader {
    const body: Bytes
    var offset: nat

    ghost predicate Valid()
      reads this
    {
      offset <= |body|
    }

    ghost function Rest(): Bytes
      requires Valid()
      reads this
    {
      body[offset..]
    }

    constructor (body: Bytes)
      ensures Valid() && Rest() == body && this.body == body
    {
      this.body, offset := body, 0;
    }

    /** What a read must do: the value at the front, the cursor behind it; or an error. */
    ghost predicate Reads<T>(p: Parsed<T>, r: Result<T>)
      reads this
    {
      && Valid()
      && (p.Got? ==> r == Ok(p.value) && Rest() == p.rest)
      && (p.Bad? ==> r == Err(ProtocolError))
    }

    method ReadU8() returns (r: Result<U8>)
      requires Valid()
      modifies this
      ensures Reads(ParseU8(old(Rest())), r)
    {
      if |body| - offset < 1 {
        return Err(ProtocolError);
      }
      r := Ok(body[offset] as int);
      offset := offset + 1;
    }

    method ReadUint(n: nat) returns (r: Result<nat>)
      requires Valid()
      modifies this
      ensures Reads(ParseUint(n, old(Rest())), r)
    {
      if |body| - offset < n {
        return Err(ProtocolError);
      }
      var value, start := 0, offset;
      for i := 0 to n
        invariant start <= offset == start + i <= |body|
        invariant value == FromBigEndian(body[start..offset])
      {
        assert body[start..offset + 1][..i] == body[start..offset];
        value := value * 256 + body[offset] as int;
        offset := offset + 1;
      }
      assert body[start..][..n] == body[start..offset] && body[start..][n..] == body[offset..];
      r := Ok(value);
    }

    method ReadU32() returns (r: Result<U32>)
      requires Valid()
      modifies this
      ensures Reads(ParseU32(old(Rest())), r)
    {
      ParseUintBound(4, Rest());
      var v := ReadUint(4);
      r := if v.Err? then Err(v.error) else Ok(v.value);
    }

    method ReadU64() returns (r: Result<U64>)
      requires Valid()
      modifies this
      ensures Reads(ParseU64(old(Rest())), r)
    {
      ParseUintBound(8, Rest());
      var v := ReadUint(8);
      r := if v.Err? then Err(v.error) else Ok(v.value);
    }

    method ReadString() returns (r: Result<Text>)
      requires Valid()
      modifies this
      ensures Reads(ParseText(old(Rest())), r)
    {
      var size := ReadU32();
      if size.Err? {
        return Err(size.error);
      }
      if |body| - offset < size.value {
        return Err(ProtocolError);
      }
      r := Ok(body[offset..offset + size.value]);
      assert body[offset..][..size.value] == body[offset..offset + size.value];
      offset := offset + size.value;
    }

    method ReadBytes() returns (r: Result<Bytes>)
      requires Valid()
      modifies this
      ensures Reads(ParseBytes(old(Rest())), r)
    {
      var size := ReadU64();
      if size.Err? {
        return Err(size.error);
      }
      if |body| - offset < size.value {
        return Err(ProtocolError);
      }
      r := Ok(body[offset..offset + size.value]);
      assert body[offset..][..size.value] == body[offset..offset + size.value];
      offset := offset + size.value;
    }

    method Done() returns (done: bool)
      requires Valid()
      ensures done <==> Rest() == []
    {
      done := offset == |body|;
    }
  }
}
