/**
 Decimal numbers in text and sizes with a unit (src/common/parse.cpp). Printing is the standard library's.
 */
module Numbers {
  import opened Base

  predicate IsDigit(b: Byte) {
    48 <= b <= 57
  }

  predicate AllDigits(t: Text) {
    forall i :: 0 <= i < |t| ==> IsDigit(t[i])
  }

  function DigitValue(b: Byte): nat
    requires IsDigit(b)
  {
    b as int - 48
  }

  /** A number as printed: no leading zeros. */
  function Decimal(n: nat): (t: Text)
    ensures t != [] && AllDigits(t)
  {
    if n < 10 then [(48 + n) as Byte] else Decimal(n / 10) + [(48 + n % 10) as Byte]
  }

  function ValueOf(t: Text): nat
    requires AllDigits(t)
  {
    if t == [] then 0 else ValueOf(t[..|t| - 1]) * 10 + DigitValue(t[|t| - 1])
  }

  function LeadingDigits(t: Text): (n: nat)
    ensures n <= |t| && AllDigits(t[..n]) && (n < |t| ==> !IsDigit(t[n]))
  {
    if t == [] || !IsDigit(t[0]) then 0 else
      var n := LeadingDigits(t[1..]);
      assert t[..n + 1] == [t[0]] + t[1..][..n];
      n + 1
  }

  function LowerByte(b: Byte): Byte {
    if 65 <= b <= 90 then b + 32 else b
  }

  function Lower(t: Text): (l: Text)
    ensures |l| == |t| && forall i :: 0 <= i < |t| ==> l[i] == LowerByte(t[i])
  {
    seq(|t|, i requires 0 <= i < |t| => LowerByte(t[i]))
  }

  /** b, k, m or g; k, m and g also followed by b or ib. */
  function Unit(suffix: Text): Option<nat> {
    if suffix == [] || suffix == [98] then Some(1)
    else if suffix == [107] || suffix == [107, 98] || suffix == [107, 105, 98] then Some(0x400)
    else if suffix == [109] || suffix == [109, 98] || suffix == [109, 105, 98] then Some(0x10_0000)
    else if suffix == [103] || suffix == [103, 98] || suffix == [103, 105, 98] then Some(0x4000_0000)
    else None
  }

  /** The size a text means: digits times the unit, exactly, when that fits 64 bits. */
  function SizeOf(t: Text): Result<U64> {
    var n := LeadingDigits(t);
    var unit := Unit(Lower(t[n..]));
    if n == 0 || unit.None? || ValueOf(t[..n]) * unit.value >= U64_LIMIT then Err(InvalidArgument)
    else Ok(ValueOf(t[..n]) * unit.value)
  }

  // ----- Parsing -----

  lemma {:induction false} ValueGrows(t: Text, k: nat)
    requires AllDigits(t) && k <= |t|
    ensures ValueOf(t[..k]) <= ValueOf(t)
  {
    if k < |t| {
      assert t[..|t| - 1][..k] == t[..k];
      ValueGrows(t[..|t| - 1], k);
    } else {
      assert t[..k] == t;
    }
  }

  /** Digits only, below 2^64. */
  method ParseU64(t: Text) returns (r: Result<U64>)
    ensures r == if t != [] && AllDigits(t) && ValueOf(t) < U64_LIMIT then Ok(ValueOf(t)) else Err(InvalidArgument)
  {
    if t == [] {
      return Err(InvalidArgument);
    }
    var value: U64 := 0;
    for i := 0 to |t|
      invariant AllDigits(t[..i]) && value == ValueOf(t[..i])
    {
      if !IsDigit(t[i]) {
        return Err(InvalidArgument);
      }
      assert t[..i + 1][..i] == t[..i];
      var next := value * 10 + DigitValue(t[i]);
      if next >= U64_LIMIT {
        if AllDigits(t) {
          ValueGrows(t, i + 1);
        }
        return Err(InvalidArgument);
      }
      value := next;
    }
    assert t[..|t|] == t;
    r := Ok(value);
  }

  method LowerAscii(t: Text) returns (l: Text)
    ensures l == Lower(t)
  {
    l := [];
    for i := 0 to |t|
      invariant l == Lower(t)[..i]
    {
      l := l + [LowerByte(t[i])];
    }
  }

  method ParseSize(t: Text) returns (r: Result<U64>)
    ensures r == SizeOf(t)
  {
    if t == [] {
      return Err(InvalidArgument);
    }
    var numberEnd := 0;
    while numberEnd < |t| && IsDigit(t[numberEnd])
      invariant numberEnd <= LeadingDigits(t)
      invariant LeadingDigits(t) == numberEnd + LeadingDigits(t[numberEnd..])
    {
      assert t[numberEnd..][1..] == t[numberEnd + 1..];
      numberEnd := numberEnd + 1;
    }
    if numberEnd == 0 {
      return Err(InvalidArgument);
    }
    var suffix := LowerAscii(t[numberEnd..]);
    var multiplier := Unit(suffix);
    if multiplier.None? {
      return Err(InvalidArgument);
    }
    var parsed := ParseU64(t[..numberEnd]);
    if parsed.Err? {
      ScaledUp(ValueOf(t[..numberEnd]), multiplier.value);
      return Err(parsed.error);
    }
    GuardIsExact(parsed.value, multiplier.value);
    if parsed.value > (U64_LIMIT - 1) / multiplier.value {
      return Err(InvalidArgument);
    }
    r := Ok(parsed.value * multiplier.value);
  }

  lemma ScaledUp(v: nat, m: nat)
    requires m >= 1
    ensures v * m >= v
  {
  }

  /** The overflow guard divides instead of multiplying, and is exact. */
  lemma GuardIsExact(v: nat, m: nat)
    requires m >= 1
    ensures v > (U64_LIMIT - 1) / m <==> v * m >= U64_LIMIT
  {
    var q, rem := (U64_LIMIT - 1) / m, (U64_LIMIT - 1) % m;
    assert U64_LIMIT - 1 == q * m + rem;
    if v > q {
      assert v * m >= (q + 1) * m;
    } else {
      assert v * m <= q * m;
    }
  }

  // ----- Printing and parsing undo each other -----

  lemma {:induction false} DecimalValue(n: nat)
    ensures ValueOf(Decimal(n)) == n
  {
    if n >= 10 {
      var t := Decimal(n);
      assert t[..|t| - 1] == Decimal(n / 10);
      DecimalValue(n / 10);
    } else {
      assert Decimal(n)[..0] == [];
    }
  }

  lemma {:induction false} DigitsThen(t: Text, suffix: Text)
    requires AllDigits(t) && (suffix == [] || !IsDigit(suffix[0]))
    ensures LeadingDigits(t + suffix) == |t|
  {
    if t == [] {
      assert t + suffix == suffix;
    } else {
      assert (t + suffix)[1..] == t[1..] + suffix;
      DigitsThen(t[1..], suffix);
    }
  }

  /** A printed number with a unit means that many units, or is refused when they do not fit 64 bits. */
  lemma SizeOfPrinted(n: nat, suffix: Text)
    requires suffix == [] || !IsDigit(suffix[0])
    ensures var unit := Unit(Lower(suffix));
            SizeOf(Decimal(n) + suffix)
            == if unit.Some? && n * unit.value < U64_LIMIT then Ok(n * unit.value) else Err(InvalidArgument)
  {
    hide Unit;
    var t := Decimal(n) + suffix;
    DecimalValue(n);
    DigitsThen(Decimal(n), suffix);
    assert t[..|Decimal(n)|] == Decimal(n) && t[|Decimal(n)|..] == suffix;
  }

  lemma SizeRoundTrip(n: U64)
    ensures SizeOf(Decimal(n)) == Ok(n)
  {
    SizeOfPrinted(n, []);
    assert Decimal(n) + [] == Decimal(n);
    assert Lower([]) == [];
  }

  /** Digits, leading zeros or not, and a unit. */
  lemma SizeOfDigits(t: Text, suffix: Text)
    requires AllDigits(t) && (suffix == [] || !IsDigit(suffix[0]))
    ensures var unit := Unit(Lower(suffix));
            SizeOf(t + suffix)
            == if t != [] && unit.Some? && ValueOf(t) * unit.value < U64_LIMIT then Ok(ValueOf(t) * unit.value)
               else Err(InvalidArgument)
  {
    hide Unit;
    DigitsThen(t, suffix);
    assert (t + suffix)[..|t|] == t && (t + suffix)[|t|..] == suffix;
  }

  /** The units in numbers: k, m and g count in powers of 1024, alone or with b or ib, in any letter case. */
  lemma UnitsAre(suffix: Text)
    ensures var unit, low := Unit(Lower(suffix)), Lower(suffix);
            && (unit == Some(1) <==> low in {[], [98]})
            && (unit == Some(1024) <==> low in {[107], [107, 98], [107, 105, 98]})
            && (unit == Some(1048576) <==> low in {[109], [109, 98], [109, 105, 98]})
            && (unit == Some(1073741824) <==> low in {[103], [103, 98], [103, 105, 98]})
            && (unit.Some? ==> unit.value in {1, 1024, 1048576, 1073741824})
    ensures Lower([75, 105, 66]) == [107, 105, 98] && Lower([71]) == [103] && Lower([77, 66]) == [109, 98]
  {
  }

  /** 1KiB, 20MB, 3g and 7t. */
  lemma SomeSizes()
    ensures SizeOf([49, 75, 105, 66]) == Ok(1024) && SizeOf([50, 48, 77, 66]) == Ok(20971520)
    ensures SizeOf([51, 103]) == Ok(3221225472) && SizeOf([55, 116]) == Err(InvalidArgument) && SizeOf([107]) == Err(InvalidArgument)
  {
    hide SizeOf;
    ValuesOf();
    UnitsAre([75, 105, 66]);
    UnitsAre([77, 66]);
    assert Lower([103]) == [103] && Lower([116]) == [116] && Lower([107]) == [107];
    SizeOfDigits([49], [75, 105, 66]);
    SizeOfDigits([50, 48], [77, 66]);
    SizeOfDigits([51], [103]);
    SizeOfDigits([55], [116]);
    SizeOfDigits([], [107]);
    assert [49] + [75, 105, 66] == [49, 75, 105, 66] && [50, 48] + [77, 66] == [50, 48, 77, 66];
    assert [51] + [103] == [51, 103] && [55] + [116] == [55, 116] && [] + [107] == [107];
  }

  lemma ValuesOf()
    ensures ValueOf([49]) == 1 && ValueOf([50, 48]) == 20 && ValueOf([51]) == 3 && ValueOf([55]) == 7
  {
    assert [50, 48][..1] == [50] && [50][..0] == [] && [49][..0] == [] && [51][..0] == [] && [55][..0] == [];
    assert ValueOf([50]) == 2;
  }
}
