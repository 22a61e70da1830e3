/**
 Sizes as a value and a binary unit: the lossy encoder, its decoder, and the two-word integers of
 the core API.  float64 arithmetic is modelled in exact reals.
 */
module QuotaUnits {
  import opened Wrappers

  const INT64_MAX := 0x7fff_ffff_ffff_ffff
  const INT64_MIN := -0x8000_0000_0000_0000
  type int64 = x: int | INT64_MIN <= x <= INT64_MAX

  const UNITS := ["", "K", "M", "G", "T", "P", "E", "Z", "Y"]

  function Pow(b: nat, k: nat): (r: nat)
    ensures b > 0 ==> r > 0
  {
    if k == 0 then 1 else b * Pow(b, k - 1)
  }

  function Abs(n: int): nat { if n < 0 then -n else n }

  /** The index of the largest unit not above `n`. */
  function UnitIndex(n: nat): nat {
    if n < 1024 then 0 else 1 + UnitIndex(n / 1024)
  }

  // ---------------------------------------------------------------- units

  lemma {:induction false} UnitIndexBounds(n: nat)
    requires n > 0
    ensures Pow(1024, UnitIndex(n)) <= n < Pow(1024, UnitIndex(n) + 1)
  {
    if n >= 1024 { UnitIndexBounds(n / 1024); }
  }

  lemma {:induction false} UnitIndexUnique(n: nat, k: nat)
    requires Pow(1024, k) <= n < Pow(1024, k + 1)
    ensures UnitIndex(n) == k
  {
    if k > 0 {
      assert Pow(1024, k) == 1024 * Pow(1024, k - 1);
      UnitIndexUnique(n / 1024, k - 1);
    }
  }

  /** No int64 needs a unit beyond E, so the unit table is never left. */
  lemma UnitIndexSmall(n: int64)
    ensures UnitIndex(Abs(n)) <= 6
  {
    var m := Abs(n);
    assert m / 1024 <= 0x20_0000_0000_0000 && m / 1024 / 1024 <= 0x800_0000_0000;
    assert m / 1024 / 1024 / 1024 <= 0x2_0000_0000;
    var g := m / 1024 / 1024 / 1024;
    assert g / 1024 <= 0x80_0000 && g / 1024 / 1024 <= 0x2000 && g / 1024 / 1024 / 1024 <= 8;
    SmallIndex(g);
    StepIndex(m / 1024 / 1024);
    StepIndex(m / 1024);
    StepIndex(m);
  }

  lemma StepIndex(n: nat)
    ensures UnitIndex(n) <= 1 + UnitIndex(n / 1024)
  {
  }

  lemma SmallIndex(g: nat)
    requires g / 1024 / 1024 / 1024 <= 8
    ensures UnitIndex(g) <= 3
  {
    StepIndex(g);
    StepIndex(g / 1024);
    StepIndex(g / 1024 / 1024);
  }

  // ---------------------------------------------------------------- the encoder

  datatype SizeQuota = SizeQuota(value: real, unit: string)

  function Scale(k: nat): (r: real)
    ensures r > 0.0
  {
    Pow(1024, k) as real
  }

  /** `f` rounded down to `prec` decimals, or as it is when `prec` is negative. */
  function RoundDown(f: real, prec: int): real {
    if prec >= 0 then
      var p := Pow(10, prec) as real;
      (f * p).Floor as real / p
    else f
  }

  /** The value of `n` in its unit. */
  function Scaled(n: int, prec: int): real {
    RoundDown(n as real / Scale(UnitIndex(Abs(n))), prec)
  }

  lemma ScaleNext(k: nat)
    ensures Scale(k + 1) == 1024.0 * Scale(k)
  {
  }

  lemma DivideStep(f: real, s: real)
    ensures f / 1024.0 * (1024.0 * s) == f * s
  {
  }

  lemma MulLe(a: real, b: real, s: real)
    requires a <= b && s >= 0.0
    ensures a * s <= b * s
  {
  }

  lemma MulLt(a: real, b: real, s: real)
    requires a < b && s > 0.0
    ensures a * s < b * s
  {
  }

  lemma ProductRange(v: real, a: real, s: real)
    requires v == a * s && s > 0.0 && a < 1024.0
    ensures v < 1024.0 * s && (a >= 1.0 ==> s <= v)
  {
    MulLt(a, 1024.0, s);
    if a >= 1.0 { MulLe(1.0, a, s); }
  }

  /** A natural number between two consecutive scales has that index. */
  lemma BetweenScales(m: nat, k: nat)
    requires Scale(k) <= m as real < Scale(k + 1)
    ensures UnitIndex(m) == k
  {
    UnitIndexUnique(m, k);
  }

  /** A quotient that ended in [1, 1024) has the right index. */
  lemma IndexReached(m: nat, a: real, k: nat)
    requires m > 0 && m as real == a * Scale(k) && 0.0 <= a < 1024.0 && (k > 0 ==> a >= 1.0)
    ensures UnitIndex(m) == k
  {
    ProductRange(m as real, a, Scale(k));
    ScaleNext(k);
    if k == 0 { assert Scale(0) == 1.0; }
    BetweenScales(m, k);
  }

  lemma Quotient(f: real, s: real, v: real)
    requires s > 0.0 && f * s == v
    ensures f == v / s
  {
  }

  lemma LoopEnd(n: int, f: real, u: nat, s: real)
    requires n != 0 && s == Scale(u) && f * s == n as real && -1024.0 < f < 1024.0 && (u > 0 ==> f >= 1.0 || f <= -1.0)
    ensures UnitIndex(Abs(n)) == u && f == n as real / s
  {
    Quotient(f, s, n as real);
    if f >= 0.0 {
      MulLe(0.0, f, s);
      IndexReached(n, f, u);
    } else {
      MulLt(f, 0.0, s);
      assert (-f) * s == -(f * s);
      IndexReached(-n, -f, u);
    }
  }

  /** The loop of GetBytesAndUnits. */
  method DivideDown(n: int64) returns (f: real, u: nat)
    requires n != 0
    ensures u == UnitIndex(Abs(n)) && f == n as real / Scale(u)
  {
    f, u := n as real, 0;
    ghost var s := 1.0;
    while f >= 1024.0 || f <= -1024.0
      invariant f * s == n as real && s == Scale(u)
      invariant u > 0 ==> f >= 1.0 || f <= -1.0
      decreases if f < 0.0 then (-f).Floor else f.Floor
    {
      DivideStep(f, s);
      ScaleNext(u);
      f, u, s := f / 1024.0, u + 1, 1024.0 * s;
    }
    LoopEnd(n, f, u, s);
  }

  /** GetBytesAndUnits. */
  method GetBytesAndUnits(n: int64, prec: int) returns (f: real, unit: string)
    ensures n == 0 ==> f == 0.0 && unit == ""
    ensures n != 0 ==> UnitIndex(Abs(n)) < |UNITS| && unit == UNITS[UnitIndex(Abs(n))] && f == Scaled(n, prec)
  {
    if n == 0 { return 0.0, ""; }
    var u;
    f, u := DivideDown(n);
    UnitIndexSmall(n);
    f, unit := RoundDown(f, prec), UNITS[u];
  }

  /** Two decimals, rounded down. */
  function Hundredths(f: real): real {
    (f * 100.0).Floor as real / 100.0
  }

  lemma RoundDownTwo(f: real)
    ensures RoundDown(f, 2) == Hundredths(f)
  {
    assert Pow(10, 1) == 10 * Pow(10, 0);
    assert Pow(10, 2) == 10 * Pow(10, 1) == 100;
  }

  /** The size quota written for a positive limit. */
  function Encode(n: int64): SizeQuota
    requires n > 0
  {
    UnitIndexSmall(n);
    SizeQuota(Hundredths(n as real / Scale(UnitIndex(n))), UNITS[UnitIndex(n)])
  }

  /** The encoding is what GetBytesAndUnits returns with two decimals. */
  lemma EncodeIsScaled(n: int64)
    requires n > 0
    ensures UnitIndex(n) < |UNITS| && Encode(n) == SizeQuota(Scaled(n, 2), UNITS[UnitIndex(n)])
  {
    UnitIndexSmall(n);
    RoundDownTwo(n as real / Scale(UnitIndex(n)));
  }

  // ---------------------------------------------------------------- the decoder

  function UnitPower(unit: string): Option<nat> {
    if unit == "" then Some(0)
    else if unit == "K" then Some(1)
    else if unit == "M" then Some(2)
    else if unit == "G" then Some(3)
    else if unit == "T" then Some(4)
    else if unit == "P" then Some(5)
    else if unit == "E" then Some(6)
    else if unit == "Z" then Some(7)
    else if unit == "Y" then Some(8)
    else None
  }

  /** math.Round of a positive number. */
  function Round(f: real): int {
    (f + 0.5).Floor
  }

  /** QuotaSizeToBytes. */
  function Decode(q: Option<SizeQuota>): (r: Option<int>)
    ensures r.Some? ==> 0 <= r.value <= INT64_MAX
  {
    if q.None? || q.value.value <= 0.0 || UnitPower(q.value.unit).None? then None
    else
      var f := q.value.value * Scale(UnitPower(q.value.unit).value);
      if f > INT64_MAX as real then None else Some(Round(f))
  }

  lemma HundredthsRange(f: real)
    ensures f - 0.01 < Hundredths(f) <= f && (f >= 1.0 ==> Hundredths(f) >= 1.0)
  {
    if f >= 1.0 { assert (f * 100.0).Floor >= 100; }
  }

  /** A value less than a hundredth below a quotient loses less than a hundredth of the unit. */
  lemma FloorLoss(v: real, s: real, y: real, x: real)
    requires s > 0.0 && y * s == v && y - 0.01 < x
    ensures v - s / 100.0 < x * s
  {
    MulLt(y - 0.01, x, s);
    assert (y - 0.01) * s == y * s - 0.01 * s;
  }

  lemma FloorBelow(v: real, s: real, y: real, x: real)
    requires s > 0.0 && y * s == v && x <= y
    ensures x * s <= v
  {
    MulLe(x, y, s);
  }

  lemma QuotientRange(v: real, s: real, y: real)
    requires s > 0.0 && y * s == v && s <= v < 1024.0 * s
    ensures 1.0 <= y < 1024.0
  {
    if y < 1.0 { MulLt(y, 1.0, s); }
    if y >= 1024.0 { MulLe(1024.0, y, s); }
  }

  lemma DivMul(v: real, s: real)
    requires s > 0.0
    ensures v / s * s == v
  {
  }

  /** What rounding the quotient `f` of `v` by the unit `s` costs. */
  lemma ScaledLoss(v: real, s: real, f: real)
    requires s > 0.0 && f * s == v && s <= v < 1024.0 * s
    ensures 1.0 <= Hundredths(f) < 1024.0 && v - s / 100.0 < Hundredths(f) * s <= v
  {
    var x := Hundredths(f);
    QuotientRange(v, s, f);
    HundredthsRange(f);
    FloorLoss(v, s, f, x);
    FloorBelow(v, s, f, x);
  }

  lemma UnitRange(n: nat)
    requires n > 0
    ensures Scale(UnitIndex(n)) <= n as real < 1024.0 * Scale(UnitIndex(n))
  {
    UnitIndexBounds(n);
    ScaleNext(UnitIndex(n));
  }

  /** `x` units of `s` are within a hundredth of a unit of `v`, and not above it. */
  predicate Close(v: real, s: real, x: real) {
    1.0 <= x < 1024.0 && v - s / 100.0 < x * s <= v
  }

  lemma QuotientClose(v: real, s: real)
    requires s > 0.0 && s <= v < 1024.0 * s
    ensures Close(v, s, Hundredths(v / s))
  {
    DivMul(v, s);
    ScaledLoss(v, s, v / s);
  }

  lemma EncodedClose(n: int64)
    requires n > 0
    ensures Close(n as real, Scale(UnitIndex(n)), Encode(n).value)
  {
    UnitRange(n);
    QuotientClose(n as real, Scale(UnitIndex(n)));
  }

  lemma UnitPowerOf(k: nat)
    requires k < |UNITS|
    ensures UnitPower(UNITS[k]) == Some(k)
  {
  }

  /** Rounding a positive number that does not exceed an integer. */
  lemma RoundBelow(f: real, n: int)
    requires f <= n as real
    ensures Round(f) <= n && Round(f) as real >= f - 0.5
  {
  }

  lemma RoundClose(n: int, s: real, x: real)
    requires Close(n as real, s, x)
    ensures Round(x * s) <= n && Round(x * s) as real > n as real - s / 100.0 - 0.5
  {
    RoundBelow(x * s, n);
  }

  lemma DecodeProduct(q: SizeQuota, k: nat, f: real)
    requires q.value > 0.0 && UnitPower(q.unit) == Some(k) && f == q.value * Scale(k) && f <= INT64_MAX as real
    ensures Decode(Some(q)) == Some(Round(f))
  {
  }

  /** What decoding makes of a value and unit close to `n`. */
  lemma DecodeClose(q: SizeQuota, k: nat, n: int64)
    requires UnitPower(q.unit) == Some(k) && Close(n as real, Scale(k), q.value)
    ensures var m := Decode(Some(q)); m.Some? && m.value <= n && m.value as real > n as real - Scale(k) / 100.0 - 0.5
  {
    RoundClose(n, Scale(k), q.value);
    DecodeProduct(q, k, q.value * Scale(k));
  }

  /**
   Every positive int64 limit is encoded with a unit of at most E and a value in [1, 1024); decoding
   it always succeeds, never exceeds the limit, and falls short of it by less than a hundredth of
   the unit plus one half.
   */
  lemma EncodingBound(n: int64)
    requires n > 0
    ensures UnitIndex(n) <= 6 && UnitPower(Encode(n).unit) == Some(UnitIndex(n))
    ensures 1.0 <= Encode(n).value < 1024.0
    ensures var m := Decode(Some(Encode(n)));
            m.Some? && m.value <= n && m.value as real > n as real - Scale(UnitIndex(n)) / 100.0 - 0.5
  {
    var k, q := UnitIndex(n), Encode(n);
    UnitIndexSmall(n);
    UnitPowerOf(k);
    EncodedClose(n);
    DecodeClose(q, k, n);
  }

  /** Below 1024 bytes nothing is lost. */
  lemma SmallExact(n: int64)
    requires 0 < n < 1024
    ensures Decode(Some(Encode(n))) == Some(n)
  {
    assert Scale(0) == 1.0 && n as real / 1.0 == n as real;
    assert (n as real * 100.0).Floor == n * 100;
    UnitPowerOf(0);
  }

  // ---------------------------------------------------------------- the core's integers

  const PETA := 1024 * 1024 * 1024 * 1024 * 1024

  datatype BigInt = BigInt(n: int, peta: int)

  /** ToBig, of a pointer that may be nil. */
  function ToBig(b: Option<BigInt>): int {
    if b.None? then 0 else b.value.n + b.value.peta * PETA
  }

  function FromUInt64(v: nat): BigInt {
    BigInt(v % PETA, v / PETA)
  }

  /** int64 arithmetic wraps around. */
  function Wrap(x: int): int {
    (x + 0x8000_0000_0000_0000) % 0x1_0000_0000_0000_0000 - 0x8000_0000_0000_0000
  }

  /** The sum ToString and BigIntToHumanBytes compute, in int64. */
  function ToInt64(b: BigInt): int {
    Wrap(b.n + Wrap(b.peta * PETA))
  }

  /** The two-word form is exact for every uint64; the int64 sum printed from it is exact only below 2^63. */
  lemma BigIntExact(v: nat)
    requires v < 0x1_0000_0000_0000_0000
    ensures ToBig(Some(FromUInt64(v))) == v
    ensures ToInt64(FromUInt64(v)) == v <==> v <= INT64_MAX
  {
  }

  /** The JSON forms: a bare integer, or an object with both words. */
  datatype Json = Number(i: int) | Object(n: int, peta: int)

  function Marshal(b: BigInt): Json {
    if b.peta == 0 then Number(b.n) else Object(b.n, b.peta)
  }

  function Unmarshal(j: Json): BigInt {
    match j
    case Number(i) => BigInt(i, 0)
    case Object(n, peta) => BigInt(n, peta)
  }

  /** Decoding inverts encoding, and re-encoding keeps the value of whatever was decoded. */
  lemma BigIntJson(b: BigInt, j: Json)
    ensures Unmarshal(Marshal(b)) == b
    ensures ToBig(Some(Unmarshal(Marshal(Unmarshal(j))))) == ToBig(Some(Unmarshal(j)))
  {
  }
}
