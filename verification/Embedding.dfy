/** The local text embedding: signed feature hashing into 1024 components, scaled
    to unit length and rounded to eight decimals, in real arithmetic. */
module Embedding {
  import opened Text
  import Normalization

  const DIMENSION: nat := 1024

  // ---------- features ----------

  /** Words, then every substring of four characters. */
  function Features(t: Chars, compact: string): seq<string> {
    var n := if |compact| < 3 then 0 else |compact| - 3;
    Words(t.space, compact) + seq(n, i requires 0 <= i < n => compact[i..i + 4])
  }

  function BigEndian(bytes: seq<nat>): nat {
    if bytes == [] then 0 else 256 * BigEndian(bytes[..|bytes| - 1]) + bytes[|bytes| - 1]
  }

  function Slot(d: seq<nat>): (k: nat)
    requires |d| == 8
    ensures k < DIMENSION
  {
    BigEndian(d[..4]) % DIMENSION
  }

  function Sign(d: seq<nat>): int
    requires |d| == 8
  {
    if d[4] % 2 == 1 then 1 else -1
  }

  /** The signed count of the features that fall into slot k. */
  function Count(features: seq<string>, digest: string -> seq<nat>, k: nat): int
    requires forall f :: |digest(f)| == 8
  {
    if features == [] then 0
    else
      var d := digest(features[|features| - 1]);
      Count(features[..|features| - 1], digest, k) + if Slot(d) == k then Sign(d) else 0
  }

  function Counts(features: seq<string>, digest: string -> seq<nat>): (v: seq<int>)
    requires forall f :: |digest(f)| == 8
    ensures |v| == DIMENSION
  {
    seq(DIMENSION, k requires 0 <= k < DIMENSION => Count(features, digest, k))
  }

  function Abs(x: int): nat { if x < 0 then -x else x }

  function AbsSum(v: seq<int>): nat { if v == [] then 0 else Abs(v[0]) + AbsSum(v[1..]) }

  lemma {:induction false} AbsSumUpdate(v: seq<int>, k: nat, x: int)
    requires k < |v|
    ensures AbsSum(v[k := x]) == AbsSum(v) - Abs(v[k]) + Abs(x)
  {
    if k == 0 {
    } else {
      assert v[k := x][1..] == v[1..][k - 1 := x];
      AbsSumUpdate(v[1..], k - 1, x);
    }
  }

  lemma {:induction false} AbsSumZeros(v: seq<int>)
    requires forall k | 0 <= k < |v| :: v[k] == 0
    ensures AbsSum(v) == 0
  {
    if v == [] {
    } else {
      AbsSumZeros(v[1..]);
    }
  }

  /** Collisions cancel or add up; the counts never outnumber the features. */
  lemma {:induction false} CountsBounded(features: seq<string>, digest: string -> seq<nat>)
    requires forall f :: |digest(f)| == 8
    ensures AbsSum(Counts(features, digest)) <= |features|
  {
    var v := Counts(features, digest);
    if features == [] {
      AbsSumZeros(v);
    } else {
      var n := |features| - 1;
      var d := digest(features[n]);
      var u := Counts(features[..n], digest);
      CountsBounded(features[..n], digest);
      assert v == u[Slot(d) := u[Slot(d)] + Sign(d)];
      AbsSumUpdate(u, Slot(d), u[Slot(d)] + Sign(d));
    }
  }

  // ---------- length ----------

  function SquareSum(v: seq<real>): (s: real)
    ensures s >= 0.0
  {
    if v == [] then 0.0 else Square(v[0]) + SquareSum(v[1..])
  }

  function Square(x: real): (s: real)
    ensures s >= 0.0
  {
    x * x
  }

  /** round(x, 8): the nearest multiple of 10^-8, ties to the even one. */
  function Round8(x: real): real {
    var scaled := x * 100000000.0;
    var low := scaled.Floor;
    var up := scaled - low as real;
    (if up < 0.5 || (up == 0.5 && low % 2 == 0) then low else low + 1) as real / 100000000.0
  }

  /** The nearest multiple, and of two equally near ones the even one. */
  lemma RoundNearest(x: real) returns (n: int)
    ensures Round8(x) == n as real / 100000000.0 && -0.5 <= x * 100000000.0 - n as real <= 0.5
    ensures x * 100000000.0 - n as real == 0.5 || n as real - x * 100000000.0 == 0.5 ==> n % 2 == 0
  {
    var scaled := x * 100000000.0;
    var low := scaled.Floor;
    var up := scaled - low as real;
    n := if up < 0.5 || (up == 0.5 && low % 2 == 0) then low else low + 1;
  }

  lemma RoundError(x: real)
    ensures -0.000000005 <= Round8(x) - x <= 0.000000005
  {
  }

  function Reals(v: seq<int>): (r: seq<real>)
    ensures |r| == |v|
  {
    seq(|v|, k requires 0 <= k < |v| => v[k] as real)
  }

  function Scaled(v: seq<real>, m: real): (r: seq<real>)
    requires m != 0.0
    ensures |r| == |v|
  {
    seq(|v|, k requires 0 <= k < |v| => v[k] / m)
  }

  function Rounded(v: seq<real>): (r: seq<real>)
    ensures |r| == |v|
  {
    seq(|v|, k requires 0 <= k < |v| => Round8(v[k]))
  }

  /** Dividing by m divides the sum of squares by d == m * m. */
  lemma {:induction false} ScaledSquares(v: seq<real>, m: real, d: real)
    requires m != 0.0 && d == Square(m)
    ensures SquareSum(Scaled(v, m)) * d == SquareSum(v)
  {
    if v == [] {
    } else {
      assert Scaled(v, m)[1..] == Scaled(v[1..], m);
      ScaledSquares(v[1..], m, d);
      ScaledSquare(v[0], m, d);
    }
  }

  lemma ScaledSquare(x: real, m: real, d: real)
    requires m != 0.0 && d == Square(m)
    ensures Square(x / m) * d == Square(x)
  {
    var y := x / m;
    assert y * m == x;
    assert (y * y) * (m * m) == (y * m) * (y * m);
  }

  /** How far rounding one component can move its square, by 2ue <= tu^2 + e^2/t. */
  lemma RoundedSquare(u: real)
    ensures Square(Round8(u)) - Square(u) <= 0.00000016 * Square(u) + 0.0000000001563
    ensures Square(u) - Square(Round8(u)) <= 0.00000016 * Square(u) + 0.0000000001563
  {
    var e := Round8(u) - u;
    RoundError(u);
    SmallProducts(u, e);
    assert Square(Round8(u)) == (u + e) * (u + e) == u * u + 2.0 * (u * e) + e * e;
  }

  lemma SmallProducts(u: real, e: real)
    requires -0.000000005 <= e <= 0.000000005
    ensures 0.0 <= e * e <= 0.000000000000000025
    ensures 2.0 * (u * e) <= 0.00000016 * (u * u) + 0.00000000015625
    ensures -2.0 * (u * e) <= 0.00000016 * (u * u) + 0.00000000015625
  {
    NonNegative(0.000000005 - e, 0.000000005 + e);
    assert (0.000000005 - e) * (0.000000005 + e) == 0.000000000000000025 - e * e;
    var x := 0.00000016 * u;
    assert (x - e) * (x - e) == x * x - 2.0 * (x * e) + e * e;
    assert (x + e) * (x + e) == x * x + 2.0 * (x * e) + e * e;
    assert x * x == 0.00000016 * (0.00000016 * (u * u)) && x * e == 0.00000016 * (u * e);
    NonNegativeSquare(x - e);
    NonNegativeSquare(x + e);
    NonNegativeSquare(e);
  }

  lemma NonNegative(x: real, y: real)
    requires x >= 0.0 && y >= 0.0
    ensures x * y >= 0.0
  {
  }

  lemma NonNegativeSquare(x: real)
    ensures x * x >= 0.0
  {
  }

  lemma {:induction false} RoundedSquares(v: seq<real>)
    ensures SquareSum(Rounded(v)) - SquareSum(v) <= 0.00000016 * SquareSum(v) + 0.0000000001563 * |v| as real
    ensures SquareSum(v) - SquareSum(Rounded(v)) <= 0.00000016 * SquareSum(v) + 0.0000000001563 * |v| as real
  {
    if v == [] {
    } else {
      assert Rounded(v)[1..] == Rounded(v[1..]);
      RoundedSquares(v[1..]);
      RoundedSquare(v[0]);
    }
  }

  // ---------- hash_embedding ----------

  ghost predicate SquareRoot(sqrt: real -> real) {
    forall x: real :: x >= 0.0 ==> sqrt(x) >= 0.0 && sqrt(x) * sqrt(x) == x
  }

  /** The features of a text whose NFKC form is `value`. The second collapsing of
      white space is the source's own; see CompactAlready. */
  function FeaturesOf(t: Chars, value: string): seq<string> {
    Features(t, Trim(t.space, Normalization.Collapsed(t, Normalization.Normalize(t, value))))
  }

  /** The unit vector in the direction of the counts, rounded; zero when they cancel. */
  function EmbeddingOf(counts: seq<int>, sqrt: real -> real): (out: seq<real>) {
    var m := sqrt(SquareSum(Reals(counts)));
    if m == 0.0 then Reals(counts) else Rounded(Scaled(Reals(counts), m))
  }

  method HashEmbedding(t: Chars, value: string, digest: string -> seq<nat>, sqrt: real -> real) returns (out: seq<real>)
    requires forall f :: |digest(f)| == 8
    ensures out == EmbeddingOf(Counts(FeaturesOf(t, value), digest), sqrt)
  {
    hide Trim, Normalization.Normalize, Normalization.Collapsed, Features, SquareSum, Scaled, Rounded, BigEndian;
    var compact := Trim(t.space, Normalization.Collapsed(t, Normalization.Normalize(t, value)));
    var features := Features(t, compact);
    var vector := new real[DIMENSION](_ => 0.0);
    for i := 0 to |features|
      invariant forall k | 0 <= k < DIMENSION :: vector[k] == Count(features[..i], digest, k) as real
    {
      var d := digest(features[i]);
      assert features[..i + 1][..i] == features[..i];
      vector[Slot(d)] := vector[Slot(d)] + Sign(d) as real;
    }
    assert features[..|features|] == features;
    assert vector[..] == Reals(Counts(features, digest));
    var magnitude := sqrt(SquareSum(vector[..]));
    out := if magnitude == 0.0 then vector[..] else Rounded(Scaled(vector[..], magnitude));
  }

  // ---------- results ----------

  lemma Positive(x: real, y: real, z: real)
    requires x > 0.0 && y > 0.0 && z == x * y
    ensures z > 0.0
  {
    assert x * y > 0.0;
  }

  lemma SquareZero(x: real)
    ensures Square(x) == 0.0 <==> x == 0.0
  {
    if x > 0.0 { Positive(x, x, Square(x)); }
    if x < 0.0 { Positive(-x, -x, Square(x)); }
  }

  ghost predicate Zero(v: seq<real>) { forall k | 0 <= k < |v| :: v[k] == 0.0 }

  lemma {:induction false} ZeroSquares(v: seq<real>)
    ensures SquareSum(v) == 0.0 <==> Zero(v)
  {
    hide Square;
    if v == [] {
    } else {
      ZeroSquares(v[1..]);
      SquareZero(v[0]);
      assert v == [v[0]] + v[1..];
      assert Zero(v) <==> v[0] == 0.0 && Zero(v[1..]);
    }
  }

  /** Length 1 up to 4e-7 in its square, except for the zero vector, which is
      returned exactly when all counts cancel. */
  lemma UnitLength(features: seq<string>, digest: string -> seq<nat>, sqrt: real -> real)
    requires SquareRoot(sqrt) && forall f :: |digest(f)| == 8
    ensures var counts := Counts(features, digest);
      var out := EmbeddingOf(counts, sqrt);
      && |out| == DIMENSION
      && if Zero(Reals(counts)) then Zero(out) else -0.0000004 <= SquareSum(out) - 1.0 <= 0.0000004
  {
    hide Square, SquareSum, Count, Counts, SquareRoot;
    var v := Reals(Counts(features, digest));
    var q := SquareSum(v);
    var m := sqrt(q);
    ZeroSquares(v);
    SquareZero(m);
    RootSquared(sqrt, q);
    if m != 0.0 {
      ScaledUnit(v, m, q);
      RoundedSquares(Scaled(v, m));
    }
  }

  lemma ScaledUnit(v: seq<real>, m: real, q: real)
    requires m != 0.0 && Square(m) == q && SquareSum(v) == q && q != 0.0
    ensures SquareSum(Scaled(v, m)) == 1.0
  {
    hide Square, SquareSum, Scaled;
    ScaledSquares(v, m, q);
    UnitFromSquares(SquareSum(Scaled(v, m)), q, SquareSum(v));
  }

  lemma RootSquared(sqrt: real -> real, q: real)
    requires SquareRoot(sqrt) && q >= 0.0
    ensures Square(sqrt(q)) == q
  {
  }

  lemma UnitFromSquares(s: real, d: real, p: real)
    requires s * d == p && p == d && d != 0.0
    ensures s == 1.0
  {
  }

  /** The text to embed is already compact: collapsing and trimming it again does nothing. */
  lemma CompactAlready(t: Chars, value: string)
    requires Normalization.Tables(t)
    ensures FeaturesOf(t, value) == Features(t, Normalization.Normalize(t, value))
  {
    var s := Normalization.Normalize(t, value);
    Normalization.NormalizeIsNormal(t, value);
    Normalization.SpacedCollapsed(t, s, 0, 0);
    var a, b := TrimSlice(t.space, s);
  }

  // ---------- the features, on the text ----------

  /** The words, then the substring of four characters at every place that has one. */
  lemma FeaturesAre(t: Chars, compact: string)
    ensures var f, ws := Features(t, compact), Words(t.space, compact);
      && |f| == |ws| + (if |compact| >= 4 then |compact| - 3 else 0) && f[..|ws|] == ws
      && forall j | |ws| <= j < |f| :: f[j] == compact[j - |ws|..j - |ws| + 4]
  {
    hide Words;
  }

  predicate Falls(digest: string -> seq<nat>, f: string, k: nat, odd: bool)
    requires |digest(f)| == 8
  {
    var d := digest(f);
    (((d[0] * 256 + d[1]) * 256 + d[2]) * 256 + d[3]) % 1024 == k && (d[4] % 2 == 1) == odd
  }

  /** The features that fall into slot k with that sign. */
  function Falling(features: seq<string>, digest: string -> seq<nat>, k: nat, odd: bool): set<nat>
    requires forall f :: |digest(f)| == 8
  {
    set i: nat | i < |features| && Falls(digest, features[i], k, odd)
  }

  /** A slot holds the features that fall into it with an odd fifth byte, less the others. */
  lemma {:induction false} CountIs(features: seq<string>, digest: string -> seq<nat>, k: nat)
    requires forall f :: |digest(f)| == 8
    ensures Count(features, digest, k) ==
      |Falling(features, digest, k, true)| - |Falling(features, digest, k, false)|
  {
    if features == [] {
      assert Falling(features, digest, k, true) == {} && Falling(features, digest, k, false) == {};
    } else {
      var n := |features| - 1;
      CountIs(features[..n], digest, k);
      FallingNext(features, digest, k, true);
      FallingNext(features, digest, k, false);
      SlotIs(digest(features[n]));
    }
  }

  lemma FallingNext(features: seq<string>, digest: string -> seq<nat>, k: nat, odd: bool)
    requires features != [] && forall f :: |digest(f)| == 8
    ensures var n := |features| - 1;
      |Falling(features, digest, k, odd)| ==
        |Falling(features[..n], digest, k, odd)| + if Falls(digest, features[n], k, odd) then 1 else 0
  {
    hide Falls;
    var n := |features| - 1;
    assert Falling(features, digest, k, odd) ==
      Falling(features[..n], digest, k, odd) + if Falls(digest, features[n], k, odd) then {n} else {};
  }

  lemma SlotIs(d: seq<nat>)
    requires |d| == 8
    ensures Slot(d) == (((d[0] * 256 + d[1]) * 256 + d[2]) * 256 + d[3]) % 1024
    ensures Sign(d) == if d[4] % 2 == 1 then 1 else -1
  {
    var z, a, b, c := d[..4], d[..3], d[..2], d[..1];
    LastByte(z);
    LastByte(a);
    LastByte(b);
    LastByte(c);
    assert z[..3] == a && a[..2] == b && b[..1] == c && c[..0] == [];
  }

  lemma LastByte(b: seq<nat>)
    requires b != []
    ensures BigEndian(b) == 256 * BigEndian(b[..|b| - 1]) + b[|b| - 1] && BigEndian([]) == 0
  {
  }
}
