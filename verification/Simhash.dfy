/** The 64-bit similarity hash of a message: a bitwise majority vote of the
    hashes of its trigrams, read as a signed integer. */
module Simhash {

  function Pow2(n: nat): (p: nat)
    ensures p > 0
  {
    if n == 0 then 1 else 2 * Pow2(n - 1)
  }

  /** Bit b of h: whether h halved b times is odd. */
  predicate Bit(h: nat, b: nat) { if b == 0 then h % 2 == 1 else Bit(h / 2, b - 1) }

  /** The substrings of length three, or the whole value when it is shorter. */
  function Trigrams(value: string): (tokens: seq<string>)
    ensures |tokens| > 0
  {
    var n := if |value| < 3 then 1 else |value| - 2;
    seq(n, i requires 0 <= i < n => value[i..if i + 3 <= |value| then i + 3 else |value|])
  }

  // ---------- counting votes ----------

  function Ones(tokens: seq<string>, hash: string -> nat, b: nat): nat {
    if tokens == [] then 0 else (if Bit(hash(tokens[0]), b) then 1 else 0) + Ones(tokens[1..], hash, b)
  }

  /** At least half of the tokens have bit b. */
  predicate Majority(tokens: seq<string>, hash: string -> nat, b: nat) { 2 * Ones(tokens, hash, b) >= |tokens| }

  function Score(tokens: seq<string>, hash: string -> nat, b: nat): int { 2 * Ones(tokens, hash, b) - |tokens| }

  lemma {:induction false} OnesSplit(s: seq<string>, t: seq<string>, hash: string -> nat, b: nat)
    ensures Ones(s + t, hash, b) == Ones(s, hash, b) + Ones(t, hash, b)
  {
    if s == [] {
      assert s + t == t;
    } else {
      assert (s + t)[1..] == s[1..] + t;
      OnesSplit(s[1..], t, hash, b);
    }
  }

  lemma OneMore(tokens: seq<string>, i: nat, hash: string -> nat, b: nat)
    requires i < |tokens|
    ensures Score(tokens[..i + 1], hash, b) == Score(tokens[..i], hash, b) + (if Bit(hash(tokens[i]), b) then 1 else -1)
  {
    assert tokens[..i + 1] == tokens[..i] + [tokens[i]];
    OnesSplit(tokens[..i], [tokens[i]], hash, b);
    assert Ones([tokens[i]], hash, b) == (if Bit(hash(tokens[i]), b) then 1 else 0) + Ones([], hash, b);
  }

  lemma OnesWithout(t: seq<string>, k: nat, hash: string -> nat, b: nat)
    requires k < |t|
    ensures Ones(t, hash, b) == Ones(t[..k] + t[k + 1..], hash, b) + (if Bit(hash(t[k]), b) then 1 else 0)
  {
    assert t == t[..k] + t[k..];
    OnesSplit(t[..k], t[k..], hash, b);
    OnesSplit(t[..k], t[k + 1..], hash, b);
  }

  lemma WithoutMultiset(t: seq<string>, k: nat)
    requires k < |t|
    ensures multiset(t[..k] + t[k + 1..]) == multiset(t) - multiset{t[k]}
  {
    assert t == t[..k] + [t[k]] + t[k + 1..];
  }

  lemma Removed(s: seq<string>, t: seq<string>) returns (k: nat)
    requires s != [] && multiset(s) == multiset(t)
    ensures k < |t| && t[k] == s[0] && multiset(s[1..]) == multiset(t[..k] + t[k + 1..])
  {
    assert s[0] in multiset(t);
    k :| 0 <= k < |t| && t[k] == s[0];
    WithoutMultiset(t, k);
    WithoutMultiset(s, 0);
    assert s[..0] + s[1..] == s[1..];
  }

  lemma {:induction false} OnesOfMultiset(s: seq<string>, t: seq<string>, hash: string -> nat, b: nat)
    requires multiset(s) == multiset(t)
    ensures Ones(s, hash, b) == Ones(t, hash, b)
  {
    if s == [] {
      assert |t| == |multiset(t)| == 0;
    } else {
      var k := Removed(s, t);
      OnesOfMultiset(s[1..], t[..k] + t[k + 1..], hash, b);
      OnesWithout(t, k, hash, b);
    }
  }

  // ---------- numbers from bits ----------

  /** The number whose bits are f(lo), f(lo + 1), ..., f(n - 1), lowest first. */
  function FromBits(f: nat -> bool, lo: nat, n: nat): (u: nat)
    requires lo <= n
    ensures u < Pow2(n - lo)
    decreases n - lo
  {
    if lo == n then 0 else (if f(lo) then 1 else 0) + 2 * FromBits(f, lo + 1, n)
  }

  lemma {:induction false} BitsOf(f: nat -> bool, lo: nat, n: nat, b: nat)
    requires lo <= b < n
    ensures Bit(FromBits(f, lo, n), b - lo) == f(b)
    decreases n - lo
  {
    if lo < b { BitsOf(f, lo + 1, n, b); }
  }

  lemma {:induction false} SameBits(f: nat -> bool, g: nat -> bool, lo: nat, n: nat)
    requires lo <= n && forall b: nat :: f(b) == g(b)
    ensures FromBits(f, lo, n) == FromBits(g, lo, n)
    decreases n - lo
  {
    if lo < n { SameBits(f, g, lo + 1, n); }
  }

  // ---------- simhash64 ----------

  /** Two's complement reading of an unsigned number of n + 1 bits. */
  function Signed(u: nat, n: nat): int { if u >= Pow2(n) then u - Pow2(n + 1) else u }

  function Votes(tokens: seq<string>, hash: string -> nat): nat -> bool { (b: nat) => Majority(tokens, hash, b) }

  function Hash(value: string, hash: string -> nat): int { Signed(FromBits(Votes(Trigrams(value), hash), 0, 64), 63) }

  method Simhash64(value: string, hash: string -> nat) returns (r: int)
    ensures r == Hash(value, hash)
  {
    hide *;
    HashIs(value, hash);
    var tokens := Trigrams(value);
    var vector := new int[64](_ => 0);
    NoVotes(tokens, hash);
    for i := 0 to |tokens|
      invariant forall b | 0 <= b < 64 :: vector[b] == Score(tokens[..i], hash, b)
    {
      var hashed := hash(tokens[i]);
      for bit := 0 to 64
        invariant forall b | 0 <= b < bit :: vector[b] == Score(tokens[..i + 1], hash, b)
        invariant forall b | bit <= b < 64 :: vector[b] == Score(tokens[..i], hash, b)
      {
        OneMore(tokens, i, hash, bit);
        vector[bit] := vector[bit] + if Bit(hashed, bit) then 1 else -1;
      }
    }
    assert tokens[..|tokens|] == tokens;
    var unsigned, power := 0, 1;
    ghost var f := Votes(tokens, hash);
    Doubled(0);
    for bit := 0 to 64
      invariant power == Pow2(bit)
      invariant forall b | 0 <= b < 64 :: vector[b] == Score(tokens, hash, b)
      invariant unsigned + Times(power, FromBits(f, bit, 64)) == FromBits(f, 0, 64)
    {
      Doubled(bit);
      NextBit(tokens, hash, bit, 64, power);
      if vector[bit] >= 0 { unsigned := unsigned + power; }
      power := 2 * power;
    }
    Doubled(63);
    NoBits(f, 64, power);
    SignedIs(unsigned, 63);
    r := if unsigned >= power / 2 then unsigned - power else unsigned;
  }

  lemma HashIs(value: string, hash: string -> nat)
    ensures Hash(value, hash) == Signed(FromBits(Votes(Trigrams(value), hash), 0, 64), 63)
  {
  }

  function Times(x: nat, y: nat): nat { x * y }

  lemma Doubled(n: nat)
    ensures Pow2(0) == 1 && Pow2(n + 1) == 2 * Pow2(n)
    ensures forall x :: Times(1, x) == x
  {
  }

  lemma NoVotes(tokens: seq<string>, hash: string -> nat)
    ensures forall b :: Score(tokens[..0], hash, b) == 0
  {
  }

  lemma NoBits(f: nat -> bool, n: nat, power: nat)
    ensures Times(power, FromBits(f, n, n)) == 0
  {
  }

  lemma SignedIs(u: nat, n: nat)
    ensures Signed(u, n) == if u >= Pow2(n) then u - Pow2(n + 1) else u
  {
  }

  lemma NextBit(tokens: seq<string>, hash: string -> nat, bit: nat, n: nat, power: nat)
    requires bit < n
    ensures var f := Votes(tokens, hash);
      Times(power, FromBits(f, bit, n))
      == (if Score(tokens, hash, bit) >= 0 then power else 0) + Times(2 * power, FromBits(f, bit + 1, n))
  {
    var rest := FromBits(Votes(tokens, hash), bit + 1, n);
    assert power * (2 * rest) == 2 * power * rest;
    assert power * (1 + 2 * rest) == power + power * (2 * rest);
  }

  // ---------- what the number says ----------

  /** The bit pattern of a two's-complement number of n + 1 bits. */
  function Unsigned(r: int, n: nat): int { if r < 0 then r + Pow2(n + 1) else r }

  lemma SignedRange(u: nat, n: nat)
    requires u < Pow2(n + 1)
    ensures 0 <= Signed(u, n) + Pow2(n) && Signed(u, n) < Pow2(n) && Unsigned(Signed(u, n), n) == u
  {
    hide Pow2;
    Doubled(n);
  }

  /** Bit b of the two's-complement result is set exactly when at least half of
      the trigram hashes have it, and the result fits a signed 64-bit column. */
  lemma IsMajorityVote(value: string, hash: string -> nat, b: nat)
    requires b < 64
    ensures var r := Hash(value, hash);
      && 0 <= r + Pow2(63) && r < Pow2(63)
      && 0 <= Unsigned(r, 63) && (Bit(Unsigned(r, 63), b) <==> Majority(Trigrams(value), hash, b))
  {
    hide Pow2;
    var f := Votes(Trigrams(value), hash);
    SignedRange(FromBits(f, 0, 64), 63);
    BitsOf(f, 0, 64, b);
  }

  /** The order of the trigrams does not matter. */
  lemma OrderIrrelevant(v: string, w: string, hash: string -> nat)
    requires multiset(Trigrams(v)) == multiset(Trigrams(w))
    ensures Hash(v, hash) == Hash(w, hash)
  {
    forall b: nat ensures Votes(Trigrams(v), hash)(b) == Votes(Trigrams(w), hash)(b) {
      OnesOfMultiset(Trigrams(v), Trigrams(w), hash, b);
      assert |Trigrams(v)| == |multiset(Trigrams(v))| == |multiset(Trigrams(w))| == |Trigrams(w)|;
    }
    SameBits(Votes(Trigrams(v), hash), Votes(Trigrams(w), hash), 0, 64);
  }

  predicate Votes3(value: string, hash: string -> nat, b: nat, i: nat) {
    i + 3 <= |value| && Bit(hash(value[i..i + 3]), b)
  }

  /** The places at which a substring of three characters begins whose hash has bit b. */
  function Places(value: string, hash: string -> nat, b: nat): set<nat> {
    set i: nat | i < |value| && Votes3(value, hash, b, i)
  }

  function PlacesBelow(value: string, hash: string -> nat, b: nat, n: nat): set<nat> {
    set i: nat | i < n && Votes3(value, hash, b, i)
  }

  lemma PlacesNext(value: string, hash: string -> nat, b: nat, m: nat)
    requires m + 3 <= |value|
    ensures |PlacesBelow(value, hash, b, m + 1)| ==
      |PlacesBelow(value, hash, b, m)| + if Bit(hash(value[m..m + 3]), b) then 1 else 0
  {
    hide Bit;
    assert PlacesBelow(value, hash, b, m + 1) ==
      PlacesBelow(value, hash, b, m) + if Votes3(value, hash, b, m) then {m} else {};
  }

  lemma {:induction false} OnesArePlaces(value: string, hash: string -> nat, b: nat, n: nat)
    requires |value| >= 3 && n <= |value| - 2
    ensures Ones(Trigrams(value)[..n], hash, b) == |PlacesBelow(value, hash, b, n)|
  {
    hide Bit;
    if n == 0 {
      assert PlacesBelow(value, hash, b, 0) == {};
    } else {
      var m := n - 1;
      var tokens, token := Trigrams(value), value[m..m + 3];
      OnesArePlaces(value, hash, b, m);
      assert tokens[..n] == tokens[..m] + [token];
      OnesSplit(tokens[..m], [token], hash, b);
      assert Ones([token], hash, b) == (if Bit(hash(token), b) then 1 else 0) + Ones([], hash, b);
      PlacesNext(value, hash, b, m);
    }
  }

  /** On the text itself: bit b is set exactly when, of the places where three characters
      begin, at least half have a substring whose hash has it; a shorter text counts as
      one token. */
  lemma IsMajorityOfPlaces(value: string, hash: string -> nat, b: nat)
    requires b < 64
    ensures 0 <= Unsigned(Hash(value, hash), 63)
    ensures Bit(Unsigned(Hash(value, hash), 63), b) <==>
      if |value| < 3 then Bit(hash(value), b) else 2 * |Places(value, hash, b)| >= |value| - 2
  {
    hide Hash, Unsigned, Bit;
    IsMajorityVote(value, hash, b);
    if |value| < 3 {
      assert Trigrams(value) == [value] by { assert value[0..|value|] == value; }
      assert Ones([value], hash, b) == (if Bit(hash(value), b) then 1 else 0) + Ones([], hash, b);
    } else {
      OnesArePlaces(value, hash, b, |value| - 2);
      assert Trigrams(value)[..|value| - 2] == Trigrams(value);
      assert PlacesBelow(value, hash, b, |value| - 2) == Places(value, hash, b);
    }
  }
}
