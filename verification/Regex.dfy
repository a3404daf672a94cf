/** The part of Python's `re` the ingest patterns use: ordered backtracking over
    character classes, one character of look-behind and of look-ahead, and the
    leftmost non-overlapping scan of `Pattern.sub`. */
module Regex {
  import opened Text

  datatype Re =
    | Eps
    | One(chars: char -> bool)
    | Plus(chars: char -> bool)  // greedy, one or more
    | Seq(first: Re, second: Re)
    | Alt(left: Re, right: Re)   // the left branch is tried first

  function Opt(r: Re): Re { Alt(r, Eps) }

  function Lit(word: string): Re
    requires word != ""
  {
    var c := word[0];
    if |word| == 1 then One(x => x == c) else Seq(One(x => x == c), Lit(word[1..]))
  }

  /** r exactly n times. */
  function Times(r: Re, n: nat): Re
    requires n > 0
  {
    if n == 1 then r else Seq(r, Times(r, n - 1))
  }

  /** Every position where a match of r from i can end, in the order in which
      backtracking tries them. */
  function Ends(r: Re, s: string, i: nat): (ends: seq<nat>)
    requires i <= |s|
    ensures forall k | 0 <= k < |ends| :: i <= ends[k] <= |s|
    decreases r, 0, |s| - i
  {
    match r
    case Eps => [i]
    case One(p) => if i < |s| && p(s[i]) then [i + 1] else []
    case Plus(p) => if i < |s| && p(s[i]) then Ends(r, s, i + 1) + [i + 1] else []
    case Seq(a, b) => EndsFrom(b, s, Ends(a, s, i), i)
    case Alt(a, b) => Ends(a, s, i) + Ends(b, s, i)
  }

  function EndsFrom(r: Re, s: string, starts: seq<nat>, i: nat): (ends: seq<nat>)
    requires forall k | 0 <= k < |starts| :: i <= starts[k] <= |s|
    ensures forall k | 0 <= k < |ends| :: i <= ends[k] <= |s|
    decreases r, 1, |starts|
  {
    if starts == [] then [] else Ends(r, s, starts[0]) + EndsFrom(r, s, starts[1..], i)
  }

  lemma {:induction false} InEndsFrom(r: Re, s: string, starts: seq<nat>, i: nat, e: nat)
    requires forall k | 0 <= k < |starts| :: i <= starts[k] <= |s|
    ensures e in EndsFrom(r, s, starts, i) <==> exists k :: 0 <= k < |starts| && e in Ends(r, s, starts[k])
  {
    if starts == [] {
    } else {
      var rest := starts[1..];
      InEndsFrom(r, s, rest, i, e);
      if k :| 0 <= k < |rest| && e in Ends(r, s, rest[k]) {
        assert rest[k] == starts[k + 1];
      }
      if k :| 0 <= k < |starts| && e in Ends(r, s, starts[k]) {
        if k > 0 { assert starts[k] == rest[k - 1]; }
      }
    }
  }

  /** Sequencing, read as a relation. */
  lemma InSeq(a: Re, b: Re, s: string, i: nat, e: nat)
    requires i <= |s|
    ensures e in Ends(Seq(a, b), s, i) <==> exists m :: m in Ends(a, s, i) && e in Ends(b, s, m)
  {
    InEndsFrom(b, s, Ends(a, s, i), i, e);
  }

  lemma SplitSeq(a: Re, b: Re, s: string, i: nat, e: nat) returns (m: nat)
    requires i <= |s| && e in Ends(Seq(a, b), s, i)
    ensures m in Ends(a, s, i) && e in Ends(b, s, m)
  {
    InSeq(a, b, s, i, e);
    m :| m in Ends(a, s, i) && e in Ends(b, s, m);
  }

  lemma JoinSeq(a: Re, b: Re, s: string, i: nat, m: nat, e: nat)
    requires i <= |s| && m in Ends(a, s, i) && e in Ends(b, s, m)
    ensures e in Ends(Seq(a, b), s, i)
  {
    InSeq(a, b, s, i, e);
  }

  lemma InAlt(a: Re, b: Re, s: string, i: nat, e: nat)
    requires i <= |s|
    ensures e in Ends(Alt(a, b), s, i) <==> e in Ends(a, s, i) || e in Ends(b, s, i)
  {
  }

  lemma InOpt(r: Re, s: string, i: nat, e: nat)
    requires i <= |s|
    ensures e in Ends(Opt(r), s, i) <==> e in Ends(r, s, i) || e == i
  {
  }

  // ---------- what every match of an expression looks like ----------

  function MinLen(r: Re): nat {
    match r
    case Eps => 0
    case One(_) => 1
    case Plus(_) => 1
    case Seq(a, b) => MinLen(a) + MinLen(b)
    case Alt(a, b) => var x, y := MinLen(a), MinLen(b); if x < y then x else y
  }

  /** Every character of a match satisfies q. */
  ghost predicate Only(r: Re, q: char -> bool) {
    match r
    case Eps => true
    case One(p) => forall c :: p(c) ==> q(c)
    case Plus(p) => forall c :: p(c) ==> q(c)
    case Seq(a, b) => Only(a, q) && Only(b, q)
    case Alt(a, b) => Only(a, q) && Only(b, q)
  }

  /** A match is not empty and its last character satisfies q. */
  ghost predicate Last(r: Re, q: char -> bool) {
    match r
    case Eps => false
    case One(p) => forall c :: p(c) ==> q(c)
    case Plus(p) => forall c :: p(c) ==> q(c)
    case Seq(a, b) => Last(b, q)
    case Alt(a, b) => Last(a, q) && Last(b, q)
  }

  /** Matches are made of q characters, at least n of them. */
  ghost predicate Shape(r: Re, q: char -> bool, n: nat) { Only(r, q) && MinLen(r) == n }

  lemma SeqShape(a: Re, m: nat, b: Re, n: nat, q: char -> bool)
    requires Shape(a, q, m) && Shape(b, q, n)
    ensures Shape(Seq(a, b), q, m + n)
  {
  }

  lemma AltShape(a: Re, m: nat, b: Re, n: nat, q: char -> bool)
    requires Shape(a, q, m) && Shape(b, q, n)
    ensures Shape(Alt(a, b), q, if m < n then m else n)
    ensures Shape(Opt(a), q, 0)
  {
  }

  lemma {:induction false} LitShape(word: string, q: char -> bool)
    requires word != "" && forall i | 0 <= i < |word| :: q(word[i])
    ensures Shape(Lit(word), q, |word|)
  {
    if |word| > 1 {
      LitShape(word[1..], q);
    }
  }

  lemma LitFirst(word: string, s: string, i: nat, m: nat)
    requires word != "" && i <= |s| && m in Ends(Lit(word), s, i)
    ensures i < m && s[i] == word[0]
  {
    if |word| > 1 {
      var k := SplitSeq(Lit(word).first, Lit(word).second, s, i, m);
    }
  }

  lemma {:induction false} TimesShape(r: Re, n: nat, q: char -> bool)
    requires n > 0 && Only(r, q)
    ensures Shape(Times(r, n), q, n * MinLen(r))
    ensures Last(r, q) ==> Last(Times(r, n), q)
  {
    if n == 1 {
    } else {
      TimesShape(r, n - 1, q);
      OneMoreTime(n, MinLen(r));
    }
  }

  lemma OneMoreTime(n: nat, m: nat)
    requires n > 0
    ensures m + (n - 1) * m == n * m
  {
  }

  lemma {:induction false} MinLenBounds(r: Re, s: string, i: nat, e: nat)
    requires i <= |s| && e in Ends(r, s, i)
    ensures e - i >= MinLen(r)
  {
    match r
    case Eps =>
    case One(_) =>
    case Plus(_) =>
      if e != i + 1 { assert e in Ends(r, s, i + 1); }
    case Seq(a, b) =>
      var m := SplitSeq(a, b, s, i, e);
      MinLenBounds(a, s, i, m);
      MinLenBounds(b, s, m, e);
    case Alt(a, b) =>
      if e in Ends(a, s, i) { MinLenBounds(a, s, i, e); } else { MinLenBounds(b, s, i, e); }
  }

  lemma {:induction false} OnlyHolds(r: Re, q: char -> bool, s: string, i: nat, e: nat)
    requires i <= |s| && e in Ends(r, s, i) && Only(r, q)
    ensures forall k | i <= k < e :: q(s[k])
    decreases r, |s| - i
  {
    match r
    case Eps =>
    case One(_) =>
    case Plus(_) =>
      if e != i + 1 { OnlyHolds(r, q, s, i + 1, e); }
    case Seq(a, b) =>
      var m := SplitSeq(a, b, s, i, e);
      OnlyHolds(a, q, s, i, m);
      OnlyHolds(b, q, s, m, e);
    case Alt(a, b) =>
      if e in Ends(a, s, i) { OnlyHolds(a, q, s, i, e); } else { OnlyHolds(b, q, s, i, e); }
  }

  lemma {:induction false} LastHolds(r: Re, q: char -> bool, s: string, i: nat, e: nat)
    requires i <= |s| && e in Ends(r, s, i) && Last(r, q)
    ensures i < e && q(s[e - 1])
    decreases r, |s| - i
  {
    match r
    case One(_) =>
    case Plus(_) =>
      if e != i + 1 { LastHolds(r, q, s, i + 1, e); }
    case Seq(a, b) =>
      var m := SplitSeq(a, b, s, i, e);
      LastHolds(b, q, s, m, e);
    case Alt(a, b) =>
      if e in Ends(a, s, i) { LastHolds(a, q, s, i, e); } else { LastHolds(b, q, s, i, e); }
  }

  /** A match that consists of q characters has at most n of them. */
  ghost predicate AtMost(r: Re, q: char -> bool, n: nat) {
    forall s: string, i: nat, e: nat :: FitsIn(r, q, s, i, e) ==> e - i <= n
  }

  ghost predicate FitsIn(r: Re, q: char -> bool, s: string, i: nat, e: nat) {
    i <= |s| && e in Ends(r, s, i) && forall k | i <= k < e :: q(s[k])
  }

  lemma OneAtMost(p: char -> bool, q: char -> bool)
    ensures AtMost(One(p), q, 1)
    ensures (forall c :: p(c) ==> !q(c)) ==> AtMost(One(p), q, 0)
  {
  }

  lemma SeqAtMost(a: Re, m: nat, b: Re, n: nat, q: char -> bool)
    requires AtMost(a, q, m) && AtMost(b, q, n)
    ensures AtMost(Seq(a, b), q, m + n)
  {
    forall s: string, i: nat, e: nat | FitsIn(Seq(a, b), q, s, i, e) ensures e - i <= m + n {
      var k := SplitSeq(a, b, s, i, e);
      assert FitsIn(a, q, s, i, k) && FitsIn(b, q, s, k, e);
    }
  }

  lemma AltAtMost(a: Re, b: Re, n: nat, q: char -> bool)
    requires AtMost(a, q, n) && AtMost(b, q, n)
    ensures AtMost(Alt(a, b), q, n)
  {
    forall s: string, i: nat, e: nat | FitsIn(Alt(a, b), q, s, i, e) ensures e - i <= n {
      InAlt(a, b, s, i, e);
      assert FitsIn(a, q, s, i, e) || FitsIn(b, q, s, i, e);
    }
  }

  lemma OptAtMost(a: Re, n: nat, q: char -> bool)
    requires AtMost(a, q, n)
    ensures AtMost(Opt(a), q, n)
  {
    AltAtMost(a, Eps, n, q);
  }

  lemma {:induction false} LitAtMost(word: string, q: char -> bool)
    requires word != ""
    ensures AtMost(Lit(word), q, |word|)
  {
    var c := word[0];
    OneAtMost(Lit([c]).chars, q);
    if |word| > 1 {
      LitAtMost(word[1..], q);
      OneAtMost(Lit(word).first.chars, q);
      SeqAtMost(Lit(word).first, 1, Lit(word[1..]), |word| - 1, q);
    } else {
      assert word == [c];
    }
  }

  lemma {:induction false} TimesAtMost(p: char -> bool, n: nat, q: char -> bool)
    requires n > 0
    ensures AtMost(Times(One(p), n), q, n)
  {
    OneAtMost(p, q);
    if n == 1 {
    } else {
      TimesAtMost(p, n - 1, q);
      SeqAtMost(One(p), 1, Times(One(p), n - 1), n - 1, q);
    }
  }

  lemma {:induction false} LitMatches(word: string, s: string, i: nat)
    requires word != "" && i + |word| <= |s| && s[i..i + |word|] == word
    ensures i + |word| in Ends(Lit(word), s, i)
  {
    assert s[i] == word[0];
    if |word| > 1 {
      assert s[i + 1..i + |word|] == word[1..];
      LitMatches(word[1..], s, i + 1);
      JoinSeq(Lit(word).first, Lit(word[1..]), s, i, i + 1, i + |word|);
    }
  }

  lemma {:induction false} LitReads(word: string, s: string, i: nat, m: nat)
    requires word != "" && i <= |s| && m in Ends(Lit(word), s, i)
    ensures m == i + |word| && s[i..m] == word
  {
    if |word| > 1 {
      var k := SplitSeq(Lit(word).first, Lit(word[1..]), s, i, m);
      LitReads(word[1..], s, i + 1, m);
      assert word == [word[0]] + word[1..] && s[i..m] == [s[i]] + s[i + 1..m];
    } else {
      assert word == [word[0]];
    }
  }

  predicate WordAt(s: string, i: nat, word: string) { i + |word| <= |s| && s[i..i + |word|] == word }

  lemma InLit(word: string, s: string, i: nat, m: nat)
    requires word != "" && i <= |s|
    ensures m in Ends(Lit(word), s, i) <==> WordAt(s, i, word) && m == i + |word|
  {
    if m in Ends(Lit(word), s, i) { LitReads(word, s, i, m); }
    if WordAt(s, i, word) { LitMatches(word, s, i); }
  }

  lemma {:induction false} InPlus(p: char -> bool, s: string, i: nat, e: nat)
    requires i <= |s|
    ensures e in Ends(Plus(p), s, i) <==> i < e <= |s| && forall k | i <= k < e :: p(s[k])
    decreases |s| - i
  {
    if i < |s| && p(s[i]) {
      InPlus(p, s, i + 1, e);
      assert e in Ends(Plus(p), s, i) <==> e in Ends(Plus(p), s, i + 1) || e == i + 1;
    }
  }

  /** The same n characters stand at i in s and at i' in s'. */
  ghost predicate Same(s: string, i: nat, s': string, i': nat, n: nat) {
    && i + n <= |s| && i' + n <= |s'|
    && forall k {:trigger s[k]} | i <= k < i + n :: s[k] == s'[k - i + i']
  }

  /** Whether [i, e) matches depends on the characters in [i, e) alone. */
  lemma {:induction false} Local(r: Re, s: string, i: nat, e: nat, s': string, i': nat)
    requires i <= |s| && e in Ends(r, s, i)
    requires Same(s, i, s', i', e - i)
    ensures i' + (e - i) in Ends(r, s', i')
    decreases r, 1, |s| - i
  {
    hide Ends;
    EndsCases(r, s, i, e);
    EndsCases(r, s', i', i' + (e - i));
    match r
    case Eps =>
    case One(_) =>
    case Plus(_) =>
      if e != i + 1 { Local(r, s, i + 1, e, s', i' + 1); }
    case Seq(a, b) =>
      LocalSeq(a, b, s, i, e, s', i');
    case Alt(a, b) =>
      if e in Ends(a, s, i) { Local(a, s, i, e, s', i'); } else { Local(b, s, i, e, s', i'); }
  }

  /** The definition of Ends, read as a relation. */
  lemma EndsCases(r: Re, s: string, i: nat, e: nat)
    requires i <= |s|
    ensures match r
      case Eps => e in Ends(r, s, i) <==> e == i
      case One(p) => e in Ends(r, s, i) <==> i < |s| && p(s[i]) && e == i + 1
      case Plus(p) => e in Ends(r, s, i) <==> i < |s| && p(s[i]) && (e == i + 1 || e in Ends(r, s, i + 1))
      case Alt(a, b) => e in Ends(r, s, i) <==> e in Ends(a, s, i) || e in Ends(b, s, i)
      case Seq(a, b) => true
  {
  }

  lemma {:induction false} LocalSeq(a: Re, b: Re, s: string, i: nat, e: nat, s': string, i': nat)
    requires i <= |s| && e in Ends(Seq(a, b), s, i)
    requires Same(s, i, s', i', e - i)
    ensures i' + (e - i) in Ends(Seq(a, b), s', i')
    decreases Seq(a, b), 0, |s| - i
  {
    hide Ends;
    var m := SplitSeq(a, b, s, i, e);
    assert Same(s, i, s', i', m - i) && Same(s, m, s', i' + (m - i), e - m);
    Local(a, s, i, m, s', i');
    Local(b, s, m, e, s', i' + (m - i));
    JoinSeq(a, b, s', i', i' + (m - i), i' + (e - i));
  }

  /** No class of r tells c from f(c). */
  ghost predicate Blind(r: Re, f: char -> char) {
    match r
    case Eps => true
    case One(p) => forall c :: p(f(c)) == p(c)
    case Plus(p) => forall c :: p(f(c)) == p(c)
    case Seq(a, b) => Blind(a, f) && Blind(b, f)
    case Alt(a, b) => Blind(a, f) && Blind(b, f)
  }

  lemma {:induction false} LitBlind(word: string, f: char -> char)
    requires word != "" && forall i, c | 0 <= i < |word| :: f(c) == word[i] <==> c == word[i]
    ensures Blind(Lit(word), f)
  {
    if |word| > 1 {
      var rest := word[1..];
      forall i, c | 0 <= i < |rest| ensures f(c) == rest[i] <==> c == rest[i] { assert rest[i] == word[i + 1]; }
      LitBlind(rest, f);
    }
  }

  lemma {:induction false} BlindEnds(r: Re, f: char -> char, s: string, s': string, i: nat)
    requires Blind(r, f) && |s| == |s'| && i <= |s| && forall k | 0 <= k < |s| :: s'[k] == f(s[k])
    ensures Ends(r, s', i) == Ends(r, s, i)
    decreases r, 0, |s| - i
  {
    match r
    case Eps =>
    case One(_) =>
    case Plus(_) =>
      if i < |s| { BlindEnds(r, f, s, s', i + 1); }
    case Seq(a, b) =>
      BlindEnds(a, f, s, s', i);
      BlindEndsFrom(b, f, s, s', Ends(a, s, i), i);
    case Alt(a, b) =>
      BlindEnds(a, f, s, s', i);
      BlindEnds(b, f, s, s', i);
  }

  lemma {:induction false} BlindEndsFrom(r: Re, f: char -> char, s: string, s': string, starts: seq<nat>, i: nat)
    requires Blind(r, f) && |s| == |s'| && i <= |s| && forall k | 0 <= k < |s| :: s'[k] == f(s[k])
    requires forall k | 0 <= k < |starts| :: i <= starts[k] <= |s|
    ensures EndsFrom(r, s', starts, i) == EndsFrom(r, s, starts, i)
    decreases r, 1, |starts|
  {
    if starts == [] {
    } else {
      BlindEnds(r, f, s, s', starts[0]);
      BlindEndsFrom(r, f, s, s', starts[1..], i);
    }
  }

  /** The first end that a greedy repetition offers is the end of the run. */
  lemma {:induction false} Greedy(p: char -> bool, s: string, i: nat)
    requires i <= |s|
    ensures Ends(Plus(p), s, i) == [] <==> i == |s| || !p(s[i])
    ensures var ends := Ends(Plus(p), s, i); ends != [] ==> ends[0] == |s| || !p(s[ends[0]])
    ensures i < |s| && p(s[i]) && (i + 1 == |s| || !p(s[i + 1])) ==> Ends(Plus(p), s, i) == [i + 1]
    decreases |s| - i
  {
    if i < |s| && p(s[i]) { Greedy(p, s, i + 1); }
  }

  // ---------- patterns ----------

  /** (?<!behind) core (?!ahead) */
  datatype Pattern = Pattern(behind: char -> bool, core: Re, ahead: char -> bool)

  predicate Open(p: Pattern, s: string, i: nat)
    requires i <= |s|
  {
    i == 0 || !p.behind(s[i - 1])
  }

  predicate Shut(p: Pattern, s: string, e: nat)
    requires e <= |s|
  {
    e == |s| || !p.ahead(s[e])
  }

  predicate Matches(p: Pattern, s: string, i: nat, e: nat) {
    i <= |s| && Open(p, s, i) && e in Ends(p.core, s, i) && Shut(p, s, e)
  }

  function FirstShut(p: Pattern, s: string, ends: seq<nat>): (r: Option<nat>)
    requires forall k | 0 <= k < |ends| :: ends[k] <= |s|
    ensures r.Some? ==> r.value in ends && Shut(p, s, r.value)
    ensures r.None? ==> forall k | 0 <= k < |ends| :: !Shut(p, s, ends[k])
  {
    if ends == [] then None
    else if Shut(p, s, ends[0]) then Some(ends[0])
    else FirstShut(p, s, ends[1..])
  }

  /** The end that backtracking settles on for a match starting at i, if any:
      the first end in its order that the look-ahead accepts. */
  function MatchAt(p: Pattern, s: string, i: nat): (r: Option<nat>)
    requires i <= |s|
    ensures r.Some? ==> Matches(p, s, i, r.value)
    ensures r.None? ==> forall e :: !Matches(p, s, i, e)
  {
    if Open(p, s, i) then FirstShut(p, s, Ends(p.core, s, i)) else None
  }

  ghost predicate Absent(p: Pattern, s: string) {
    forall i, e :: !Matches(p, s, i, e)
  }

  // ---------- Pattern.sub ----------

  /** The rest of the output when the scan stands at i with n matches replaced;
      rep(k) is the text put in place of the k-th match. */
  function Sub(p: Pattern, rep: nat -> string, s: string, i: nat, n: nat): string
    requires i <= |s| && MinLen(p.core) > 0
    decreases |s| - i
  {
    if i == |s| then ""
    else match MatchAt(p, s, i)
      case None => [s[i]] + Sub(p, rep, s, i + 1, n)
      case Some(e) =>
        MinLenBounds(p.core, s, i, e);
        rep(n + 1) + Sub(p, rep, s, e, n + 1)
  }

  /** How many matches the scan replaces from i on. */
  function Hits(p: Pattern, s: string, i: nat): nat
    requires i <= |s| && MinLen(p.core) > 0
    decreases |s| - i
  {
    if i == |s| then 0
    else match MatchAt(p, s, i)
      case None => Hits(p, s, i + 1)
      case Some(e) => MinLenBounds(p.core, s, i, e); 1 + Hits(p, s, e)
  }

  lemma ScanEnd(p: Pattern, rep: nat -> string, s: string, n: nat)
    requires MinLen(p.core) > 0
    ensures Sub(p, rep, s, |s|, n) == "" && Hits(p, s, |s|) == 0
  {
  }

  lemma {:induction false} AbsentUnchanged(p: Pattern, rep: nat -> string, s: string, i: nat, n: nat)
    requires i <= |s| && MinLen(p.core) > 0
    requires forall k | i <= k <= |s| :: MatchAt(p, s, k).None?
    ensures Sub(p, rep, s, i, n) == s[i..] && Hits(p, s, i) == 0
    decreases |s| - i
  {
    if i == |s| {
    } else {
      AbsentUnchanged(p, rep, s, i + 1, n);
    }
  }

  /** What the scan emits at i, what follows, and where it goes on. */
  lemma Step(p: Pattern, rep: nat -> string, s: string, i: nat, n: nat) returns (h: string, v: string, i': nat, n': nat)
    requires i < |s| && MinLen(p.core) > 0
    ensures i < i' <= |s| && v == Sub(p, rep, s, i', n') && Sub(p, rep, s, i, n) == h + v
    ensures n + Hits(p, s, i) == n' + Hits(p, s, i') && n <= n'
    ensures if MatchAt(p, s, i).None? then h == [s[i]] && i' == i + 1 && n' == n
            else MatchAt(p, s, i) == Some(i') && h == rep(n + 1) && n' == n + 1
  {
    match MatchAt(p, s, i)
    case None =>
      h, i', n' := [s[i]], i + 1, n;
      v := Sub(p, rep, s, i', n');
    case Some(e) =>
      MinLenBounds(p.core, s, i, e);
      h, i', n' := rep(n + 1), e, n + 1;
      v := Sub(p, rep, s, i', n');
  }

  // ---------- text that no match touches ----------

  lemma {:induction false} Verbatim(p: Pattern, rep: nat -> string, s: string, i: nat, n: nat, m: nat)
    requires i + m <= |s| && MinLen(p.core) > 0 && forall j | i <= j < i + m :: MatchAt(p, s, j).None?
    ensures Sub(p, rep, s, i, n) == s[i..i + m] + Sub(p, rep, s, i + m, n)
    decreases m
  {
    hide Sub, MatchAt, Hits;
    if m > 0 {
      var h, v, i', n' := Step(p, rep, s, i, n);
      Verbatim(p, rep, s, i + 1, n, m - 1);
      var rest := Sub(p, rep, s, i + m, n);
      assert v == s[i + 1..i + m] + rest;
      assert s[i..i + m] == [s[i]] + s[i + 1..i + m];
    } else {
      assert s[i..i] == [];
    }
  }

  /** A block that every earlier match ends before, and no match begins in, is copied. */
  lemma {:induction false} BlockCopied(p: Pattern, rep: nat -> string, s: string, i: nat, n: nat, at: nat, b: string)
    returns (at': nat)
    requires i <= at && at + |b| <= |s| && s[at..at + |b|] == b && MinLen(p.core) > 0
    requires forall j | i <= j < at :: MatchAt(p, s, j).Some? ==> MatchAt(p, s, j).value <= at
    requires forall j | at <= j < at + |b| :: MatchAt(p, s, j).None?
    ensures at' + |b| <= |Sub(p, rep, s, i, n)| && Sub(p, rep, s, i, n)[at'..at' + |b|] == b
    decreases |s| - i
  {
    hide Sub, MatchAt;
    if i == at {
      Verbatim(p, rep, s, i, n, |b|);
      at' := 0;
      assert (b + Sub(p, rep, s, i + |b|, n))[0..|b|] == b;
    } else {
      var h, v, i', n' := Step(p, rep, s, i, n);
      var x := BlockCopied(p, rep, s, i', n', at, b);
      at' := x + |h|;
      Behind(h, v, x, |b|);
    }
  }

  /** The scan that stands at i comes to stand at b. */
  predicate Reached(p: Pattern, s: string, i: nat, b: nat)
    requires MinLen(p.core) > 0
    decreases if b > i then b - i else 0
  {
    i == b || (i < b <= |s| && Reached(p, s, Onward(p, s, i), b))
  }

  /** Where the scan goes from i. */
  function Onward(p: Pattern, s: string, i: nat): (i': nat)
    requires i < |s| && MinLen(p.core) > 0
    ensures i < i' <= |s|
  {
    match MatchAt(p, s, i)
    case None => i + 1
    case Some(e) => MinLenBounds(p.core, s, i, e); e
  }

  lemma StepOnward(p: Pattern, s: string, i: nat, i': nat, b: nat)
    requires i < |s| && MinLen(p.core) > 0
    requires if MatchAt(p, s, i).None? then i' == i + 1 else MatchAt(p, s, i) == Some(i')
    ensures i' == Onward(p, s, i) && i < i'
    ensures i < b <= |s| ==> (Reached(p, s, i, b) <==> Reached(p, s, i', b))
  {
    hide MatchAt;
  }

  /** What the scan emits for a match that it reaches. */
  lemma {:induction false} ReachedReplaced(p: Pattern, rep: nat -> string, s: string, i: nat, n: nat, b: nat, e: nat)
    returns (head: string, k: nat)
    requires i <= b < |s| && MinLen(p.core) > 0 && Reached(p, s, i, b) && MatchAt(p, s, b) == Some(e)
    ensures n < k <= n + Hits(p, s, i) && Sub(p, rep, s, i, n) == head + rep(k) + Sub(p, rep, s, e, k)
    decreases |s| - i
  {
    hide Sub, MatchAt, Hits, Reached;
    var h, v, i', n' := Step(p, rep, s, i, n);
    if i == b {
      head, k := "", n + 1;
      assert "" + rep(k) + v == h + v;
    } else {
      StepOnward(p, s, i, i', b);
      ReachedAfter(p, s, i', b);
      var x: string;
      x, k := ReachedReplaced(p, rep, s, i', n', b, e);
      head := h + x;
      assert h + (x + rep(k) + Sub(p, rep, s, e, k)) == head + rep(k) + Sub(p, rep, s, e, k);
    }
  }

  lemma ReachedAfter(p: Pattern, s: string, i: nat, b: nat)
    requires MinLen(p.core) > 0 && Reached(p, s, i, b)
    ensures i <= b
  {
  }

  /** A match that every earlier match ends before is replaced as a whole. */
  lemma {:induction false} BlockReplaced(p: Pattern, rep: nat -> string, s: string, i: nat, n: nat, at: nat, e: nat)
    returns (head: string, k: nat)
    requires i <= at < |s| && MatchAt(p, s, at) == Some(e) && MinLen(p.core) > 0
    requires forall j | i <= j < at :: MatchAt(p, s, j).Some? ==> MatchAt(p, s, j).value <= at
    ensures n < k <= n + Hits(p, s, i)
    ensures Sub(p, rep, s, i, n) == head + rep(k) + Sub(p, rep, s, e, k)
    decreases |s| - i
  {
    hide Sub, MatchAt, Hits;
    var h, v, i', n' := Step(p, rep, s, i, n);
    if i == at {
      head, k := "", n + 1;
      assert "" + rep(k) + v == h + v;
    } else {
      var x: string;
      x, k := BlockReplaced(p, rep, s, i', n', at, e);
      head := h + x;
      assert h + (x + rep(k) + Sub(p, rep, s, e, k)) == head + rep(k) + Sub(p, rep, s, e, k);
    }
  }

  /** The end that backtracking tries first. */
  predicate Leads(ends: seq<nat>, e: nat) { ends != [] && ends[0] == e }

  lemma {:induction false} EndsFromAppend(r: Re, s: string, a: seq<nat>, b: seq<nat>, i: nat)
    requires forall k | 0 <= k < |a| :: i <= a[k] <= |s|
    requires forall k | 0 <= k < |b| :: i <= b[k] <= |s|
    ensures EndsFrom(r, s, a + b, i) == EndsFrom(r, s, a, i) + EndsFrom(r, s, b, i)
  {
    hide Ends;
    if a == [] {
      assert a + b == b;
    } else {
      assert (a + b)[1..] == a[1..] + b;
      EndsFromAppend(r, s, a[1..], b, i);
    }
  }

  lemma {:induction false} NoEndsFrom(r: Re, s: string, starts: seq<nat>, i: nat)
    requires forall k | 0 <= k < |starts| :: i <= starts[k] <= |s| && Ends(r, s, starts[k]) == []
    ensures EndsFrom(r, s, starts, i) == []
  {
    hide Ends;
    if starts == [] {
    } else {
      NoEndsFrom(r, s, starts[1..], i);
    }
  }

  lemma PlusIs(p: char -> bool, s: string, i: nat)
    requires i < |s| && p(s[i])
    ensures Ends(Plus(p), s, i) == Ends(Plus(p), s, i + 1) + [i + 1]
  {
  }

  lemma InLonger(a: seq<nat>, m: nat)
    ensures forall k | k in a :: k in a + [m]
  {
  }

  /** Behind a longer run there is no match of b. */
  ghost predicate NoneAfter(p: char -> bool, b: Re, s: string, i: nat, m: nat)
    requires i <= |s|
  {
    forall k | m < k <= |s| && k in Ends(Plus(p), s, i) :: Ends(b, s, k) == []
  }

  lemma NoneAfterNext(p: char -> bool, b: Re, s: string, i: nat, m: nat)
    requires i < |s| && p(s[i]) && NoneAfter(p, b, s, i, m)
    ensures NoneAfter(p, b, s, i + 1, m)
  {
    hide Ends;
    PlusIs(p, s, i);
    InLonger(Ends(Plus(p), s, i + 1), i + 1);
  }

  lemma RunsAreLonger(p: char -> bool, b: Re, s: string, i: nat)
    requires i <= |s| && NoneAfter(p, b, s, i, i)
    ensures EndsFrom(b, s, Ends(Plus(p), s, i), i) == []
  {
    var starts := Ends(Plus(p), s, i);
    PlusLonger(p, s, i);
    hide Ends;
    NoEndsFrom(b, s, starts, i);
  }

  lemma {:induction false} PlusLonger(p: char -> bool, s: string, i: nat)
    requires i <= |s|
    ensures forall k | 0 <= k < |Ends(Plus(p), s, i)| :: i < Ends(Plus(p), s, i)[k]
    decreases |s| - i
  {
    if i < |s| && p(s[i]) { PlusLonger(p, s, i + 1); }
  }

  /** A greedy run followed by b: the first end is b's, from the last place in the run
      where b matches at all. */
  lemma {:induction false} GreedyThen(p: char -> bool, b: Re, s: string, i: nat, m: nat, e: nat)
    requires i < m <= |s| && Leads(Ends(b, s, m), e) && forall k | i <= k < m :: p(s[k])
    requires NoneAfter(p, b, s, i, m)
    ensures Leads(Ends(Seq(Plus(p), b), s, i), e)
    decreases m - i
  {
    hide *;
    var longer := Ends(Plus(p), s, i + 1);
    PlusIs(p, s, i);
    EndsFromAppend(b, s, longer, [i + 1], i);
    SeqIs(Plus(p), b, s, i);
    OneStart(b, s, i + 1, i);
    NoneAfterNext(p, b, s, i, m);
    SameStarts(b, s, longer, i, i + 1);
    if m == i + 1 {
      RunsAreLonger(p, b, s, i + 1);
    } else {
      GreedyThen(p, b, s, i + 1, m, e);
      SeqIs(Plus(p), b, s, i + 1);
    }
    LeadsFirst(EndsFrom(b, s, longer, i), EndsFrom(b, s, [i + 1], i), e);
  }

  lemma SeqIs(a: Re, b: Re, s: string, i: nat)
    requires i <= |s|
    ensures Ends(Seq(a, b), s, i) == EndsFrom(b, s, Ends(a, s, i), i)
  {
  }

  lemma OneStart(r: Re, s: string, m: nat, i: nat)
    requires i <= m <= |s|
    ensures EndsFrom(r, s, [m], i) == Ends(r, s, m)
  {
    assert [m][1..] == [];
    assert EndsFrom(r, s, [m], i) == Ends(r, s, m) + EndsFrom(r, s, [], i);
  }

  lemma LeadsFirst(a: seq<nat>, b: seq<nat>, e: nat)
    requires Leads(a, e) || (a == [] && Leads(b, e))
    ensures Leads(a + b, e)
  {
  }

  lemma {:induction false} SameStarts(r: Re, s: string, starts: seq<nat>, i: nat, j: nat)
    requires i <= j && forall k | 0 <= k < |starts| :: j <= starts[k] <= |s|
    ensures EndsFrom(r, s, starts, i) == EndsFrom(r, s, starts, j)
  {
    if starts == [] {
    } else {
      SameStarts(r, s, starts[1..], i, j);
    }
  }

  /** A greedy run goes on to the end of the run. */
  lemma {:induction false} RunLeads(p: char -> bool, s: string, i: nat, e: nat)
    requires i < e <= |s| && (forall k | i <= k < e :: p(s[k])) && (e < |s| ==> !p(s[e]))
    ensures Leads(Ends(Plus(p), s, i), e)
    decreases e - i
  {
    if i + 1 < e {
      RunLeads(p, s, i + 1, e);
    } else {
      Greedy(p, s, i);
    }
  }

  /** An expression with one way to match, followed by another. */
  lemma OnlyThen(a: Re, b: Re, s: string, i: nat, m: nat, e: nat)
    requires i <= |s| && m <= |s| && Ends(a, s, i) == [m] && Leads(Ends(b, s, m), e)
    ensures Leads(Ends(Seq(a, b), s, i), e)
  {
    assert Ends(a, s, i)[0] == m;
    OneStart(b, s, m, i);
  }

  lemma CharThen(p: char -> bool, b: Re, s: string, i: nat)
    requires i <= |s|
    ensures Ends(Seq(One(p), b), s, i) == if i < |s| && p(s[i]) then Ends(b, s, i + 1) else []
  {
    if i < |s| && p(s[i]) { OneStart(b, s, i + 1, i); }
  }

  lemma TwiceThen(p: char -> bool, b: Re, s: string, i: nat)
    requires i <= |s|
    ensures Ends(Seq(Seq(One(p), One(p)), b), s, i) ==
      if i + 1 < |s| && p(s[i]) && p(s[i + 1]) then Ends(b, s, i + 2) else []
  {
    CharThen(p, One(p), s, i);
    if i + 1 < |s| && p(s[i]) && p(s[i + 1]) { OneStart(b, s, i + 2, i); }
  }

  lemma WordStep(word: string, s: string, i: nat)
    requires |word| > 1
    ensures WordAt(s, i, word) <==> i < |s| && s[i] == word[0] && WordAt(s, i + 1, word[1..])
  {
    assert word == [word[0]] + word[1..];
    if i + |word| <= |s| { assert s[i..i + |word|] == [s[i]] + s[i + 1..i + |word|]; }
  }

  lemma LitStep(word: string, s: string, i: nat)
    requires |word| > 1 && i <= |s|
    ensures Ends(Lit(word), s, i) == if i < |s| && s[i] == word[0] then Ends(Lit(word[1..]), s, i + 1) else []
  {
    var c := word[0];
    CharThen(x => x == c, Lit(word[1..]), s, i);
    hide Ends;
  }

  lemma LitLast(word: string, s: string, i: nat)
    requires |word| == 1 && i <= |s|
    ensures Ends(Lit(word), s, i) == if WordAt(s, i, word) then [i + 1] else []
  {
    assert word == [word[0]];
  }

  lemma {:induction false} LitEnds(word: string, s: string, i: nat)
    requires word != "" && i <= |s|
    ensures Ends(Lit(word), s, i) == if WordAt(s, i, word) then [i + |word|] else []
  {
    hide *;
    if |word| == 1 {
      LitLast(word, s, i);
    } else {
      LitStep(word, s, i);
      WordStep(word, s, i);
      if i < |s| { LitEnds(word[1..], s, i + 1); }
    }
  }

  lemma OneThen(p: char -> bool, b: Re, s: string, i: nat, e: nat)
    requires i < |s| && p(s[i]) && Leads(Ends(b, s, i + 1), e)
    ensures Leads(Ends(Seq(One(p), b), s, i), e)
  {
    OneStart(b, s, i + 1, i);
  }

  /** The first end of a match that the look-ahead accepts at once. */
  lemma FirstEnd(p: Pattern, s: string, i: nat, e: nat)
    requires i <= |s| && e <= |s| && Open(p, s, i) && Leads(Ends(p.core, s, i), e) && Shut(p, s, e)
    ensures MatchAt(p, s, i) == Some(e)
  {
  }

  // ---------- where a run of the output comes from ----------

  /** Replacements begin and end with a character outside the class q. */
  ghost predicate Fenced(rep: nat -> string, q: char -> bool) {
    forall k :: rep(k) != "" && !q(rep(k)[0]) && !q(rep(k)[|rep(k)| - 1])
  }

  lemma TailRun(q: char -> bool, h: string, v: string, x: nat, y: nat)
    requires |h| <= x <= y <= |h + v| && forall k | x <= k < y :: q((h + v)[k])
    ensures forall k | x - |h| <= k < y - |h| :: q(v[k])
  {
    forall k | x - |h| <= k < y - |h| ensures q(v[k]) { assert v[k] == (h + v)[k + |h|]; }
  }

  /** A run of q characters at the front of the output is copied text. */
  lemma {:induction false} CopiedRun(q: char -> bool, p: Pattern, rep: nat -> string, s: string, i: nat, n: nat, y: nat)
    requires Fenced(rep, q) && i <= |s| && MinLen(p.core) > 0
    requires y <= |Sub(p, rep, s, i, n)|
    requires forall k | 0 <= k < y :: q(Sub(p, rep, s, i, n)[k])
    ensures Same(Sub(p, rep, s, i, n), 0, s, i, y)
    ensures forall k | i <= k < i + y :: MatchAt(p, s, k).None?
    ensures y == |Sub(p, rep, s, i, n)| <==> i + y == |s|
    ensures i + y < |s| ==> Sub(p, rep, s, i, n)[y] == s[i + y] || MatchAt(p, s, i + y).Some?
    decreases |s| - i
  {
    hide *;
    ScanEnd(p, rep, s, n);
    if i == |s| {
      SameNothing("", s, i);
      return;
    }
    var h, v, i', n' := Step(p, rep, s, i, n);
    if MatchAt(p, s, i).Some? {
      NoRunAtFence(q, rep, n + 1, v, y);
      SameNothing(h + v, s, i);
    } else if y > 0 {
      TailRun(q, h, v, 1, y);
      CopiedRun(q, p, rep, s, i', n', y - 1);
      SameCons(s, i, v, y);
    } else {
      SameNothing(h + v, s, i);
    }
  }

  lemma NoRunAtFence(q: char -> bool, rep: nat -> string, k: nat, v: string, y: nat)
    requires Fenced(rep, q) && forall m | 0 <= m < y :: m < |rep(k) + v| && q((rep(k) + v)[m])
    ensures y == 0 && rep(k) != ""
  {
    assert rep(k) != "" && (rep(k) + v)[0] == rep(k)[0];
  }

  lemma SameNothing(w: string, s: string, i: nat)
    requires i <= |s|
    ensures Same(w, 0, s, i, 0)
  {
  }

  lemma SameCons(s: string, i: nat, v: string, y: nat)
    requires i < |s| && 0 < y && Same(v, 0, s, i + 1, y - 1)
    ensures Same([s[i]] + v, 0, s, i, y)
  {
  }

  /** A run of the output is text copied from a match-free stretch of the input
      or lies inside one replacement. */
  datatype Origin = Copied(from: nat) | Inside(index: nat, at: nat)

  /** The scan that stands at i replaces a match that ends at j. */
  ghost predicate EndsAMatch(p: Pattern, s: string, i: nat, j: nat) {
    MinLen(p.core) > 0 && exists b: nat :: b < |s| && Reached(p, s, i, b) && MatchAt(p, s, b) == Some(j)
  }

  lemma EndsOnward(p: Pattern, s: string, i: nat, i': nat, j: nat)
    requires i < |s| && MinLen(p.core) > 0
    requires if MatchAt(p, s, i).None? then i' == i + 1 else MatchAt(p, s, i) == Some(i')
    ensures EndsAMatch(p, s, i', j) ==> EndsAMatch(p, s, i, j)
    ensures MatchAt(p, s, i).Some? ==> EndsAMatch(p, s, i, i')
  {
    hide MatchAt;
    if EndsAMatch(p, s, i', j) {
      var b: nat :| b < |s| && Reached(p, s, i', b) && MatchAt(p, s, b) == Some(j);
      ReachedAfter(p, s, i', b);
      StepOnward(p, s, i, i', b);
    }
    if MatchAt(p, s, i).Some? { assert Reached(p, s, i, i); }
  }

  ghost predicate IsCopy(p: Pattern, s: string, i: nat, w: string, x: nat, y: nat, j: nat) {
    && i <= j && x < y <= |w| && Same(w, x, s, j, y - x)
    && (forall k | j <= k < j + (y - x) :: MatchAt(p, s, k).None?)
    && (x == 0 ==> j == i)
    && (x > 0 ==> j > i && (w[x - 1] == s[j - 1] || EndsAMatch(p, s, i, j)))
    && (y == |w| <==> j + (y - x) == |s|)
    && (y < |w| ==> w[y] == s[j + (y - x)] || MatchAt(p, s, j + (y - x)).Some?)
  }

  /** [x, y) lies strictly within the text h standing at `at` in w. */
  ghost predicate Within(h: string, w: string, at: nat, x: nat, y: nat) {
    at + |h| <= |w| && w[at..at + |h|] == h && at < x < y < at + |h|
  }

  ghost predicate Explains(o: Origin, p: Pattern, rep: nat -> string, s: string, i: nat, w: string, x: nat, y: nat) {
    match o
    case Copied(j) => IsCopy(p, s, i, w, x, y, j)
    case Inside(k, at) => Within(rep(k), w, at, x, y)
  }

  lemma FrontRun(q: char -> bool, p: Pattern, rep: nat -> string, s: string, i: nat, n: nat, y: nat)
    requires Fenced(rep, q) && i <= |s| && MinLen(p.core) > 0
    requires 0 < y <= |Sub(p, rep, s, i, n)|
    requires forall k | 0 <= k < y :: q(Sub(p, rep, s, i, n)[k])
    ensures Explains(Copied(i), p, rep, s, i, Sub(p, rep, s, i, n), 0, y)
  {
    CopiedRun(q, p, rep, s, i, n, y);
  }

  lemma HeadRun(q: char -> bool, p: Pattern, rep: nat -> string, k: nat, s: string, i: nat, v: string, x: nat, y: nat)
    requires Fenced(rep, q)
    requires x < |rep(k)| && x < y <= |rep(k) + v| && forall m | x <= m < y :: q((rep(k) + v)[m])
    ensures Explains(Inside(k, 0), p, rep, s, i, rep(k) + v, x, y)
  {
    var h := rep(k);
    var w := h + v;
    assert w[0] == h[0] && w[|h| - 1] == h[|h| - 1];
    assert w[0..0 + |h|] == h;
  }

  lemma NonEmptyReplacement(q: char -> bool, rep: nat -> string, k: nat)
    requires Fenced(rep, q)
    ensures rep(k) != ""
  {
  }

  lemma NonEmptyOutput(p: Pattern, rep: nat -> string, s: string, i: nat, n: nat)
    requires i <= |s| && MinLen(p.core) > 0
    ensures Sub(p, rep, s, i, n) != "" ==> i < |s|
  {
  }

  lemma {:induction false} Locate(q: char -> bool, p: Pattern, rep: nat -> string, s: string, i: nat, n: nat, x: nat,
      y: nat)
    returns (o: Origin)
    requires Fenced(rep, q) && i <= |s| && MinLen(p.core) > 0
    requires x < y <= |Sub(p, rep, s, i, n)|
    requires forall k | x <= k < y :: q(Sub(p, rep, s, i, n)[k])
    ensures Explains(o, p, rep, s, i, Sub(p, rep, s, i, n), x, y)
    ensures o.Inside? ==> n < o.index <= n + Hits(p, s, i)
    decreases |s| - i
  {
    hide *;
    NonEmptyOutput(p, rep, s, i, n);
    if MatchAt(p, s, i).None? && x == 0 {
      FrontRun(q, p, rep, s, i, n, y);
      o := Copied(i);
      return;
    }
    var h, v, i', n' := Step(p, rep, s, i, n);
    if x < |h| {
      HeadRun(q, p, rep, n + 1, s, i, v, x, y);
      o := Inside(n + 1, 0);
    } else {
      NonEmptyReplacement(q, rep, n + 1);
      TailRun(q, h, v, x, y);
      var o' := Locate(q, p, rep, s, i', n', x - |h|, y - |h|);
      o := Shift(p, rep, s, i, h, v, x - |h|, y - |h|, i', o');
    }
  }

  /** Putting the text h, emitted for s[i..i'], in front of an output. */
  lemma Shift(p: Pattern, rep: nat -> string, s: string, i: nat, h: string, v: string, x: nat, y: nat, i': nat,
      o: Origin)
    returns (o': Origin)
    requires i < i' <= |s| && h != ""
    requires MinLen(p.core) > 0
    requires if MatchAt(p, s, i).None? then h == [s[i]] && i' == i + 1 else MatchAt(p, s, i) == Some(i')
    requires Explains(o, p, rep, s, i', v, x, y)
    ensures o'.Inside? ==> o.Inside? && o'.index == o.index
    ensures Explains(o', p, rep, s, i, h + v, x + |h|, y + |h|)
  {
    hide IsCopy;
    match o
    case Copied(j) =>
      o' := o;
      CopiedBehind(p, s, i, h, v, x, y, i', j);
    case Inside(index, at) =>
      o' := Inside(index, at + |h|);
      Behind(h, v, at, |rep(index)|);
  }

  lemma CopiedBehind(p: Pattern, s: string, i: nat, h: string, v: string, x: nat, y: nat, i': nat, j: nat)
    requires i < i' <= |s| && h != "" && MinLen(p.core) > 0
    requires if MatchAt(p, s, i).None? then h == [s[i]] && i' == i + 1 else MatchAt(p, s, i) == Some(i')
    requires IsCopy(p, s, i', v, x, y, j)
    ensures IsCopy(p, s, i, h + v, x + |h|, y + |h|, j)
  {
    EndsOnward(p, s, i, i', j);
    hide EndsAMatch, MatchAt;
    var w := h + v;
    assert Same(w, x + |h|, s, j, y - x);
    if x == 0 {
      assert w[x + |h| - 1] == h[|h| - 1];
    } else {
      assert w[x + |h| - 1] == v[x - 1];
    }
  }

  lemma Behind(h: string, v: string, at: nat, m: nat)
    requires at + m <= |v|
    ensures (h + v)[at + |h|..at + |h| + m] == v[at..at + m]
  {
  }

  /** Every replacement up to the count of matches is printed somewhere. */
  lemma {:induction false} EveryReplacementIsPrinted(p: Pattern, rep: nat -> string, s: string, i: nat, n: nat, k: nat)
    returns (at: nat)
    requires i <= |s| && MinLen(p.core) > 0 && n < k <= n + Hits(p, s, i)
    ensures at + |rep(k)| <= |Sub(p, rep, s, i, n)|
    ensures Sub(p, rep, s, i, n)[at..at + |rep(k)|] == rep(k)
    decreases |s| - i
  {
    var h, v, i', n' := Step(p, rep, s, i, n);
    if k == n' && n' == n + 1 {
      at := 0;
      assert (h + v)[0..|h|] == h;
    } else {
      at := EveryReplacementIsPrinted(p, rep, s, i', n', k);
      Behind(h, v, at, |rep(k)|);
      at := at + |h|;
    }
  }

  /** The output is made of characters of the input and of the replacements. */
  lemma {:induction false} SubChars(q: char -> bool, p: Pattern, rep: nat -> string, s: string, i: nat, n: nat)
    requires i <= |s| && MinLen(p.core) > 0
    requires forall k | 0 <= k < |s| :: q(s[k])
    requires forall k, j | 0 <= j < |rep(k)| :: q(rep(k)[j])
    ensures forall k | 0 <= k < |Sub(p, rep, s, i, n)| :: q(Sub(p, rep, s, i, n)[k])
    decreases |s| - i
  {
    if i == |s| {
    } else {
      var h, v, i', n' := Step(p, rep, s, i, n);
      SubChars(q, p, rep, s, i', n');
    }
  }
}
