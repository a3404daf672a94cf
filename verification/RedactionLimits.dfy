/** How long a text must be before redaction can miss a number, and texts for
    which it does. */
module RedactionLimits {
  import opened Text
  import opened Regex
  import opened Redaction

  // ---------- texts with many matches ----------

  function Copies(unit: string, n: nat): string {
    if n == 0 then "" else unit + Copies(unit, n - 1)
  }

  lemma {:induction false} CopiesChars(unit: string, n: nat, q: char -> bool)
    requires forall k | 0 <= k < |unit| :: q(unit[k])
    ensures forall k | 0 <= k < |Copies(unit, n)| :: q(Copies(unit, n)[k])
  {
    if n == 0 {
    } else {
      CopiesChars(unit, n - 1, q);
    }
  }

  /** The shortest match of a number pattern, and one character that ends it. */
  ghost predicate Unit(t: Chars, p: Pattern, unit: string) {
    && NumberPattern(t, p) && MinLen(p.core) == |unit| - 1
    && |unit| - 1 in Ends(p.core, unit, 0)
    && !Structured(t, unit[|unit| - 1])
  }

  lemma UnitMatch(t: Chars, p: Pattern, unit: string, s: string, i: nat)
    requires Unit(t, p, unit) && i + |unit| <= |s| && s[i..i + |unit|] == unit && Open(p, s, i)
    ensures MatchAt(p, s, i) == Some(i + |unit| - 1) && MatchAt(p, s, i + |unit| - 1).None?
  {
    hide Ends, MatchAt, MinLen, Only, Last;
    var d := |unit| - 1;
    forall k | 0 <= k < |unit| ensures s[i + k] == unit[k] { assert s[i..i + |unit|][k] == unit[k]; }
    Local(p.core, unit, 0, d, s, i);
    assert Matches(p, s, i, i + d);
    var e := MatchAt(p, s, i).value;
    MinLenBounds(p.core, s, i, e);
    OnlyHolds(p.core, StructuredIn(t), s, i, e);
    if MatchAt(p, s, i + d).Some? {
      var f := MatchAt(p, s, i + d).value;
      MinLenBounds(p.core, s, i + d, f);
      OnlyHolds(p.core, StructuredIn(t), s, i + d, f);
    }
  }

  lemma {:induction false} UnitHits(t: Chars, p: Pattern, unit: string, n: nat, s: string, i: nat)
    requires Unit(t, p, unit) && i <= |s| && s[i..] == Copies(unit, n) && Open(p, s, i)
    ensures MinLen(p.core) > 0 && Hits(p, s, i) >= n
    decreases n
  {
    if n == 0 {
    } else {
      var d := |unit| - 1;
      assert s[i..i + |unit|] == s[i..][..|unit|] == unit;
      UnitMatch(t, p, unit, s, i);
      assert s[i + d] == unit[d];
      assert s[i + d + 1..] == s[i..][|unit|..] == Copies(unit, n - 1);
      UnitHits(t, p, unit, n - 1, s, i + d + 1);
      HitsOnce(p, s, i, i + d);
    }
  }

  lemma HitsOnce(p: Pattern, s: string, i: nat, e: nat)
    requires i < e < |s| && MinLen(p.core) > 0 && MatchAt(p, s, i) == Some(e) && MatchAt(p, s, e).None?
    ensures Hits(p, s, i) == 1 + Hits(p, s, e + 1)
  {
    hide MatchAt;
  }

  const PHONE_UNIT := "20000000a"

  const ID_UNIT := "784000000000000a"

  lemma LetterIsNotStructured(t: Chars)
    requires Unicode(t)
    ensures !Structured(t, 'a')
  {
  }

  lemma PhoneUnit(t: Chars)
    requires Unicode(t)
    ensures Unit(t, Phone(t), PHONE_UNIT)
  {
    hide Ends, PhoneCore, NumberPattern, Structured;
    PhoneIsNumber(t);
    PhoneShape(t);
    LetterIsNotStructured(t);
    var d := "20000000";
    EightDigitsArePhone(t, d);
    Local(PhoneCore(t), d, 0, 8, PHONE_UNIT, 0);
  }

  lemma IdUnit(t: Chars)
    requires Unicode(t)
    ensures Unit(t, EmiratesId(t), ID_UNIT)
  {
    hide Ends, EmiratesIdCore, NumberPattern, Structured;
    EmiratesIdIsNumber(t);
    LetterIsNotStructured(t);
    var d := "784000000000000";
    FifteenDigitsAreId(t, d);
    Local(EmiratesIdCore(t), d, 0, 15, ID_UNIT, 0);
  }

  /** Twenty million phone numbers in a row are too many. */
  lemma ManyPhones(t: Chars, n: nat)
    requires Unicode(t) && n >= 20_000_000
    ensures !Absent(Phone(t), Redacted(t, Copies(PHONE_UNIT, n)))
  {
    var s := Copies(PHONE_UNIT, n);
    assert s[0..] == s;
    PhoneUnit(t);
    hide Unit, Hits, Copies, Sub, Absent;
    CoresNonEmpty(t);
    UnitHits(t, Phone(t), PHONE_UNIT, n, s, 0);
    PhonesHaveNoId(t, n);
    NoPhoneLeft(t, s);
  }

  function PhoneUnitChar(): char -> bool { c => c == '2' || c == '0' || c == 'a' }

  /** The first two passes leave such a text alone. */
  lemma PhonesHaveNoId(t: Chars, n: nat)
    requires Unicode(t)
    ensures AfterEmails(t, Copies(PHONE_UNIT, n)) == Copies(PHONE_UNIT, n)
  {
    hide Copies, Sub, Hits, MatchAt, Ends;
    var s := Copies(PHONE_UNIT, n);
    CopiesChars(PHONE_UNIT, n, PhoneUnitChar());
    CoresNonEmpty(t);
    forall k | 0 <= k <= |s| ensures MatchAt(EmiratesId(t), s, k).None? { NoIdAt(t, s, k); }
    forall k | 0 <= k <= |s| ensures MatchAt(Email(t), s, k).None? { NoEmailAt(t, s, k); }
    AbsentUnchanged(EmiratesId(t), Numbered("EMIRATES_ID"), s, 0, 0);
    AbsentUnchanged(Email(t), Numbered("EMAIL"), s, 0, 0);
    assert s[0..] == s;
  }

  lemma NoIdAt(t: Chars, s: string, k: nat)
    requires k <= |s| && forall j | 0 <= j < |s| :: s[j] != '7'
    ensures MatchAt(EmiratesId(t), s, k).None?
  {
    hide Ends, MatchAt;
    var r := MatchAt(EmiratesId(t), s, k);
    if r.Some? {
      var m := SplitSeq(Lit("784"), EmiratesIdCore(t).second, s, k, r.value);
      LitFirst("784", s, k, m);
    }
  }

  lemma NoEmailAt(t: Chars, s: string, k: nat)
    requires k <= |s| && forall j | 0 <= j < |s| :: s[j] != '@'
    ensures MatchAt(Email(t), s, k).None?
  {
    hide Ends, MatchAt, EmailCore;
    var r := MatchAt(Email(t), s, k);
    if r.Some? {
      var at := EmailHasAt(t, s, k, r.value);
    }
  }

  /** And so many Emirates IDs are. */
  lemma ManyIds(t: Chars, n: nat)
    requires Unicode(t) && n >= FIRST_ID
    ensures !Absent(EmiratesId(t), Redacted(t, Copies(ID_UNIT, n)))
  {
    var s := Copies(ID_UNIT, n);
    assert s[0..] == s;
    IdUnit(t);
    hide Unit, Hits, Copies, Sub, Absent;
    CoresNonEmpty(t);
    UnitHits(t, EmiratesId(t), ID_UNIT, n, s, 0);
    NoEmiratesIdLeft(t, s);
  }

  // ---------- short texts ----------

  /** Matches do not overlap, so their shortest length bounds their number. */
  lemma {:induction false} HitsLength(p: Pattern, s: string, i: nat, m: nat)
    requires i <= |s| && m == MinLen(p.core) > 0
    ensures Hits(p, s, i) * m <= |s| - i
    decreases |s| - i
  {
    hide MatchAt, Hits;
    if i == |s| {
      ScanEnd(p, Numbered(""), s, 0);
    } else {
      var h, v, i', n' := Step(p, Numbered(""), s, i, 0);
      HitsLength(p, s, i', m);
      if MatchAt(p, s, i).Some? {
        MinLenBounds(p.core, s, i, i');
        OneMoreTime(1 + Hits(p, s, i'), m);
      }
    }
  }

  /** Replacements of at most b characters make a text longer by so much at most. */
  lemma {:induction false} SubLength(p: Pattern, rep: nat -> string, s: string, i: nat, n: nat, m: nat, b: nat)
    requires i <= |s| && 0 < m == MinLen(p.core) <= b
    requires forall k | n < k <= n + Hits(p, s, i) :: |rep(k)| <= b
    ensures |Sub(p, rep, s, i, n)| <= |s| - i + Hits(p, s, i) * (b - m)
    decreases |s| - i
  {
    hide MatchAt, Hits, Sub;
    if i == |s| {
      ScanEnd(p, rep, s, n);
    } else {
      var h, v, i', n' := Step(p, rep, s, i, n);
      SubLength(p, rep, s, i', n', m, b);
      if MatchAt(p, s, i).Some? {
        MinLenBounds(p.core, s, i, i');
        OneMoreTime(1 + Hits(p, s, i'), b - m);
      }
    }
  }

  lemma PassLength(t: Chars, p: Pattern, tag: string, s: string, m: nat, b: nat)
    requires 0 < m == MinLen(p.core) <= b && |tag| + 10 <= b && |s| < m * 10_000_000
    ensures |Sub(p, Numbered(tag), s, 0, 0)| <= |s| + Hits(p, s, 0) * (b - m)
    ensures Hits(p, s, 0) * m <= |s|
  {
    hide Sub, Hits, Decimal;
    HitsLength(p, s, 0, m);
    TenMillion();
    forall k | 0 < k <= Hits(p, s, 0) ensures |Numbered(tag)(k)| <= b {
      Fewer(k, Hits(p, s, 0), m, |s|);
      DecimalLength(k, 7);
    }
    SubLength(p, Numbered(tag), s, 0, 0, m, b);
  }

  lemma Fewer(k: nat, h: nat, m: nat, l: nat)
    requires k <= h && h * m <= l < m * 10_000_000
    ensures k < 10_000_000
  {
    if h >= 10_000_000 { Monotone(10_000_000, h, m); }
  }

  lemma Monotone(a: nat, b: nat, m: nat)
    requires a <= b
    ensures a * m <= b * m
  {
  }

  lemma TenMillion()
    ensures Pow10(7) == 10_000_000
  {
  }

  lemma EmailLength(t: Chars)
    ensures MinLen(EmailCore(t)) == 6
  {
    var r := EmailCore(t);
    assert MinLen(r.second.second.second.second) == 2;
    assert MinLen(r.second.second.second) == 3;
    assert MinLen(r.second.second) == 4;
    assert MinLen(r.second) == 5;
  }

  /** A text of at most forty million characters has too few matches in every pass. */
  lemma FewMatches(t: Chars, s: string)
    requires Unicode(t) && |s| <= 40_000_000
    ensures IdCount(t, s) < 20_000_000 && EmailCount(t, s) < 20_000_000 && PhoneCount(t, s) < 20_000_000
  {
    hide Sub, Hits;
    CoresNonEmpty(t);
    EmiratesIdIsNumber(t);
    EmailLength(t);
    PhoneShape(t);
    PassLength(t, EmiratesId(t), "EMIRATES_ID", s, 15, 21);
    PassLength(t, Email(t), "EMAIL", AfterIds(t, s), 6, 15);
    HitsLength(Phone(t), AfterEmails(t, s), 0, 8);
  }

  /** So redaction leaves no phone number and no Emirates ID in it. */
  lemma ShortTextClean(t: Chars, s: string)
    requires Unicode(t) && |s| <= 40_000_000
    ensures Absent(Phone(t), Redacted(t, s)) && Absent(EmiratesId(t), Redacted(t, s))
  {
    hide Absent;
    FewMatches(t, s);
    NoPhoneLeft(t, s);
    NoEmiratesIdLeft(t, s);
  }
}
