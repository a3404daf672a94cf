/** Request-boundary redaction of Emirates IDs, e-mail addresses and phone
    numbers: three passes, each replacing the leftmost non-overlapping matches of
    one pattern with numbered placeholders. */
module Redaction {
  import opened Text
  import opened Regex

  // ---------- the three patterns ----------

  function Digits(t: Chars, n: nat): Re
    requires n > 0
  {
    Times(One(t.digit), n)
  }

  function Separator(t: Chars): Re { Opt(One(c => t.space(c) || c == '-')) }

  /** n digits behind an optional separator. */
  function Group(t: Chars, n: nat): Re
    requires n > 0
  {
    Seq(Separator(t), Digits(t, n))
  }

  function EmiratesIdCore(t: Chars): Re {
    Seq(Lit("784"), Seq(Group(t, 4), Seq(Group(t, 7), Group(t, 1))))
  }

  function EmailCore(t: Chars): Re {
    Seq(Plus(c => t.word(c) || c == '.' || c == '+' || c == '-'), Seq(One(c => c == '@'),
      Seq(Plus(c => t.word(c) || c == '.' || c == '-'), Seq(One(c => c == '.'),
        Seq(One(AsciiLetter), Plus(AsciiLetter))))))
  }

  function Sign(): Re { Opt(One(c => c == '+')) }

  function PhoneCode(): Re { Alt(Seq(Sign(), Lit("971")), Alt(Lit("00971"), Lit("0"))) }

  function Mobile(t: Chars): Re { Seq(One(c => c == '5'), One(t.digit)) }

  function PhoneArea(t: Chars): Re { Alt(Mobile(t), One(c => '2' <= c <= '9')) }

  function PhoneTail(t: Chars): Re { Seq(PhoneArea(t), Seq(Group(t, 3), Group(t, 4))) }

  function PhoneCore(t: Chars): Re { Seq(Opt(PhoneCode()), Seq(Separator(t), PhoneTail(t))) }

  function EmiratesId(t: Chars): Pattern { Pattern(t.digit, EmiratesIdCore(t), t.digit) }

  function Email(t: Chars): Pattern { Pattern(c => t.word(c) || c == '.', EmailCore(t), t.word) }

  function Phone(t: Chars): Pattern { Pattern(t.digit, PhoneCore(t), t.digit) }

  // ---------- replacing the matches of one pattern ----------

  function Placeholder(tag: string, index: nat): string {
    "<" + tag + "_" + Decimal(index) + ">"
  }

  function Numbered(tag: string): nat -> string { (k: nat) => Placeholder(tag, k) }

  function Repeat(tag: string, n: nat): seq<string> { seq(n, _ => tag) }

  method Replace(p: Pattern, tag: string, current: string, found: seq<string>)
    returns (out: string, findings: seq<string>)
    requires MinLen(p.core) > 0
    ensures out == Sub(p, Numbered(tag), current, 0, 0)
    ensures findings == found + Repeat(tag, Hits(p, current, 0))
  {
    hide *;
    out, findings := "", found;
    var i, index := 0, 0;
    RepeatMore(tag, 0);
    while i < |current|
      invariant i <= |current|
      invariant out + Sub(p, Numbered(tag), current, i, index) == Sub(p, Numbered(tag), current, 0, 0)
      invariant index + Hits(p, current, i) == Hits(p, current, 0)
      invariant findings == found + Repeat(tag, index)
    {
      RepeatMore(tag, index);
      ghost var h, v, i', n' := Step(p, Numbered(tag), current, i, index);
      assert out + (h + v) == out + h + v;
      match MatchAt(p, current, i)
      case None =>
        out, i := out + [current[i]], i + 1;
      case Some(e) =>
        index := index + 1;
        findings := findings + [tag];
        assert h == Placeholder(tag, index) by { IsNumbered(tag, index); }
        out, i := out + Placeholder(tag, index), e;
    }
    ScanEnd(p, Numbered(tag), current, index);
  }

  lemma IsNumbered(tag: string, k: nat)
    ensures Numbered(tag)(k) == Placeholder(tag, k)
  {
  }

  lemma RepeatMore(tag: string, n: nat)
    ensures Repeat(tag, 0) == [] && Repeat(tag, n + 1) == Repeat(tag, n) + [tag]
  {
  }

  // ---------- where a run of the output comes from ----------

  /** The characters a structured number is made of. */
  predicate Structured(t: Chars, c: char) { t.digit(c) || t.space(c) || c == '-' || c == '+' }

  function StructuredIn(t: Chars): char -> bool { c => Structured(t, c) }

  predicate Tag(tag: string) { forall i | 0 <= i < |tag| :: AsciiLetter(tag[i]) || tag[i] == '_' }

  lemma PlaceholderDigits(t: Chars, tag: string, n: nat, x: nat)
    requires Unicode(t) && Tag(tag) && x < |Placeholder(tag, n)|
    requires Structured(t, Placeholder(tag, n)[x])
    ensures |tag| + 2 <= x < |tag| + 2 + |Decimal(n)| == |Placeholder(tag, n)| - 1
  {
    var h := Placeholder(tag, n);
    assert h[0] == '<' && h[|tag| + 1] == '_' && h[|h| - 1] == '>';
  }

  lemma PlaceholdersFenced(t: Chars, tag: string)
    requires Unicode(t)
    ensures Fenced(Numbered(tag), StructuredIn(t))
  {
    forall k ensures var h := Numbered(tag)(k); h != "" && h[0] == '<' && h[|h| - 1] == '>' {
      assert Numbered(tag)(k) == Placeholder(tag, k);
    }
  }

  /** [x, y) lies in the number of the placeholder standing at `at` in w. */
  ghost predicate IsNumber(tag: string, w: string, x: nat, y: nat, index: nat, at: nat) {
    && at + |Placeholder(tag, index)| <= |w|
    && w[at..at + |Placeholder(tag, index)|] == Placeholder(tag, index)
    && at + |tag| + 2 <= x < y <= at + |tag| + 2 + |Decimal(index)|
  }

  lemma StructuredRunIsNumber(t: Chars, tag: string, w: string, x: nat, y: nat, index: nat, at: nat)
    requires Unicode(t) && Tag(tag) && Within(Placeholder(tag, index), w, at, x, y)
    requires Structured(t, w[x])
    ensures IsNumber(tag, w, x, y, index, at)
  {
    var h := Placeholder(tag, index);
    assert w[x] == w[at..at + |h|][x - at] == h[x - at];
    PlaceholderDigits(t, tag, index, x - at);
  }

  // ---------- what replacement does to structured numbers ----------

  /** A match that begins with no digit can give up its first character. */
  ghost predicate FirstYields(t: Chars, q: Re, s: string, i: nat, e: nat) {
    i < |s| && e in Ends(q, s, i) && !t.digit(s[i]) ==> e in Ends(q, s, i + 1)
  }

  /** A pattern between non-digits, made of structured characters, ending in a
      digit, and matching from the next character if its first is no digit. */
  ghost predicate NumberPattern(t: Chars, q: Pattern) {
    && q.behind == t.digit && q.ahead == t.digit
    && MinLen(q.core) >= 8
    && Only(q.core, StructuredIn(t))
    && Last(q.core, t.digit)
    && forall s, i, e :: FirstYields(t, q.core, s, i, e)
  }

  /** Digits may touch a match of p on neither side. */
  ghost predicate Replacer(t: Chars, p: Pattern) {
    && MinLen(p.core) > 0
    && forall c :: t.digit(c) ==> p.behind(c) && p.ahead(c)
  }

  /** A number in copied text was a number of the input: at the same place, or one
      character later if p ended there with a digit. */
  lemma CopiedNumber(t: Chars, p: Pattern, s: string, q: Pattern, w: string, x: nat, y: nat, from: nat)
    returns (j: nat)
    requires Replacer(t, p) && NumberPattern(t, q) && y - x >= 8
    requires Matches(q, w, x, y) && t.digit(w[y - 1]) && IsCopy(p, s, 0, w, x, y, from)
    ensures j <= |s| && MatchAt(p, s, j).None? && exists e :: Matches(q, s, j, e)
  {
    var e := from + (y - x);
    assert w[y - 1] == s[e - 1];
    assert Shut(q, s, e);
    Local(q.core, w, x, y, s, from);
    j := from;
    if from > 0 && t.digit(s[from - 1]) {
      // p ended here, so the match begins with a character that is no digit
      assert w[x] == s[from];
      assert FirstYields(t, q.core, s, from, e);
      j := from + 1;
    }
    assert Matches(q, s, j, e);
  }

  /** A number in the output was a number of the input, starting where p did not
      match, or is the whole number of a placeholder. */
  lemma Survives(t: Chars, p: Pattern, tag: string, s: string, q: Pattern, x: nat, y: nat)
    returns (j: nat, k: nat)
    requires Unicode(t) && Tag(tag) && Replacer(t, p) && NumberPattern(t, q)
    requires Matches(q, Sub(p, Numbered(tag), s, 0, 0), x, y)
    ensures k == 0 ==> j <= |s| && MatchAt(p, s, j).None? && exists e :: Matches(q, s, j, e)
    ensures k > 0 ==> k <= Hits(p, s, 0) && x <= y && Sub(p, Numbered(tag), s, 0, 0)[x..y] == Decimal(k)
  {
    var w := Sub(p, Numbered(tag), s, 0, 0);
    NumberRun(t, q, w, x, y);
    PlaceholdersFenced(t, tag);
    var o := Locate(StructuredIn(t), p, Numbered(tag), s, 0, 0, x, y);
    match o
    case Copied(from) =>
      j := CopiedNumber(t, p, s, q, w, x, y, from);
      k := 0;
    case Inside(index, at) =>
      k, j := index, 0;
      StructuredRunIsNumber(t, tag, w, x, y, k, at);
      NumberFillsRun(t, tag, q, w, x, y, k, at);
  }

  lemma NumberRun(t: Chars, q: Pattern, w: string, x: nat, y: nat)
    requires NumberPattern(t, q) && Matches(q, w, x, y)
    ensures y - x >= 8 && t.digit(w[y - 1]) && forall k | x <= k < y :: StructuredIn(t)(w[k])
  {
    MinLenBounds(q.core, w, x, y);
    OnlyHolds(q.core, StructuredIn(t), w, x, y);
    LastHolds(q.core, t.digit, w, x, y);
  }

  lemma NumberFillsRun(t: Chars, tag: string, q: Pattern, w: string, x: nat, y: nat, k: nat, at: nat)
    requires Unicode(t) && q.behind == t.digit && q.ahead == t.digit
    requires x < y <= |w| && Open(q, w, x) && Shut(q, w, y) && IsNumber(tag, w, x, y, k, at)
    ensures w[x..y] == Decimal(k)
  {
    var d, a := Decimal(k), at + |tag| + 2;
    PlaceholderAt(tag, k, w, at);
    forall m | a <= m < a + |d| ensures w[m] == d[m - a] && t.digit(w[m]) { assert d[m - a] == w[m]; }
    assert x == a && y == a + |d|;
  }

  // ---------- the two number patterns ----------

  lemma GroupShape(t: Chars, n: nat)
    requires n > 0
    ensures Shape(Separator(t), StructuredIn(t), 0)
    ensures Shape(Group(t, n), StructuredIn(t), n) && Last(Group(t, n), t.digit)
  {
    TimesShape(One(t.digit), n, StructuredIn(t));
    TimesShape(One(t.digit), n, t.digit);
  }

  lemma EmiratesIdIsNumber(t: Chars)
    requires Unicode(t)
    ensures NumberPattern(t, EmiratesId(t)) && Replacer(t, EmiratesId(t)) && MinLen(EmiratesIdCore(t)) == 15
  {
    var q := StructuredIn(t);
    LitShape("784", q);
    GroupShape(t, 4);
    GroupShape(t, 7);
    GroupShape(t, 1);
    SeqShape(Group(t, 7), 7, Group(t, 1), 1, q);
    SeqShape(Group(t, 4), 4, EmiratesIdCore(t).second.second, 8, q);
    SeqShape(Lit("784"), 3, EmiratesIdCore(t).second, 12, q);
    assert Last(EmiratesIdCore(t).second.second, t.digit);
    assert Last(EmiratesIdCore(t).second, t.digit);
    forall s: string, i: nat, e: nat ensures FirstYields(t, EmiratesIdCore(t), s, i, e) {
      if i < |s| { EmiratesIdFirst(t, s, i, e); }
    }
  }

  lemma EmiratesIdFirst(t: Chars, s: string, i: nat, e: nat)
    requires Unicode(t) && i < |s|
    ensures e in Ends(EmiratesIdCore(t), s, i) ==> t.digit(s[i])
  {
    if e in Ends(EmiratesIdCore(t), s, i) {
      var m := SplitSeq(Lit("784"), EmiratesIdCore(t).second, s, i, e);
      LitFirst("784", s, i, m);
    }
  }

  lemma EmailIsReplacer(t: Chars)
    requires Unicode(t)
    ensures Replacer(t, Email(t))
  {
  }

  lemma PhonePartsShape(t: Chars)
    requires Unicode(t)
    ensures Shape(Opt(PhoneCode()), StructuredIn(t), 0) && Shape(PhoneArea(t), StructuredIn(t), 1)
  {
    PhoneCodeShape(t);
    var q := StructuredIn(t);
    SeqShape(Mobile(t).first, 1, Mobile(t).second, 1, q);
    AltShape(Mobile(t), 2, PhoneArea(t).right, 1, q);
  }

  lemma PhoneCodeShape(t: Chars)
    requires Unicode(t)
    ensures Shape(Opt(PhoneCode()), StructuredIn(t), 0)
  {
    var q := StructuredIn(t);
    assert Shape(Sign(), q, 0) && Shape(Eps, q, 0);
    hide Shape, Lit;
    LitShape("971", q);
    LitShape("00971", q);
    LitShape("0", q);
    SeqShape(Sign(), 0, Lit("971"), 3, q);
    AltShape(Lit("00971"), 5, Lit("0"), 1, q);
    AltShape(PhoneCode().left, 3, PhoneCode().right, 1, q);
    AltShape(PhoneCode(), 1, Eps, 0, q);
  }

  lemma PhoneTailShape(t: Chars)
    requires Unicode(t)
    ensures Shape(PhoneTail(t), StructuredIn(t), 8) && Last(PhoneTail(t), t.digit)
  {
    PhonePartsShape(t);
    GroupShape(t, 3);
    GroupShape(t, 4);
    SeqShape(Group(t, 3), 3, Group(t, 4), 4, StructuredIn(t));
    SeqShape(PhoneArea(t), 1, PhoneTail(t).second, 7, StructuredIn(t));
  }

  lemma PhoneShape(t: Chars)
    requires Unicode(t)
    ensures Shape(PhoneCore(t), StructuredIn(t), 8) && Last(PhoneCore(t), t.digit)
  {
    PhonePartsShape(t);
    PhoneTailShape(t);
    GroupShape(t, 3);
    SeqShape(Separator(t), 0, PhoneTail(t), 8, StructuredIn(t));
    SeqShape(Opt(PhoneCode()), 0, PhoneCore(t).second, 8, StructuredIn(t));
    assert Last(PhoneCore(t).second, t.digit);
  }

  lemma PhoneAreaFirst(t: Chars, s: string, i: nat, m: nat)
    requires i <= |s| && m in Ends(PhoneArea(t), s, i)
    ensures i < m && '2' <= s[i] <= '9'
  {
    if m in Ends(Mobile(t), s, i) {
      var k := SplitSeq(Mobile(t).first, Mobile(t).second, s, i, m);
    }
  }

  lemma InSign(s: string, i: nat, e: nat)
    requires i <= |s|
    ensures e in Ends(Sign(), s, i) <==> e == i || (e == i + 1 <= |s| && s[i] == '+')
  {
  }

  /** A country or trunk code begins with a digit or is "+971", a code without its sign too. */
  lemma PhoneCodeCases(t: Chars, s: string, i: nat, m: nat)
    requires Unicode(t) && i < |s| && m in Ends(PhoneCode(), s, i)
    ensures t.digit(s[i]) || m in Ends(PhoneCode(), s, i + 1)
    ensures s[i] == '+' || s[i] == '9' || s[i] == '0'
  {
    hide Ends, Lit;
    InAlt(PhoneCode().left, PhoneCode().right, s, i, m);
    InAlt(PhoneCode().left, PhoneCode().right, s, i + 1, m);
    InAlt(Lit("00971"), Lit("0"), s, i, m);
    if m in Ends(PhoneCode().left, s, i) {
      var k := SplitSeq(Sign(), Lit("971"), s, i, m);
      InSign(s, i, k);
      LitFirst("971", s, k, m);
      if k > i {
        InSign(s, k, k);
        JoinSeq(Sign(), Lit("971"), s, k, k, m);
      }
    } else if m in Ends(Lit("00971"), s, i) {
      LitFirst("00971", s, i, m);
    } else {
      LitFirst("0", s, i, m);
    }
  }

  lemma PhoneTailFirst(t: Chars, s: string, i: nat, e: nat)
    requires Unicode(t) && i <= |s| && e in Ends(PhoneTail(t), s, i)
    ensures i < |s| && t.digit(s[i])
  {
    var a := SplitSeq(PhoneArea(t), PhoneTail(t).second, s, i, e);
    PhoneAreaFirst(t, s, i, a);
  }

  /** [code][sep]tail gives up its first character when code may, and tail needs its first. */
  lemma OptionalsYield(code: Re, sep: Re, tail: Re, s: string, i: nat, e: nat)
    requires i < |s| && e in Ends(Seq(Opt(code), Seq(sep, tail)), s, i)
    requires forall m | m in Ends(code, s, i) :: m in Ends(code, s, i + 1)
    requires forall k | k in Ends(sep, s, i) :: k == i || k == i + 1
    requires i + 1 in Ends(sep, s, i + 1)
    requires e !in Ends(tail, s, i)
    ensures e in Ends(Seq(Opt(code), Seq(sep, tail)), s, i + 1)
  {
    hide Ends;
    var m := SplitSeq(Opt(code), Seq(sep, tail), s, i, e);
    InOpt(code, s, i, m);
    InOpt(code, s, i + 1, m);
    InOpt(code, s, i + 1, i + 1);
    if m in Ends(code, s, i) {
      JoinSeq(Opt(code), Seq(sep, tail), s, i + 1, m, e);
    } else {
      var k := SplitSeq(sep, tail, s, i, e);
      JoinSeq(sep, tail, s, i + 1, i + 1, e);
      JoinSeq(Opt(code), Seq(sep, tail), s, i + 1, i + 1, e);
    }
  }

  lemma PhoneYields(t: Chars, s: string, i: nat, e: nat)
    requires Unicode(t)
    ensures FirstYields(t, PhoneCore(t), s, i, e)
  {
    if i < |s| && e in Ends(PhoneCore(t), s, i) && !t.digit(s[i]) {
      forall m | m in Ends(PhoneCode(), s, i) ensures m in Ends(PhoneCode(), s, i + 1) {
        PhoneCodeCases(t, s, i, m);
      }
      if e in Ends(PhoneTail(t), s, i) { PhoneTailFirst(t, s, i, e); }
      OptionalsYield(PhoneCode(), Separator(t), PhoneTail(t), s, i, e);
    }
  }

  lemma PhoneIsNumber(t: Chars)
    requires Unicode(t)
    ensures NumberPattern(t, Phone(t)) && Replacer(t, Phone(t))
  {
    PhoneShape(t);
    forall s: string, i: nat, e: nat ensures FirstYields(t, PhoneCore(t), s, i, e) {
      PhoneYields(t, s, i, e);
    }
  }

  // ---------- numbers in placeholders ----------

  /** A phone match within a numeral below twenty million does not exist: the
      numeral has at most eight digits, and eight only when it begins with 1. */
  lemma SmallNumeralIsNoPhone(t: Chars, k: nat, w: string, x: nat, y: nat)
    requires Unicode(t) && k < 20_000_000
    requires x <= y <= |w| && w[x..y] == Decimal(k)
    ensures y !in Ends(PhoneCore(t), w, x)
  {
    if y in Ends(PhoneCore(t), w, x) {
      PhoneShape(t);
      MinLenBounds(PhoneCore(t), w, x, y);
      DecimalLength(k, 8);
      DecimalLead(k, 7);
      assert w[x] == Decimal(k)[0];
      ShortPhoneFirst(t, w, x, y);
    }
  }

  lemma PhoneTailLength(t: Chars)
    requires Unicode(t)
    ensures MinLen(PhoneTail(t)) == 8
  {
    PhoneTailShape(t);
  }

  lemma ShortPhoneFirst(t: Chars, w: string, x: nat, y: nat)
    requires Unicode(t) && x + 8 == y <= |w| && y in Ends(PhoneCore(t), w, x)
    ensures w[x] >= '2'
  {
    hide Ends, Shape;
    PhoneTailLength(t);
    var m := SplitSeq(Opt(PhoneCode()), Seq(Separator(t), PhoneTail(t)), w, x, y);
    var k := SplitSeq(Separator(t), PhoneTail(t), w, m, y);
    MinLenBounds(PhoneTail(t), w, k, y);
    var a := SplitSeq(PhoneArea(t), PhoneTail(t).second, w, k, y);
    PhoneAreaFirst(t, w, k, a);
  }

  lemma {:induction false} DigitsMatch(t: Chars, n: nat, s: string, i: nat)
    requires 0 < n && i + n <= |s| && forall k | i <= k < i + n :: t.digit(s[k])
    ensures i + n in Ends(Digits(t, n), s, i)
  {
    if n == 1 {
    } else {
      DigitsMatch(t, n - 1, s, i + 1);
      JoinSeq(One(t.digit), Times(One(t.digit), n - 1), s, i, i + 1, i + n);
    }
  }

  lemma GroupMatches(t: Chars, n: nat, s: string, i: nat)
    requires 0 < n && i + n <= |s| && forall k | i <= k < i + n :: t.digit(s[k])
    ensures i + n in Ends(Group(t, n), s, i)
  {
    DigitsMatch(t, n, s, i);
    JoinSeq(Separator(t), Digits(t, n), s, i, i, i + n);
  }

  lemma EightDigitsArePhone(t: Chars, d: string)
    requires |d| == 8 && '2' <= d[0] <= '9' && forall k | 0 <= k < 8 :: t.digit(d[k])
    ensures 8 in Ends(PhoneCore(t), d, 0)
  {
    GroupMatches(t, 3, d, 1);
    GroupMatches(t, 4, d, 4);
    JoinSeq(Group(t, 3), Group(t, 4), d, 1, 4, 8);
    assert 1 in Ends(PhoneArea(t), d, 0);
    JoinSeq(PhoneArea(t), PhoneTail(t).second, d, 0, 1, 8);
    JoinSeq(Separator(t), PhoneTail(t), d, 0, 0, 8);
    JoinSeq(Opt(PhoneCode()), Seq(Separator(t), PhoneTail(t)), d, 0, 0, 8);
  }

  lemma TwentyMillion()
    ensures |Decimal(20_000_000)| == 8 && Decimal(20_000_000)[0] == '2'
  {
    assert Decimal(20_000_000) == "20000000";
  }

  /** A placeholder whose number has eight digits, the first above 1, reads as a phone number. */
  lemma NumberReadsAsPhone(t: Chars, tag: string, k: nat, w: string, at: nat)
    requires Unicode(t) && |Decimal(k)| == 8 && '2' <= Decimal(k)[0]
    requires at + |Placeholder(tag, k)| <= |w|
    requires w[at..at + |Placeholder(tag, k)|] == Placeholder(tag, k)
    ensures Matches(Phone(t), w, at + |tag| + 2, at + |tag| + 10)
  {
    hide Decimal, PhoneCore, Ends;
    var d := Decimal(k);
    var a := at + |tag| + 2;
    PlaceholderAt(tag, k, w, at);
    EightDigitsArePhone(t, d);
    Local(PhoneCore(t), d, 0, 8, w, a);
  }

  lemma PlaceholderAt(tag: string, k: nat, w: string, at: nat)
    requires at + |Placeholder(tag, k)| <= |w|
    requires w[at..at + |Placeholder(tag, k)|] == Placeholder(tag, k)
    ensures w[at + |tag| + 1] == '_' && w[at + |tag| + 2 + |Decimal(k)|] == '>'
    ensures Same(Decimal(k), 0, w, at + |tag| + 2, |Decimal(k)|)
  {
    var h, d := Placeholder(tag, k), Decimal(k);
    assert w[at + (|tag| + 1)] == h[|tag| + 1] && w[at + (|h| - 1)] == h[|h| - 1];
    forall m | 0 <= m < |d| ensures w[at + |tag| + 2 + m] == d[m] {
      assert w[at + (|tag| + 2 + m)] == h[|tag| + 2 + m];
    }
  }

  // ---------- redact_pii ----------

  lemma CoresNonEmpty(t: Chars)
    ensures MinLen(EmiratesIdCore(t)) > 0 && MinLen(EmailCore(t)) > 0 && MinLen(PhoneCore(t)) > 0
  {
    assert MinLen(EmailCore(t).first) > 0;
    assert MinLen(Mobile(t)) == 2;
    assert MinLen(PhoneArea(t)) == 1;
    assert MinLen(PhoneTail(t)) > 0;
    LitShape("784", StructuredIn(Chars(c => true, c => true, c => true)));
  }

  function AfterIds(t: Chars, s: string): string {
    CoresNonEmpty(t);
    Sub(EmiratesId(t), Numbered("EMIRATES_ID"), s, 0, 0)
  }

  function AfterEmails(t: Chars, s: string): string {
    CoresNonEmpty(t);
    Sub(Email(t), Numbered("EMAIL"), AfterIds(t, s), 0, 0)
  }

  function Redacted(t: Chars, s: string): string {
    CoresNonEmpty(t);
    Sub(Phone(t), Numbered("PHONE"), AfterEmails(t, s), 0, 0)
  }

  function IdCount(t: Chars, s: string): nat { CoresNonEmpty(t); Hits(EmiratesId(t), s, 0) }

  function EmailCount(t: Chars, s: string): nat { CoresNonEmpty(t); Hits(Email(t), AfterIds(t, s), 0) }

  function PhoneCount(t: Chars, s: string): nat { CoresNonEmpty(t); Hits(Phone(t), AfterEmails(t, s), 0) }

  method RedactPii(t: Chars, value: string) returns (redacted: string, findings: seq<string>)
    ensures redacted == Redacted(t, value)
    ensures
      var ids := (CoresNonEmpty(t); Sub(EmiratesId(t), Numbered("EMIRATES_ID"), value, 0, 0));
      var emails := (CoresNonEmpty(t); Sub(Email(t), Numbered("EMAIL"), ids, 0, 0));
      redacted == (CoresNonEmpty(t); Sub(Phone(t), Numbered("PHONE"), emails, 0, 0))
    ensures findings == Repeat("EMIRATES_ID", IdCount(t, value)) + Repeat("EMAIL", EmailCount(t, value))
                        + Repeat("PHONE", PhoneCount(t, value))
  {
    hide Sub, Hits, Decimal;
    CoresNonEmpty(t);
    redacted, findings := Replace(EmiratesId(t), "EMIRATES_ID", value, []);
    redacted, findings := Replace(Email(t), "EMAIL", redacted, findings);
    redacted, findings := Replace(Phone(t), "PHONE", redacted, findings);
  }

  // ---------- completeness of redaction ----------

  /** The phone pass leaves no phone number exactly when it replaces fewer than
      twenty million: from then on its own placeholders read as phone numbers. */
  lemma PhonePass(t: Chars, tag: string, s: string)
    requires Unicode(t) && Tag(tag) && MinLen(PhoneCore(t)) > 0
    ensures Absent(Phone(t), Sub(Phone(t), Numbered(tag), s, 0, 0)) <==> Hits(Phone(t), s, 0) < 20_000_000
  {
    hide Sub, Hits, Matches, Decimal;
    PhoneIsNumber(t);
    var w := Sub(Phone(t), Numbered(tag), s, 0, 0);
    if Hits(Phone(t), s, 0) < 20_000_000 {
      forall x, y ensures !Matches(Phone(t), w, x, y) {
        NoPhoneSurvives(t, tag, s, x, y);
      }
    } else {
      TwentyMillion();
      IsNumbered(tag, 20_000_000);
      var at := EveryReplacementIsPrinted(Phone(t), Numbered(tag), s, 0, 0, 20_000_000);
      NumberReadsAsPhone(t, tag, 20_000_000, w, at);
    }
  }

  lemma NoPhoneSurvives(t: Chars, tag: string, s: string, x: nat, y: nat)
    requires Unicode(t) && Tag(tag) && MinLen(PhoneCore(t)) > 0 && Hits(Phone(t), s, 0) < 20_000_000
    ensures !Matches(Phone(t), Sub(Phone(t), Numbered(tag), s, 0, 0), x, y)
  {
    var w := Sub(Phone(t), Numbered(tag), s, 0, 0);
    if Matches(Phone(t), w, x, y) {
      PhoneIsNumber(t);
      var j, k := Survives(t, Phone(t), tag, s, Phone(t), x, y);
      if k > 0 {
        SmallNumeralIsNoPhone(t, k, w, x, y);
      }
    }
  }

  lemma NoPhoneLeft(t: Chars, s: string)
    requires Unicode(t)
    ensures Absent(Phone(t), Redacted(t, s)) <==> PhoneCount(t, s) < 20_000_000
  {
    CoresNonEmpty(t);
    PhonePass(t, "PHONE", AfterEmails(t, s));
  }

  // ---------- Emirates IDs in placeholders ----------

  /** The first number that reads as an Emirates ID. */
  const FIRST_ID: nat := 784_000_000_000_000

  lemma FirstId()
    ensures FIRST_ID == 784 * Pow10(12) && FIRST_ID < Pow10(15)
    ensures Decimal(FIRST_ID) == "784000000000000"
  {
    assert Pow10(12) == 1_000_000_000_000;
    assert Decimal(784) == "784";
    hide Decimal;
    TimesTen(784);
    TimesTen(7840);
    TimesTen(78400);
    TimesTen(784_000);
    TimesTen(7_840_000);
    TimesTen(78_400_000);
    TimesTen(784_000_000);
    TimesTen(7_840_000_000);
    TimesTen(78_400_000_000);
    TimesTen(784_000_000_000);
    TimesTen(7_840_000_000_000);
    TimesTen(78_400_000_000_000);
  }

  lemma TimesTen(k: nat)
    requires k > 0
    ensures Decimal(10 * k) == Decimal(k) + "0"
  {
    assert 10 * k / 10 == k && Numeral(0) == '0';
  }

  /** A smaller numeral does not: fifteen digits beginning with 784 are no less. */
  lemma SmallNumeralIsNoId(t: Chars, k: nat, w: string, x: nat, y: nat)
    requires Unicode(t) && k < FIRST_ID
    requires x <= y <= |w| && w[x..y] == Decimal(k)
    ensures y !in Ends(EmiratesIdCore(t), w, x)
  {
    hide Ends, Decimal, Pow10;
    if y in Ends(EmiratesIdCore(t), w, x) {
      EmiratesIdIsNumber(t);
      MinLenBounds(EmiratesIdCore(t), w, x, y);
      FirstId();
      DecimalLength(k, 15);
      var m := SplitSeq(Lit("784"), EmiratesIdCore(t).second, w, x, y);
      LitReads("784", w, x, m);
      FirstThree(w, x, y);
      DecimalPrefix(k, 12);
      ShortenedBound(k, 12);
      ThreeDigits(Shortened(k, 12));
    }
  }

  lemma FirstThree(w: string, x: nat, y: nat)
    requires x + 3 <= y <= |w|
    ensures w[x..x + 3] == w[x..y][..3]
  {
  }

  lemma ThreeDigits(j: nat)
    requires Decimal(j) == "784"
    ensures j == 784
  {
    assert |Decimal(j)| == 3 && Decimal(j)[0] == '7' && Decimal(j)[1] == '8' && Decimal(j)[2] == '4';
    assert Decimal(j) == Decimal(j / 10) + [Numeral(j % 10)];
    assert Decimal(j / 10) == Decimal(j / 100) + [Numeral(j / 10 % 10)];
  }

  /** One pass leaves no Emirates ID it was not given, short of that many matches. */
  lemma PassAddsNoId(t: Chars, p: Pattern, tag: string, s: string)
    requires Unicode(t) && Tag(tag) && Replacer(t, p) && Hits(p, s, 0) < FIRST_ID
    requires p == EmiratesId(t) || Absent(EmiratesId(t), s)
    ensures Absent(EmiratesId(t), Sub(p, Numbered(tag), s, 0, 0))
  {
    hide Sub, Hits, Decimal;
    EmiratesIdIsNumber(t);
    var w := Sub(p, Numbered(tag), s, 0, 0);
    forall x, y ensures !Matches(EmiratesId(t), w, x, y) {
      if Matches(EmiratesId(t), w, x, y) {
        var j, k := Survives(t, p, tag, s, EmiratesId(t), x, y);
        if k > 0 { SmallNumeralIsNoId(t, k, w, x, y); }
      }
    }
  }

  lemma ReplacersOf(t: Chars)
    requires Unicode(t)
    ensures Replacer(t, EmiratesId(t)) && Replacer(t, Email(t)) && Replacer(t, Phone(t))
    ensures Tag("EMIRATES_ID") && Tag("EMAIL") && Tag("PHONE")
  {
    EmiratesIdIsNumber(t);
    EmailIsReplacer(t);
    PhoneIsNumber(t);
  }

  /** The first such placeholder stands at `at`. */
  ghost predicate Spells(tag: string, w: string, at: nat) {
    var b := Placeholder(tag, FIRST_ID);
    at + |b| <= |w| && w[at..at + |b|] == b
  }

  lemma PlaceholderReadsAsId(t: Chars, tag: string, w: string, at: nat)
    requires Unicode(t) && Spells(tag, w, at)
    ensures !Absent(EmiratesId(t), w)
  {
    hide Decimal, EmiratesIdCore, Ends;
    FirstId();
    var d := Decimal(FIRST_ID);
    var a := at + |tag| + 2;
    PlaceholderAt(tag, FIRST_ID, w, at);
    FifteenDigitsAreId(t, d);
    Local(EmiratesIdCore(t), d, 0, 15, w, a);
    assert Matches(EmiratesId(t), w, a, a + 15);
  }

  lemma FifteenDigitsAreId(t: Chars, d: string)
    requires |d| == 15 && d[..3] == "784" && forall k | 0 <= k < 15 :: t.digit(d[k])
    ensures 15 in Ends(EmiratesIdCore(t), d, 0)
  {
    hide Ends;
    assert d[0..0 + 3] == "784";
    LitMatches("784", d, 0);
    GroupMatches(t, 4, d, 3);
    GroupMatches(t, 7, d, 7);
    GroupMatches(t, 1, d, 14);
    JoinSeq(Group(t, 7), Group(t, 1), d, 7, 14, 15);
    JoinSeq(Group(t, 4), EmiratesIdCore(t).second.second, d, 3, 7, 15);
    JoinSeq(Lit("784"), EmiratesIdCore(t).second, d, 0, 3, 15);
  }

  // ---------- such a placeholder stays ----------

  /** A phone number without separators has at most fourteen digits. */
  lemma PhoneAtMost(t: Chars)
    requires Unicode(t)
    ensures AtMost(PhoneCore(t), t.digit, 14)
  {
    hide AtMost;
    var q := t.digit;
    PhoneCodeAtMost(t);
    SeparatorAtMost(t);
    OneAtMost(Mobile(t).first.chars, q);
    OneAtMost(Mobile(t).second.chars, q);
    SeqAtMost(Mobile(t).first, 1, Mobile(t).second, 1, q);
    OneAtMost(PhoneArea(t).right.chars, q);
    Longer(PhoneArea(t).right, 1, 2, q);
    AltAtMost(Mobile(t), PhoneArea(t).right, 2, q);
    TimesAtMost(t.digit, 3, q);
    TimesAtMost(t.digit, 4, q);
    SeqAtMost(Separator(t), 0, Digits(t, 3), 3, q);
    SeqAtMost(Separator(t), 0, Digits(t, 4), 4, q);
    SeqAtMost(Group(t, 3), 3, Group(t, 4), 4, q);
    SeqAtMost(PhoneArea(t), 2, PhoneTail(t).second, 7, q);
    SeqAtMost(Separator(t), 0, PhoneTail(t), 9, q);
    SeqAtMost(Opt(PhoneCode()), 5, Seq(Separator(t), PhoneTail(t)), 9, q);
  }

  lemma Longer(r: Re, m: nat, n: nat, q: char -> bool)
    requires AtMost(r, q, m) && m <= n
    ensures AtMost(r, q, n)
  {
  }

  lemma SeparatorAtMost(t: Chars)
    requires Unicode(t)
    ensures AtMost(Separator(t), t.digit, 0)
  {
    OneAtMost(Separator(t).left.chars, t.digit);
    OptAtMost(Separator(t).left, 0, t.digit);
  }

  lemma PhoneCodeAtMost(t: Chars)
    requires Unicode(t)
    ensures AtMost(Opt(PhoneCode()), t.digit, 5)
  {
    hide AtMost;
    var q := t.digit;
    OneAtMost(Sign().left.chars, q);
    OptAtMost(Sign().left, 0, q);
    LitAtMost("971", q);
    LitAtMost("00971", q);
    LitAtMost("0", q);
    SeqAtMost(Sign(), 0, Lit("971"), 3, q);
    Longer(PhoneCode().left, 3, 5, q);
    Longer(Lit("0"), 1, 5, q);
    AltAtMost(Lit("00971"), Lit("0"), 5, q);
    AltAtMost(PhoneCode().left, PhoneCode().right, 5, q);
    OptAtMost(PhoneCode(), 5, q);
  }

  /** No phone match touches the placeholder. */
  lemma PhoneAvoids(t: Chars, tag: string, w: string, at: nat, j: nat, e: nat)
    requires Unicode(t) && Tag(tag) && Spells(tag, w, at) && Matches(Phone(t), w, j, e)
    ensures e <= at || j >= at + |Placeholder(tag, FIRST_ID)|
  {
    hide Decimal, Ends, PhoneCore;
    var b := Placeholder(tag, FIRST_ID);
    PhoneIsNumber(t);
    NumberRun(t, Phone(t), w, j, e);
    Brackets(t, tag, w, at);
    if at < j < at + |b| && e < at + |b| {
      StructuredRunIsNumber(t, tag, w, j, e, FIRST_ID, at);
      NumberFillsRun(t, tag, Phone(t), w, j, e, FIRST_ID, at);
      FirstId();
      forall k | j <= k < e ensures t.digit(w[k]) { assert w[k] == w[j..e][k - j]; }
      DigitsAtMost(t, w, j, e);
    }
  }

  lemma DigitsAtMost(t: Chars, w: string, j: nat, e: nat)
    requires Unicode(t) && j <= |w| && e in Ends(PhoneCore(t), w, j) && forall k | j <= k < e :: t.digit(w[k])
    ensures e - j <= 14
  {
    hide Ends, PhoneCore;
    PhoneAtMost(t);
    assert FitsIn(PhoneCore(t), t.digit, w, j, e);
  }

  /** The placeholder's brackets are not part of a number. */
  lemma Brackets(t: Chars, tag: string, w: string, at: nat)
    requires Unicode(t) && Spells(tag, w, at)
    ensures var n := |Placeholder(tag, FIRST_ID)|; n > 1 && !Structured(t, w[at]) && !Structured(t, w[at + n - 1])
    ensures var n := |Placeholder(tag, FIRST_ID)|; w[at] == '<' && w[at + n - 1] == '>'
  {
    hide Decimal;
    var b := Placeholder(tag, FIRST_ID);
    assert w[at..at + |b|][0] == w[at] && w[at..at + |b|][|b| - 1] == w[at + |b| - 1];
    assert b[0] == '<' && b[|b| - 1] == '>';
  }

  predicate Addressed(t: Chars, c: char) { t.word(c) || c == '.' || c == '+' || c == '-' || c == '@' }

  function AddressedIn(t: Chars): char -> bool { c => Addressed(t, c) }

  lemma EmailShape(t: Chars)
    requires Unicode(t)
    ensures Only(EmailCore(t), AddressedIn(t))
  {
    hide Only;
    var q, r := AddressedIn(t), EmailCore(t);
    OnlyChars(r.first, q);
    OnlyChars(r.second.first, q);
    OnlyChars(r.second.second.first, q);
    OnlyChars(r.second.second.second.first, q);
    OnlyChars(r.second.second.second.second.first, q);
    OnlyChars(r.second.second.second.second.second, q);
    OnlyBoth(r.second.second.second.second, q);
    OnlyBoth(r.second.second.second, q);
    OnlyBoth(r.second.second, q);
    OnlyBoth(r.second, q);
    OnlyBoth(r, q);
  }

  lemma OnlyChars(r: Re, q: char -> bool)
    requires (r.One? || r.Plus?) && forall c :: r.chars(c) ==> q(c)
    ensures Only(r, q)
  {
  }

  lemma OnlyBoth(r: Re, q: char -> bool)
    requires r.Seq? && Only(r.first, q) && Only(r.second, q)
    ensures Only(r, q)
  {
  }

  /** An e-mail address has an at-sign. */
  lemma EmailHasAt(t: Chars, w: string, j: nat, e: nat) returns (k: nat)
    requires j <= |w| && e in Ends(EmailCore(t), w, j)
    ensures j <= k < e && w[k] == '@'
  {
    hide Ends;
    k := SplitSeq(EmailCore(t).first, EmailCore(t).second, w, j, e);
    var m := SplitSeq(EmailCore(t).second.first, EmailCore(t).second.second, w, k, e);
    AtSign(w, k, m);
    EndsAfter(EmailCore(t).second.second, w, m, e);
  }

  lemma AtSign(w: string, k: nat, m: nat)
    requires k <= |w| && m in Ends(One(c => c == '@'), w, k)
    ensures m == k + 1 && k < |w| && w[k] == '@'
  {
  }

  lemma EndsAfter(r: Re, w: string, m: nat, e: nat)
    requires m <= |w| && e in Ends(r, w, m)
    ensures m <= e
  {
  }

  /** No e-mail match touches the placeholder. */
  lemma EmailAvoids(t: Chars, tag: string, w: string, at: nat, j: nat, e: nat)
    requires Unicode(t) && Tag(tag) && Spells(tag, w, at) && Matches(Email(t), w, j, e)
    ensures e <= at || j >= at + |Placeholder(tag, FIRST_ID)|
  {
    hide Decimal, Ends, EmailCore;
    EmailShape(t);
    OnlyHolds(EmailCore(t), AddressedIn(t), w, j, e);
    Brackets(t, tag, w, at);
    var k := EmailHasAt(t, w, j, e);
    if at < k < at + |Placeholder(tag, FIRST_ID)| { NoAtSign(tag, w, at, k); }
  }

  lemma NoAtSign(tag: string, w: string, at: nat, k: nat)
    requires Tag(tag) && Spells(tag, w, at) && at <= k < at + |Placeholder(tag, FIRST_ID)|
    ensures w[k] != '@'
  {
    var b := Placeholder(tag, FIRST_ID);
    assert w[k] == w[at..at + |b|][k - at] == b[k - at];
  }

  /** A placeholder that spells an Emirates ID outlives a pass that avoids it. */
  lemma SpellsOn(p: Pattern, other: string, tag: string, s: string, at: nat) returns (at': nat)
    requires MinLen(p.core) > 0 && Spells(tag, s, at)
    requires forall j: nat, e: nat | Matches(p, s, j, e) :: e <= at || j >= at + |Placeholder(tag, FIRST_ID)|
    ensures Spells(tag, Sub(p, Numbered(other), s, 0, 0), at')
  {
    hide Sub, Decimal;
    var b := Placeholder(tag, FIRST_ID);
    forall j | 0 <= j < at + |b| && MatchAt(p, s, j).Some? ensures j < at && MatchAt(p, s, j).value <= at {
      MinLenBounds(p.core, s, j, MatchAt(p, s, j).value);
    }
    at' := BlockCopied(p, Numbered(other), s, 0, 0, at, b);
  }

  lemma SpelledBy(p: Pattern, tag: string, s: string) returns (at: nat)
    requires MinLen(p.core) > 0 && Hits(p, s, 0) >= FIRST_ID
    ensures Spells(tag, Sub(p, Numbered(tag), s, 0, 0), at)
  {
    hide Sub, Hits, Decimal;
    IsNumbered(tag, FIRST_ID);
    at := EveryReplacementIsPrinted(p, Numbered(tag), s, 0, 0, FIRST_ID);
  }

  lemma ThroughPhones(t: Chars, tag: string, s: string, at: nat) returns (at': nat)
    requires Unicode(t) && Tag(tag) && MinLen(PhoneCore(t)) > 0 && Spells(tag, s, at)
    ensures Spells(tag, Sub(Phone(t), Numbered("PHONE"), s, 0, 0), at')
  {
    hide Sub, Decimal, PhoneCore, Matches, Spells;
    forall j: nat, e: nat | Matches(Phone(t), s, j, e) ensures e <= at || j >= at + |Placeholder(tag, FIRST_ID)| {
      PhoneAvoids(t, tag, s, at, j, e);
    }
    at' := SpellsOn(Phone(t), "PHONE", tag, s, at);
  }

  lemma ThroughEmails(t: Chars, tag: string, s: string, at: nat) returns (at': nat)
    requires Unicode(t) && Tag(tag) && MinLen(EmailCore(t)) > 0 && Spells(tag, s, at)
    ensures Spells(tag, Sub(Email(t), Numbered("EMAIL"), s, 0, 0), at')
  {
    hide Sub, Decimal, EmailCore, Matches, Spells;
    forall j: nat, e: nat | Matches(Email(t), s, j, e) ensures e <= at || j >= at + |Placeholder(tag, FIRST_ID)| {
      EmailAvoids(t, tag, s, at, j, e);
    }
    at' := SpellsOn(Email(t), "EMAIL", tag, s, at);
  }

  /** No Emirates ID is left, not one that was there and not one that the later passes
      uncover, exactly when no pass counts so far that a placeholder spells one. */
  lemma NoEmiratesIdLeft(t: Chars, s: string)
    requires Unicode(t)
    ensures Absent(EmiratesId(t), Redacted(t, s)) <==>
      IdCount(t, s) < FIRST_ID && EmailCount(t, s) < FIRST_ID && PhoneCount(t, s) < FIRST_ID
  {
    hide Sub, Hits, Spells, Absent;
    CoresNonEmpty(t);
    ReplacersOf(t);
    if PhoneCount(t, s) >= FIRST_ID {
      var at := SpelledBy(Phone(t), "PHONE", AfterEmails(t, s));
      PlaceholderReadsAsId(t, "PHONE", Redacted(t, s), at);
    } else if EmailCount(t, s) >= FIRST_ID {
      var at := SpelledBy(Email(t), "EMAIL", AfterIds(t, s));
      at := ThroughPhones(t, "EMAIL", AfterEmails(t, s), at);
      PlaceholderReadsAsId(t, "EMAIL", Redacted(t, s), at);
    } else if IdCount(t, s) >= FIRST_ID {
      var at := SpelledBy(EmiratesId(t), "EMIRATES_ID", s);
      at := ThroughEmails(t, "EMIRATES_ID", AfterIds(t, s), at);
      at := ThroughPhones(t, "EMIRATES_ID", AfterEmails(t, s), at);
      PlaceholderReadsAsId(t, "EMIRATES_ID", Redacted(t, s), at);
    } else {
      PassAddsNoId(t, EmiratesId(t), "EMIRATES_ID", s);
      PassAddsNoId(t, Email(t), "EMAIL", AfterIds(t, s));
      PassAddsNoId(t, Phone(t), "PHONE", AfterEmails(t, s));
    }
  }

  /** Text in which nothing matches is returned as it is, with no findings. */
  lemma CleanTextUnchanged(t: Chars, s: string)
    requires Absent(EmiratesId(t), s) && Absent(Email(t), s) && Absent(Phone(t), s)
    ensures Redacted(t, s) == s && IdCount(t, s) + EmailCount(t, s) + PhoneCount(t, s) == 0
  {
    CoresNonEmpty(t);
    AbsentUnchanged(EmiratesId(t), Numbered("EMIRATES_ID"), s, 0, 0);
    AbsentUnchanged(Email(t), Numbered("EMAIL"), s, 0, 0);
    AbsentUnchanged(Phone(t), Numbered("PHONE"), s, 0, 0);
  }
}
