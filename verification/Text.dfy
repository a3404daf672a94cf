/** Characters and small string functions shared by the text algorithms. */
module Text {

  datatype Option<+T> = None | Some(value: T)

  /** The Unicode tables behind the regular expression classes \d, \w and \s. */
  datatype Chars = Chars(digit: char -> bool, word: char -> bool, space: char -> bool)

  predicate AsciiDigit(c: char) { '0' <= c <= '9' }

  predicate AsciiLetter(c: char) { 'A' <= c <= 'Z' || 'a' <= c <= 'z' }

  predicate AsciiSpace(c: char) { '\t' <= c <= '\r' || '\U{1C}' <= c <= '\U{1F}' || c == ' ' }

  /** What the algorithms rely on: the tables are exact on ASCII, every digit is
      a word character, and no word character is white space. */
  ghost predicate Unicode(t: Chars) {
    && (forall c: char :: t.digit(c) ==> t.word(c))
    && (forall c: char :: t.word(c) ==> !t.space(c))
    && (forall c: char | c <= '\U{7F}' :: t.digit(c) <==> AsciiDigit(c))
    && (forall c: char | c <= '\U{7F}' :: t.word(c) <==> AsciiDigit(c) || AsciiLetter(c) || c == '_')
    && (forall c: char | c <= '\U{7F}' :: t.space(c) <==> AsciiSpace(c))
  }

  // ---------- decimal numerals ----------

  function Numeral(d: nat): (c: char)
    requires d < 10
    ensures AsciiDigit(c)
  {
    '0' + d as char
  }

  /** The text of a non-negative integer, as an f-string prints it. */
  function Decimal(n: nat): (s: string)
    ensures |s| > 0
    ensures forall i | 0 <= i < |s| :: AsciiDigit(s[i])
  {
    if n < 10 then [Numeral(n)] else Decimal(n / 10) + [Numeral(n % 10)]
  }

  function Pow10(k: nat): (p: nat)
    ensures p > 0
  {
    if k == 0 then 1 else 10 * Pow10(k - 1)
  }

  lemma {:induction false} DecimalLength(n: nat, k: nat)
    requires n < Pow10(k) && k > 0
    ensures |Decimal(n)| <= k
  {
    if n >= 10 {
      DecimalLength(n / 10, k - 1);
    }
  }

  function LeadingDigit(n: nat): (d: nat)
    ensures d < 10
  {
    if n < 10 then n else LeadingDigit(n / 10)
  }

  lemma TenTimes(q: nat, p: nat, p10: nat, k: nat)
    requires q * p <= k / 10 && p10 == 10 * p
    ensures q * p10 <= k
  {
    assert q * p10 == 10 * (q * p);
  }

  /** The first character is the leading digit, and counts its power of ten. */
  lemma {:induction false} DecimalLead(n: nat, k: nat)
    requires |Decimal(n)| == k + 1
    ensures Decimal(n)[0] == Numeral(LeadingDigit(n)) && LeadingDigit(n) * Pow10(k) <= n
  {
    if n >= 10 {
      DecimalLead(n / 10, k - 1);
      TenTimes(LeadingDigit(n / 10), Pow10(k - 1), Pow10(k), n);
    }
  }

  /** k without its last n digits. */
  function Shortened(k: nat, n: nat): nat {
    if n == 0 then k else Shortened(k / 10, n - 1)
  }

  lemma {:induction false} ShortenedBound(k: nat, n: nat)
    ensures Shortened(k, n) * Pow10(n) <= k
  {
    if n == 0 {
    } else {
      ShortenedBound(k / 10, n - 1);
      TenTimes(Shortened(k / 10, n - 1), Pow10(n - 1), Pow10(n), k);
    }
  }

  lemma {:induction false} DecimalPrefix(k: nat, n: nat)
    requires |Decimal(k)| > n
    ensures Decimal(k)[..|Decimal(k)| - n] == Decimal(Shortened(k, n))
  {
    if n == 0 {
    } else {
      var d, front := Decimal(k), Decimal(k / 10);
      DecimalPrefix(k / 10, n - 1);
      assert d == front + [Numeral(k % 10)];
      assert d[..|d| - n] == front[..|front| - (n - 1)];
    }
  }

  // ---------- str.strip ----------

  function TrimLeft(p: char -> bool, s: string): string {
    if s != "" && p(s[0]) then TrimLeft(p, s[1..]) else s
  }

  function TrimRight(p: char -> bool, s: string): string {
    if s != "" && p(s[|s| - 1]) then TrimRight(p, s[..|s| - 1]) else s
  }

  function Trim(p: char -> bool, s: string): string { TrimRight(p, TrimLeft(p, s)) }

  lemma {:induction false} TrimLeftSlice(p: char -> bool, s: string) returns (a: nat)
    ensures a <= |s| && TrimLeft(p, s) == s[a..] && (a < |s| ==> !p(s[a]))
    ensures s != "" && !p(s[0]) ==> a == 0
  {
    if s != "" && p(s[0]) { var b := TrimLeftSlice(p, s[1..]); a := b + 1; } else { a := 0; }
  }

  lemma {:induction false} TrimRightSlice(p: char -> bool, s: string) returns (b: nat)
    ensures b <= |s| && TrimRight(p, s) == s[..b] && (b > 0 ==> !p(s[b - 1]))
    ensures s != "" && !p(s[|s| - 1]) ==> b == |s|
  {
    if s != "" && p(s[|s| - 1]) { b := TrimRightSlice(p, s[..|s| - 1]); } else { b := |s|; }
  }

  lemma TrimSlice(p: char -> bool, s: string) returns (a: nat, b: nat)
    ensures a <= b <= |s| && Trim(p, s) == s[a..b]
    ensures a < b ==> !p(s[a]) && !p(s[b - 1])
    ensures s == "" || (!p(s[0]) && !p(s[|s| - 1])) ==> Trim(p, s) == s
  {
    hide *;
    a := TrimLeftSlice(p, s);
    var r := s[a..];
    var c := TrimRightSlice(p, r);
    b := a + c;
    TrimIs(p, s);
    assert r[..c] == s[a..b];
    if a < b {
      assert r[c - 1] == s[b - 1];
      assert s[a] == r[0];
    }
    if s != "" && !p(s[0]) && !p(s[|s| - 1]) {
      assert r == s;
      assert s[0..|s|] == s;
    }
  }

  lemma TrimIs(p: char -> bool, s: string)
    ensures Trim(p, s) == TrimRight(p, TrimLeft(p, s)) && Trim(p, "") == ""
  {
  }

  // ---------- str.split ----------

  /** The maximal runs of characters outside p. */
  function Words(p: char -> bool, s: string): (ws: seq<string>)
    ensures s != "" && !p(s[0]) ==> ws != []
  {
    if s == "" then []
    else if p(s[0]) then Words(p, s[1..])
    else if |s| == 1 || p(s[1]) then [[s[0]]] + Words(p, s[1..])
    else var ws := Words(p, s[1..]); [[s[0]] + ws[0]] + ws[1..]
  }

  predicate Visible(p: char -> bool, w: string) { w != "" && forall i | 0 <= i < |w| :: !p(w[i]) }

  lemma {:induction false} WordsVisible(p: char -> bool, s: string)
    ensures forall k | 0 <= k < |Words(p, s)| :: Visible(p, Words(p, s)[k])
  {
    if s == "" {
    } else {
      WordsVisible(p, s[1..]);
    }
  }

  /** A separator ends one list of words and begins the next. */
  lemma {:induction false} WordsApart(p: char -> bool, a: string, c: char, b: string)
    requires p(c)
    ensures Words(p, a + [c] + b) == Words(p, a) + Words(p, b)
  {
    var s := a + [c] + b;
    if a == "" {
      assert s[1..] == b;
    } else {
      assert s[1..] == a[1..] + [c] + b;
      WordsApart(p, a[1..], c, b);
      if !p(a[0]) && |a| > 1 && !p(a[1]) { assert s[1] == a[1]; }
    }
  }

  lemma {:induction false} WordItself(p: char -> bool, w: string)
    requires Visible(p, w)
    ensures Words(p, w) == [w]
  {
    assert w == [w[0]] + w[1..];
    if |w| == 1 {
      assert w == [w[0]] && Words(p, w) == [[w[0]]] + Words(p, w[1..]) && w[1..] == "";
    } else {
      WordItself(p, w[1..]);
    }
  }

  lemma {:induction false} WordsTrimLeft(p: char -> bool, s: string)
    ensures Words(p, TrimLeft(p, s)) == Words(p, s)
  {
    if s != "" && p(s[0]) { WordsTrimLeft(p, s[1..]); }
  }

  lemma {:induction false} WordsTrimRight(p: char -> bool, s: string)
    ensures Words(p, TrimRight(p, s)) == Words(p, s)
  {
    if s != "" && p(s[|s| - 1]) {
      var init := s[..|s| - 1];
      WordsTrimRight(p, init);
      WordsApart(p, init, s[|s| - 1], "");
      assert s == init + [s[|s| - 1]] + "";
    }
  }

  lemma WordsTrim(p: char -> bool, s: string)
    ensures Words(p, Trim(p, s)) == Words(p, s)
  {
    WordsTrimLeft(p, s);
    WordsTrimRight(p, TrimLeft(p, s));
  }

  // ---------- splitting at one character ----------

  function SplitAt(c: char, s: string): (parts: seq<string>)
    ensures parts != []
  {
    if s == "" then [""]
    else if s[0] == c then [""] + SplitAt(c, s[1..])
    else var rest := SplitAt(c, s[1..]); [[s[0]] + rest[0]] + rest[1..]
  }

  function Join(sep: char, parts: seq<string>): string {
    if parts == [] then "" else if |parts| == 1 then parts[0] else parts[0] + [sep] + Join(sep, parts[1..])
  }

  lemma {:induction false} SplitApart(c: char, a: string, b: string)
    requires c !in a
    ensures SplitAt(c, a + [c] + b) == [a] + SplitAt(c, b)
  {
    var s := a + [c] + b;
    if a == "" {
      assert s[1..] == b;
    } else {
      assert s[1..] == a[1..] + [c] + b;
      SplitApart(c, a[1..], b);
      assert a == [a[0]] + a[1..];
    }
  }

  lemma {:induction false} SplitNothing(c: char, a: string)
    requires c !in a
    ensures SplitAt(c, a) == [a]
  {
    if a == "" {
    } else {
      SplitNothing(c, a[1..]);
      assert a == [a[0]] + a[1..];
    }
  }
}
