/** Search normalisation after the NFKC step: the strings it returns are exactly
    the strings it leaves alone. */
module Normalization {
  import opened Text
  import opened Regex

  // ---------- the single-character steps ----------

  const TATWEEL: char := '\U{640}'

  predicate Tatweel(c: char) { c == TATWEEL }

  predicate Diacritic(c: char) {
    || '\U{610}' <= c <= '\U{61A}'
    || '\U{64B}' <= c <= '\U{65F}'
    || c == '\U{670}'
    || '\U{6D6}' <= c <= '\U{6ED}'
  }

  predicate IndicDigit(c: char) { '\U{660}' <= c <= '\U{669}' || '\U{6F0}' <= c <= '\U{6F9}' }

  function AsciiDigitOf(c: char): char {
    if '\U{660}' <= c <= '\U{669}' then '0' + (c - '\U{660}')
    else if '\U{6F0}' <= c <= '\U{6F9}' then '0' + (c - '\U{6F0}')
    else c
  }

  const ALEF: char := '\U{627}'
  const YEH: char := '\U{64A}'
  const HEH: char := '\U{647}'

  predicate Foldable(c: char) { c in {'\U{623}', '\U{625}', '\U{622}', '\U{649}', '\U{629}'} }

  /** Alef forms become bare alef, alef maksura becomes yeh, teh marbuta becomes heh. */
  function FoldLetter(c: char): char {
    if c in {'\U{623}', '\U{625}', '\U{622}'} then ALEF
    else if c == '\U{649}' then YEH
    else if c == '\U{629}' then HEH
    else c
  }

  function Without(p: char -> bool, s: string): string {
    if s == "" then "" else (if p(s[0]) then "" else [s[0]]) + Without(p, s[1..])
  }

  function Each(f: char -> char, s: string): string { seq(|s|, i requires 0 <= i < |s| => f(s[i])) }

  // ---------- the two substitutions ----------

  function Http(): Re {
    Seq(One(c => c == 'h' || c == 'H'), Seq(Times(One(c => c == 't' || c == 'T'), 2), One(c => c == 'p' || c == 'P')))
  }

  /** "s" without regard to case; U+017F folds to it as well. */
  function LetterS(): Re { One(c => c == 's' || c == 'S' || c == '\U{17F}') }

  function NonSpace(t: Chars): char -> bool { c => !t.space(c) }

  function UrlTail(t: Chars): Re { Seq(Opt(LetterS()), Seq(Lit("://"), Plus(NonSpace(t)))) }

  function Nowhere(): char -> bool { c => false }

  function Url(t: Chars): Pattern { Pattern(Nowhere(), Seq(Http(), UrlTail(t)), Nowhere()) }

  const MARK := " \U{27E8}URL\U{27E9} "

  function UrlMark(): nat -> string { (k: nat) => MARK }

  function Whitespace(t: Chars): Pattern { Pattern(Nowhere(), Plus(t.space), Nowhere()) }

  function Blank(): nat -> string { (k: nat) => " " }

  function Marked(t: Chars, s: string): string { UrlNonEmpty(t); Sub(Url(t), UrlMark(), s, 0, 0) }

  function Collapsed(t: Chars, s: string): string { Sub(Whitespace(t), Blank(), s, 0, 0) }

  lemma UrlNonEmpty(t: Chars)
    ensures MinLen(Url(t).core) > 0
  {
    assert MinLen(Http()) > 0;
  }

  // ---------- normalize_for_search ----------

  function Lettered(s: string): string {
    Without(Diacritic, Each(AsciiDigitOf, Without(Tatweel, s)))
  }

  function Normalize(t: Chars, s: string): string {
    Trim(t.space, Collapsed(t, Each(FoldLetter, Marked(t, Lettered(s)))))
  }

  /** What a normalised string looks like. */
  predicate Plain(c: char) { c != TATWEEL && !Diacritic(c) && !IndicDigit(c) && !Foldable(c) }

  predicate Spaced(t: Chars, s: string) {
    && (forall i | 0 <= i < |s| :: t.space(s[i]) ==> s[i] == ' ')
    && (forall i | 0 < i < |s| :: s[i] == ' ' ==> s[i - 1] != ' ')
  }

  ghost predicate Normal(t: Chars, s: string) {
    && (forall i | 0 <= i < |s| :: Plain(s[i]))
    && Absent(Url(t), s)
    && Spaced(t, s)
    && (s != "" ==> s[0] != ' ' && s[|s| - 1] != ' ')
  }

  /** Letters and brackets named in the steps are not white space. */
  ghost predicate Tables(t: Chars) {
    Unicode(t) && forall c :: c in {ALEF, YEH, HEH, '\U{27E8}', '\U{27E9}', '\U{17F}'} || Foldable(c) ==> !t.space(c)
  }

  // ---------- what the steps leave out ----------

  function Unfolded(): char -> bool { c => c != TATWEEL && !Diacritic(c) && !IndicDigit(c) }

  function PlainChar(): char -> bool { c => Plain(c) }

  lemma {:induction false} WithoutChars(p: char -> bool, s: string)
    ensures forall i | 0 <= i < |Without(p, s)| :: !p(Without(p, s)[i]) && Without(p, s)[i] in s
    ensures (forall i | 0 <= i < |s| :: !p(s[i])) ==> Without(p, s) == s
  {
    if s == "" {
    } else {
      WithoutChars(p, s[1..]);
    }
  }

  lemma LetteredChars(s: string)
    ensures forall i | 0 <= i < |Lettered(s)| :: Unfolded()(Lettered(s)[i])
    ensures (forall i | 0 <= i < |s| :: Unfolded()(s[i])) ==> Lettered(s) == s
  {
    hide Without;
    var a := Without(Tatweel, s);
    var b := Each(AsciiDigitOf, a);
    WithoutChars(Tatweel, s);
    WithoutChars(Diacritic, b);
    DigitsChars(a);
    forall i | 0 <= i < |Lettered(s)| ensures Unfolded()(Lettered(s)[i]) {
      var k :| 0 <= k < |b| && b[k] == Lettered(s)[i];
    }
    if forall i | 0 <= i < |s| :: Unfolded()(s[i]) {
      forall i | 0 <= i < |s| ensures !Tatweel(s[i]) && !IndicDigit(s[i]) && !Diacritic(s[i]) {
        assert Unfolded()(s[i]);
      }
      assert a == s && b == s;
    }
  }

  lemma DigitsChars(s: string)
    requires forall i | 0 <= i < |s| :: !Tatweel(s[i])
    ensures forall i | 0 <= i < |s| :: !Tatweel(Each(AsciiDigitOf, s)[i]) && !IndicDigit(Each(AsciiDigitOf, s)[i])
    ensures (forall i | 0 <= i < |s| :: !IndicDigit(s[i])) ==> Each(AsciiDigitOf, s) == s
  {
    forall i | 0 <= i < |s|
      ensures !Tatweel(Each(AsciiDigitOf, s)[i]) && !IndicDigit(Each(AsciiDigitOf, s)[i])
      ensures !IndicDigit(s[i]) ==> Each(AsciiDigitOf, s)[i] == s[i]
    {
      DigitChar(s[i]);
    }
  }

  lemma DigitChar(c: char)
    ensures var d := AsciiDigitOf(c); if IndicDigit(c) then AsciiDigit(d) else d == c
  {
  }

  lemma MarkedChars(t: Chars, s: string)
    requires forall i | 0 <= i < |s| :: Unfolded()(s[i])
    ensures forall i | 0 <= i < |Marked(t, s)| :: Unfolded()(Marked(t, s)[i])
  {
    UrlNonEmpty(t);
    SubChars(Unfolded(), Url(t), UrlMark(), s, 0, 0);
  }

  lemma CollapsedChars(t: Chars, s: string)
    requires forall i | 0 <= i < |s| :: Plain(s[i])
    ensures forall i | 0 <= i < |Collapsed(t, s)| :: Plain(Collapsed(t, s)[i])
  {
    SubChars(PlainChar(), Whitespace(t), Blank(), s, 0, 0);
  }

  // ---------- no URL is left ----------

  lemma HttpFirst(s: string, i: nat, e: nat)
    requires i <= |s| && e in Ends(Http(), s, i)
    ensures i < |s| && (s[i] == 'h' || s[i] == 'H')
  {
    var m := SplitSeq(Http().first, Http().second, s, i, e);
  }

  lemma UrlShape(t: Chars)
    requires Tables(t)
    ensures Only(Url(t).core, NonSpace(t))
  {
    hide Lit;
    var q := NonSpace(t);
    HttpShape(t);
    LitShape("://", q);
    assert Only(Opt(LetterS()), q);
    assert Only(UrlTail(t).second, q);
    assert Only(UrlTail(t), q);
  }

  lemma HttpShape(t: Chars)
    requires Unicode(t)
    ensures Only(Http(), NonSpace(t))
  {
    var tt := Http().second.first;
    assert tt.first == tt.second;
    assert Only(tt.first, NonSpace(t));
    assert Only(Http().second, NonSpace(t));
  }

  /** A URL match is a run of visible characters beginning with h. */
  lemma UrlRun(t: Chars, w: string, x: nat, y: nat)
    requires Tables(t) && Matches(Url(t), w, x, y)
    ensures x < y && (w[x] == 'h' || w[x] == 'H') && forall k | x <= k < y :: NonSpace(t)(w[k])
  {
    UrlShape(t);
    UrlNonEmpty(t);
    MinLenBounds(Url(t).core, w, x, y);
    OnlyHolds(Url(t).core, NonSpace(t), w, x, y);
    var m := SplitSeq(Http(), UrlTail(t), w, x, y);
    HttpFirst(w, x, m);
  }

  lemma UrlElsewhere(t: Chars, w: string, x: nat, y: nat, v: string, j: nat)
    requires Matches(Url(t), w, x, y) && x <= y && Same(w, x, v, j, y - x)
    ensures Matches(Url(t), v, j, j + (y - x)) && MatchAt(Url(t), v, j).Some?
  {
    hide Ends;
    Local(Url(t).core, w, x, y, v, j);
  }

  lemma UrlMarkFenced(t: Chars)
    requires Unicode(t)
    ensures Fenced(UrlMark(), NonSpace(t)) && Fenced(Blank(), NonSpace(t))
  {
    assert MARK[0] == ' ' && MARK[|MARK| - 1] == ' ';
  }

  lemma MarkedAbsent(t: Chars, s: string)
    requires Tables(t)
    ensures Absent(Url(t), Marked(t, s))
  {
    hide Sub, Ends, Matches, Marked;
    forall x, y ensures !Matches(Url(t), Marked(t, s), x, y) { NoneMarked(t, s, x, y); }
  }

  lemma NoneMarked(t: Chars, s: string, x: nat, y: nat)
    requires Tables(t)
    ensures !Matches(Url(t), Marked(t, s), x, y)
  {
    hide Sub, Ends, Hits;
    var w := Marked(t, s);
    if Matches(Url(t), w, x, y) {
      UrlMarkFenced(t);
      UrlRun(t, w, x, y);
      MarkedIs(t, s);
      var o := Locate(NonSpace(t), Url(t), UrlMark(), s, 0, 0, x, y);
      match o
      case Copied(j) => UrlElsewhere(t, w, x, y, s, j);
      case Inside(k, at) => NotInMark(w, x, y, k, at);
    }
  }

  lemma MarkedIs(t: Chars, s: string)
    ensures MinLen(Url(t).core) > 0 && Marked(t, s) == Sub(Url(t), UrlMark(), s, 0, 0)
  {
    UrlNonEmpty(t);
  }

  lemma NotInMark(w: string, x: nat, y: nat, k: nat, at: nat)
    requires Within(UrlMark()(k), w, at, x, y)
    ensures w[x] != 'h' && w[x] != 'H'
  {
    assert w[x] == w[at..at + |MARK|][x - at] == MARK[x - at];
  }

  lemma FoldedAbsent(t: Chars, s: string)
    requires Tables(t) && Absent(Url(t), s)
    ensures Absent(Url(t), Each(FoldLetter, s))
  {
    forall x, y ensures !Matches(Url(t), Each(FoldLetter, s), x, y) {
      if Matches(Url(t), Each(FoldLetter, s), x, y) { UnfoldedMatch(t, s, x, y); }
    }
  }

  lemma UnfoldedMatch(t: Chars, s: string, x: nat, y: nat)
    requires Tables(t) && Matches(Url(t), Each(FoldLetter, s), x, y)
    ensures Matches(Url(t), s, x, y)
  {
    hide Ends;
    UrlBlind(t);
    BlindEnds(Url(t).core, FoldLetter, s, Each(FoldLetter, s), x);
  }

  lemma UrlBlind(t: Chars)
    requires Tables(t)
    ensures Blind(Url(t).core, FoldLetter)
  {
    hide Lit;
    LitBlind("://", FoldLetter);
    assert Blind(Opt(LetterS()), FoldLetter);
    assert Blind(UrlTail(t).second, FoldLetter);
    assert Blind(UrlTail(t), FoldLetter);
    assert Blind(Http().second.first, FoldLetter);
    assert Blind(Http().second, FoldLetter);
    assert Blind(Http(), FoldLetter);
  }

  lemma CollapsedAbsent(t: Chars, s: string)
    requires Tables(t) && Absent(Url(t), s)
    ensures Absent(Url(t), Collapsed(t, s))
  {
    hide Sub, Ends;
    UrlMarkFenced(t);
    var w := Collapsed(t, s);
    forall x, y ensures !Matches(Url(t), w, x, y) {
      if Matches(Url(t), w, x, y) {
        UrlRun(t, w, x, y);
        var o := Locate(NonSpace(t), Whitespace(t), Blank(), s, 0, 0, x, y);
        assert o.Copied?;
        UrlElsewhere(t, w, x, y, s, o.from);
      }
    }
  }

  // ---------- white space ----------

  /** At a space the whole run of spaces matches; elsewhere nothing does. */
  lemma SpaceRun(t: Chars, s: string, i: nat)
    requires i <= |s|
    ensures MatchAt(Whitespace(t), s, i).None? <==> i == |s| || !t.space(s[i])
    ensures var r := MatchAt(Whitespace(t), s, i);
      r.Some? ==> r.value <= |s| && (r.value == |s| || !t.space(s[r.value]))
    ensures i < |s| && t.space(s[i]) && (i + 1 == |s| || !t.space(s[i + 1])) ==>
        MatchAt(Whitespace(t), s, i) == Some(i + 1)
  {
    Greedy(t.space, s, i);
    var ends := Ends(Plus(t.space), s, i);
    if ends != [] { assert Shut(Whitespace(t), s, ends[0]); }
  }

  lemma {:induction false} CollapsedSpaced(t: Chars, s: string, i: nat, n: nat)
    requires Unicode(t) && i <= |s|
    ensures var w := Sub(Whitespace(t), Blank(), s, i, n);
      Spaced(t, w) && (w != "" && w[0] == ' ' ==> i < |s| && t.space(s[i]))
    decreases |s| - i
  {
    hide Ends;
    if i == |s| { return; }
    var h, v, i', n' := Step(Whitespace(t), Blank(), s, i, n);
    SpaceRun(t, s, i);
    CollapsedSpaced(t, s, i', n');
    JoinSpaced(t, h, v);
  }

  lemma JoinSpaced(t: Chars, h: string, v: string)
    requires Unicode(t) && Spaced(t, v) && |h| == 1 && (t.space(h[0]) ==> h[0] == ' ')
    requires h[0] == ' ' && v != "" ==> v[0] != ' '
    ensures Spaced(t, h + v)
  {
    var w := h + v;
    forall i | 0 < i < |w| && w[i] == ' ' ensures w[i - 1] != ' ' {
      assert w[i] == v[i - 1];
      if i > 1 { assert w[i - 1] == v[i - 2]; }
    }
  }

  lemma {:induction false} SpacedCollapsed(t: Chars, s: string, i: nat, n: nat)
    requires Unicode(t) && i <= |s| && Spaced(t, s)
    ensures Sub(Whitespace(t), Blank(), s, i, n) == s[i..]
    decreases |s| - i
  {
    hide Ends, Sub, MatchAt, Hits;
    if i == |s| {
      ScanEnd(Whitespace(t), Blank(), s, n);
    } else {
      SpaceRun(t, s, i);
      if t.space(s[i]) { SpaceAlone(t, s, i); }
      var h, v, i', n' := Step(Whitespace(t), Blank(), s, i, n);
      assert i' == i + 1 && h == [s[i]];
      SpacedCollapsed(t, s, i', n');
      assert s[i..] == [s[i]] + s[i + 1..];
    }
  }

  lemma SpaceAlone(t: Chars, s: string, i: nat)
    requires Unicode(t) && Spaced(t, s) && i < |s| && t.space(s[i])
    ensures s[i] == ' ' && (i + 1 < |s| ==> !t.space(s[i + 1]))
  {
  }

  // ---------- the results ----------

  /** The last two steps, on text without foldable letters and URLs. */
  lemma TidyIsNormal(t: Chars, s: string)
    requires Tables(t) && Absent(Url(t), s) && forall i | 0 <= i < |s| :: Plain(s[i])
    ensures Normal(t, Trim(t.space, Collapsed(t, s)))
  {
    hide Sub, Ends;
    var w := Collapsed(t, s);
    CollapsedChars(t, s);
    CollapsedAbsent(t, s);
    CollapsedSpaced(t, s, 0, 0);
    var a, b := TrimSlice(t.space, w);
    SliceAbsent(t, w, a, b);
    SpacedSlice(t, w, a, b);
  }

  lemma SpacedSlice(t: Chars, w: string, a: nat, b: nat)
    requires Spaced(t, w) && a <= b <= |w|
    ensures Spaced(t, w[a..b])
  {
    var r := w[a..b];
    forall i | 0 <= i < |r| ensures r[i] == w[a + i] {}
    forall i | 0 < i < |r| && r[i] == ' ' ensures r[i - 1] != ' ' {
      assert r[i] == w[a + i] && r[i - 1] == w[a + i - 1];
    }
  }

  lemma SliceAbsent(t: Chars, w: string, a: nat, b: nat)
    requires Tables(t) && Absent(Url(t), w) && a <= b <= |w|
    ensures Absent(Url(t), w[a..b])
  {
    hide Ends;
    var r := w[a..b];
    forall x, y ensures !Matches(Url(t), r, x, y) {
      if Matches(Url(t), r, x, y) {
        UrlRun(t, r, x, y);
        UrlElsewhere(t, r, x, y, w, a + x);
      }
    }
  }

  /** Every result is in normal form. */
  lemma NormalizeIsNormal(t: Chars, s: string)
    requires Tables(t)
    ensures Normal(t, Normalize(t, s))
  {
    hide Sub, Ends, Without, Normal, Trim;
    LetteredChars(s);
    MarkedChars(t, Lettered(s));
    MarkedAbsent(t, Lettered(s));
    var u := Marked(t, Lettered(s));
    FoldedAbsent(t, u);
    FoldedPlain(u);
    TidyIsNormal(t, Each(FoldLetter, u));
  }

  lemma FoldedPlain(u: string)
    requires forall i | 0 <= i < |u| :: Unfolded()(u[i])
    ensures forall i | 0 <= i < |Each(FoldLetter, u)| :: Plain(Each(FoldLetter, u)[i])
  {
    var w := Each(FoldLetter, u);
    forall i | 0 <= i < |w| ensures Plain(w[i]) { assert Unfolded()(u[i]) && w[i] == FoldLetter(u[i]); }
  }

  /** Normal form is left alone. */
  lemma NormalIsFixed(t: Chars, s: string)
    requires Tables(t) && Normal(t, s)
    ensures Normalize(t, s) == s
  {
    hide Sub, Ends, Without, Trim;
    LetteredChars(s);
    UrlNonEmpty(t);
    AbsentUnchanged(Url(t), UrlMark(), s, 0, 0);
    assert Marked(t, s) == s;
    assert Each(FoldLetter, s) == s;
    SpacedCollapsed(t, s, 0, 0);
    var a, b := TrimSlice(t.space, s);
  }

  /** The strings normalisation returns are exactly the strings it leaves alone. */
  lemma FixedPoints(t: Chars, s: string)
    requires Tables(t)
    ensures Normalize(t, s) == s <==> Normal(t, s)
  {
    NormalizeIsNormal(t, s);
    if Normal(t, s) { NormalIsFixed(t, s); }
  }

  lemma Idempotent(t: Chars, s: string)
    requires Tables(t)
    ensures Normalize(t, Normalize(t, s)) == Normalize(t, s)
  {
    NormalizeIsNormal(t, s);
    NormalIsFixed(t, Normalize(t, s));
  }

  // ---------- the result, word by word ----------

  lemma {:induction false} SkipSpaces(p: char -> bool, s: string, i: nat, j: nat)
    requires i <= j <= |s| && forall k | i <= k < j :: p(s[k])
    ensures Words(p, s[i..]) == Words(p, s[j..])
    decreases j - i
  {
    if i < j {
      assert s[i..][1..] == s[i + 1..];
      SkipSpaces(p, s, i + 1, j);
    }
  }

  /** How a run of white space matches. */
  lemma SpacesMatched(t: Chars, s: string, i: nat, j: nat)
    requires i < |s| && t.space(s[i]) && MatchAt(Whitespace(t), s, i) == Some(j)
    ensures i < j <= |s| && forall k | i <= k < j :: t.space(s[k])
  {
    InPlus(t.space, s, i, j);
  }

  lemma FirstWord(p: char -> bool, c: char, v: string, u: string)
    requires !p(c) && Words(p, v) == Words(p, u)
    requires (v == "" || p(v[0])) <==> (u == "" || p(u[0]))
    ensures Words(p, [c] + v) == Words(p, [c] + u)
  {
    assert ([c] + v)[1..] == v && ([c] + u)[1..] == u;
  }

  /** Collapsing keeps the words. */
  lemma {:induction false} WordsCollapsed(t: Chars, s: string, i: nat, n: nat)
    requires Unicode(t) && i <= |s|
    ensures var w := Sub(Whitespace(t), Blank(), s, i, n);
      && Words(t.space, w) == Words(t.space, s[i..])
      && ((w == "" || t.space(w[0])) <==> (i == |s| || t.space(s[i])))
    decreases |s| - i
  {
    hide Ends, Sub, MatchAt, Hits;
    if i == |s| {
      ScanEnd(Whitespace(t), Blank(), s, n);
    } else {
      var h, v, i', n' := Step(Whitespace(t), Blank(), s, i, n);
      SpaceRun(t, s, i);
      WordsCollapsed(t, s, i', n');
      if t.space(s[i]) {
        SpacesMatched(t, s, i, i');
        SkipSpaces(t.space, s, i, i');
        assert h == " " && (h + v)[1..] == v;
      } else {
        assert s[i..] == [s[i]] + s[i + 1..];
        FirstWord(t.space, s[i], v, s[i + 1..]);
      }
    }
  }

  /** Single spaces between words, and none at the ends. */
  lemma {:induction false} SpacedJoin(t: Chars, w: string)
    requires Unicode(t) && Spaced(t, w) && (w != "" ==> !t.space(w[0]) && !t.space(w[|w| - 1]))
    ensures w == Join(' ', Words(t.space, w))
  {
    if |w| == 0 {
    } else if |w| == 1 {
      assert Words(t.space, w) == [[w[0]]] + Words(t.space, w[1..]) && w[1..] == "";
      assert w == [w[0]];
    } else if t.space(w[1]) {
      var rest := w[2..];
      assert w[1..][1..] == rest;
      SpaceAlone(t, w, 1);
      SpacedSlice(t, w, 2, |w|);
      assert w[2..|w|] == rest;
      SpacedJoin(t, rest);
      assert Words(t.space, w) == [[w[0]]] + Words(t.space, rest);
      assert w == [w[0]] + [' '] + rest;
    } else {
      var rest := w[1..];
      SpacedSlice(t, w, 1, |w|);
      assert w[1..|w|] == rest;
      SpacedJoin(t, rest);
      JoinLonger(w[0], Words(t.space, rest));
      assert w == [w[0]] + rest;
    }
  }

  lemma JoinLonger(c: char, ws: seq<string>)
    requires ws != []
    ensures Join(' ', [[c] + ws[0]] + ws[1..]) == [c] + Join(' ', ws)
  {
    var all := [[c] + ws[0]] + ws[1..];
    assert all[1..] == ws[1..];
  }

  lemma Tidied(t: Chars, s: string)
    requires Tables(t)
    ensures Trim(t.space, Collapsed(t, s)) == Join(' ', Words(t.space, s))
  {
    hide Sub, Words, Trim, Join;
    var w := Collapsed(t, s);
    CollapsedSpaced(t, s, 0, 0);
    WordsCollapsed(t, s, 0, 0);
    assert s[0..] == s;
    var a, b := TrimSlice(t.space, w);
    SpacedSlice(t, w, a, b);
    WordsTrim(t.space, w);
    SpacedJoin(t, w[a..b]);
  }

  /** The result is the words that are left after the replacements, between single spaces. */
  lemma NormalizeIsWords(t: Chars, s: string)
    requires Tables(t)
    ensures Normalize(t, s) == Join(' ', Words(t.space, Each(FoldLetter, Marked(t, Lettered(s)))))
  {
    hide Trim, Collapsed, Words, Join, Marked, Lettered, Each;
    Tidied(t, Each(FoldLetter, Marked(t, Lettered(s))));
  }

  // ---------- what becomes of each character ----------

  /** Tatweel and diacritics. */
  predicate Vanishes(c: char) {
    || c == '\U{640}' || '\U{610}' <= c <= '\U{61A}' || '\U{64B}' <= c <= '\U{65F}' || c == '\U{670}'
    || '\U{6D6}' <= c <= '\U{6ED}'
  }

  /** What any other character is written as. */
  predicate Becomes(c: char, d: char) {
    if c in {'\U{622}', '\U{623}', '\U{625}'} then d == '\U{627}'
    else if c == '\U{629}' then d == '\U{647}'
    else if c == '\U{649}' then d == '\U{64A}'
    else if '\U{660}' <= c <= '\U{669}' then '0' <= d <= '9' && d as int - '0' as int == c as int - 0x660
    else if '\U{6F0}' <= c <= '\U{6F9}' then '0' <= d <= '9' && d as int - '0' as int == c as int - 0x6F0
    else d == c
  }

  /** b is a with every character that vanishes left out and every other one replaced. */
  ghost predicate Rewritten(a: string, b: string) {
    if a == "" then b == ""
    else if Vanishes(a[0]) then Rewritten(a[1..], b)
    else b != "" && Becomes(a[0], b[0]) && Rewritten(a[1..], b[1..])
  }

  lemma FoldCons(c: char, s: string)
    ensures Each(FoldLetter, [c] + s) == [FoldLetter(c)] + Each(FoldLetter, s)
    ensures Each(FoldLetter, "") == ""
  {
  }

  lemma WithoutCons(p: char -> bool, c: char, s: string)
    ensures Without(p, [c] + s) == if p(c) then Without(p, s) else [c] + Without(p, s)
  {
    assert ([c] + s)[1..] == s;
  }

  lemma DigitsCons(c: char, s: string)
    ensures Each(AsciiDigitOf, [c] + s) == [AsciiDigitOf(c)] + Each(AsciiDigitOf, s)
  {
  }

  lemma LetteredCons(s: string)
    requires s != ""
    ensures Lettered(s) == if Vanishes(s[0]) then Lettered(s[1..]) else [AsciiDigitOf(s[0])] + Lettered(s[1..])
  {
    hide Without, Each;
    var c := s[0];
    assert s == [c] + s[1..];
    WithoutCons(Tatweel, c, s[1..]);
    if !Tatweel(c) {
      var rest := Without(Tatweel, s[1..]);
      DigitsCons(c, rest);
      WithoutCons(Diacritic, AsciiDigitOf(c), Each(AsciiDigitOf, rest));
      assert Diacritic(AsciiDigitOf(c)) <==> Vanishes(c);
    }
  }

  /** All replacements of single characters together. */
  lemma {:induction false} CharactersRewritten(s: string)
    ensures Rewritten(s, Each(FoldLetter, Lettered(s)))
  {
    hide Lettered, Each, FoldLetter, AsciiDigitOf, Becomes, Vanishes;
    if s == "" {
      NothingLettered();
      FoldCons(' ', "");
    } else {
      CharactersRewritten(s[1..]);
      LetteredCons(s);
      if !Vanishes(s[0]) {
        FoldCons(AsciiDigitOf(s[0]), Lettered(s[1..]));
        CharBecomes(s[0]);
        var b := [FoldLetter(AsciiDigitOf(s[0]))] + Each(FoldLetter, Lettered(s[1..]));
        assert b[1..] == Each(FoldLetter, Lettered(s[1..]));
      }
    }
  }

  lemma NothingLettered()
    ensures Lettered("") == ""
  {
  }

  lemma CharBecomes(c: char)
    requires !Vanishes(c)
    ensures Becomes(c, FoldLetter(AsciiDigitOf(c)))
  {
  }

  // ---------- what becomes of URLs ----------

  /** http or https in any case; U+017F is an s. */
  predicate SchemeAt(s: string, i: nat, m: nat) {
    && i + 4 <= m <= |s| && s[i] in {'h', 'H'} && s[i + 1] in {'t', 'T'} && s[i + 2] in {'t', 'T'}
    && s[i + 3] in {'p', 'P'} && (m == i + 4 || (m == i + 5 && s[i + 4] in {'s', 'S', '\U{17F}'}))
  }

  /** A scheme, "://" and visible characters. */
  ghost predicate UrlAt(t: Chars, s: string, i: nat, e: nat) {
    exists m: nat :: SchemeAt(s, i, m) && WordAt(s, m, "://") && VisibleRun(t, s, m + 3, e)
  }

  predicate VisibleRun(t: Chars, s: string, i: nat, e: nat) {
    i < e <= |s| && forall k | i <= k < e :: !t.space(s[k])
  }

  lemma HttpEnds(s: string, i: nat)
    requires i <= |s|
    ensures Ends(Http(), s, i) == if SchemeAt(s, i, i + 4) then [i + 4] else []
  {
    var h, second := Http().first, Http().second;
    var tt, p := second.first.first, second.second;
    assert second.first == Seq(tt, tt) && tt.One?;
    CharThen(h.chars, second, s, i);
    if i < |s| && h.chars(s[i]) { TwiceThen(tt.chars, p, s, i + 1); }
  }

  /** "://" and the visible characters behind it. */
  lemma AddressLeads(t: Chars, s: string, m: nat, e: nat)
    requires WordAt(s, m, "://") && VisibleRun(t, s, m + 3, e) && (e < |s| ==> t.space(s[e]))
    ensures m <= |s| && Leads(Ends(UrlTail(t).second, s, m), e)
  {
    hide Ends, EndsFrom, Lit, Leads, WordAt;
    Colon(s, m);
    RunLeads(NonSpace(t), s, m + 3, e);
    LitEnds("://", s, m);
    OnlyThen(Lit("://"), Plus(NonSpace(t)), s, m, m + 3, e);
  }

  lemma UrlParts(t: Chars, s: string, i: nat, e: nat) returns (m: nat)
    requires UrlAt(t, s, i, e)
    ensures SchemeAt(s, i, m) && WordAt(s, m, "://") && VisibleRun(t, s, m + 3, e)
    ensures i + 4 <= m <= |s| && m + 3 < e <= |s| && SchemeAt(s, i, i + 4)
  {
    hide WordAt;
    m :| SchemeAt(s, i, m) && WordAt(s, m, "://") && VisibleRun(t, s, m + 3, e);
  }

  lemma UrlMatch(t: Chars, s: string, i: nat, e: nat)
    requires i <= |s| && e <= |s|
    ensures Url(t).core == Seq(Http(), UrlTail(t)) && UrlTail(t) == Seq(Opt(LetterS()), UrlTail(t).second)
    ensures Open(Url(t), s, i) && Shut(Url(t), s, e)
  {
    hide Http, LetterS, Lit;
  }

  /** Every URL in the text is found, and replaced as far as its visible characters go. */
  lemma UrlFound(t: Chars, s: string, i: nat, e: nat)
    requires UrlAt(t, s, i, e) && (e < |s| ==> t.space(s[e]))
    ensures MatchAt(Url(t), s, i) == Some(e)
  {
    hide *;
    var m := UrlParts(t, s, i, e);
    UrlMatch(t, s, i, e);
    AddressLeads(t, s, m, e);
    SchemeThen(UrlTail(t).second, s, i, m, e);
    HttpEnds(s, i);
    OnlyThen(Http(), UrlTail(t), s, i, i + 4, e);
    FirstEnd(Url(t), s, i, e);
  }

  lemma OptionalS(s: string, i: nat)
    requires i <= |s|
    ensures Ends(Opt(LetterS()), s, i) ==
      if i < |s| && s[i] in {'s', 'S', '\U{17F}'} then [i + 1] + [i] else [i]
  {
  }

  lemma Colon(s: string, m: nat)
    requires WordAt(s, m, "://")
    ensures m < |s| && s[m] == ':'
  {
    assert s[m] == s[m..m + 3][0];
  }

  lemma SchemeThen(tail: Re, s: string, i: nat, m: nat, e: nat)
    requires SchemeAt(s, i, m) && Leads(Ends(tail, s, m), e) && WordAt(s, m, "://")
    ensures Leads(Ends(Seq(Opt(LetterS()), tail), s, i + 4), e)
  {
    hide Ends, EndsFrom, Leads, WordAt;
    Colon(s, m);
    OptionalS(s, i + 4);
    SeqIs(Opt(LetterS()), tail, s, i + 4);
    OneStart(tail, s, m, i + 4);
    if m == i + 5 {
      EndsFromAppend(tail, s, [m], [i + 4], i + 4);
      LeadsFirst(Ends(tail, s, m), EndsFrom(tail, s, [i + 4], i + 4), e);
    }
  }

  /** And nothing else is taken for one. */
  lemma UrlOnly(t: Chars, s: string, i: nat, e: nat)
    requires i <= |s| && MatchAt(Url(t), s, i) == Some(e)
    ensures UrlAt(t, s, i, e) && (e < |s| ==> t.space(s[e]))
  {
    hide Ends, Lit, WordAt;
    var a := SplitSeq(Http(), UrlTail(t), s, i, e);
    HttpEnds(s, i);
    var m := SplitSeq(Opt(LetterS()), UrlTail(t).second, s, a, e);
    InOpt(LetterS(), s, a, m);
    InLetterS(s, a, m);
    var b := SplitSeq(Lit("://"), Plus(NonSpace(t)), s, m, e);
    InLit("://", s, m, b);
    InPlus(NonSpace(t), s, b, e);
    var end := RunEnd(NonSpace(t), s, e);
    assert UrlAt(t, s, i, end) by { assert SchemeAt(s, i, m) && VisibleRun(t, s, m + 3, end); }
    UrlFound(t, s, i, end);
  }

  lemma InLetterS(s: string, i: nat, m: nat)
    requires i <= |s|
    ensures m in Ends(LetterS(), s, i) <==> i < |s| && s[i] in {'s', 'S', '\U{17F}'} && m == i + 1
  {
  }

  /** The end of a run that has come as far as e. */
  lemma {:induction false} RunEnd(p: char -> bool, s: string, e: nat) returns (end: nat)
    requires e <= |s|
    ensures e <= end <= |s| && (forall k | e <= k < end :: p(s[k])) && (end < |s| ==> !p(s[end]))
    decreases |s| - e
  {
    if e < |s| && p(s[e]) { end := RunEnd(p, s, e + 1); } else { end := e; }
  }

  /** A URL that begins a word is replaced, up to the end of the word, by the mark. */
  lemma UrlReplaced(t: Chars, s: string, i: nat, e: nat) returns (head: string, k: nat)
    requires Tables(t) && UrlAt(t, s, i, e) && (e < |s| ==> t.space(s[e])) && (i > 0 ==> t.space(s[i - 1]))
    ensures MinLen(Url(t).core) > 0 && e <= |s|
    ensures Marked(t, s) == head + " \U{27E8}URL\U{27E9} " + Sub(Url(t), UrlMark(), s, e, k)
  {
    UrlFound(t, s, i, e);
    hide Sub, MatchAt, Ends;
    MarkedIs(t, s);
    forall j | 0 <= j < i && MatchAt(Url(t), s, j).Some? ensures MatchAt(Url(t), s, j).value <= i {
      UrlRun(t, s, j, MatchAt(Url(t), s, j).value);
      EndsBefore(NonSpace(t), s, j, MatchAt(Url(t), s, j).value, i);
    }
    head, k := BlockReplaced(Url(t), UrlMark(), s, 0, 0, i, e);
  }

  lemma EndsBefore(q: char -> bool, s: string, j: nat, m: nat, i: nat)
    requires j < i <= |s| && m <= |s| && !q(s[i - 1]) && forall k | j <= k < m :: q(s[k])
    ensures m <= i
  {
  }

  /** Text without URLs, with each character as described above, is what comes out. */
  lemma PlainNormalized(t: Chars, s: string) returns (y: string)
    requires Tables(t) && Absent(Url(t), Lettered(s))
    ensures Rewritten(s, y) && Normalize(t, s) == Join(' ', Words(t.space, y))
  {
    y := Each(FoldLetter, Lettered(s));
    CharactersRewritten(s);
    NormalizeIsWords(t, s);
    hide Lettered, Each, Words, Join;
    MarkedIs(t, Lettered(s));
    AbsentUnchanged(Url(t), UrlMark(), Lettered(s), 0, 0);
    assert Lettered(s)[0..] == Lettered(s);
  }
}
