/** Cutting a document into retrievable sections: headings, paragraphs and at most
    180 words to a section, without losing, adding or reordering a word. */
module Chunker {
  import opened Text

  const LIMIT: nat := 180

  type Heading = Option<string>

  datatype Section = Section(heading: Heading, text: string)

  // ---------- lines ----------

  function UnixBreaks(s: string): string {
    if |s| < 2 then s
    else if s[0] == '\r' && s[1] == '\n' then "\n" + UnixBreaks(s[2..])
    else [s[0]] + UnixBreaks(s[1..])
  }

  function Lines(content: string): seq<string> { SplitAt('\n', UnixBreaks(content)) }

  function Hash(): char -> bool { c => c == '#' }

  predicate IsHeading(t: Chars, raw: string) { var line := Trim(t.space, raw); line != "" && line[0] == '#' }

  predicate IsBlank(t: Chars, raw: string) { Trim(t.space, raw) == "" }

  /** A heading or a blank line ends the paragraph before it. */
  predicate Breaks(t: Chars, raw: string) { IsHeading(t, raw) || IsBlank(t, raw) }

  function TitleOf(t: Chars, raw: string): string { Trim(t.space, TrimLeft(Hash(), Trim(t.space, raw))) }

  /** The last heading with a title among these lines, or the default. */
  function HeadingBefore(t: Chars, lines: seq<string>, default: Heading): Heading {
    if lines == [] then default
    else
      var last, init := lines[|lines| - 1], lines[..|lines| - 1];
      if IsHeading(t, last) && TitleOf(t, last) != "" then Some(TitleOf(t, last)) else HeadingBefore(t, init, default)
  }

  /** How many breaks these lines hold: the number of the paragraph that follows. */
  function ParagraphNo(t: Chars, lines: seq<string>): nat {
    if lines == [] then 0
    else ParagraphNo(t, lines[..|lines| - 1]) + if Breaks(t, lines[|lines| - 1]) then 1 else 0
  }

  /** A title is what is left of the line without the hashes at its beginning and without
      the white space around these and around the title. */
  lemma TitleText(t: Chars, raw: string) returns (a: nat, b: nat, c: nat, d: nat)
    ensures a <= b <= c <= d <= |raw| && TitleOf(t, raw) == raw[c..d]
    ensures forall k | 0 <= k < a || b <= k < c || d <= k < |raw| :: t.space(raw[k])
    ensures forall k | a <= k < b :: raw[k] == '#'
    ensures a < |raw| && b < d ==> raw[b] != '#'
    ensures c < d ==> !t.space(raw[c]) && !t.space(raw[d - 1])
  {
    TitleIs(t, raw);
    hide *;
    var e: nat;
    a, e := TrimBounds(t.space, raw);
    var line := raw[a..e];
    var n := LeftBound(Hash(), line);
    var rest := line[n..];
    SliceOf(raw, a, e, n, |line|);
    assert line[n..|line|] == rest;
    var x, y := TrimBounds(t.space, rest);
    b, c, d := a + n, a + n + x, a + n + y;
    SliceOf(raw, b, e, x, y);
    Shifted(t.space, raw, b, rest, 0, x);
    Shifted(t.space, raw, b, rest, y, |rest|);
    Shifted(Hash(), raw, a, line, 0, n);
    if c < d { assert raw[c] == rest[x] && raw[d - 1] == rest[y - 1]; }
    if b < e { assert raw[b] == line[n]; }
  }

  lemma TitleIs(t: Chars, raw: string)
    ensures TitleOf(t, raw) == Trim(t.space, TrimLeft(Hash(), Trim(t.space, raw)))
    ensures forall c :: Hash()(c) <==> c == '#'
  {
  }

  lemma SliceOf(s: string, i: nat, j: nat, x: nat, y: nat)
    requires i <= j <= |s| && x <= y <= j - i
    ensures s[i..j][x..y] == s[i + x..i + y]
  {
    assert forall k | 0 <= k < y - x :: s[i..j][x..y][k] == s[i + x..i + y][k];
  }

  lemma Shifted(p: char -> bool, s: string, at: nat, r: string, x: nat, y: nat)
    requires at + |r| <= |s| && r == s[at..at + |r|] && x <= y <= |r| && forall k | x <= k < y :: p(r[k])
    ensures forall k | at + x <= k < at + y :: p(s[k])
  {
    forall k | at + x <= k < at + y ensures p(s[k]) { assert s[k] == r[k - at]; }
  }

  /** What trimming takes away on the left. */
  lemma {:induction false} LeftBound(p: char -> bool, s: string) returns (a: nat)
    ensures a <= |s| && TrimLeft(p, s) == s[a..] && (forall k | 0 <= k < a :: p(s[k])) && (a < |s| ==> !p(s[a]))
  {
    if s != "" && p(s[0]) { var b := LeftBound(p, s[1..]); a := b + 1; } else { a := 0; }
  }

  lemma {:induction false} RightBound(p: char -> bool, s: string) returns (b: nat)
    ensures b <= |s| && TrimRight(p, s) == s[..b] && (forall k | b <= k < |s| :: p(s[k])) && (b > 0 ==> !p(s[b - 1]))
  {
    if s != "" && p(s[|s| - 1]) { b := RightBound(p, s[..|s| - 1]); } else { b := |s|; }
  }

  lemma TrimBounds(p: char -> bool, s: string) returns (a: nat, b: nat)
    ensures a <= b <= |s| && Trim(p, s) == s[a..b]
    ensures forall k | 0 <= k < a || b <= k < |s| :: p(s[k])
    ensures a < b ==> !p(s[a]) && !p(s[b - 1])
  {
    a := LeftBound(p, s);
    var r := s[a..];
    var n := RightBound(p, r);
    b := a + n;
    assert r[..n] == s[a..b];
    forall k | b <= k < |s| ensures p(s[k]) { assert s[k] == r[k - a]; }
    if a < b { assert s[a] == r[0] && s[b - 1] == r[n - 1]; }
  }

  predicate EndsLine(a: string, w: string) { w == "\r\n" || (w == "\n" && (a == "" || a[|a| - 1] != '\r')) }

  lemma UnixStep(c: char, s: string)
    requires c != '\r' || s == "" || s[0] != '\n'
    ensures UnixBreaks([c] + s) == [c] + UnixBreaks(s)
  {
    assert ([c] + s)[1..] == s;
  }

  lemma UnixPair(s: string)
    ensures UnixBreaks("\r\n" + s) == "\n" + UnixBreaks(s)
  {
    assert ("\r\n" + s)[2..] == s;
  }

  lemma {:induction false} UnixApart(a: string, w: string, b: string)
    requires EndsLine(a, w)
    ensures UnixBreaks(a + w + b) == UnixBreaks(a) + "\n" + UnixBreaks(b)
    decreases |a|
  {
    hide UnixBreaks;
    if a == "" {
      UnixNothing();
      assert "" + w + b == w + b;
      if w == "\n" { UnixStep('\n', b); } else { UnixPair(b); }
    } else if |a| > 1 && a[0] == '\r' && a[1] == '\n' {
      var rest := a[2..];
      assert a == "\r\n" + rest && a + w + b == "\r\n" + (rest + w + b);
      UnixPair(rest);
      UnixPair(rest + w + b);
      UnixApart(rest, w, b);
    } else {
      var rest := a[1..];
      assert a == [a[0]] + rest && a + w + b == [a[0]] + (rest + w + b);
      UnixStep(a[0], rest);
      UnixStep(a[0], rest + w + b);
      UnixApart(rest, w, b);
    }
  }

  lemma UnixNothing()
    ensures UnixBreaks("") == ""
  {
  }

  lemma {:induction false} SplitBetween(c: char, a: string, b: string)
    ensures SplitAt(c, a + [c] + b) == SplitAt(c, a) + SplitAt(c, b)
  {
    var s := a + [c] + b;
    if a == "" {
      assert s[1..] == b;
    } else {
      assert s[1..] == a[1..] + [c] + b;
      SplitBetween(c, a[1..], b);
    }
  }

  /** Both kinds of line break end a line. */
  lemma LinesApart(a: string, w: string, b: string)
    requires EndsLine(a, w)
    ensures Lines(a + w + b) == Lines(a) + Lines(b)
  {
    hide UnixBreaks, SplitAt, EndsLine;
    UnixApart(a, w, b);
    SplitBetween('\n', UnixBreaks(a), UnixBreaks(b));
    assert UnixBreaks(a) + "\n" + UnixBreaks(b) == UnixBreaks(a) + ['\n'] + UnixBreaks(b);
  }

  // ---------- joining ----------

  function WordsOf(t: Chars, lines: seq<string>): seq<string> {
    if lines == [] then [] else Words(t.space, lines[0]) + WordsOf(t, lines[1..])
  }

  lemma {:induction false} WordsOfJoin(t: Chars, sep: char, parts: seq<string>)
    requires t.space(sep)
    ensures Words(t.space, Join(sep, parts)) == WordsOf(t, parts)
  {
    if |parts| == 1 {
      assert WordsOf(t, parts[1..]) == [];
    } else if |parts| > 1 {
      WordsOfJoin(t, sep, parts[1..]);
      WordsApart(t.space, parts[0], sep, Join(sep, parts[1..]));
    }
  }

  lemma {:induction false} WordsOfWords(t: Chars, ws: seq<string>)
    requires forall k | 0 <= k < |ws| :: Visible(t.space, ws[k])
    ensures WordsOf(t, ws) == ws
  {
    if ws == [] {
    } else {
      WordItself(t.space, ws[0]);
      WordsOfWords(t, ws[1..]);
    }
  }

  lemma {:induction false} WordsOfAppend(t: Chars, lines: seq<string>, line: string)
    ensures WordsOf(t, lines + [line]) == WordsOf(t, lines) + Words(t.space, line)
  {
    if lines == [] {
      assert (lines + [line])[1..] == [];
    } else {
      assert (lines + [line])[1..] == lines[1..] + [line];
      WordsOfAppend(t, lines[1..], line);
    }
  }

  // ---------- the plan: sections before their words are joined ----------

  datatype Piece = Piece(paragraph: nat, heading: Heading, words: seq<string>)

  function Cut(paragraph: nat, heading: Heading, words: seq<string>): seq<Piece>
    decreases |words|
  {
    if words == [] then []
    else if |words| <= LIMIT then [Piece(paragraph, heading, words)]
    else [Piece(paragraph, heading, words[..LIMIT])] + Cut(paragraph, heading, words[LIMIT..])
  }

  /** The pieces from line j on, with `words` waiting in the buffer. */
  function Plan(t: Chars, lines: seq<string>, default: Heading, j: nat, words: seq<string>): seq<Piece>
    requires j <= |lines|
    decreases |lines| - j
  {
    var cut := Cut(ParagraphNo(t, lines[..j]), HeadingBefore(t, lines[..j], default), words);
    if j == |lines| then cut
    else if Breaks(t, lines[j]) then cut + Plan(t, lines, default, j + 1, [])
    else Plan(t, lines, default, j + 1, words + Words(t.space, lines[j]))
  }

  function Printed(pieces: seq<Piece>): (s: seq<Section>)
    ensures |s| == |pieces|
  {
    seq(|pieces|, k requires 0 <= k < |pieces| => Section(pieces[k].heading, Join(' ', pieces[k].words)))
  }

  function Planned(t: Chars, content: string, default: Heading): seq<Piece> { Plan(t, Lines(content), default, 0, []) }

  // ---------- structure_chunks ----------

  method Flush(t: Chars, heading: Heading, buffer: seq<string>, sections: seq<Section>, ghost paragraph: nat)
    returns (out: seq<Section>)
    requires Unicode(t)
    ensures out == sections + Printed(Cut(paragraph, heading, WordsOf(t, buffer)))
  {
    out := sections;
    if buffer == [] { return; }
    var text := Trim(t.space, Join('\n', buffer));
    var words := Words(t.space, text);
    WordsTrim(t.space, Join('\n', buffer));
    WordsOfJoin(t, '\n', buffer);
    WordsVisible(t.space, text);
    var start := 0;
    while start < |words|
      invariant start <= |words|
      invariant out + Printed(Cut(paragraph, heading, words[start..])) ==
          sections + Printed(Cut(paragraph, heading, words))
    {
      var end := if start + LIMIT < |words| then start + LIMIT else |words|;
      var value := Trim(t.space, Join(' ', words[start..end]));
      JoinIsTrimmed(t, words[start..end]);
      CutStep(paragraph, heading, words, start, end);
      if value != "" { out := out + [Section(heading, value)]; }
      start := end;
    }
  }

  lemma CutStep(paragraph: nat, heading: Heading, words: seq<string>, start: nat, end: nat)
    requires start < |words| && end == if start + LIMIT < |words| then start + LIMIT else |words|
    ensures Printed(Cut(paragraph, heading, words[start..]))
         == [Section(heading, Join(' ', words[start..end]))] + Printed(Cut(paragraph, heading, words[end..]))
  {
    var rest := words[start..];
    assert words[start..end] == rest[..end - start] && words[end..] == rest[end - start..];
    if |rest| <= LIMIT { assert rest[..end - start] == rest; }
  }

  /** Words joined by single spaces need no trimming. */
  lemma JoinIsTrimmed(t: Chars, ws: seq<string>)
    requires ws != [] && forall k | 0 <= k < |ws| :: Visible(t.space, ws[k])
    ensures Trim(t.space, Join(' ', ws)) == Join(' ', ws) != ""
  {
    JoinEnds(t, ws);
    var a, b := TrimSlice(t.space, Join(' ', ws));
  }

  lemma {:induction false} JoinEnds(t: Chars, ws: seq<string>)
    requires ws != [] && forall k | 0 <= k < |ws| :: Visible(t.space, ws[k])
    ensures var s := Join(' ', ws); s != "" && !t.space(s[0]) && !t.space(s[|s| - 1])
  {
    if |ws| > 1 {
      JoinEnds(t, ws[1..]);
      var s, r := Join(' ', ws), Join(' ', ws[1..]);
      assert s[0] == ws[0][0] && s[|s| - 1] == r[|r| - 1];
    }
  }

  lemma BreakStep(t: Chars, lines: seq<string>, default: Heading, j: nat, words: seq<string>)
    requires j < |lines| && Breaks(t, lines[j])
    ensures Printed(Plan(t, lines, default, j, words))
         == Printed(Cut(ParagraphNo(t, lines[..j]), HeadingBefore(t, lines[..j], default), words))
            + Printed(Plan(t, lines, default, j + 1, []))
  {
  }

  lemma TextStep(t: Chars, lines: seq<string>, default: Heading, j: nat, words: seq<string>)
    requires j < |lines| && !Breaks(t, lines[j])
    ensures Plan(t, lines, default, j, words) == Plan(t, lines, default, j + 1, words + Words(t.space, lines[j]))
  {
  }

  lemma HeadingStep(t: Chars, lines: seq<string>, default: Heading, j: nat)
    requires j < |lines|
    ensures HeadingBefore(t, lines[..j + 1], default)
         == if IsHeading(t, lines[j]) && TitleOf(t, lines[j]) != "" then Some(TitleOf(t, lines[j]))
            else HeadingBefore(t, lines[..j], default)
    ensures ParagraphNo(t, lines[..j + 1]) == ParagraphNo(t, lines[..j]) + if Breaks(t, lines[j]) then 1 else 0
  {
    assert lines[..j + 1][..j] == lines[..j];
  }

  method StructureChunks(t: Chars, content: string, default: Heading) returns (sections: seq<Section>)
    requires Unicode(t)
    ensures sections == Printed(Planned(t, content, default))
  {
    hide Plan, Cut, Printed, HeadingBefore, ParagraphNo, TrimLeft, Trim, SplitAt, Words;
    var lines := Lines(content);
    var heading := default;
    sections := [];
    var buffer: seq<string> := [];
    var j := 0;
    StartOf(t, lines, default);
    while j < |lines|
      invariant j <= |lines|
      invariant heading == HeadingBefore(t, lines[..j], default)
      invariant sections + Printed(Plan(t, lines, default, j, WordsOf(t, buffer))) ==
          Printed(Planned(t, content, default))
    {
      var line := Trim(t.space, lines[j]);
      ghost var no := ParagraphNo(t, lines[..j]);
      HeadingStep(t, lines, default, j);
      if line != "" && line[0] == '#' {
        BreakStep(t, lines, default, j, WordsOf(t, buffer));
        sections := Flush(t, heading, buffer, sections, no);
        buffer := [];
        var title := Trim(t.space, TrimLeft(Hash(), line));
        heading := if title != "" then Some(title) else heading;
      } else if line == "" {
        BreakStep(t, lines, default, j, WordsOf(t, buffer));
        sections := Flush(t, heading, buffer, sections, no);
        buffer := [];
      } else {
        TextStep(t, lines, default, j, WordsOf(t, buffer));
        WordsOfAppend(t, buffer, line);
        WordsTrim(t.space, lines[j]);
        buffer := buffer + [line];
      }
      j := j + 1;
    }
    EndOf(t, lines, default, WordsOf(t, buffer));
    assert lines[..j] == lines;
    sections := Flush(t, heading, buffer, sections, ParagraphNo(t, lines));
  }

  lemma StartOf(t: Chars, lines: seq<string>, default: Heading)
    ensures HeadingBefore(t, lines[..0], default) == default && WordsOf(t, []) == []
    ensures forall s: seq<Section> :: [] + s == s
  {
  }

  lemma EndOf(t: Chars, lines: seq<string>, default: Heading, words: seq<string>)
    ensures Plan(t, lines, default, |lines|, words)
         == Cut(ParagraphNo(t, lines), HeadingBefore(t, lines, default), words)
  {
    assert lines[..|lines|] == lines;
  }

  // ---------- what the sections hold ----------

  /** A word with the paragraph it stands in and the heading it stands under. */
  datatype Tagged = Tagged(paragraph: nat, heading: Heading, word: string)

  function Tag(paragraph: nat, heading: Heading, words: seq<string>): (r: seq<Tagged>)
    ensures |r| == |words|
  {
    seq(|words|, k requires 0 <= k < |words| => Tagged(paragraph, heading, words[k]))
  }

  /** The words of the document from line j on, headings left out. */
  function TextTags(t: Chars, lines: seq<string>, default: Heading, j: nat): seq<Tagged>
    requires j <= |lines|
    decreases |lines| - j
  {
    if j == |lines| then []
    else (if Breaks(t, lines[j]) then []
          else Tag(ParagraphNo(t, lines[..j]), HeadingBefore(t, lines[..j], default), Words(t.space, lines[j])))
         + TextTags(t, lines, default, j + 1)
  }

  function PieceTags(pieces: seq<Piece>): seq<Tagged> {
    if pieces == [] then [] else Tag(pieces[0].paragraph, pieces[0].heading, pieces[0].words) + PieceTags(pieces[1..])
  }

  lemma {:induction false} PieceTagsAppend(a: seq<Piece>, b: seq<Piece>)
    ensures PieceTags(a + b) == PieceTags(a) + PieceTags(b)
  {
    if a == [] {
      assert a + b == b;
    } else {
      assert (a + b)[1..] == a[1..] + b;
      PieceTagsAppend(a[1..], b);
    }
  }

  lemma {:induction false} CutTags(paragraph: nat, heading: Heading, words: seq<string>)
    ensures PieceTags(Cut(paragraph, heading, words)) == Tag(paragraph, heading, words)
    decreases |words|
  {
    if |words| > LIMIT {
      var first := Piece(paragraph, heading, words[..LIMIT]);
      CutTags(paragraph, heading, words[LIMIT..]);
      var rest := Cut(paragraph, heading, words[LIMIT..]);
      assert ([first] + rest)[1..] == rest;
      assert words == words[..LIMIT] + words[LIMIT..];
    } else if words != [] {
      assert PieceTags(Cut(paragraph, heading, words)[1..]) == [];
    }
  }

  /** Nothing is lost, added, reordered, moved under another heading or into
      another paragraph. */
  lemma {:induction false} PlanTags(t: Chars, lines: seq<string>, default: Heading, j: nat, words: seq<string>)
    requires j <= |lines|
    ensures PieceTags(Plan(t, lines, default, j, words))
         == Tag(ParagraphNo(t, lines[..j]), HeadingBefore(t, lines[..j], default), words) + TextTags(t, lines, default,
             j)
    decreases |lines| - j
  {
    hide Cut, Words, HeadingBefore, ParagraphNo, PieceTags;
    var no, heading := ParagraphNo(t, lines[..j]), HeadingBefore(t, lines[..j], default);
    CutTags(no, heading, words);
    if j == |lines| {
    } else {
      HeadingStep(t, lines, default, j);
      if Breaks(t, lines[j]) {
        PlanTags(t, lines, default, j + 1, []);
        PieceTagsAppend(Cut(no, heading, words), Plan(t, lines, default, j + 1, []));
      } else {
        PlanTags(t, lines, default, j + 1, words + Words(t.space, lines[j]));
        TagAppend(no, heading, words, Words(t.space, lines[j]));
      }
    }
  }

  lemma TagAppend(no: nat, heading: Heading, a: seq<string>, b: seq<string>)
    ensures Tag(no, heading, a + b) == Tag(no, heading, a) + Tag(no, heading, b)
  {
  }

  /** Pieces hold 1 to 180 visible words; a piece of fewer than 180 ends its paragraph. */
  ghost predicate WellCut(t: Chars, pieces: seq<Piece>) {
    && (forall k | 0 <= k < |pieces| :: 1 <= |pieces[k].words| <= LIMIT)
    && (forall k, m | 0 <= k < |pieces| && 0 <= m < |pieces[k].words| :: Visible(t.space, pieces[k].words[m]))
    && (forall k | 0 < k < |pieces| :: pieces[k - 1].paragraph < pieces[k].paragraph
          || (pieces[k - 1].paragraph == pieces[k].paragraph && |pieces[k - 1].words| == LIMIT))
  }

  ghost predicate AllVisible(t: Chars, ws: seq<string>) { forall k | 0 <= k < |ws| :: Visible(t.space, ws[k]) }

  /** Sections needed for n words. */
  function Ceil(n: nat): nat { (n + LIMIT - 1) / LIMIT }

  lemma {:induction false} CutWell(t: Chars, no: nat, heading: Heading, words: seq<string>)
    requires AllVisible(t, words)
    ensures WellCut(t, Cut(no, heading, words)) && |Cut(no, heading, words)| == Ceil(|words|)
    ensures forall k | 0 <= k < |Cut(no, heading, words)| :: Cut(no, heading, words)[k].paragraph == no
    decreases |words|
  {
    if |words| > LIMIT {
      CutWell(t, no, heading, words[LIMIT..]);
      var first, rest := Piece(no, heading, words[..LIMIT]), Cut(no, heading, words[LIMIT..]);
      assert Cut(no, heading, words) == [first] + rest;
      WellCutAppend(t, [first], rest, no);
    }
  }

  lemma WellCutAppend(t: Chars, a: seq<Piece>, b: seq<Piece>, no: nat)
    requires WellCut(t, a) && WellCut(t, b)
    requires forall k | 0 <= k < |a| :: a[k].paragraph == no
    requires forall k | 0 <= k < |b| ::
        b[k].paragraph > no || (b[k].paragraph == no && |a| == 1 && |a[0].words| == LIMIT)
    ensures WellCut(t, a + b)
  {
    var c := a + b;
    forall k | 0 <= k < |c| ensures c[k] == if k < |a| then a[k] else b[k - |a|] {}
    forall k | 0 < k < |c|
      ensures c[k - 1].paragraph < c[k].paragraph || (c[k - 1].paragraph == c[k].paragraph && |c[k - 1].words| == LIMIT)
    {
      if k > |a| { assert c[k] == b[k - |a|] && c[k - 1] == b[k - |a| - 1]; }
    }
  }

  lemma {:induction false} PlanWell(t: Chars, lines: seq<string>, default: Heading, j: nat, words: seq<string>)
    requires j <= |lines| && AllVisible(t, words)
    ensures var pieces := Plan(t, lines, default, j, words);
      WellCut(t, pieces) && forall k | 0 <= k < |pieces| :: pieces[k].paragraph >= ParagraphNo(t, lines[..j])
    decreases |lines| - j
  {
    hide Cut, Words, HeadingBefore, ParagraphNo, WellCut, IsHeading, IsBlank;
    var no, heading := ParagraphNo(t, lines[..j]), HeadingBefore(t, lines[..j], default);
    CutWell(t, no, heading, words);
    if j == |lines| {
    } else {
      HeadingStep(t, lines, default, j);
      if Breaks(t, lines[j]) {
        PlanWell(t, lines, default, j + 1, []);
        WellCutAppend(t, Cut(no, heading, words), Plan(t, lines, default, j + 1, []), no);
      } else {
        WordsVisible(t.space, lines[j]);
        PlanWell(t, lines, default, j + 1, words + Words(t.space, lines[j]));
      }
    }
  }

  /** Paragraph by paragraph, the number of words divided by 180, rounded up. */
  function SectionCount(t: Chars, lines: seq<string>, j: nat, waiting: nat): nat
    requires j <= |lines|
    decreases |lines| - j
  {
    if j == |lines| then Ceil(waiting)
    else if Breaks(t, lines[j]) then Ceil(waiting) + SectionCount(t, lines, j + 1, 0)
    else SectionCount(t, lines, j + 1, waiting + |Words(t.space, lines[j])|)
  }

  lemma {:induction false} PlanCount(t: Chars, lines: seq<string>, default: Heading, j: nat, words: seq<string>)
    requires j <= |lines| && AllVisible(t, words)
    ensures |Plan(t, lines, default, j, words)| == SectionCount(t, lines, j, |words|)
    decreases |lines| - j
  {
    CutWell(t, ParagraphNo(t, lines[..j]), HeadingBefore(t, lines[..j], default), words);
    if j == |lines| {
    } else {
      if Breaks(t, lines[j]) {
        PlanCount(t, lines, default, j + 1, []);
      } else {
        WordsVisible(t.space, lines[j]);
        PlanCount(t, lines, default, j + 1, words + Words(t.space, lines[j]));
      }
    }
  }

  /** The sections carry exactly the words of the text lines, in order, each under
      the last titled heading before its line and in the paragraph of its line;
      they are cut into 1 to 180 words, all but a paragraph's last one full. */
  lemma SectionsConserveText(t: Chars, content: string, default: Heading)
    requires Unicode(t)
    ensures var lines, pieces := Lines(content), Planned(t, content, default);
      var sections := Printed(pieces);
      && PieceTags(pieces) == TextTags(t, lines, default, 0)
      && WellCut(t, pieces)
      && |sections| == |pieces| == SectionCount(t, lines, 0, 0)
      && forall k | 0 <= k < |sections| ::
           sections[k].heading == pieces[k].heading && Words(t.space, sections[k].text) == pieces[k].words
  {
    hide Plan, Words;
    var lines, pieces := Lines(content), Planned(t, content, default);
    PlanTags(t, lines, default, 0, []);
    PlanWell(t, lines, default, 0, []);
    PlanCount(t, lines, default, 0, []);
    forall k | 0 <= k < |pieces| ensures Words(t.space, Join(' ', pieces[k].words)) == pieces[k].words {
      WordsOfJoin(t, ' ', pieces[k].words);
      WordsOfWords(t, pieces[k].words);
    }
  }
}
