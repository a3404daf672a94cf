/** What redaction looks for, character by character: the texts the three patterns
    match, stated without the patterns. */
module RedactionShapes {
  import opened Text
  import opened Regex
  import opened Redaction
  import RedactionLimits

  // ---------- shapes ----------

  predicate DigitsAt(t: Chars, s: string, i: nat, n: nat) {
    i + n <= |s| && forall k | i <= k < i + n :: t.digit(s[k])
  }

  /** At most one white-space character or hyphen from i to k. */
  predicate GapAt(t: Chars, s: string, i: nat, k: nat) {
    k == i || (k == i + 1 && i < |s| && (t.space(s[i]) || s[i] == '-'))
  }

  /** n digits behind such a gap, from i to e. */
  predicate GroupAt(t: Chars, s: string, i: nat, n: nat, e: nat) {
    n <= e && GapAt(t, s, i, e - n) && DigitsAt(t, s, e - n, n)
  }

  /** No digit right before i or right after e. */
  predicate Alone(t: Chars, s: string, i: nat, e: nat) {
    i <= e <= |s| && (i > 0 ==> !t.digit(s[i - 1])) && (e < |s| ==> !t.digit(s[e]))
  }

  /** 784, four, seven and one digits. */
  ghost predicate IdAt(t: Chars, s: string, i: nat, e: nat) {
    && Alone(t, s, i, e) && WordAt(s, i, "784")
    && exists a: nat, b: nat :: GroupAt(t, s, i + 3, 4, a) && GroupAt(t, s, a, 7, b) && GroupAt(t, s, b, 1, e)
  }

  predicate CodeAt(s: string, i: nat, m: nat) {
    || m == i
    || (WordAt(s, i, "+971") && m == i + 4) || (WordAt(s, i, "971") && m == i + 3)
    || (WordAt(s, i, "00971") && m == i + 5) || (WordAt(s, i, "0") && m == i + 1)
  }

  predicate AreaAt(t: Chars, s: string, k: nat, a: nat) {
    || (k + 2 == a <= |s| && s[k] == '5' && t.digit(s[k + 1]))
    || (k + 1 == a <= |s| && '2' <= s[k] <= '9')
  }

  /** The local number: area, three and four digits. */
  ghost predicate LocalAt(t: Chars, s: string, k: nat, e: nat) {
    exists a: nat, b: nat :: AreaAt(t, s, k, a) && GroupAt(t, s, a, 3, b) && GroupAt(t, s, b, 4, e)
  }

  /** An optional code, a gap, and the local number. */
  ghost predicate PhoneAt(t: Chars, s: string, i: nat, e: nat) {
    && Alone(t, s, i, e)
    && exists m: nat, k: nat :: CodeAt(s, i, m) && GapAt(t, s, m, k) && LocalAt(t, s, k, e)
  }

  predicate MailboxChar(t: Chars, c: char) { t.word(c) || c == '.' || c == '+' || c == '-' }

  predicate HostChar(t: Chars, c: char) { t.word(c) || c == '.' || c == '-' }

  /** mailbox @ host . letters, at least two of these. */
  predicate AddressAt(t: Chars, s: string, i: nat, at: nat, dot: nat, e: nat) {
    && i < at && at + 1 < dot && dot + 2 < e <= |s| && s[at] == '@' && s[dot] == '.'
    && (forall k | i <= k < at :: MailboxChar(t, s[k])) && (forall k | at < k < dot :: HostChar(t, s[k]))
    && (forall k | dot < k < e :: AsciiLetter(s[k]))
  }

  ghost predicate EmailAt(t: Chars, s: string, i: nat, e: nat) {
    && (exists at: nat, dot: nat :: AddressAt(t, s, i, at, dot, e))
    && (i > 0 ==> !t.word(s[i - 1]) && s[i - 1] != '.') && (e < |s| ==> !t.word(s[e]))
  }

  // ---------- the pieces ----------

  lemma {:induction false} InDigits(t: Chars, n: nat, s: string, i: nat, e: nat)
    requires n > 0 && i <= |s|
    ensures e in Ends(Digits(t, n), s, i) <==> DigitsAt(t, s, i, n) && e == i + n
  {
    if DigitsAt(t, s, i, n) { DigitsMatch(t, n, s, i); }
    if e in Ends(Digits(t, n), s, i) && n > 1 {
      var m := SplitSeq(One(t.digit), Times(One(t.digit), n - 1), s, i, e);
      InDigits(t, n - 1, s, i + 1, e);
    }
  }

  lemma InSeparator(t: Chars, s: string, i: nat, k: nat)
    requires i <= |s|
    ensures k in Ends(Separator(t), s, i) <==> GapAt(t, s, i, k)
  {
    InOpt(Separator(t).left, s, i, k);
  }

  lemma InGroup(t: Chars, n: nat, s: string, i: nat, e: nat)
    requires n > 0 && i <= |s|
    ensures e in Ends(Group(t, n), s, i) <==> GroupAt(t, s, i, n, e)
  {
    hide Ends, Separator, Digits;
    if e in Ends(Group(t, n), s, i) {
      var k := SplitSeq(Separator(t), Digits(t, n), s, i, e);
      InSeparator(t, s, i, k);
      InDigits(t, n, s, k, e);
    }
    if GroupAt(t, s, i, n, e) {
      InSeparator(t, s, i, e - n);
      InDigits(t, n, s, e - n, e);
      JoinSeq(Separator(t), Digits(t, n), s, i, e - n, e);
    }
  }

  // ---------- Emirates IDs ----------

  lemma IdCoreIff(t: Chars, s: string, i: nat, e: nat)
    requires i <= |s|
    ensures e in Ends(EmiratesIdCore(t), s, i) <==>
      WordAt(s, i, "784")
      && exists a: nat, b: nat :: GroupAt(t, s, i + 3, 4, a) && GroupAt(t, s, a, 7, b) && GroupAt(t, s, b, 1, e)
  {
    hide Ends, Lit, Group, GroupAt, WordAt;
    var r := EmiratesIdCore(t);
    if e in Ends(r, s, i) {
      var m := SplitSeq(Lit("784"), r.second, s, i, e);
      InLit("784", s, i, m);
      var a := SplitSeq(Group(t, 4), r.second.second, s, m, e);
      InGroup(t, 4, s, m, a);
      var b := SplitSeq(Group(t, 7), Group(t, 1), s, a, e);
      InGroup(t, 7, s, a, b);
      InGroup(t, 1, s, b, e);
    }
    if WordAt(s, i, "784")
      && exists a: nat, b: nat :: GroupAt(t, s, i + 3, 4, a) && GroupAt(t, s, a, 7, b) && GroupAt(t, s, b, 1, e)
    {
      var a: nat, b: nat :| GroupAt(t, s, i + 3, 4, a) && GroupAt(t, s, a, 7, b) && GroupAt(t, s, b, 1, e);
      GroupWithin(t, s, i + 3, 4, a);
      GroupWithin(t, s, a, 7, b);
      WordWithin(s, i, "784");
      InLit("784", s, i, i + 3);
      InGroup(t, 4, s, i + 3, a);
      InGroup(t, 7, s, a, b);
      InGroup(t, 1, s, b, e);
      JoinSeq(Group(t, 7), Group(t, 1), s, a, b, e);
      JoinSeq(Group(t, 4), r.second.second, s, i + 3, a, e);
      JoinSeq(Lit("784"), r.second, s, i, i + 3, e);
    }
  }

  lemma GroupWithin(t: Chars, s: string, i: nat, n: nat, e: nat)
    requires GroupAt(t, s, i, n, e)
    ensures i <= e <= |s|
  {
  }

  lemma WordWithin(s: string, i: nat, word: string)
    requires WordAt(s, i, word)
    ensures i + |word| <= |s|
  {
  }

  /** The pattern matches these texts and no others. */
  lemma IdIff(t: Chars, s: string, i: nat, e: nat)
    ensures Matches(EmiratesId(t), s, i, e) <==> IdAt(t, s, i, e)
  {
    hide Ends, EmiratesIdCore, GroupAt, WordAt;
    if i <= |s| { IdCoreIff(t, s, i, e); }
  }

  // ---------- phone numbers ----------

  lemma CodeIff(s: string, i: nat, m: nat)
    requires i <= |s|
    ensures m in Ends(Opt(PhoneCode()), s, i) <==> CodeAt(s, i, m)
  {
    hide Ends, Lit, WordAt;
    InOpt(PhoneCode(), s, i, m);
    InAlt(PhoneCode().left, PhoneCode().right, s, i, m);
    InAlt(Lit("00971"), Lit("0"), s, i, m);
    InLit("00971", s, i, m);
    InLit("0", s, i, m);
    SignedCode(s, i, m);
  }

  lemma SignedCode(s: string, i: nat, m: nat)
    requires i <= |s|
    ensures m in Ends(PhoneCode().left, s, i) <==>
      (WordAt(s, i, "+971") && m == i + 4) || (WordAt(s, i, "971") && m == i + 3)
  {
    hide Ends, Lit, Sign;
    if m in Ends(PhoneCode().left, s, i) {
      var k := SplitSeq(Sign(), Lit("971"), s, i, m);
      InSign(s, i, k);
      InLit("971", s, k, m);
      if k == i + 1 { assert s[i..i + 4] == [s[i]] + s[k..k + 3]; }
    }
    InSign(s, i, i);
    InLit("971", s, i, m);
    if WordAt(s, i, "971") && m == i + 3 { JoinSeq(Sign(), Lit("971"), s, i, i, m); }
    if WordAt(s, i, "+971") && m == i + 4 {
      InSign(s, i, i + 1);
      assert s[i] == s[i..i + 4][0] && s[i + 1..i + 4] == s[i..i + 4][1..];
      InLit("971", s, i + 1, m);
      JoinSeq(Sign(), Lit("971"), s, i, i + 1, m);
    }
  }

  lemma AreaIff(t: Chars, s: string, k: nat, a: nat)
    requires k <= |s|
    ensures a in Ends(PhoneArea(t), s, k) <==> AreaAt(t, s, k, a)
  {
    InAlt(Mobile(t), PhoneArea(t).right, s, k, a);
    if a in Ends(Mobile(t), s, k) { var m := SplitSeq(Mobile(t).first, Mobile(t).second, s, k, a); }
    if k + 2 == a <= |s| && s[k] == '5' && t.digit(s[k + 1]) {
      JoinSeq(Mobile(t).first, Mobile(t).second, s, k, k + 1, a);
    }
  }

  lemma LocalIff(t: Chars, s: string, k: nat, e: nat)
    requires k <= |s|
    ensures e in Ends(PhoneTail(t), s, k) <==> LocalAt(t, s, k, e)
  {
    hide Ends, PhoneArea, Group, GroupAt, AreaAt;
    var r := PhoneTail(t);
    if e in Ends(r, s, k) {
      var a := SplitSeq(PhoneArea(t), r.second, s, k, e);
      AreaIff(t, s, k, a);
      var b := SplitSeq(Group(t, 3), Group(t, 4), s, a, e);
      InGroup(t, 3, s, a, b);
      InGroup(t, 4, s, b, e);
    }
    if LocalAt(t, s, k, e) {
      var a: nat, b: nat :| AreaAt(t, s, k, a) && GroupAt(t, s, a, 3, b) && GroupAt(t, s, b, 4, e);
      AreaWithin(t, s, k, a);
      GroupWithin(t, s, a, 3, b);
      AreaIff(t, s, k, a);
      InGroup(t, 3, s, a, b);
      InGroup(t, 4, s, b, e);
      JoinSeq(Group(t, 3), Group(t, 4), s, a, b, e);
      JoinSeq(PhoneArea(t), r.second, s, k, a, e);
    }
  }

  lemma AreaWithin(t: Chars, s: string, k: nat, a: nat)
    requires AreaAt(t, s, k, a)
    ensures k <= a <= |s|
  {
  }

  lemma CodeWithin(s: string, i: nat, m: nat)
    requires CodeAt(s, i, m) && i <= |s|
    ensures i <= m <= |s|
  {
  }

  lemma PhoneCoreIff(t: Chars, s: string, i: nat, e: nat)
    requires i <= |s|
    ensures e in Ends(PhoneCore(t), s, i) <==>
      exists m: nat, k: nat :: CodeAt(s, i, m) && GapAt(t, s, m, k) && LocalAt(t, s, k, e)
  {
    hide Ends, PhoneCode, Separator, PhoneTail, CodeAt, LocalAt, Opt;
    var r := Seq(Separator(t), PhoneTail(t));
    if e in Ends(PhoneCore(t), s, i) {
      var m := SplitSeq(Opt(PhoneCode()), r, s, i, e);
      CodeIff(s, i, m);
      var k := SplitSeq(Separator(t), PhoneTail(t), s, m, e);
      InSeparator(t, s, m, k);
      LocalIff(t, s, k, e);
    }
    if m: nat, k: nat :| CodeAt(s, i, m) && GapAt(t, s, m, k) && LocalAt(t, s, k, e) {
      CodeWithin(s, i, m);
      CodeIff(s, i, m);
      InSeparator(t, s, m, k);
      LocalIff(t, s, k, e);
      JoinSeq(Separator(t), PhoneTail(t), s, m, k, e);
      JoinSeq(Opt(PhoneCode()), r, s, i, m, e);
    }
  }

  lemma PhoneIff(t: Chars, s: string, i: nat, e: nat)
    ensures Matches(Phone(t), s, i, e) <==> PhoneAt(t, s, i, e)
  {
    hide Ends, PhoneCore, CodeAt, GapAt, LocalAt;
    if i <= |s| { PhoneCoreIff(t, s, i, e); }
  }

  // ---------- e-mail addresses ----------

  function Mailbox(t: Chars): Re { EmailCore(t).first }

  function Host(t: Chars): Re { EmailCore(t).second.second.first }

  function Domain(t: Chars): Re { EmailCore(t).second.second.second }

  /** A dot and two letters or more. */
  predicate DomainAt(s: string, dot: nat, e: nat) {
    dot + 2 < e <= |s| && s[dot] == '.' && forall k | dot < k < e :: AsciiLetter(s[k])
  }

  lemma InOne(p: char -> bool, s: string, i: nat, e: nat)
    requires i <= |s|
    ensures e in Ends(One(p), s, i) <==> i < |s| && p(s[i]) && e == i + 1
  {
  }

  lemma InDomain(t: Chars, s: string, dot: nat, e: nat)
    requires dot <= |s|
    ensures e in Ends(Domain(t), s, dot) <==> DomainAt(s, dot, e)
  {
    hide Ends;
    var r := Domain(t);
    if e in Ends(r, s, dot) {
      var m := SplitSeq(r.first, r.second, s, dot, e);
      InOne(r.first.chars, s, dot, m);
      var n := SplitSeq(r.second.first, r.second.second, s, m, e);
      InOne(AsciiLetter, s, m, n);
      InPlus(AsciiLetter, s, n, e);
    }
    if DomainAt(s, dot, e) {
      InOne(r.first.chars, s, dot, dot + 1);
      InOne(AsciiLetter, s, dot + 1, dot + 2);
      InPlus(AsciiLetter, s, dot + 2, e);
      JoinSeq(r.second.first, r.second.second, s, dot + 1, dot + 2, e);
      JoinSeq(r.first, r.second, s, dot, dot + 1, e);
    }
  }

  lemma EmailCoreIff(t: Chars, s: string, i: nat, e: nat)
    requires i <= |s|
    ensures e in Ends(EmailCore(t), s, i) <==> exists at: nat, dot: nat :: AddressAt(t, s, i, at, dot, e)
  {
    hide Ends;
    var r := EmailCore(t);
    if e in Ends(r, s, i) {
      var at := SplitSeq(r.first, r.second, s, i, e);
      InPlus(r.first.chars, s, i, at);
      var m := SplitSeq(r.second.first, r.second.second, s, at, e);
      AtSign(s, at, m);
      var dot := SplitSeq(Host(t), Domain(t), s, m, e);
      InPlus(Host(t).chars, s, m, dot);
      InDomain(t, s, dot, e);
      assert AddressAt(t, s, i, at, dot, e);
    }
    if at: nat, dot: nat :| AddressAt(t, s, i, at, dot, e) {
      InPlus(r.first.chars, s, i, at);
      InPlus(Host(t).chars, s, at + 1, dot);
      InDomain(t, s, dot, e);
      AtSignIs(s, at);
      JoinSeq(Host(t), Domain(t), s, at + 1, dot, e);
      JoinSeq(r.second.first, r.second.second, s, at, at + 1, e);
      JoinSeq(r.first, r.second, s, i, at, e);
    }
  }

  lemma AtSignIs(s: string, at: nat)
    requires at < |s| && s[at] == '@'
    ensures at + 1 in Ends(One(c => c == '@'), s, at)
  {
  }

  lemma EmailIff(t: Chars, s: string, i: nat, e: nat)
    ensures Matches(Email(t), s, i, e) <==> EmailAt(t, s, i, e)
  {
    hide Ends, EmailCore, AddressAt;
    if i <= |s| { EmailCoreIff(t, s, i, e); }
    hide AddressAt;
    if at: nat, dot: nat :| AddressAt(t, s, i, at, dot, e) { AddressWithin(t, s, i, at, dot, e); }
  }

  lemma AddressWithin(t: Chars, s: string, i: nat, at: nat, dot: nat, e: nat)
    requires AddressAt(t, s, i, at, dot, e)
    ensures i < at < dot < e <= |s|
  {
  }

  // ---------- an address on its own is replaced ----------

  /** Between characters that no address contains. */
  predicate Isolated(t: Chars, s: string, i: nat, e: nat) {
    i <= e <= |s| && (i > 0 ==> !Addressed(t, s[i - 1])) && (e < |s| ==> !Addressed(t, s[e]))
  }

  /** The letters run to the end of the address. */
  lemma DomainLeads(t: Chars, s: string, dot: nat, e: nat)
    requires DomainAt(s, dot, e) && (e < |s| ==> !AsciiLetter(s[e]))
    ensures Leads(Ends(Domain(t), s, dot), e)
  {
    hide Ends, Leads;
    var r := Domain(t);
    RunLeads(AsciiLetter, s, dot + 2, e);
    OneThen(AsciiLetter, Plus(AsciiLetter), s, dot + 1, e);
    OneThen(c => c == '.', r.second, s, dot, e);
  }

  /** Behind the at-sign the greedy host gives way as far as the last dot. */
  lemma HostLeads(t: Chars, s: string, at: nat, dot: nat, e: nat)
    requires Unicode(t) && at + 1 < dot && DomainAt(s, dot, e) && (e < |s| ==> !Addressed(t, s[e]))
    requires forall k | at < k < dot :: HostChar(t, s[k])
    ensures Leads(Ends(Seq(Host(t), Domain(t)), s, at + 1), e)
  {
    hide Leads;
    var p := Host(t).chars;
    DomainLeads(t, s, dot, e);
    forall k | dot < k <= |s| && k in Ends(Host(t), s, at + 1) ensures Ends(Domain(t), s, k) == [] {
      PlusStops(p, s, at + 1, k, e);
      if m :| m in Ends(Domain(t), s, k) { InDomain(t, s, k, m); }
      NoneIn(Ends(Domain(t), s, k));
    }
    hide Ends;
    GreedyThen(p, Domain(t), s, at + 1, dot, e);
  }

  lemma PlusStops(p: char -> bool, s: string, i: nat, k: nat, e: nat)
    requires i <= e <= |s| && k in Ends(Plus(p), s, i) && (e < |s| ==> !p(s[e]))
    ensures k <= e
  {
    InPlus(p, s, i, k);
    hide Ends;
  }

  lemma RunStops(q: char -> bool, s: string, j: nat, m: nat, i: nat)
    requires j < i <= |s| && m <= |s| && !q(s[i - 1]) && forall k | j <= k < m :: q(s[k])
    ensures m <= i
  {
  }

  lemma NoneIn(ends: seq<nat>)
    ensures ends == [] || ends[0] in ends
  {
  }

  lemma AddressLeads(t: Chars, s: string, i: nat, at: nat, dot: nat, e: nat)
    requires Unicode(t) && AddressAt(t, s, i, at, dot, e) && (e < |s| ==> !Addressed(t, s[e]))
    ensures Leads(Ends(EmailCore(t), s, i), e)
  {
    var r := EmailCore(t);
    HostLeads(t, s, at, dot, e);
    hide Leads, Ends;
    OneThen(r.second.first.chars, r.second.second, s, at, e);
    forall k | k in Ends(Mailbox(t), s, i) ensures k <= at { PlusStops(r.first.chars, s, i, k, at); }
    GreedyThen(r.first.chars, r.second, s, i, at, e);
  }

  /** Earlier matches end before it, and it is matched from its first to its last character. */
  lemma IsolatedMatch(t: Chars, s: string, i: nat, e: nat)
    requires Unicode(t) && EmailAt(t, s, i, e) && Isolated(t, s, i, e)
    ensures MatchAt(Email(t), s, i) == Some(e)
    ensures forall j | 0 <= j < i && MatchAt(Email(t), s, j).Some? :: MatchAt(Email(t), s, j).value <= i
  {
    var at: nat, dot: nat :| AddressAt(t, s, i, at, dot, e);
    AddressLeads(t, s, i, at, dot, e);
    hide EmailCore, Leads, Ends, AddressAt;
    FirstEnd(Email(t), s, i, e);
    EmailShape(t);
    forall j | 0 <= j < i && MatchAt(Email(t), s, j).Some? ensures MatchAt(Email(t), s, j).value <= i {
      var m := MatchAt(Email(t), s, j).value;
      OnlyHolds(EmailCore(t), AddressedIn(t), s, j, m);
      RunStops(AddressedIn(t), s, j, m, i);
    }
  }

  /** An address between characters that no address contains comes out as a placeholder. */
  lemma AddressReplaced(t: Chars, s: string, i: nat, e: nat) returns (head: string, k: nat)
    requires Unicode(t) && EmailAt(t, AfterIds(t, s), i, e) && Isolated(t, AfterIds(t, s), i, e)
    ensures 0 < k <= EmailCount(t, s) && MinLen(EmailCore(t)) > 0 && e <= |AfterIds(t, s)|
    ensures AfterEmails(t, s) ==
      head + ("<EMAIL_" + Decimal(k) + ">") + Sub(Email(t), Numbered("EMAIL"), AfterIds(t, s), e, k)
  {
    CoresNonEmpty(t);
    IsolatedMatch(t, AfterIds(t, s), i, e);
    EmailWithin(t, AfterIds(t, s), i, e);
    PassesOf(t, s);
    hide *;
    head, k := BlockReplaced(Email(t), Numbered("EMAIL"), AfterIds(t, s), 0, 0, i, e);
    EmailTag(k);
  }

  lemma EmailTag(k: nat)
    ensures Numbered("EMAIL")(k) == "<EMAIL_" + Decimal(k) + ">"
  {
    hide Decimal;
    assert Placeholder("EMAIL", k) == "<EMAIL_" + Decimal(k) + ">";
  }

  lemma PassesOf(t: Chars, s: string)
    requires MinLen(EmailCore(t)) > 0
    ensures AfterEmails(t, s) == Sub(Email(t), Numbered("EMAIL"), AfterIds(t, s), 0, 0)
    ensures EmailCount(t, s) == Hits(Email(t), AfterIds(t, s), 0)
    ensures Email(t).core == EmailCore(t)
  {
    hide Sub, Hits, EmailCore, AfterIds;
  }

  lemma EmailWithin(t: Chars, s: string, i: nat, e: nat)
    requires EmailAt(t, s, i, e)
    ensures i < e <= |s|
  {
    var at: nat, dot: nat :| AddressAt(t, s, i, at, dot, e);
    AddressWithin(t, s, i, at, dot, e);
  }

  // ---------- exactly when an address stays ----------

  /** An address right behind one that the pass replaces, which no match begins in: the
      first was read too far for the second to have a beginning of its own. */
  ghost predicate Glued(t: Chars, s: string, j: nat, e: nat) {
    && EndsAMatch(Email(t), s, 0, j) && (exists at: nat, dot: nat :: AddressAt(t, s, j, at, dot, e))
    && (e < |s| ==> !t.word(s[e])) && forall k | j <= k < e && k <= |s| :: MatchAt(Email(t), s, k).None?
  }

  lemma AddressedFenced(t: Chars)
    requires Unicode(t)
    ensures Fenced(Numbered("EMAIL"), AddressedIn(t))
  {
    forall k ensures var h := Numbered("EMAIL")(k); h != "" && h[0] == '<' && h[|h| - 1] == '>' { EmailTag(k); }
  }

  lemma NoAtInTag(k: nat)
    ensures forall i | 0 <= i < |Numbered("EMAIL")(k)| :: Numbered("EMAIL")(k)[i] != '@'
  {
    EmailTag(k);
  }

  lemma InsideHasNoAt(w: string, x: nat, y: nat, k: nat, at: nat, m: nat)
    requires Within(Numbered("EMAIL")(k), w, at, x, y) && x <= m < y
    ensures w[m] != '@'
  {
    NoAtInTag(k);
    hide Decimal;
    var h := Numbered("EMAIL")(k);
    assert w[m] == w[at..at + |h|][m - at] == h[m - at];
  }

  lemma EmailRun(t: Chars, w: string, x: nat, y: nat) returns (m: nat)
    requires Unicode(t) && Matches(Email(t), w, x, y)
    ensures x <= m < y <= |w| && w[m] == '@' && AsciiLetter(w[y - 1])
    ensures forall k | x <= k < y :: AddressedIn(t)(w[k])
  {
    EmailIff(t, w, x, y);
    var at: nat, dot: nat :| AddressAt(t, w, x, at, dot, y);
    m := at;
  }

  /** A copied run that reads as an address is glued to a replaced one. */
  lemma CopiedIsGlued(t: Chars, s: string, w: string, x: nat, y: nat, j: nat)
    requires Unicode(t) && Matches(Email(t), w, x, y) && IsCopy(Email(t), s, 0, w, x, y, j)
    ensures Glued(t, s, j, j + (y - x))
  {
    var m := EmailRun(t, w, x, y);
    var e := j + (y - x);
    hide Ends, EmailCore, EndsAMatch, MatchAt, AddressAt;
    Local(EmailCore(t), w, x, y, s, j);
    EmailCoreIff(t, s, j, e);
    assert s[e - 1] == w[y - 1];
    assert Shut(Email(t), s, e) by {
      if e < |s| && MatchAt(Email(t), s, e).Some? { NoneBehindLetter(t, s, e); }
    }
    if !EndsAMatch(Email(t), s, 0, j) {
      assert Open(Email(t), s, j);
      assert Matches(Email(t), s, j, e);
      NoMatchNone(t, s, j, e);
    }
  }

  lemma NoneBehindLetter(t: Chars, s: string, e: nat)
    requires Unicode(t) && 0 < e <= |s| && AsciiLetter(s[e - 1])
    ensures MatchAt(Email(t), s, e).None?
  {
    assert !Open(Email(t), s, e);
  }

  lemma NoMatchNone(t: Chars, s: string, j: nat, e: nat)
    requires j <= |s| && Matches(Email(t), s, j, e)
    ensures MatchAt(Email(t), s, j).Some?
  {
  }

  lemma SameMiddle(s: string, j: nat, e: nat, front: string, tail: string)
    requires j <= e <= |s|
    ensures Same(s, j, front + (s[j..e] + tail), |front|, e - j)
  {
    var w := front + (s[j..e] + tail);
    forall m {:trigger s[m]} | j <= m < e ensures s[m] == w[m - j + |front|] {
      assert w[m - j + |front|] == (s[j..e] + tail)[m - j] == s[j..e][m - j];
    }
  }

  /** The same address, behind a bracket and before a character that does not go on with it. */
  lemma CopyMatches(t: Chars, s: string, j: nat, e: nat, front: string, tail: string)
    requires Unicode(t) && j <= e <= |s| && e in Ends(EmailCore(t), s, j)
    requires front != "" && front[|front| - 1] == '>' && (tail != "" ==> !t.word(tail[0]))
    ensures Matches(Email(t), front + (s[j..e] + tail), |front|, |front| + (e - j))
  {
    hide Ends, EmailCore;
    var w := front + (s[j..e] + tail);
    SameMiddle(s, j, e, front, tail);
    Local(EmailCore(t), s, j, e, w, |front|);
    assert w[|front| - 1] == '>';
    if tail != "" { assert w[|front| + (e - j)] == tail[0]; }
  }

  /** What the pass emits around text that no match begins in, behind a match. */
  lemma AroundVerbatim(t: Chars, s: string, b: nat, j: nat, e: nat) returns (front: string, k: nat)
    requires MinLen(EmailCore(t)) > 0 && b < |s| && Reached(Email(t), s, 0, b) && MatchAt(Email(t), s, b) == Some(j)
    requires j <= e <= |s| && forall m | j <= m < j + (e - j) :: MatchAt(Email(t), s, m).None?
    ensures front != "" && front[|front| - 1] == '>'
    ensures Sub(Email(t), Numbered("EMAIL"), s, 0, 0) ==
      front + (s[j..e] + Sub(Email(t), Numbered("EMAIL"), s, e, k))
  {
    CoreOf(t);
    hide *;
    var head: string;
    head, k := ReachedReplaced(Email(t), Numbered("EMAIL"), s, 0, 0, b, j);
    Verbatim(Email(t), Numbered("EMAIL"), s, j, k, e - j);
    EmailTag(k);
    front := head + Numbered("EMAIL")(k);
  }

  lemma CoreOf(t: Chars)
    ensures Email(t).core == EmailCore(t)
  {
    hide EmailCore;
  }

  lemma GluedParts(t: Chars, s: string, j: nat, e: nat) returns (b: nat)
    requires MinLen(EmailCore(t)) > 0 && Glued(t, s, j, e)
    ensures b < |s| && Reached(Email(t), s, 0, b) && MatchAt(Email(t), s, b) == Some(j)
    ensures j < e <= |s| && e in Ends(EmailCore(t), s, j) && (e < |s| ==> !t.word(s[e]))
    ensures forall m | j <= m < j + (e - j) :: MatchAt(Email(t), s, m).None?
  {
    hide MatchAt, Reached, EmailCore, Ends, AddressAt;
    var at: nat, dot: nat :| AddressAt(t, s, j, at, dot, e);
    AddressWithin(t, s, j, at, dot, e);
    EmailCoreIff(t, s, j, e);
    b :| b < |s| && Reached(Email(t), s, 0, b) && MatchAt(Email(t), s, b) == Some(j);
  }

  /** The glued address comes out behind the placeholder. */
  lemma GluedStays(t: Chars, s: string, j: nat, e: nat) returns (x: nat, y: nat)
    requires Unicode(t) && MinLen(EmailCore(t)) > 0 && Glued(t, s, j, e)
    ensures Matches(Email(t), Sub(Email(t), Numbered("EMAIL"), s, 0, 0), x, y)
  {
    CoreOf(t);
    hide *;
    var b := GluedParts(t, s, j, e);
    var front, k := AroundVerbatim(t, s, b, j, e);
    var tail := Sub(Email(t), Numbered("EMAIL"), s, e, k);
    if tail != "" { NextChar(t, s, e, k); }
    CopyMatches(t, s, j, e, front, tail);
    x, y := |front|, |front| + (e - j);
  }

  /** What the pass emits next is the character or the bracket of a placeholder. */
  lemma NextChar(t: Chars, s: string, e: nat, k: nat)
    requires MinLen(EmailCore(t)) > 0 && e <= |s| && Sub(Email(t), Numbered("EMAIL"), s, e, k) != ""
    requires Unicode(t) && (e < |s| ==> !t.word(s[e]))
    ensures !t.word(Sub(Email(t), Numbered("EMAIL"), s, e, k)[0])
  {
    hide MatchAt, EmailCore, Decimal;
    if e < |s| {
      var h, v, e', k' := Step(Email(t), Numbered("EMAIL"), s, e, k);
      EmailTag(k + 1);
    }
  }

  /** The e-mail pass leaves an address exactly when the text has a glued one. */
  lemma EmailPassIff(t: Chars, s: string)
    requires Unicode(t)
    ensures (forall x, y :: !EmailAt(t, AfterEmails(t, s), x, y)) <==> forall j, e :: !Glued(t, AfterIds(t, s), j, e)
  {
    CoresNonEmpty(t);
    PassesOf(t, s);
    var s', w := AfterIds(t, s), AfterEmails(t, s);
    hide *;
    if j, e :| Glued(t, s', j, e) {
      var x, y := GluedStays(t, s', j, e);
      EmailIff(t, w, x, y);
    } else {
      forall x, y ensures !EmailAt(t, w, x, y) {
        EmailIff(t, w, x, y);
        if Matches(Email(t), w, x, y) { LeftIsGlued(t, s', x, y); }
      }
    }
  }

  lemma LeftIsGlued(t: Chars, s: string, x: nat, y: nat)
    requires Unicode(t) && MinLen(EmailCore(t)) > 0
    requires Matches(Email(t), Sub(Email(t), Numbered("EMAIL"), s, 0, 0), x, y)
    ensures exists j, e :: Glued(t, s, j, e)
  {
    hide Sub, Ends, EmailCore, MatchAt, Glued, IsCopy, Within, Matches, Fenced, Hits;
    var w := Sub(Email(t), Numbered("EMAIL"), s, 0, 0);
    var m := EmailRun(t, w, x, y);
    AddressedFenced(t);
    var o := Locate(AddressedIn(t), Email(t), Numbered("EMAIL"), s, 0, 0, x, y);
    match o
    case Copied(j) => CopiedIsGlued(t, s, w, x, y, j);
    case Inside(k, at) => InsideHasNoAt(w, x, y, k, at, m);
  }

  const GLUED := "a@b.cc.d@e.ff"

  predicate IsGlued(s: string) {
    && |s| == 13 && s[0] == 'a' && s[1] == '@' && s[2] == 'b' && s[3] == '.' && s[4] == 'c' && s[5] == 'c'
    && s[6] == '.' && s[7] == 'd' && s[8] == '@' && s[9] == 'e' && s[10] == '.' && s[11] == 'f' && s[12] == 'f'
  }

  lemma OneLetterDomain(t: Chars, s: string, k: nat)
    requires Unicode(t) && IsGlued(s) && 3 < k <= |s| && k in Ends(Host(t), s, 2)
    ensures Ends(Domain(t), s, k) == []
  {
    PlusStops(Host(t).chars, s, 2, k, 8);
    hide Ends;
    NoneIn(Ends(Domain(t), s, k));
    forall m ensures m !in Ends(Domain(t), s, k) { InDomain(t, s, k, m); }
  }

  lemma FirstHost(t: Chars, s: string)
    requires Unicode(t) && IsGlued(s)
    ensures Leads(Ends(Seq(Host(t), Domain(t)), s, 2), 6)
  {
    DomainLeads(t, s, 3, 6);
    forall k | 3 < k <= |s| && k in Ends(Host(t), s, 2) ensures Ends(Domain(t), s, k) == [] {
      OneLetterDomain(t, s, k);
    }
    hide Ends, Leads;
    GreedyThen(Host(t).chars, Domain(t), s, 2, 3, 6);
  }

  /** The first address ends before a domain of one letter. */
  lemma GluedFirst(t: Chars, s: string)
    requires Unicode(t) && IsGlued(s)
    ensures MatchAt(Email(t), s, 0) == Some(6)
  {
    FirstHost(t, s);
    var r := EmailCore(t);
    hide Ends, Leads, MatchAt;
    OneThen(r.second.first.chars, r.second.second, s, 1, 6);
    forall k | k in Ends(Mailbox(t), s, 0) ensures k <= 1 { PlusStops(r.first.chars, s, 0, k, 1); }
    GreedyThen(r.first.chars, r.second, s, 0, 1, 6);
    FirstEnd(Email(t), s, 0, 6);
  }

  lemma NoSecond(t: Chars, s: string, k: nat, e: nat)
    requires Unicode(t) && IsGlued(s) && 6 <= k
    ensures !EmailAt(t, s, k, e)
  {
    forall at: nat, dot: nat ensures k < 8 || !AddressAt(t, s, k, at, dot, e) {}
  }

  /** The second has no beginning of its own: it is read from its dot on. */
  lemma GluedSecond(t: Chars, s: string, k: nat)
    requires Unicode(t) && IsGlued(s) && 6 <= k <= |s|
    ensures MatchAt(Email(t), s, k).None?
  {
    hide EmailAt, EmailCore, Matches;
    forall e ensures !Matches(Email(t), s, k, e) {
      EmailIff(t, s, k, e);
      NoSecond(t, s, k, e);
    }
  }

  lemma IsOne(t: Chars, s: string)
    requires Unicode(t) && IsGlued(s)
    ensures exists j, e :: Glued(t, s, j, e)
  {
    FirstEnds(t, s);
    forall k | 6 <= k < 13 && k <= |s| ensures MatchAt(Email(t), s, k).None? { GluedSecond(t, s, k); }
    SecondIs(t, s);
    hide MatchAt, EmailCore, AddressAt, EndsAMatch;
    assert Glued(t, s, 6, 13);
  }

  lemma SecondIs(t: Chars, s: string)
    requires Unicode(t) && IsGlued(s)
    ensures AddressAt(t, s, 6, 8, 10, 13)
  {
  }

  lemma FirstEnds(t: Chars, s: string)
    requires Unicode(t) && IsGlued(s)
    ensures EndsAMatch(Email(t), s, 0, 6)
  {
    CoresNonEmpty(t);
    GluedFirst(t, s);
    hide MatchAt, EmailCore;
    assert Reached(Email(t), s, 0, 0);
  }

  lemma NoSeven(s: string)
    requires IsGlued(s)
    ensures forall j | 0 <= j < |s| :: s[j] != '7'
  {
  }

  lemma NoIdThere(t: Chars, s: string)
    requires IsGlued(s)
    ensures AfterIds(t, s) == s
  {
    CoresNonEmpty(t);
    NoSeven(s);
    hide IsGlued;
    forall k | 0 <= k <= |s| ensures MatchAt(EmiratesId(t), s, k).None? { RedactionLimits.NoIdAt(t, s, k); }
    hide Sub, MatchAt, EmiratesIdCore, Hits;
    AbsentUnchanged(EmiratesId(t), Numbered("EMIRATES_ID"), s, 0, 0);
    assert s[0..] == s;
  }

  /** So there is a text in which an address stays. */
  lemma GluedExists(t: Chars)
    requires Unicode(t)
    ensures exists x, y :: EmailAt(t, AfterEmails(t, GLUED), x, y)
  {
    assert IsGlued(GLUED);
    hide *;
    IsOne(t, GLUED);
    NoIdThere(t, GLUED);
    EmailPassIff(t, GLUED);
  }

  // ---------- what redaction leaves ----------

  ghost predicate NoPhoneIn(t: Chars, s: string) { forall i, e :: !PhoneAt(t, s, i, e) }

  ghost predicate NoIdIn(t: Chars, s: string) { forall i, e :: !IdAt(t, s, i, e) }

  lemma AbsentIff(t: Chars, s: string)
    ensures Absent(Phone(t), s) <==> NoPhoneIn(t, s)
    ensures Absent(EmiratesId(t), s) <==> NoIdIn(t, s)
  {
    hide Matches, PhoneAt, IdAt;
    forall i, e ensures Matches(Phone(t), s, i, e) <==> PhoneAt(t, s, i, e) { PhoneIff(t, s, i, e); }
    forall i, e ensures Matches(EmiratesId(t), s, i, e) <==> IdAt(t, s, i, e) { IdIff(t, s, i, e); }
  }

  /** The final text has no such number and no such ID, exactly below the counts at which
      placeholders read as one, and always when the text is short. */
  lemma NoneLeft(t: Chars, s: string)
    requires Unicode(t)
    ensures NoPhoneIn(t, Redacted(t, s)) <==> PhoneCount(t, s) < 20_000_000
    ensures NoIdIn(t, Redacted(t, s)) <==>
      IdCount(t, s) < FIRST_ID && EmailCount(t, s) < FIRST_ID && PhoneCount(t, s) < FIRST_ID
    ensures |s| <= 40_000_000 ==> NoPhoneIn(t, Redacted(t, s)) && NoIdIn(t, Redacted(t, s))
  {
    hide Absent, NoPhoneIn, NoIdIn, Redacted, IdCount, EmailCount, PhoneCount;
    AbsentIff(t, Redacted(t, s));
    NoPhoneLeft(t, s);
    NoEmiratesIdLeft(t, s);
    if |s| <= 40_000_000 { RedactionLimits.ShortTextClean(t, s); }
  }

  /** Text without any of the three shapes comes back as it was. */
  lemma NothingToRedact(t: Chars, s: string)
    requires NoPhoneIn(t, s) && NoIdIn(t, s) && forall i, e :: !EmailAt(t, s, i, e)
    ensures Redacted(t, s) == s && IdCount(t, s) + EmailCount(t, s) + PhoneCount(t, s) == 0
  {
    hide NoPhoneIn, NoIdIn, Redacted, IdCount, EmailCount, PhoneCount, Matches, EmailAt;
    AbsentIff(t, s);
    forall i, e ensures !Matches(Email(t), s, i, e) { EmailIff(t, s, i, e); }
    CleanTextUnchanged(t, s);
  }
}
