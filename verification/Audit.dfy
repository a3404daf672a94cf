/** The hash chain of the audit table: one chain per tenant in a shared table. */
module Audit {
  import opened Text
  import opened Ledger

  newtype byte = x: int | 0 <= x < 256

  type Bytes = seq<byte>

  // ---------- canonical JSON ----------

  /** The eight hashed fields, `at` in ISO form. */
  datatype Fields = Fields(action: string, actorType: string, actor: Option<string>, objectId: Option<string>,
                           objectType: string, at: string, outcome: string, tenant: string)

  predicate Ascii(s: string) { forall i | 0 <= i < |s| :: s[i] < '\U{7F}' }

  function HexDigit(n: nat): (c: char)
    requires n < 16
    ensures c < '\U{7F}' && c != '"'
  {
    if n < 10 then '0' + n as char else 'a' + (n - 10) as char
  }

  function Hex2(n: nat): (h: string)
    requires n < 0x100
    ensures |h| == 2 && Ascii(h)
  {
    [HexDigit(n / 16), HexDigit(n % 16)]
  }

  function Hex4(n: nat): (h: string)
    requires n < 0x10000
    ensures |h| == 4 && Ascii(h)
  {
    Hex2(n / 0x100) + Hex2(n % 0x100)
  }

  /** A UTF-16 unit as \uXXXX. */
  function Unit(n: nat): (u: string)
    requires n < 0x10000
    ensures |u| == 6 && u[0] == '\\' && u[1] == 'u' && u[2..] == Hex4(n) && Ascii(u)
  {
    "\\u" + Hex4(n)
  }

  predicate Plain(c: char) { ' ' <= c <= '~' && c != '"' && c != '\\' }

  /** The letter of a two-character escape. */
  function Short(c: char): Option<char> {
    if c == '"' then Some('"')
    else if c == '\\' then Some('\\')
    else if c == '\n' then Some('n')
    else if c == '\r' then Some('r')
    else if c == '\t' then Some('t')
    else if c == '\U{0C}' then Some('f')
    else if c == '\U{08}' then Some('b')
    else None
  }

  /** The surrogate pair of a character beyond the basic plane. */
  function High(c: char): (n: nat)
    requires c as int >= 0x10000
    ensures 0xD800 <= n < 0xDC00
  {
    0xD800 + (c as int - 0x10000) / 1024
  }

  function Low(c: char): (n: nat)
    requires c as int >= 0x10000
    ensures 0xDC00 <= n < 0xE000
  {
    0xDC00 + (c as int - 0x10000) % 1024
  }

  /** json.dumps escapes everything outside printable ASCII; beyond the basic plane
      a character becomes a surrogate pair. */
  function Escape(c: char): (e: string)
    ensures e != "" && e[0] != '"' && (Plain(c) <==> e[0] != '\\')
    ensures Ascii(e)
  {
    if Plain(c) then [c]
    else if Short(c).Some? then ['\\', Short(c).value]
    else if c as int < 0x10000 then Unit(c as int)
    else Unit(High(c)) + Unit(Low(c))
  }

  function EscapeAll(s: string): (e: string)
    ensures Ascii(e)
  {
    if s == "" then "" else Escape(s[0]) + EscapeAll(s[1..])
  }

  // ---------- the escapes mean what JSON says ----------

  /** The value of a lower-case hexadecimal digit. */
  function HexValue(c: char): Option<nat> {
    if '0' <= c <= '9' then Some(c as nat - '0' as nat)
    else if 'a' <= c <= 'f' then Some(c as nat - 'a' as nat + 10)
    else None
  }

  /** What \uXXXX stands for, at the beginning of the text. */
  function UnitValue(e: string): Option<nat> {
    if |e| < 6 || e[0] != '\\' || e[1] != 'u' then None
    else
      match (HexValue(e[2]), HexValue(e[3]), HexValue(e[4]), HexValue(e[5]))
      case (Some(a), Some(b), Some(c), Some(d)) => Some(((a * 16 + b) * 16 + c) * 16 + d)
      case _ => None
  }

  /** The two-character escapes of section 7 of RFC 8259, less the optional solidus. */
  function LetterValue(c: char): Option<char> {
    match c
    case '"' => Some('"')
    case '\\' => Some('\\')
    case 'b' => Some('\U{8}')
    case 'f' => Some('\U{C}')
    case 'n' => Some('\U{A}')
    case 'r' => Some('\U{D}')
    case 't' => Some('\U{9}')
    case _ => None
  }

  function ToChar(n: nat): Option<char> {
    if n < 0xD800 || 0xE000 <= n < 0x110000 then Some(n as char) else None
  }

  /** One character off the front of an escaped text, and how long its escape is. */
  function ReadChar(e: string): Option<(char, nat)>
    requires e != ""
  {
    if e[0] != '\\' then Some((e[0], 1))
    else if |e| > 1 && LetterValue(e[1]).Some? then Some((LetterValue(e[1]).value, 2))
    else
      match UnitValue(e)
      case None => None
      case Some(n) =>
        if 0xD800 <= n < 0xDC00 then
          match UnitValue(e[6..])
          case None => None
          case Some(m) =>
            if !(0xDC00 <= m < 0xE000) then None
            else match ToChar(0x10000 + (n - 0xD800) * 1024 + (m - 0xDC00))
              case None => None
              case Some(c) => Some((c, 12))
        else match ToChar(n)
          case None => None
          case Some(c) => Some((c, 6))
  }

  /** The string that an escaped text stands for. */
  function Read(e: string): Option<string> {
    if e == "" then Some("")
    else match ReadChar(e)
      case None => None
      case Some((c, n)) =>
        if n > |e| || n == 0 then None
        else match Read(e[n..])
          case None => None
          case Some(s) => Some([c] + s)
  }

  lemma HexRead(n: nat)
    requires n < 16
    ensures HexValue(HexDigit(n)) == Some(n)
  {
  }

  lemma FourDigits(n: nat)
    requires n < 0x10000
    ensures Hex4(n) == [HexDigit(n / 0x1000), HexDigit(n / 0x100 % 16), HexDigit(n / 16 % 16), HexDigit(n % 16)]
  {
    hide HexDigit;
    assert n / 0x100 / 16 == n / 0x1000 && n % 0x100 / 16 == n / 16 % 16 && n % 0x100 % 16 == n % 16;
  }

  lemma FourValues(n: nat)
    requires n < 0x10000
    ensures ((n / 0x1000 * 16 + n / 0x100 % 16) * 16 + n / 16 % 16) * 16 + n % 16 == n
  {
  }

  lemma UnitAt(u: string, h: string, rest: string)
    requires |u| == 6 && |h| == 4 && u[0] == '\\' && u[1] == 'u' && u[2..] == h
    ensures var e := u + rest;
      |e| >= 6 && e[0] == '\\' && e[1] == 'u' && e[2] == h[0] && e[3] == h[1] && e[4] == h[2] && e[5] == h[3]
      && e[6..] == rest
  {
    assert u[2] == u[2..][0] && u[3] == u[2..][1] && u[4] == u[2..][2] && u[5] == u[2..][3];
  }

  lemma UnitRead(n: nat, rest: string)
    requires n < 0x10000
    ensures UnitValue(Unit(n) + rest) == Some(n) && (Unit(n) + rest)[6..] == rest
    ensures (Unit(n) + rest)[0] == '\\' && (Unit(n) + rest)[1] == 'u'
  {
    hide HexDigit, HexValue, Hex4, Unit, Ascii;
    HexRead(n / 0x1000);
    HexRead(n / 0x100 % 16);
    HexRead(n / 16 % 16);
    HexRead(n % 16);
    FourDigits(n);
    FourValues(n);
    UnitAt(Unit(n), Hex4(n), rest);
  }

  lemma ShortRead(c: char, rest: string)
    requires !Plain(c) && Short(c).Some?
    ensures ReadChar(Escape(c) + rest) == Some((c, 2)) && |Escape(c)| == 2
  {
    hide UnitValue;
    var e := Escape(c) + rest;
    assert e[0] == '\\' && e[1] == Short(c).value;
  }

  lemma LongRead(c: char, rest: string)
    requires !Plain(c) && Short(c).None?
    ensures ReadChar(Escape(c) + rest) == Some((c, |Escape(c)|))
  {
    hide Unit, Hex4, HexValue, UnitValue;
    if c as int < 0x10000 {
      UnitRead(c as int, rest);
    } else {
      assert Escape(c) + rest == Unit(High(c)) + (Unit(Low(c)) + rest);
      UnitRead(High(c), Unit(Low(c)) + rest);
      UnitRead(Low(c), rest);
      assert (High(c) - 0xD800) * 1024 + (Low(c) - 0xDC00) == c as int - 0x10000;
    }
  }

  lemma EscapeRead(c: char, rest: string)
    ensures ReadChar(Escape(c) + rest) == Some((c, |Escape(c)|)) && (Escape(c) + rest)[|Escape(c)|..] == rest
  {
    hide Unit, Hex4, UnitValue;
    if Plain(c) {
      assert (Escape(c) + rest)[0] == c;
    } else if Short(c).Some? {
      ShortRead(c, rest);
    } else {
      LongRead(c, rest);
    }
  }

  /** Reading an escaped string gives the string back. */
  lemma {:induction false} EscapesRead(s: string)
    ensures Read(EscapeAll(s)) == Some(s)
  {
    hide ReadChar, Escape;
    if s == "" {
    } else {
      EscapesRead(s[1..]);
      EscapeRead(s[0], EscapeAll(s[1..]));
      assert [s[0]] + s[1..] == s;
    }
  }

  function Quoted(s: string): (q: string)
    ensures Ascii(q)
  {
    "\"" + EscapeAll(s) + "\""
  }

  function Nullable(s: Option<string>): (q: string)
    ensures Ascii(q)
  {
    if s.None? then "null" else Quoted(s.value)
  }

  /** One member of the object, and the members after it. */
  function Member(key: string, value: string, rest: string): string { key + (value + rest) }

  function FromTenant(f: Fields): string { Member(",\"tenant_id\":", Quoted(f.tenant), "}") }

  function FromOutcome(f: Fields): string { Member(",\"outcome\":", Quoted(f.outcome), FromTenant(f)) }

  function FromAt(f: Fields): string { Member(",\"occurred_at\":", Quoted(f.at), FromOutcome(f)) }

  function FromObjectType(f: Fields): string { Member(",\"object_type\":", Quoted(f.objectType), FromAt(f)) }

  function FromObjectId(f: Fields): string { Member(",\"object_id\":", Nullable(f.objectId), FromObjectType(f)) }

  function FromActor(f: Fields): string { Member(",\"actor_user_id\":", Nullable(f.actor), FromObjectId(f)) }

  function FromActorType(f: Fields): string { Member(",\"actor_type\":", Quoted(f.actorType), FromActor(f)) }

  /** The object with sorted keys and no spaces. */
  function Canonical(f: Fields): string { Member("{\"action\":", Quoted(f.action), FromActorType(f)) }

  /** The keys in order, each with its own field. */
  lemma KeysAndValues(f: Fields)
    ensures Canonical(f) ==
      "{\"action\":" + (Quoted(f.action)
      + (",\"actor_type\":" + (Quoted(f.actorType)
      + (",\"actor_user_id\":" + (Nullable(f.actor)
      + (",\"object_id\":" + (Nullable(f.objectId)
      + (",\"object_type\":" + (Quoted(f.objectType)
      + (",\"occurred_at\":" + (Quoted(f.at)
      + (",\"outcome\":" + (Quoted(f.outcome)
      + (",\"tenant_id\":" + (Quoted(f.tenant) + "}")))))))))))))))
  {
    hide Quoted, Nullable;
  }

  lemma MemberAscii(key: string, value: string, rest: string)
    requires Ascii(key) && Ascii(value) && Ascii(rest)
    ensures Ascii(Member(key, value, rest))
  {
  }

  lemma KeysAscii()
    ensures Ascii("{\"action\":") && Ascii(",\"actor_type\":") && Ascii(",\"actor_user_id\":")
    ensures Ascii(",\"object_id\":") && Ascii(",\"object_type\":")
  {
  }

  lemma MoreKeysAscii()
    ensures Ascii(",\"occurred_at\":") && Ascii(",\"outcome\":") && Ascii(",\"tenant_id\":") && Ascii("}")
  {
  }

  lemma CanonicalAscii(f: Fields)
    ensures Ascii(Canonical(f))
  {
    hide Ascii, Member, Quoted, Nullable;
    KeysAscii();
    MoreKeysAscii();
    MemberAscii(",\"tenant_id\":", Quoted(f.tenant), "}");
    MemberAscii(",\"outcome\":", Quoted(f.outcome), FromTenant(f));
    MemberAscii(",\"occurred_at\":", Quoted(f.at), FromOutcome(f));
    MemberAscii(",\"object_type\":", Quoted(f.objectType), FromAt(f));
    MemberAscii(",\"object_id\":", Nullable(f.objectId), FromObjectType(f));
    MemberAscii(",\"actor_user_id\":", Nullable(f.actor), FromObjectId(f));
    MemberAscii(",\"actor_type\":", Quoted(f.actorType), FromActor(f));
    MemberAscii("{\"action\":", Quoted(f.action), FromActorType(f));
  }

  // ---------- the canonical form is injective ----------

  lemma Hex2Injective(m: nat, n: nat)
    requires m < 0x100 && n < 0x100 && Hex2(m) == Hex2(n)
    ensures m == n
  {
    assert Hex2(m)[0] == Hex2(n)[0] && Hex2(m)[1] == Hex2(n)[1];
  }

  lemma Hex4Injective(m: nat, n: nat)
    requires m < 0x10000 && n < 0x10000 && Hex4(m) == Hex4(n)
    ensures m == n
  {
    hide Hex2;
    assert Hex4(m)[..2] == Hex2(m / 0x100) && Hex4(n)[..2] == Hex2(n / 0x100);
    assert Hex4(m)[2..] == Hex2(m % 0x100) && Hex4(n)[2..] == Hex2(n % 0x100);
    Hex2Injective(m / 0x100, n / 0x100);
    Hex2Injective(m % 0x100, n % 0x100);
  }

  lemma UnitApart(m: nat, x: string, n: nat, y: string)
    requires m < 0x10000 && n < 0x10000 && Unit(m) + x == Unit(n) + y
    ensures m == n && x == y
  {
    hide Hex4, Unit;
    var whole := Unit(m) + x;
    assert whole[2..6] == Unit(m)[2..] == Hex4(m) && whole[2..6] == Unit(n)[2..] == Hex4(n);
    Hex4Injective(m, n);
    assert whole[6..] == x && whole[6..] == y;
  }

  lemma LongForm(c: char)
    requires !Plain(c) && Short(c).None?
    ensures c as int < 0x10000 ==> !(0xD800 <= c as int < 0xDC00) && Escape(c) == Unit(c as int)
    ensures c as int >= 0x10000 ==> Escape(c) == Unit(High(c)) + Unit(Low(c))
  {
    hide Unit, Short, Plain;
  }

  lemma HalvesInjective(c: char, d: char)
    requires c as int >= 0x10000 && d as int >= 0x10000 && High(c) == High(d) && Low(c) == Low(d)
    ensures c == d
  {
    var v, w := c as int - 0x10000, d as int - 0x10000;
    assert v == v / 1024 * 1024 + v % 1024 && w == w / 1024 * 1024 + w % 1024;
    assert c as int == d as int;
  }

  /** The first unit of a long escape, and what follows it. */
  lemma FirstUnit(c: char, rest: string) returns (n: nat, more: string)
    requires !Plain(c) && Short(c).None?
    ensures n < 0x10000 && Unit(n) + more == Escape(c) + rest
    ensures 0xD800 <= n < 0xDC00 <==> c as int >= 0x10000
    ensures c as int < 0x10000 ==> n == c as int && more == rest
    ensures c as int >= 0x10000 ==> n == High(c) && more == Unit(Low(c)) + rest
  {
    LongForm(c);
    hide *;
    if c as int < 0x10000 {
      n, more := c as int, rest;
    } else {
      n, more := High(c), Unit(Low(c)) + rest;
      Regroup(Unit(n), Unit(Low(c)), rest);
    }
  }

  lemma Regroup(a: string, b: string, c: string)
    ensures a + (b + c) == (a + b) + c
  {
  }

  lemma LongApart(c: char, x: string, d: char, y: string)
    requires !Plain(c) && Short(c).None? && !Plain(d) && Short(d).None?
    requires Escape(c) + x == Escape(d) + y
    ensures c == d && x == y
  {
    hide *;
    var m, xs := FirstUnit(c, x);
    var n, ys := FirstUnit(d, y);
    UnitApart(m, xs, n, ys);
    if c as int >= 0x10000 {
      UnitApart(Low(c), x, Low(d), y);
      HalvesInjective(c, d);
    }
  }

  lemma ShortForm(c: char)
    ensures Plain(c) ==> Escape(c) == [c]
    ensures Short(c).Some? ==> Escape(c) == ['\\', Short(c).value] && Short(c).value != 'u'
    ensures !Plain(c) && Short(c).None? ==> |Escape(c)| > 1 && Escape(c)[0] == '\\' && Escape(c)[1] == 'u'
    ensures Short(c).Some? ==> !Plain(c)
  {
    hide Hex4;
  }

  lemma ShortInjective(c: char, d: char)
    requires Short(c).Some? && Short(c) == Short(d)
    ensures c == d
  {
  }

  /** No escape is the beginning of another. */
  lemma EscapeApart(c: char, x: string, d: char, y: string)
    requires Escape(c) + x == Escape(d) + y
    ensures c == d && x == y
  {
    hide Escape, Short, Plain;
    ShortForm(c);
    ShortForm(d);
    var whole := Escape(c) + x;
    assert whole[0] == Escape(c)[0] == Escape(d)[0];
    if Plain(c) {
      assert whole[1..] == x && whole[1..] == y;
    } else {
      assert whole[1] == Escape(c)[1] == Escape(d)[1];
      if Short(c).Some? {
        assert whole[2..] == x && whole[2..] == y;
        ShortInjective(c, d);
      } else {
        LongApart(c, x, d, y);
      }
    }
  }

  /** The closing quote ends the text: what is escaped can be told from what follows. */
  lemma {:induction false} EscapeAllApart(s: string, x: string, t: string, y: string)
    requires EscapeAll(s) + "\"" + x == EscapeAll(t) + "\"" + y
    ensures s == t && x == y
  {
    hide Escape, Short, Plain;
    var whole := EscapeAll(s) + "\"" + x;
    if s != "" { assert whole[0] == Escape(s[0])[0]; }
    if t != "" { assert whole[0] == Escape(t[0])[0]; }
    if s != "" && t != "" {
      var xs, ys := EscapeAll(s[1..]) + "\"" + x, EscapeAll(t[1..]) + "\"" + y;
      assert Escape(s[0]) + xs == whole && Escape(t[0]) + ys == whole;
      EscapeApart(s[0], xs, t[0], ys);
      EscapeAllApart(s[1..], x, t[1..], y);
      assert s == [s[0]] + s[1..] && t == [t[0]] + t[1..];
    } else if s == "" && t == "" {
      assert whole[1..] == x && whole[1..] == y;
    }
  }

  lemma QuotedApart(s: string, x: string, t: string, y: string)
    requires Quoted(s) + x == Quoted(t) + y
    ensures s == t && x == y
  {
    hide EscapeAll;
    var whole := Quoted(s) + x;
    assert whole[1..] == EscapeAll(s) + "\"" + x && whole[1..] == EscapeAll(t) + "\"" + y;
    EscapeAllApart(s, x, t, y);
  }

  lemma NullableFirst(s: Option<string>)
    ensures Nullable(s) != "" && (Nullable(s)[0] == 'n' <==> s.None?)
    ensures s.None? ==> |Nullable(s)| == 4
    ensures s.Some? ==> Nullable(s) == Quoted(s.value)
  {
  }

  lemma NullableApart(s: Option<string>, x: string, t: Option<string>, y: string)
    requires Nullable(s) + x == Nullable(t) + y
    ensures s == t && x == y
  {
    hide Quoted, Nullable;
    NullableFirst(s);
    NullableFirst(t);
    var whole := Nullable(s) + x;
    assert whole[0] == Nullable(s)[0] == Nullable(t)[0];
    if s.None? {
      assert whole[4..] == x && whole[4..] == y;
    } else {
      QuotedApart(s.value, x, t.value, y);
    }
  }

  lemma MemberApart(key: string, u: string, x: string, v: string, y: string)
    requires Member(key, u, x) == Member(key, v, y)
    ensures u + x == v + y
  {
    var whole := Member(key, u, x);
    assert whole[|key|..] == u + x && whole[|key|..] == v + y;
  }

  /** Different fields have different canonical texts. */
  lemma CanonicalInjective(f: Fields, g: Fields)
    requires Canonical(f) == Canonical(g)
    ensures f == g
  {
    hide Member, Quoted, Nullable;
    MemberApart("{\"action\":", Quoted(f.action), FromActorType(f), Quoted(g.action), FromActorType(g));
    QuotedApart(f.action, FromActorType(f), g.action, FromActorType(g));
    MemberApart(",\"actor_type\":", Quoted(f.actorType), FromActor(f), Quoted(g.actorType), FromActor(g));
    QuotedApart(f.actorType, FromActor(f), g.actorType, FromActor(g));
    MemberApart(",\"actor_user_id\":", Nullable(f.actor), FromObjectId(f), Nullable(g.actor), FromObjectId(g));
    NullableApart(f.actor, FromObjectId(f), g.actor, FromObjectId(g));
    MemberApart(",\"object_id\":", Nullable(f.objectId), FromObjectType(f), Nullable(g.objectId), FromObjectType(g));
    NullableApart(f.objectId, FromObjectType(f), g.objectId, FromObjectType(g));
    MemberApart(",\"object_type\":", Quoted(f.objectType), FromAt(f), Quoted(g.objectType), FromAt(g));
    QuotedApart(f.objectType, FromAt(f), g.objectType, FromAt(g));
    MemberApart(",\"occurred_at\":", Quoted(f.at), FromOutcome(f), Quoted(g.at), FromOutcome(g));
    QuotedApart(f.at, FromOutcome(f), g.at, FromOutcome(g));
    MemberApart(",\"outcome\":", Quoted(f.outcome), FromTenant(f), Quoted(g.outcome), FromTenant(g));
    QuotedApart(f.outcome, FromTenant(f), g.outcome, FromTenant(g));
    MemberApart(",\"tenant_id\":", Quoted(f.tenant), "}", Quoted(g.tenant), "}");
    QuotedApart(f.tenant, "}", g.tenant, "}");
  }

  // ---------- the canonical form begins nowhere but at its start ----------

  predicate OpensAt(s: string, i: int) {
    0 <= i && i + 2 < |s| && s[i] == '{' && s[i + 1] == '"' && s[i + 2] == 'a'
  }

  /** Every quote in escaped text has a backslash before it. */
  ghost predicate QuotesEscaped(e: string) {
    forall i | 0 <= i < |e| && e[i] == '"' :: i > 0 && e[i - 1] == '\\'
  }

  lemma UnitPlain(n: nat)
    requires n < 0x10000
    ensures forall i | 0 <= i < 6 :: Unit(n)[i] != '"'
  {
    hide Hex2;
    assert Hex4(n) == Hex2(n / 0x100) + Hex2(n % 0x100);
    HexPlain(n / 0x100);
    HexPlain(n % 0x100);
    forall i | 0 <= i < 6 ensures Unit(n)[i] != '"' { if i >= 2 { assert Unit(n)[i] == Hex4(n)[i - 2]; } }
  }

  lemma HexPlain(n: nat)
    requires n < 0x100
    ensures Hex2(n)[0] != '"' && Hex2(n)[1] != '"'
  {
  }

  lemma EscapeQuotes(c: char)
    ensures QuotesEscaped(Escape(c))
  {
    hide Unit, Plain, Short;
    ShortForm(c);
    if Plain(c) || Short(c).Some? {
    } else {
      LongForm(c);
      if c as int < 0x10000 { UnitPlain(c as int); } else { UnitPlain(High(c)); UnitPlain(Low(c)); }
    }
  }

  lemma {:induction false} EscapeAllQuotes(s: string)
    ensures QuotesEscaped(EscapeAll(s))
  {
    hide Escape;
    if s == "" {
    } else {
      EscapeQuotes(s[0]);
      EscapeAllQuotes(s[1..]);
      QuotesJoin(Escape(s[0]), EscapeAll(s[1..]));
    }
  }

  lemma QuotesJoin(a: string, b: string)
    requires QuotesEscaped(a) && QuotesEscaped(b)
    ensures QuotesEscaped(a + b)
  {
    forall i | 0 <= i < |a + b| && (a + b)[i] == '"' ensures i > 0 && (a + b)[i - 1] == '\\' {
      if i >= |a| { assert b[i - |a|] == '"' && b[i - |a| - 1] == (a + b)[i - 1]; }
    }
  }

  /** What follows a value: a comma or the closing brace first, and no new beginning. */
  ghost predicate Follows(s: string) {
    s != "" && (s[0] == ',' || s[0] == '}') && forall i :: !OpensAt(s, i)
  }

  lemma QuotedOpens(x: string, rest: string, i: int)
    requires Follows(rest)
    ensures !OpensAt(Quoted(x) + rest, i)
  {
    hide EscapeAll;
    var e := EscapeAll(x);
    EscapeAllQuotes(x);
    var whole, n := Quoted(x) + rest, |e| + 2;
    if 0 < i <= |e| && i + 2 < |whole| {
      assert whole[i] == e[i - 1];
      if i < |e| { assert whole[i + 1] == e[i]; } else { assert whole[i + 2] == rest[0]; }
    } else if n <= i && i + 2 < |whole| {
      assert whole[i] == rest[i - n] && whole[i + 1] == rest[i - n + 1] && whole[i + 2] == rest[i - n + 2];
      assert !OpensAt(rest, i - n);
    }
  }

  lemma NullableOpens(x: Option<string>, rest: string, i: int)
    requires Follows(rest)
    ensures !OpensAt(Nullable(x) + rest, i)
  {
    if x.Some? {
      QuotedOpens(x.value, rest, i);
    } else {
      var whole := "null" + rest;
      if 4 <= i && i + 2 < |whole| {
        assert whole[i] == rest[i - 4] && whole[i + 1] == rest[i - 3] && whole[i + 2] == rest[i - 2];
        assert !OpensAt(rest, i - 4);
      }
    }
  }

  predicate Separates(key: string) { key != "" && key[0] == ',' && forall i | 0 <= i < |key| :: key[i] != '{' }

  lemma KeysSeparate()
    ensures Separates(",\"actor_type\":") && Separates(",\"actor_user_id\":")
    ensures Separates(",\"object_id\":") && Separates(",\"object_type\":")
  {
  }

  lemma MoreKeysSeparate()
    ensures Separates(",\"occurred_at\":") && Separates(",\"outcome\":") && Separates(",\"tenant_id\":") && Follows("}")
  {
  }

  lemma MemberFollows(key: string, value: string, rest: string)
    requires Separates(key)
    requires forall i :: !OpensAt(value + rest, i)
    ensures Follows(Member(key, value, rest))
  {
    var whole, tail := Member(key, value, rest), value + rest;
    forall i ensures !OpensAt(whole, i) {
      if |key| <= i && i + 2 < |whole| {
        assert whole[i] == tail[i - |key|] && whole[i + 1] == tail[i - |key| + 1]
            && whole[i + 2] == tail[i - |key| + 2];
        assert !OpensAt(tail, i - |key|);
      }
    }
  }

  lemma QuotedFollows(key: string, x: string, rest: string)
    requires Separates(key)
    requires Follows(rest)
    ensures Follows(Member(key, Quoted(x), rest))
  {
    hide Quoted, Member, Follows, Separates;
    forall i ensures !OpensAt(Quoted(x) + rest, i) { QuotedOpens(x, rest, i); }
    MemberFollows(key, Quoted(x), rest);
  }

  lemma NullableFollows(key: string, x: Option<string>, rest: string)
    requires Separates(key)
    requires Follows(rest)
    ensures Follows(Member(key, Nullable(x), rest))
  {
    hide Nullable, Member, Follows, Separates;
    forall i ensures !OpensAt(Nullable(x) + rest, i) { NullableOpens(x, rest, i); }
    MemberFollows(key, Nullable(x), rest);
  }

  lemma RestFollows(f: Fields)
    ensures Follows(FromActorType(f))
  {
    hide Quoted, Nullable, Member, Follows, Separates;
    KeysSeparate();
    MoreKeysSeparate();
    QuotedFollows(",\"tenant_id\":", f.tenant, "}");
    QuotedFollows(",\"outcome\":", f.outcome, FromTenant(f));
    QuotedFollows(",\"occurred_at\":", f.at, FromOutcome(f));
    QuotedFollows(",\"object_type\":", f.objectType, FromAt(f));
    NullableFollows(",\"object_id\":", f.objectId, FromObjectType(f));
    NullableFollows(",\"actor_user_id\":", f.actor, FromObjectId(f));
    QuotedFollows(",\"actor_type\":", f.actorType, FromActor(f));
  }

  /** A canonical text begins with a brace, a quote and the first key, and nowhere else
      does one begin, whatever the fields contain. */
  lemma CanonicalOpens(f: Fields, i: int)
    ensures OpensAt(Canonical(f), i) <==> i == 0
  {
    hide Quoted, FromActorType;
    var key, tail := "{\"action\":", Quoted(f.action) + FromActorType(f);
    var whole := Canonical(f);
    assert whole == key + tail;
    if i < |key| {
      assert whole[0] == key[0] && whole[1] == key[1] && whole[2] == key[2];
      if 0 < i { assert whole[i] == key[i]; }
    } else if i + 2 < |whole| {
      RestFollows(f);
      QuotedOpens(f.action, FromActorType(f), i - |key|);
      assert whole[i] == tail[i - |key|] && whole[i + 1] == tail[i - |key| + 1] && whole[i + 2] == tail[i - |key| + 2];
    }
  }

  // ---------- the chain ----------

  /** str.encode of ASCII text. */
  function Encode(s: string): (b: Bytes)
    requires Ascii(s)
    ensures |b| == |s| && forall i | 0 <= i < |s| :: b[i] as int == s[i] as int
  {
    seq(|s|, i requires 0 <= i < |s| => s[i] as int as byte)
  }

  lemma EncodeInjective(s: string, t: string)
    requires Ascii(s) && Ascii(t) && Encode(s) == Encode(t)
    ensures s == t
  {
    forall i | 0 <= i < |s| ensures s[i] == t[i] { assert Encode(s)[i] == Encode(t)[i]; }
  }

  /** One stored row; before and after state are not hashed. */
  datatype Entry = Entry(fields: Fields, prev: Option<Bytes>, hash: Bytes, before: Option<string>,
      after: Option<string>)

  /** The bytes of the canonical text. */
  function CanonicalText(): Fields -> Bytes {
    (f: Fields) => (CanonicalAscii(f); Encode(Canonical(f)))
  }

  /** A text that tells its fields apart. */
  ghost predicate Tells(text: Fields -> Bytes) { forall f, g :: text(f) == text(g) ==> f == g }

  lemma CanonicalTells()
    ensures Tells(CanonicalText())
  {
    hide Canonical, Encode;
    forall f, g | CanonicalText()(f) == CanonicalText()(g) ensures f == g {
      CanonicalAscii(f);
      CanonicalAscii(g);
      EncodeInjective(Canonical(f), Canonical(g));
      CanonicalInjective(f, g);
    }
  }

  lemma CanonicalStandalone()
    ensures Standalone(CanonicalText())
  {
    hide Canonical, Encode;
    forall f, g, b: Bytes | |b| == 32 ensures CanonicalText()(f) != b + CanonicalText()(g) {
      CanonicalAscii(f);
      CanonicalAscii(g);
      CanonicalOpens(f, 32);
      CanonicalOpens(g, 0);
      NoTextWithin(Canonical(f), b, Canonical(g));
    }
  }

  lemma NoTextWithin(s: string, b: Bytes, t: string)
    requires Ascii(s) && Ascii(t) && |b| == 32 && OpensAt(t, 0) && !OpensAt(s, 32)
    ensures Encode(s) != b + Encode(t)
  {
    if |s| == |t| + 32 {
      var k := if s[32] != t[0] then 0 else if s[33] != t[1] then 1 else 2;
      assert Encode(s)[32 + k] != (b + Encode(t))[32 + k];
    }
  }

  /** What is hashed for a row. */
  function Input(text: Fields -> Bytes, prev: Option<Bytes>, f: Fields): Bytes {
    (if prev.Some? then prev.value else []) + text(f)
  }

  /** SHA-256 yields 32 bytes. */
  ghost predicate Digests(hash: Bytes -> Bytes) { forall b: Bytes :: |hash(b)| == 32 }

  type Log = seq<Stamped<Entry>>

  function Of(tenant: string): Entry -> bool { (e: Entry) => e.fields.tenant == tenant }

  function Chain(log: Log, tenant: string): seq<Entry> {
    if log == [] then []
    else
      var last, older := log[|log| - 1].row, Chain(log[..|log| - 1], tenant);
      if last.fields.tenant == tenant then older + [last] else older
  }

  predicate Linked(hash: Bytes -> Bytes, text: Fields -> Bytes, prev: Option<Bytes>, e: Entry) {
    e.prev == prev && e.hash == hash(Input(text, prev, e.fields))
  }

  function HashBefore(c: seq<Entry>, k: nat): Option<Bytes>
    requires k <= |c|
  {
    if k == 0 then None else Some(c[k - 1].hash)
  }

  ghost predicate Verifies(hash: Bytes -> Bytes, text: Fields -> Bytes, c: seq<Entry>) {
    forall k | 0 <= k < |c| :: Linked(hash, text, HashBefore(c, k), c[k])
  }

  class AuditLog {
    const hash: Bytes -> Bytes
    const iso: int -> string
    var log: Log

    /** Every tenant's rows form an unbroken chain. */
    ghost predicate Valid()
      reads this
    {
      Ordered(log) && forall tenant: string :: Verifies(hash, CanonicalText(), Chain(log, tenant))
    }

    constructor (hash: Bytes -> Bytes, iso: int -> string)
      ensures Valid() && log == [] && this.hash == hash && this.iso == iso
    {
      this.hash, this.iso := hash, iso;
      log := [];
    }

    method WriteAudit(now: int, tenant: string, actor: Option<string>, actorType: string, action: string,
                      objectType: string, objectId: Option<string>, outcome: string,
                      before: Option<string>, after: Option<string>)
      requires Valid() && NotBefore(now, log)
      modifies this
      ensures Valid()
      ensures exists e: Entry ::
        && log == Append(old(log), now, e)
        && e.fields == Fields(action, actorType, actor, objectId, objectType, iso(now), outcome, tenant)
        && e.before == before && e.after == after
    {
      hide CanonicalText, Input, Verifies, Ordered;
      var previous := Newest(log, Of(tenant));
      var prev := if previous.None? then None else Some(previous.value.row.hash);
      var fields := Fields(action, actorType, actor, objectId, objectType, iso(now), outcome, tenant);
      var rowHash := hash(Input(CanonicalText(), prev, fields));
      var e := Entry(fields, prev, rowHash, before, after);
      NewestIsHead(log, tenant);
      AppendOrdered(log, now, e);
      AppendVerifies(hash, CanonicalText(), log, now, e);
      log := Append(log, now, e);
    }
  }

  /** The row the lookup finds is the head of the tenant's chain. */
  lemma {:induction false} NewestIsHead(log: Log, tenant: string)
    requires Ordered(log)
    ensures match Newest(log, Of(tenant))
      case None => Chain(log, tenant) == []
      case Some(r) => Chain(log, tenant) != [] && Chain(log, tenant)[|Chain(log, tenant)| - 1] == r.row
  {
    if log == [] {
    } else {
      var front := log[..|log| - 1];
      NewestIsHead(front, tenant);
      var k := NewestFound(front, Of(tenant));
      if Newest(front, Of(tenant)).Some? { assert Later(log[|log| - 1], log[k]); }
    }
  }

  lemma ChainAppend(log: Log, now: int, e: Entry, tenant: string)
    ensures Chain(Append(log, now, e), tenant) == Chain(log, tenant) + if e.fields.tenant == tenant then [e] else []
  {
    assert Append(log, now, e)[..|log|] == log;
  }

  lemma VerifiesLonger(hash: Bytes -> Bytes, text: Fields -> Bytes, c: seq<Entry>, e: Entry)
    requires Verifies(hash, text, c) && Linked(hash, text, HashBefore(c, |c|), e)
    ensures Verifies(hash, text, c + [e])
  {
    hide Linked;
    var d := c + [e];
    forall k | 0 <= k < |d| ensures Linked(hash, text, HashBefore(d, k), d[k]) {
      assert HashBefore(d, k) == HashBefore(c, k);
    }
  }

  lemma AppendVerifies(hash: Bytes -> Bytes, text: Fields -> Bytes, log: Log, now: int, e: Entry)
    requires forall tenant: string :: Verifies(hash, text, Chain(log, tenant))
    requires var own := Chain(log, e.fields.tenant); Linked(hash, text, HashBefore(own, |own|), e)
    ensures forall tenant: string :: Verifies(hash, text, Chain(Append(log, now, e), tenant))
  {
    hide Linked, Verifies, Append, Chain;
    forall tenant: string ensures Verifies(hash, text, Chain(Append(log, now, e), tenant)) {
      ChainAppend(log, now, e, tenant);
      if e.fields.tenant == tenant {
        VerifiesLonger(hash, text, Chain(log, tenant), e);
      } else {
        assert Chain(log, tenant) + [] == Chain(log, tenant);
      }
    }
  }

  // ---------- tamper evidence ----------

  function Inputs(text: Fields -> Bytes, c: seq<Entry>): set<Bytes> {
    set k | 0 <= k < |c| :: Input(text, HashBefore(c, k), c[k].fields)
  }

  ghost predicate CollisionFree(hash: Bytes -> Bytes, inputs: set<Bytes>) {
    forall a, b | a in inputs && b in inputs :: hash(a) == hash(b) ==> a == b
  }

  /** No text is 32 bytes followed by another text. */
  ghost predicate Standalone(text: Fields -> Bytes) {
    forall f, g, b: Bytes | |b| == 32 :: text(f) != b + text(g)
  }

  lemma InputInjective(text: Fields -> Bytes, p: Option<Bytes>, f: Fields, q: Option<Bytes>, g: Fields)
    requires Tells(text) && Input(text, p, f) == Input(text, q, g)
    requires (p.Some? ==> |p.value| == 32) && (q.Some? ==> |q.value| == 32)
    requires p.Some? == q.Some? || Standalone(text)
    ensures p == q && f == g
  {
    var n := if p.None? then 0 else |p.value|;
    var x, y := Input(text, p, f), Input(text, q, g);
    if p.Some? == q.Some? {
      assert x[..n] == y[..n] && x[n..] == y[n..];
      assert x[n..] == text(f) && y[n..] == text(g);
    }
  }

  lemma Linking(hash: Bytes -> Bytes, text: Fields -> Bytes, c: seq<Entry>, n: nat)
    requires Digests(hash) && Verifies(hash, text, c) && n < |c|
    ensures Linked(hash, text, HashBefore(c, n), c[n])
    ensures Input(text, HashBefore(c, n), c[n].fields) in Inputs(text, c)
    ensures HashBefore(c, n).Some? ==> |HashBefore(c, n).value| == 32
  {
    hide Input;
    if n > 0 { assert Linked(hash, text, HashBefore(c, n - 1), c[n - 1]); }
  }

  lemma HeadsAgree(hash: Bytes -> Bytes, text: Fields -> Bytes, c: seq<Entry>, d: seq<Entry>)
    requires Digests(hash) && Tells(text) && Verifies(hash, text, c) && Verifies(hash, text, d)
    requires c != [] && d != [] && c[|c| - 1].hash == d[|d| - 1].hash
    requires |c| == |d| || Standalone(text)
    requires CollisionFree(hash, Inputs(text, c) + Inputs(text, d))
    ensures c[|c| - 1].fields == d[|d| - 1].fields && HashBefore(c, |c| - 1) == HashBefore(d, |d| - 1)
  {
    hide Input, Inputs, Verifies, Digests, Tells, Standalone;
    var m, n := |c| - 1, |d| - 1;
    Linking(hash, text, c, m);
    Linking(hash, text, d, n);
    InputInjective(text, HashBefore(c, m), c[m].fields, HashBefore(d, n), d[n].fields);
  }

  /** Two verifying chains that end in the same hash are of one length and agree on every
      hashed field of every row, unless two of the texts hashed in them collide. */
  lemma {:induction false} HeadFixesChain(hash: Bytes -> Bytes, text: Fields -> Bytes, c: seq<Entry>, d: seq<Entry>)
    requires Digests(hash) && Tells(text) && Verifies(hash, text, c) && Verifies(hash, text, d)
    requires c != [] && d != [] && c[|c| - 1].hash == d[|d| - 1].hash
    requires |c| == |d| || Standalone(text)
    requires CollisionFree(hash, Inputs(text, c) + Inputs(text, d))
    ensures |c| == |d| && forall k | 0 <= k < |c| :: c[k].fields == d[k].fields && c[k].hash == d[k].hash
    decreases |c|
  {
    hide Input, Inputs, Verifies, Digests, Linked, Tells, Standalone;
    HeadsAgree(hash, text, c, d);
    if |c| == 1 {
    } else {
      var c', d' := c[..|c| - 1], d[..|d| - 1];
      PrefixVerifies(hash, text, c);
      PrefixVerifies(hash, text, d);
      assert CollisionFree(hash, Inputs(text, c') + Inputs(text, d'));
      HeadFixesChain(hash, text, c', d');
      forall k | 0 <= k < |c| ensures c[k].fields == d[k].fields && c[k].hash == d[k].hash {
        if k < |c'| { assert c'[k] == c[k] && d'[k] == d[k]; }
      }
    }
  }

  lemma PrefixVerifies(hash: Bytes -> Bytes, text: Fields -> Bytes, c: seq<Entry>)
    requires Verifies(hash, text, c) && c != []
    ensures Verifies(hash, text, c[..|c| - 1]) && Inputs(text, c[..|c| - 1]) <= Inputs(text, c)
  {
    hide Linked, Input;
    var b := c[..|c| - 1];
    forall k | 0 <= k < |b| ensures Linked(hash, text, HashBefore(b, k), b[k]) {
      assert HashBefore(b, k) == HashBefore(c, k) && b[k] == c[k];
    }
    forall x | x in Inputs(text, b) ensures x in Inputs(text, c) {
      var k :| 0 <= k < |b| && x == Input(text, HashBefore(b, k), b[k].fields);
      assert HashBefore(b, k) == HashBefore(c, k);
    }
  }

  /** So with the canonical text: nobody can change a hashed field, or drop, add or swap
      rows of a chain, and keep both its links and its head. */
  lemma TamperEvident(hash: Bytes -> Bytes, log: Log, tenant: string, forged: seq<Entry>)
    requires Digests(hash) && Verifies(hash, CanonicalText(), Chain(log, tenant))
        && Verifies(hash, CanonicalText(), forged)
    requires var c := Chain(log, tenant); c != [] && forged != [] && c[|c| - 1].hash == forged[|forged| - 1].hash
    requires CollisionFree(hash, Inputs(CanonicalText(), Chain(log, tenant)) + Inputs(CanonicalText(), forged))
    ensures var c := Chain(log, tenant); |c| == |forged| && forall k | 0 <= k < |c| :: c[k].fields == forged[k].fields
  {
    hide *;
    CanonicalTells();
    CanonicalStandalone();
    HeadFixesChain(hash, CanonicalText(), Chain(log, tenant), forged);
  }
}
