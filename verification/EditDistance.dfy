/** The edit distance stored with an edited reply: positions that differ, plus
    the difference of the lengths. */
module EditDistance {

  function Mismatches(a: string, b: string): nat {
    if a == "" || b == "" then 0
    else (if a[0] != b[0] then 1 else 0) + Mismatches(a[1..], b[1..])
  }

  function Distance(a: string, b: string): nat {
    Mismatches(a, b) + if |a| >= |b| then |a| - |b| else |b| - |a|
  }

  /** The fewest single-character insertions, deletions and replacements. */
  function Levenshtein(a: string, b: string): nat
    decreases |a| + |b|
  {
    if a == "" then |b|
    else if b == "" then |a|
    else
      var replace := (if a[0] != b[0] then 1 else 0) + Levenshtein(a[1..], b[1..]);
      var delete := 1 + Levenshtein(a[1..], b);
      var insert := 1 + Levenshtein(a, b[1..]);
      Min(replace, Min(delete, insert))
  }

  function Min(x: nat, y: nat): nat { if x < y then x else y }

  lemma {:induction false} ZeroWhenEqual(a: string, b: string)
    ensures Distance(a, b) == 0 <==> a == b
  {
    if a != "" && b != "" {
      ZeroWhenEqual(a[1..], b[1..]);
      assert a == [a[0]] + a[1..] && b == [b[0]] + b[1..];
    }
  }

  lemma {:induction false} Symmetric(a: string, b: string)
    ensures Distance(a, b) == Distance(b, a)
  {
    if a != "" && b != "" { Symmetric(a[1..], b[1..]); }
  }

  lemma {:induction false} AtMostLonger(a: string, b: string)
    ensures Distance(a, b) <= if |a| >= |b| then |a| else |b|
  {
    if a != "" && b != "" { AtMostLonger(a[1..], b[1..]); }
  }

  /** The triangle inequality, whatever the three lengths. */
  lemma {:induction false} Triangle(a: string, b: string, c: string)
    ensures Distance(a, c) <= Distance(a, b) + Distance(b, c)
  {
    if a == "" || b == "" || c == "" {
      AtMostLonger(a, c);
    } else {
      Triangle(a[1..], b[1..], c[1..]);
    }
  }

  /** Replacing position by position is one way to edit, not the shortest. */
  lemma {:induction false} AtLeastLevenshtein(a: string, b: string)
    ensures Levenshtein(a, b) <= Distance(a, b)
  {
    if a != "" && b != "" { AtLeastLevenshtein(a[1..], b[1..]); }
  }

  predicate Differ(a: string, b: string, k: nat) { k < |a| && k < |b| && a[k] != b[k] }

  function Differing(a: string, b: string): set<nat> { set k: nat | k < |a| && Differ(a, b, k) }

  lemma DifferingRest(a: string, b: string)
    requires a != "" && b != ""
    ensures |Differing(a, b)| == (if a[0] != b[0] then 1 else 0) + |Differing(a[1..], b[1..])|
  {
    var rest := Differing(a[1..], b[1..]);
    var moved := set k | k in rest :: k + 1;
    assert Differing(a, b) == moved + if a[0] != b[0] then {0} else {} by {
      forall k | k in Differing(a, b) && k > 0 ensures k in moved { assert k - 1 in rest; }
    }
    ShiftedSize(rest, moved);
  }

  lemma {:induction false} ShiftedSize(s: set<nat>, moved: set<nat>)
    requires moved == set k | k in s :: k + 1
    ensures |moved| == |s|
    decreases |s|
  {
    if s != {} {
      var k :| k in s;
      var others := set m | m in s - {k} :: m + 1;
      forall x | x in moved - {k + 1} ensures x in others {
        var m :| m in s && m + 1 == x;
        assert m in s - {k};
      }
      assert moved == others + {k + 1};
      ShiftedSize(s - {k}, others);
    }
  }

  /** Exactly: the positions at which both texts have a character and these differ, and
      one for each character by which one text is longer. */
  lemma {:induction false} CountsPositions(a: string, b: string)
    ensures Distance(a, b) == |Differing(a, b)| + if |a| >= |b| then |a| - |b| else |b| - |a|
  {
    if a == "" || b == "" {
      assert Differing(a, b) == {};
    } else {
      CountsPositions(a[1..], b[1..]);
      DifferingRest(a, b);
    }
  }

  /** So replacing one character or adding one at the end costs one. */
  lemma SingleChange(a: string, k: nat, c: char)
    requires k < |a|
    ensures Distance(a, a[k := c]) == if c == a[k] then 0 else 1
    ensures Distance(a, a + [c]) == 1
  {
    CountsPositions(a, a[k := c]);
    CountsPositions(a, a + [c]);
    assert Differing(a, a[k := c]) == if c == a[k] then {} else {k};
    assert Differing(a, a + [c]) == {};
  }
}
