/** The two string tests the status components use:
    `string.IsNullOrWhiteSpace` and `Contains(value, StringComparison.OrdinalIgnoreCase)`. */
module Text {
  import opened Values

  /** `char.IsWhiteSpace`: the Unicode White_Space characters. */
  predicate IsWhiteSpace(c: char)
    // among ASCII characters: space, tab, line feed, vertical tab, form feed and carriage return
    ensures c as int < 0x80 ==> (IsWhiteSpace(c) <==> c in {' ', '\t', '\n', '\U{B}', '\U{C}', '\r'})
    // letters are never white space
    ensures IsWhiteSpace(c) ==> FoldCase(c) == c
  {
    var n := c as int;
    (0x09 <= n <= 0x0D) || n == 0x20 || n == 0x85 || n == 0xA0 || n == 0x1680
    || (0x2000 <= n <= 0x200A) || n == 0x2028 || n == 0x2029 || n == 0x202F
    || n == 0x205F || n == 0x3000
  }

  /** Every character of s is white space (vacuously so for ""). */
  function AllWhiteSpace(s: string): (r: bool)
    ensures r <==> forall i :: 0 <= i < |s| ==> IsWhiteSpace(s[i])
  {
    if s == [] then true
    else if !IsWhiteSpace(s[0]) then false
    else
      var rest := AllWhiteSpace(s[1..]);
      assert forall i :: 1 <= i < |s| ==> s[i] == s[1..][i - 1];
      rest
  }

  /** `string.IsNullOrWhiteSpace(s)`. */
  function IsNullOrWhiteSpace(s: Option<string>): (r: bool)
    ensures r <==> s.None? || forall i :: 0 <= i < |s.value| ==> IsWhiteSpace(s.value[i])
  {
    match s
    case None => true
    case Some(str) => AllWhiteSpace(str)
  }

  /** Upper-case folding of the ASCII letters. */
  function FoldCase(c: char): char {
    if 'a' <= c <= 'z' then (c as int - 32) as char else c
  }

  /** a and b are equal under ordinal case-insensitive comparison. */
  predicate EqualsIgnoreCase(a: string, b: string) {
    |a| == |b| && forall i :: 0 <= i < |a| ==> FoldCase(a[i]) == FoldCase(b[i])
  }

  /** The slice of s starting at i matches p, ignoring case. */
  predicate MatchesAt(s: string, p: string, i: int)
    requires 0 <= i && i + |p| <= |s|
  {
    EqualsIgnoreCase(s[i..i + |p|], p)
  }

  /** `s.Contains(p, StringComparison.OrdinalIgnoreCase)`: some slice of s matches p. */
  function ContainsIgnoreCase(s: string, p: string): (r: bool)
    ensures r <==> exists i :: 0 <= i && i + |p| <= |s| && MatchesAt(s, p, i)
  {
    if |s| < |p| then false
    else if MatchesAt(s, p, 0) then true
    else
      var rest := ContainsIgnoreCase(s[1..], p);
      MatchesInTail(s, p);
      rest
  }

  /** A match in s at a position past the first is a match in s[1..] one position earlier. */
  lemma MatchesInTail(s: string, p: string)
    requires |s| > 0
    ensures forall i :: 1 <= i && i + |p| <= |s| ==> (MatchesAt(s, p, i) <==> MatchesAt(s[1..], p, i - 1))
    ensures (exists j :: 0 <= j && j + |p| <= |s[1..]| && MatchesAt(s[1..], p, j))
            <==> (exists i :: 1 <= i && i + |p| <= |s| && MatchesAt(s, p, i))
  {
    forall i | 1 <= i && i + |p| <= |s|
      ensures MatchesAt(s, p, i) <==> MatchesAt(s[1..], p, i - 1)
    {
      var a, b := s[i..i + |p|], s[1..][i - 1..i - 1 + |p|];
      assert |a| == |b|;
      forall j | 0 <= j < |a| ensures a[j] == b[j] {
        assert a[j] == s[i + j] && b[j] == s[1..][i - 1 + j];
      }
      assert a == b;
    }
    if j :| 0 <= j && j + |p| <= |s[1..]| && MatchesAt(s[1..], p, j) {
      assert MatchesAt(s, p, j + 1);
    }
  }

  /** The letter case of the message never matters to the test. */
  lemma {:induction false} ContainsIgnoresCase(s: string, t: string, p: string)
    requires |s| == |t| && forall i :: 0 <= i < |s| ==> FoldCase(s[i]) == FoldCase(t[i])
    ensures ContainsIgnoreCase(s, p) == ContainsIgnoreCase(t, p)
  {
    forall i | 0 <= i && i + |p| <= |s|
      ensures MatchesAt(s, p, i) == MatchesAt(t, p, i)
    {
      var a, b := s[i..i + |p|], t[i..i + |p|];
      forall j | 0 <= j < |p| ensures FoldCase(a[j]) == FoldCase(b[j]) {
        assert a[j] == s[i + j] && b[j] == t[i + j];
      }
    }
  }
}
