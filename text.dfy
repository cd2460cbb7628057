/**
 * Character-level helpers shared by the string-handling parts of the
 * library: `std::to_string` of an integer, and the whitespace set of
 * `std::isspace` in the "C" locale.
 */
module Text {
  import opened Numerics

  /** `std::isspace` in the "C" locale. */
  predicate IsSpace(c: char)
  {
    c == ' ' || c == '\t' || c == '\n' || c == '\r' || c == '\U{B}' || c == '\U{C}'
  }

  predicate IsDigit(c: char)
  {
    '0' <= c <= '9'
  }

  /** The decimal digits of `n`, most significant first, with no leading zero. */
  function NatToString(n: nat): (s: string)
    ensures |s| > 0 && (forall i :: 0 <= i < |s| ==> IsDigit(s[i]))
    ensures |s| > 1 ==> s[0] != '0'
    decreases n
  {
    if n < 10 then [DigitChar(n)] else NatToString(n / 10) + [DigitChar(n % 10)]
  }

  function DigitChar(d: nat): (c: char)
    requires d < 10
    ensures IsDigit(c) && DigitValue(c) == d
  {
    (d + '0' as int) as char
  }

  function DigitValue(c: char): nat
    requires IsDigit(c)
  {
    (c as int - '0' as int)
  }

  /** The number a string of decimal digits spells. */
  function DecimalValue(s: string): nat
    requires forall i :: 0 <= i < |s| ==> IsDigit(s[i])
  {
    if s == [] then 0 else 10 * DecimalValue(s[..|s| - 1]) + DigitValue(s[|s| - 1])
  }

  /** Reading back the digits `NatToString` writes gives the number. */
  lemma {:induction false} NatToStringRoundTrip(n: nat)
    ensures DecimalValue(NatToString(n)) == n
    decreases n
  {
    if n >= 10 {
      NatToStringRoundTrip(n / 10);
      var s := NatToString(n);
      assert s[..|s| - 1] == NatToString(n / 10);
    }
  }

  /** Different numbers are written differently. */
  lemma NatToStringInjective(a: nat, b: nat)
    requires NatToString(a) == NatToString(b)
    ensures a == b
  {
    NatToStringRoundTrip(a);
    NatToStringRoundTrip(b);
  }

  /** `std::to_string` of an `int`: a minus sign before the digits of a negative number. */
  function IntToString(i: int): (s: string)
    ensures |s| > 0
    ensures s[0] == '-' <==> i < 0
    ensures i < 0 ==> s[1..] == NatToString(-i)
    ensures 0 <= i ==> s == NatToString(i)
  {
    if i < 0 then "-" + NatToString(-i) else NatToString(i)
  }

  /** `s` starts with `prefix` (`s.find(prefix) == 0`, `s.rfind(prefix, 0) == 0`). */
  predicate StartsWith(s: string, prefix: string)
  {
    |prefix| <= |s| && s[..|prefix|] == prefix
  }

  /** `pat` occurs in `s` at position `k`. */
  predicate OccursAt(s: string, pat: string, k: nat)
  {
    k + |pat| <= |s| && s[k..k + |pat|] == pat
  }

  /**
   * `s.find(pat, from)`: the first position at or after `from` where `pat`
   * occurs; `None` stands for `std::string::npos`.
   */
  function FindFrom(s: string, pat: string, from: nat): (r: Option<nat>)
    ensures r.Some? ==> from <= r.value && OccursAt(s, pat, r.value)
    ensures forall k :: from <= k && (r.None? || k < r.value) ==> !OccursAt(s, pat, k)
    decreases |s| - from
  {
    if |s| < from + |pat| then None
    else if OccursAt(s, pat, from) then Some(from)
    else FindFrom(s, pat, from + 1)
  }

  /** A pattern holding a character that `s` lacks is not found in `s`. */
  lemma AbsentCharNotFound(s: string, pat: string, from: nat, i: nat)
    requires i < |pat| && forall k :: 0 <= k < |s| ==> s[k] != pat[i]
    ensures FindFrom(s, pat, from) == None
  {
    forall k: nat
      ensures !OccursAt(s, pat, k)
    {
      if k + |pat| <= |s| {
        assert s[k..k + |pat|][i] == s[k + i];
      }
    }
  }

  /** `s.find(pat) != npos`. */
  predicate Contains(s: string, pat: string)
  {
    FindFrom(s, pat, 0).Some?
  }

  /** The characters `std::string::find_first_not_of(" \t")` skips. */
  const Blanks: set<char> := {' ', '\t'}

  /**
   * The characters Python's `str.strip()` removes: those `str.isspace()`
   * accepts (the ASCII controls 0x09-0x0D and 0x1C-0x1F, the space, NEL,
   * no-break space and the Unicode space separators).
   */
  const Whitespace: set<char> := {
    '\t', '\n', '\U{B}', '\U{C}', '\r', '\U{1C}', '\U{1D}', '\U{1E}', '\U{1F}', ' ', '\U{85}', '\U{A0}',
    '\U{1680}', '\U{2000}', '\U{2001}', '\U{2002}', '\U{2003}', '\U{2004}', '\U{2005}', '\U{2006}',
    '\U{2007}', '\U{2008}', '\U{2009}', '\U{200A}', '\U{2028}', '\U{2029}', '\U{202F}', '\U{205F}',
    '\U{3000}'}

  /** The length of the longest prefix of `s` made of characters in `cs`. */
  function LeadingIn(s: string, cs: set<char>): (k: nat)
    ensures k <= |s|
    ensures forall i :: 0 <= i < k ==> s[i] in cs
    ensures k < |s| ==> s[k] !in cs
  {
    if s == [] || s[0] !in cs then 0 else 1 + LeadingIn(s[1..], cs)
  }

  /** The end of `s` once the longest suffix of characters in `cs` is cut off. */
  function TrailingEnd(s: string, cs: set<char>): (e: nat)
    ensures e <= |s|
    ensures forall i :: e <= i < |s| ==> s[i] in cs
    ensures 0 < e ==> s[e - 1] !in cs
  {
    if s == [] || s[|s| - 1] !in cs then |s| else TrailingEnd(s[..|s| - 1], cs)
  }

  /** `s` with the characters of `cs` erased from both ends. */
  function Trim(s: string, cs: set<char>): (t: string)
    ensures |t| <= |s|
    ensures t != [] ==> t[0] !in cs && t[|t| - 1] !in cs
    ensures forall i :: 0 <= i < |s| && s[i] !in cs ==> t != []
  {
    var u := s[LeadingIn(s, cs)..];
    u[..TrailingEnd(u, cs)]
  }

  /** `s.replace(c, "")`: `s` with every `c` removed. */
  function Without(s: string, c: char): (r: string)
    ensures |r| <= |s|
    ensures forall i :: 0 <= i < |r| ==> r[i] != c
    ensures (forall i :: 0 <= i < |s| ==> s[i] != c) ==> r == s
  {
    if s == [] then [] else Without(s[..|s| - 1], c) + (if s[|s| - 1] == c then [] else [s[|s| - 1]])
  }

  /** Trimming leaves a string alone that has none of the trimmed characters. */
  lemma TrimUntouched(s: string, cs: set<char>)
    requires forall i :: 0 <= i < |s| ==> s[i] !in cs
    ensures Trim(s, cs) == s
  {
    assert LeadingIn(s, cs) == 0;
    assert s[0..] == s;
    assert TrailingEnd(s, cs) == |s|;
  }

  /** Erasing a character from a concatenation erases it from both halves. */
  lemma {:induction false} WithoutAppend(a: string, b: string, c: char)
    ensures Without(a + b, c) == Without(a, c) + Without(b, c)
    decreases |b|
  {
    if b == [] {
      assert a + b == a;
    } else {
      var b' := b[..|b| - 1];
      assert (a + b)[..|a + b| - 1] == a + b';
      WithoutAppend(a, b', c);
    }
  }

  /** Erasing the separator `c` from `a + [c] + b` joins the two halves when neither holds `c`. */
  lemma WithoutSeparator(a: string, b: string, c: char)
    requires forall i :: 0 <= i < |a| ==> a[i] != c
    requires forall i :: 0 <= i < |b| ==> b[i] != c
    ensures Without(a + [c] + b, c) == a + b
  {
    assert Without(a, c) == a;
    assert Without(b, c) == b;
    assert [c][..0] == [];
    assert Without([c], c) == [];
    WithoutAppend(a, [c], c);
    assert Without(a + [c], c) == a;
    WithoutAppend(a + [c], b, c);
  }

  /** The number of occurrences of `c` in `s`. */
  function CountOf(s: string, c: char): nat
  {
    if s == [] then 0 else CountOf(s[..|s| - 1], c) + (if s[|s| - 1] == c then 1 else 0)
  }

  lemma {:induction false} CountOfAppend(a: string, b: string, c: char)
    ensures CountOf(a + b, c) == CountOf(a, c) + CountOf(b, c)
    decreases |b|
  {
    if b == [] {
      assert a + b == a;
    } else {
      var b' := b[..|b| - 1];
      assert (a + b)[..|a + b| - 1] == a + b';
      CountOfAppend(a, b', c);
    }
  }

  lemma {:induction false} CountOfAbsent(s: string, c: char)
    requires forall i :: 0 <= i < |s| ==> s[i] != c
    ensures CountOf(s, c) == 0
  {
    if s != [] {
      CountOfAbsent(s[..|s| - 1], c);
    }
  }

  /** Python's `sep.join(parts)`: the parts with `sep` between neighbours. */
  function JoinWith(parts: seq<string>, sep: string): string
  {
    if parts == [] then []
    else if |parts| == 1 then parts[0]
    else JoinWith(parts[..|parts| - 1], sep) + sep + parts[|parts| - 1]
  }

  /**
   * Joining parts none of which holds the one-character separator `c` puts
   * exactly one `c` between each pair of neighbours.
   */
  lemma {:induction false} JoinWithCount(parts: seq<string>, c: char)
    requires parts != []
    requires forall k, i :: 0 <= k < |parts| && 0 <= i < |parts[k]| ==> parts[k][i] != c
    ensures CountOf(JoinWith(parts, [c]), c) == |parts| - 1
  {
    if |parts| == 1 {
      CountOfAbsent(parts[0], c);
    } else {
      var init := parts[..|parts| - 1];
      var last := parts[|parts| - 1];
      JoinWithCount(init, c);
      CountOfAppend(JoinWith(init, [c]) + [c], last, c);
      CountOfAppend(JoinWith(init, [c]), [c], c);
      CountOfAbsent(last, c);
      assert CountOf([c], c) == CountOf([], c) + 1;
    }
  }
}
