/** The string operations the three components use: Python's `strip`,
    `lstrip`, `rstrip` with a set of characters, `lower`, and the decimal
    text SQLite stores for an integer bound into a TEXT column. */
module Text {

  /** The characters Python's `str.strip()` removes when given no argument
      (those for which `str.isspace()` holds). */
  const Whitespace: set<char> := {
    '\U{9}', '\U{A}', '\U{B}', '\U{C}', '\U{D}', '\U{1C}', '\U{1D}', '\U{1E}',
    '\U{1F}', '\U{20}', '\U{85}', '\U{A0}', '\U{1680}', '\U{2000}', '\U{2001}', '\U{2002}',
    '\U{2003}', '\U{2004}', '\U{2005}', '\U{2006}', '\U{2007}', '\U{2008}', '\U{2009}', '\U{200A}',
    '\U{2028}', '\U{2029}', '\U{202F}', '\U{205F}', '\U{3000}'
  }

  /** `s.lstrip(cs)`: drops every leading character that is in `cs`. */
  function TrimStart(s: string, cs: set<char>): (r: string)
    ensures |r| <= |s| && r == s[|s| - |r|..]
    ensures r == [] || r[0] !in cs
    ensures forall i :: 0 <= i < |s| - |r| ==> s[i] in cs
  {
    if s != [] && s[0] in cs then TrimStart(s[1..], cs) else s
  }

  /** `s.rstrip(cs)`: drops every trailing character that is in `cs`. */
  function TrimEnd(s: string, cs: set<char>): (r: string)
    ensures |r| <= |s| && r == s[..|r|]
    ensures r == [] || r[|r| - 1] !in cs
    ensures forall i :: |r| <= i < |s| ==> s[i] in cs
  {
    if s != [] && s[|s| - 1] in cs then TrimEnd(s[..|s| - 1], cs) else s
  }

  /** `s.strip(cs)`: drops the leading and the trailing characters in `cs`. */
  function Trim(s: string, cs: set<char>): (r: string)
    ensures |r| <= |s|
    ensures r == [] || (r[0] !in cs && r[|r| - 1] !in cs)
  {
    TrimEnd(TrimStart(s, cs), cs)
  }

  /** TrimStart removes exactly the longest prefix made of `cs`: whatever
      prefix of `cs` characters is put in front of a string that does not
      start with one, TrimStart gives back that string. */
  lemma {:induction false} TrimStartUnique(p: string, r: string, cs: set<char>)
    requires forall i :: 0 <= i < |p| ==> p[i] in cs
    requires r == [] || r[0] !in cs
    ensures TrimStart(p + r, cs) == r
  {
    if p != [] {
      assert (p + r)[1..] == p[1..] + r;
      TrimStartUnique(p[1..], r, cs);
    } else {
      assert p + r == r;
    }
  }

  /** The mirror image of TrimStartUnique for TrimEnd. */
  lemma {:induction false} TrimEndUnique(r: string, q: string, cs: set<char>)
    requires forall i :: 0 <= i < |q| ==> q[i] in cs
    requires r == [] || r[|r| - 1] !in cs
    ensures TrimEnd(r + q, cs) == r
  {
    if q != [] {
      assert (r + q)[..|r + q| - 1] == r + q[..|q| - 1];
      TrimEndUnique(r, q[..|q| - 1], cs);
    } else {
      assert r + q == r;
    }
  }

  /** Trim removes exactly the `cs` characters around the text: for any
      text that neither starts nor ends with one of them, wrapped in any runs
      of them, Trim gives back that text. */
  lemma TrimUnique(p: string, r: string, q: string, cs: set<char>)
    requires forall i :: 0 <= i < |p| ==> p[i] in cs
    requires forall i :: 0 <= i < |q| ==> q[i] in cs
    requires r == [] || (r[0] !in cs && r[|r| - 1] !in cs)
    ensures Trim(p + r + q, cs) == r
  {
    if r == [] {
      assert p + r + q == p + q;
      TrimStartUnique(p + q, [], cs);
      assert p + q + [] == p + q;
    } else {
      assert p + r + q == p + (r + q);
      TrimStartUnique(p, r + q, cs);
      TrimEndUnique(r, q, cs);
    }
  }

  /** Python's `c.lower()` on ASCII letters; every other character is kept. */
  function LowerChar(c: char): char {
    if 'A' <= c <= 'Z' then (c as int - 'A' as int + 'a' as int) as char else c
  }

  /** `s.lower()`, character by character. */
  function Lower(s: string): (r: string)
    ensures |r| == |s|
    ensures forall i :: 0 <= i < |s| ==> r[i] == LowerChar(s[i])
  {
    seq(|s|, i requires 0 <= i < |s| => LowerChar(s[i]))
  }

  /** The text of a natural number in base ten, without leading zeros. */
  function NatText(n: nat): (r: string)
    ensures r != []
    ensures forall i :: 0 <= i < |r| ==> '0' <= r[i] <= '9'
  {
    if n < 10 then [('0' as int + n) as char]
    else NatText(n / 10) + [('0' as int + n % 10) as char]
  }

  /** The text SQLite stores when an integer is bound into a TEXT column. */
  function IntText(n: int): string {
    if n < 0 then "-" + NatText(-n) else NatText(n)
  }
}
