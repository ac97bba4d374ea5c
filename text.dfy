/** The JavaScript string operations the dashboard relies on:
    String.prototype.trim, startsWith, slice, split(sep)[0] and the decimal
    rendering of Number.prototype.toString for the clock's readings. */
module Text {

  /** The WhiteSpace and LineTerminator code points of ECMAScript, which
      trim removes from both ends. */
  const WhiteSpaceChars: set<char> := {
    ' ', '\t', '\n', '\r', '\U{000B}', '\U{000C}', '\U{00A0}', '\U{1680}',
    '\U{2000}', '\U{2001}', '\U{2002}', '\U{2003}', '\U{2004}', '\U{2005}',
    '\U{2006}', '\U{2007}', '\U{2008}', '\U{2009}', '\U{200A}',
    '\U{2028}', '\U{2029}', '\U{202F}', '\U{205F}', '\U{3000}', '\U{FEFF}'
  }

  predicate IsWhiteSpace(c: char) {
    c in WhiteSpaceChars
  }

  predicate AllWhiteSpace(s: string) {
    forall i :: 0 <= i < |s| ==> IsWhiteSpace(s[i])
  }

  /** s without its leading white space. */
  function TrimStart(s: string): string {
    if |s| > 0 && IsWhiteSpace(s[0]) then TrimStart(s[1..]) else s
  }

  /** s without its trailing white space. */
  function TrimEnd(s: string): string {
    if |s| > 0 && IsWhiteSpace(s[|s| - 1]) then TrimEnd(s[..|s| - 1]) else s
  }

  /** String.prototype.trim. */
  function Trim(s: string): string {
    TrimEnd(TrimStart(s))
  }

  /** TrimStart removes a white-space prefix and stops at the first other
      character. */
  lemma {:induction false} TrimStartFacts(s: string)
    ensures var r := TrimStart(s);
      && |r| <= |s| && r == s[|s| - |r|..]
      && AllWhiteSpace(s[..|s| - |r|])
      && (r == [] || !IsWhiteSpace(r[0]))
  {
    if |s| > 0 && IsWhiteSpace(s[0]) {
      TrimStartFacts(s[1..]);
      var r := TrimStart(s[1..]);
      var k := |s| - 1 - |r|;
      assert s[1..][k..] == s[|s| - |r|..];
      assert s[..|s| - |r|] == [s[0]] + s[1..][..k];
      AllWhiteSpaceJoin([s[0]], s[1..][..k]);
    } else {
      assert s[..0] == [];
    }
  }

  /** TrimEnd removes a white-space suffix and stops at the last other
      character. */
  lemma {:induction false} TrimEndFacts(s: string)
    ensures var r := TrimEnd(s);
      && |r| <= |s| && r == s[..|r|]
      && AllWhiteSpace(s[|r|..])
      && (r == [] || !IsWhiteSpace(r[|r| - 1]))
  {
    if |s| > 0 && IsWhiteSpace(s[|s| - 1]) {
      var init := s[..|s| - 1];
      TrimEndFacts(init);
      var r := TrimEnd(init);
      assert init[..|r|] == s[..|r|];
      assert s[|r|..] == init[|r|..] + [s[|s| - 1]];
      AllWhiteSpaceJoin(init[|r|..], [s[|s| - 1]]);
    } else {
      assert s[|s|..] == [];
    }
  }

  /** trim yields the slice of s between a white-space prefix and a
      white-space suffix, with no white space at either end; it is empty
      exactly when s is all white space. */
  lemma TrimFacts(s: string)
    ensures var r := Trim(s); var a := |s| - |TrimStart(s)|;
      && 0 <= a && a + |r| <= |s| && r == s[a..a + |r|]
      && AllWhiteSpace(s[..a]) && AllWhiteSpace(s[a + |r|..])
      && (r == [] || (!IsWhiteSpace(r[0]) && !IsWhiteSpace(r[|r| - 1])))
      && (r == [] <==> AllWhiteSpace(s))
  {
    var t := TrimStart(s);
    var r := TrimEnd(t);
    assert Trim(s) == r;
    TrimStartFacts(s);
    TrimEndFacts(t);
    TrimSliceOf(s, t, r);
  }

  /** The slice facts, for a suffix t of s after a white-space prefix and a
      prefix r of t before a white-space suffix. */
  lemma TrimSliceOf(s: string, t: string, r: string)
    requires |t| <= |s| && t == s[|s| - |t|..] && AllWhiteSpace(s[..|s| - |t|])
    requires |r| <= |t| && r == t[..|r|] && AllWhiteSpace(t[|r|..])
    requires r == [] || !IsWhiteSpace(r[0])
    ensures var a := |s| - |t|;
      && r == s[a..a + |r|] && AllWhiteSpace(s[a + |r|..])
      && (r == [] <==> AllWhiteSpace(s))
  {
    var a := |s| - |t|;
    assert s[a + |r|..] == t[|r|..];
    if r == [] {
      assert t[|r|..] == t;
      AllWhiteSpaceJoin(s[..a], t);
      assert s[..a] + t == s;
    } else {
      assert s[a] == r[0];
    }
  }

  lemma AllWhiteSpaceJoin(u: string, v: string)
    requires AllWhiteSpace(u) && AllWhiteSpace(v)
    ensures AllWhiteSpace(u + v)
  {
    forall i | 0 <= i < |u + v| ensures IsWhiteSpace((u + v)[i]) {
      if i >= |u| {
        assert (u + v)[i] == v[i - |u|];
      } else {
        assert (u + v)[i] == u[i];
      }
    }
  }

  /** Trimming twice is trimming once. */
  lemma TrimIdempotent(s: string)
    ensures Trim(Trim(s)) == Trim(s)
  {
    var r := Trim(s);
    TrimFacts(s);
    if r != [] {
      assert TrimStart(r) == r;
      assert TrimEnd(r) == r;
    }
  }

  predicate StartsWith(s: string, prefix: string) {
    |prefix| <= |s| && s[..|prefix|] == prefix
  }

  /** A fixed prefix can be cancelled: distinct suffixes give distinct keys. */
  lemma PrefixCancel(p: string, a: string, b: string)
    requires p + a == p + b
    ensures a == b
  {
    assert a == (p + a)[|p|..];
    assert b == (p + b)[|p|..];
  }

  /** s.slice(0, n) for n >= 0. */
  function Take(s: string, n: nat): (r: string)
    ensures |r| == if |s| < n then |s| else n
    ensures r == s[..|r|]
  {
    if |s| <= n then s else s[..n]
  }

  /** s.split(sep)[0]: the text before the first sep, or all of s. */
  function BeforeFirst(s: string, sep: char): (r: string)
    ensures |r| <= |s| && r == s[..|r|]
    ensures sep !in r
    ensures |r| < |s| ==> s[|r|] == sep
  {
    if s == [] || s[0] == sep then []
    else [s[0]] + BeforeFirst(s[1..], sep)
  }

  predicate IsDigit(c: char) {
    '0' <= c <= '9'
  }

  function DigitChar(d: nat): (c: char)
    requires d < 10
    ensures IsDigit(c)
  {
    (48 + d) as char
  }

  /** (n).toString() for a non-negative integer: its decimal digits. */
  function DecimalString(n: nat): (r: string)
    ensures |r| > 0 && forall i :: 0 <= i < |r| ==> IsDigit(r[i])
    ensures n >= 10 ==> |r| >= 2
  {
    if n < 10 then [DigitChar(n)] else DecimalString(n / 10) + [DigitChar(n % 10)]
  }

  /** Different clock readings render as different ids. */
  lemma {:induction false} DecimalStringInjective(a: nat, b: nat)
    requires DecimalString(a) == DecimalString(b)
    ensures a == b
  {
    if a >= 10 && b >= 10 {
      var da, db := DecimalString(a), DecimalString(b);
      assert da[|da| - 1] == DigitChar(a % 10);
      assert db[|db| - 1] == DigitChar(b % 10);
      assert DecimalString(a / 10) == da[..|da| - 1];
      assert DecimalString(b / 10) == db[..|db| - 1];
      DecimalStringInjective(a / 10, b / 10);
    } else if a < 10 && b < 10 {
      assert DecimalString(a)[0] == DigitChar(a);
    }
  }
}
