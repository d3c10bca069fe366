/** The three JavaScript string primitives the survey's validation rests on:
    `String.prototype.trim`, the `length` of a string and the regular expression
    `/\S+@\S+\.\S+/`. JavaScript strings are sequences of UTF-16 code units; here a
    string is a sequence of Unicode scalar values, and `length` is recomputed in
    code units by Utf16Length. */
module JsText {

  /** ECMAScript's WhiteSpace and LineTerminator code points. This is both the set
      that `trim` removes from either end and the set that `\s` matches (so `\S`
      is its complement). Within ASCII these are the space and the five
      control characters TAB to CR; '@' and '.' are never whitespace. */
  predicate IsWs(c: char)
    ensures c as int < 0x80 ==> (IsWs(c) <==> c == ' ' || '\t' <= c <= '\r')
    ensures IsWs(c) ==> c != '@' && c != '.'
  {
    var n := c as int;
    n == 0x09 || n == 0x0A || n == 0x0B || n == 0x0C || n == 0x0D || n == 0x20
    || n == 0xA0 || n == 0x1680 || (0x2000 <= n <= 0x200A)
    || n == 0x2028 || n == 0x2029 || n == 0x202F || n == 0x205F
    || n == 0x3000 || n == 0xFEFF
  }

  /** Every character of s is whitespace (vacuously so for ""). */
  predicate AllWs(s: string)
  {
    forall i :: 0 <= i < |s| ==> IsWs(s[i])
  }

  /** No character of s is whitespace. */
  predicate NoWs(s: string)
  {
    forall i :: 0 <= i < |s| ==> !IsWs(s[i])
  }

  /** s without its leading whitespace (see TrimStartSpec). */
  function TrimStart(s: string): (r: string)
    ensures |r| <= |s|
    ensures r == [] || !IsWs(r[0])
  {
    if s == [] || !IsWs(s[0]) then s else TrimStart(s[1..])
  }

  /** TrimStart(s) is a suffix of s, preceded only by whitespace, that is empty
      or starts with a non-whitespace character. */
  lemma {:induction false} TrimStartSpec(s: string)
    ensures var r := TrimStart(s);
      && r == s[|s| - |r|..]
      && (forall i :: 0 <= i < |s| - |r| ==> IsWs(s[i]))
      && (r == [] || !IsWs(r[0]))
  {
    if s != [] && IsWs(s[0]) {
      var t := s[1..];
      TrimStartSpec(t);
      var r := TrimStart(t);
      assert t[|t| - |r|..] == s[|s| - |r|..];
      forall i | 0 <= i < |s| - |r|
        ensures IsWs(s[i])
      {
        if i > 0 {
          assert s[i] == t[i - 1];
        }
      }
    }
  }

  /** s without its trailing whitespace (see TrimEndSpec). */
  function TrimEnd(s: string): (r: string)
    ensures |r| <= |s|
    ensures r == [] || !IsWs(r[|r| - 1])
  {
    if s == [] || !IsWs(s[|s| - 1]) then s else TrimEnd(s[..|s| - 1])
  }

  /** TrimEnd(s) is a prefix of s, followed only by whitespace, that is empty or
      ends with a non-whitespace character. */
  lemma {:induction false} TrimEndSpec(s: string)
    ensures var r := TrimEnd(s);
      && r == s[..|r|]
      && (forall i :: |r| <= i < |s| ==> IsWs(s[i]))
      && (r == [] || !IsWs(r[|r| - 1]))
  {
    if s != [] && IsWs(s[|s| - 1]) {
      TrimEndSpec(s[..|s| - 1]);
    }
  }

  /** `s.trim()`: whitespace removed from both ends. */
  function Trim(s: string): (r: string)
    ensures |r| <= |s|
    ensures r == [] || !IsWs(r[|r| - 1])
  {
    TrimEnd(TrimStart(s))
  }

  /** The trimmed string is empty exactly when s is all whitespace, which is how
      the validation's `!s.trim()` tests are read; otherwise it starts and ends
      with a non-whitespace character. */
  lemma TrimSpec(s: string)
    ensures Trim(s) == [] <==> AllWs(s)
    ensures Trim(s) == [] || (!IsWs(Trim(s)[0]) && !IsWs(Trim(s)[|Trim(s)| - 1]))
  {
    var t := TrimStart(s);
    TrimStartSpec(s);
    TrimEndSpec(t);
    if t != [] {
      assert !IsWs(t[0]) && TrimEnd(t) != [];
    }
  }

  /** `!s.trim()`: s trims to the empty string, that is, it is all whitespace. */
  predicate Blank(s: string)
    ensures Blank(s) <==> AllWs(s)
  {
    TrimSpec(s);
    Trim(s) == ""
  }

  /** The number of UTF-16 code units of s, which is what `s.length` counts:
      characters outside the Basic Multilingual Plane take two. */
  function Utf16Length(s: string): (n: nat)
    ensures |s| <= n <= 2 * |s|
  {
    if s == [] then 0
    else Utf16Length(s[1..]) + (if s[0] as int >= 0x1_0000 then 2 else 1)
  }

  lemma {:induction false} Utf16LengthOfBmp(s: string)
    requires forall i :: 0 <= i < |s| ==> s[i] as int < 0x1_0000
    ensures Utf16Length(s) == |s|
  {
    if s != [] {
      assert forall i :: 0 <= i < |s[1..]| ==> s[1..][i] == s[i + 1];
      Utf16LengthOfBmp(s[1..]);
    }
  }

  /** One match of `\S+@\S+\.\S+` around an '@' at index a and a '.' at index b:
      a non-whitespace character right before the '@', at least one
      non-whitespace character strictly between the two, and a non-whitespace
      character right after the '.'. The longer runs the `+` could take are not
      needed for a match, so one character on each outer side suffices. */
  predicate EmailMatchAt(s: string, a: int, b: int)
  {
    0 < a && a + 2 <= b && b + 1 < |s|
    && s[a] == '@' && !IsWs(s[a - 1])
    && (forall i :: a < i < b ==> !IsWs(s[i]))
    && s[b] == '.' && !IsWs(s[b + 1])
  }

  /** `/\S+@\S+\.\S+/.test(s)`. The pattern is not anchored, so a match anywhere
      in s is enough. */
  predicate EmailPattern(s: string)
    ensures EmailPattern(s) ==> |s| >= 5
  {
    exists a, b | 0 < a < |s| && 0 < b < |s| :: EmailMatchAt(s, a, b)
  }

  /** Every address of the shape local@domain.tld, with three non-empty parts
      free of whitespace, matches. */
  lemma EmailShapeMatches(local: string, domain: string, tld: string)
    requires |local| > 0 && |domain| > 0 && |tld| > 0
    requires NoWs(local) && NoWs(domain) && NoWs(tld)
    ensures EmailPattern(local + "@" + domain + "." + tld)
  {
    var s := local + "@" + domain + "." + tld;
    var a, b := |local|, |local| + 1 + |domain|;
    assert s[a - 1] == local[a - 1];
    forall i | a < i < b
      ensures !IsWs(s[i])
    {
      assert s[i] == domain[i - a - 1];
    }
    assert s[b + 1] == tld[0];
    assert EmailMatchAt(s, a, b);
  }

  /** A string without an '@' never matches. */
  lemma EmailNeedsAt(s: string)
    requires forall i :: 0 <= i < |s| ==> s[i] != '@'
    ensures !EmailPattern(s)
  {
  }

  /** A string with no '.' after any of its '@'s never matches. */
  lemma EmailNeedsDotAfterAt(s: string)
    requires forall i, j :: 0 <= i < j < |s| && s[i] == '@' ==> s[j] != '.'
    ensures !EmailPattern(s)
  {
  }

  /** Because the pattern is unanchored, anything may surround a matching
      string, leading and trailing whitespace included. */
  lemma EmailPatternPadded(prefix: string, s: string, suffix: string)
    requires EmailPattern(s)
    ensures EmailPattern(prefix + s + suffix)
  {
    var a, b :| 0 < a < |s| && 0 < b < |s| && EmailMatchAt(s, a, b);
    var t := prefix + s + suffix;
    var k := |prefix|;
    assert forall i :: 0 <= i < |s| ==> t[k + i] == s[i];
    assert EmailMatchAt(t, k + a, k + b);
  }

  /** `s.trim()` is the stretch of s that starts after a whitespace-only
      prefix of length k and is followed only by whitespace. */
  lemma TrimSplits(s: string) returns (k: nat)
    ensures k + |Trim(s)| <= |s|
    ensures Trim(s) == s[k..k + |Trim(s)|]
    ensures forall i :: 0 <= i < k ==> IsWs(s[i])
    ensures forall i :: k + |Trim(s)| <= i < |s| ==> IsWs(s[i])
  {
    var t := TrimStart(s);
    var r := TrimEnd(t);
    TrimStartSpec(s);
    TrimEndSpec(t);
    k := |s| - |t|;
    assert Trim(s) == r;
    PrefixOfSuffix(s, t, |r|);
    WsTailOfSuffix(s, t, |r|);
  }

  /** The first n characters of a suffix t of s, located in s. */
  lemma PrefixOfSuffix(s: string, t: string, n: nat)
    requires |t| <= |s| && t == s[|s| - |t|..] && n <= |t|
    ensures t[..n] == s[|s| - |t|..|s| - |t| + n]
  {
  }

  /** Whitespace at the end of a suffix t of s is whitespace at the end of s. */
  lemma WsTailOfSuffix(s: string, t: string, n: nat)
    requires |t| <= |s| && t == s[|s| - |t|..] && n <= |t|
    requires forall i :: n <= i < |t| ==> IsWs(t[i])
    ensures forall i :: |s| - |t| + n <= i < |s| ==> IsWs(s[i])
  {
    forall i | |s| - |t| + n <= i < |s|
      ensures IsWs(s[i])
    {
      assert s[i] == t[i - (|s| - |t|)];
    }
  }

  /** The pattern gives the same answer on an address and on its trimmed form:
      every character of a match is non-whitespace or lies between two
      non-whitespace characters, so no match reaches into leading or trailing
      whitespace. */
  lemma EmailPatternIgnoresTrim(s: string)
    ensures EmailPattern(Trim(s)) <==> EmailPattern(s)
  {
    var r := Trim(s);
    var k := TrimSplits(s);
    if EmailPattern(r) {
      assert s == s[..k] + r + s[k + |r|..];
      EmailPatternPadded(s[..k], r, s[k + |r|..]);
    }
    if EmailPattern(s) {
      var a, b :| 0 < a < |s| && 0 < b < |s| && EmailMatchAt(s, a, b);
      assert k <= a - 1;
      assert b + 1 < k + |r|;
      assert forall i :: 0 <= i < |r| ==> r[i] == s[k + i];
      assert EmailMatchAt(r, a - k, b - k);
    }
  }
}
