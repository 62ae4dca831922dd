/** String operations the app relies on: JavaScript `trim`, ASCII lower-casing,
    substring search (`includes` / Python `in`) and decimal rendering of naturals. */
module Strings {
  import opened Wrappers

  /** The characters JavaScript's `String.prototype.trim` removes:
      ECMAScript WhiteSpace and LineTerminator. */
  predicate IsSpace(c: char)
  {
    c == ' ' || c == '\t' || c == '\n' || c == '\U{B}' || c == '\U{C}' || c == '\r' ||
    c == '\U{A0}' || c == '\U{1680}' || ('\U{2000}' <= c <= '\U{200A}') ||
    c == '\U{2028}' || c == '\U{2029}' || c == '\U{202F}' || c == '\U{205F}' ||
    c == '\U{3000}' || c == '\U{FEFF}'
  }

  function TrimStart(s: string): (r: string)
    ensures |r| <= |s| && r == s[|s| - |r|..]
    ensures r == [] || !IsSpace(r[0])
    ensures forall i :: 0 <= i < |s| - |r| ==> IsSpace(s[i])
  {
    if |s| > 0 && IsSpace(s[0]) then TrimStart(s[1..]) else s
  }

  function TrimEnd(s: string): (r: string)
    ensures |r| <= |s| && r == s[..|r|]
    ensures r == [] || !IsSpace(r[|r| - 1])
    ensures forall i :: |r| <= i < |s| ==> IsSpace(s[i])
  {
    if |s| > 0 && IsSpace(s[|s| - 1]) then TrimEnd(s[..|s| - 1]) else s
  }

  /** JavaScript `s.trim()`. */
  function Trim(s: string): string
  {
    TrimEnd(TrimStart(s))
  }

  /** `trim` leaves exactly the part of `s` between its leading and trailing whitespace. */
  lemma TrimIsInnerPart(s: string)
    ensures exists i, j :: 0 <= i <= j <= |s| && Trim(s) == s[i..j]
    ensures Trim(s) == [] || (!IsSpace(Trim(s)[0]) && !IsSpace(Trim(s)[|Trim(s)| - 1]))
  {
    var t := TrimStart(s);
    var i := |s| - |t|;
    assert Trim(s) == s[i..i + |Trim(s)|];
    if Trim(s) != [] {
      assert Trim(s)[0] == t[0];
    }
  }

  /** A string trims to empty exactly when it consists of whitespace only. */
  lemma TrimEmptyIffBlank(s: string)
    ensures Trim(s) == [] <==> forall i :: 0 <= i < |s| ==> IsSpace(s[i])
  {
    var t := TrimStart(s);
    var d := |s| - |t|;
    assert forall i :: d <= i < |s| ==> s[i] == t[i - d];
  }

  /** True when `s` has at least one non-whitespace character (JavaScript truthiness of `s.trim()`). */
  predicate HasText(s: string)
  {
    exists i :: 0 <= i < |s| && !IsSpace(s[i])
  }

  /** `HasText` is the truthiness of `s.trim()`: the trimmed string is non-empty. */
  lemma HasTextIff(s: string)
    ensures HasText(s) <==> Trim(s) != []
  {
    TrimEmptyIffBlank(s);
  }

  function AsciiLower(c: char): (r: char)
    ensures 'A' <= c <= 'Z' ==> 'a' <= r <= 'z'
    ensures !('A' <= c <= 'Z') ==> r == c
  {
    if 'A' <= c <= 'Z' then (c as int - 'A' as int + 'a' as int) as char else c
  }

  /** `toLowerCase()` restricted to the ASCII letters. */
  function Lower(s: string): (r: string)
    ensures |r| == |s|
    ensures forall i :: 0 <= i < |s| ==> r[i] == AsciiLower(s[i])
  {
    if s == [] then [] else [AsciiLower(s[0])] + Lower(s[1..])
  }

  lemma LowerIdempotent(s: string)
    ensures Lower(Lower(s)) == Lower(s)
  {
  }

  lemma LowerAppend(a: string, b: string)
    ensures Lower(a + b) == Lower(a) + Lower(b)
  {
  }

  /** `s.includes(sub)` / Python `sub in s`. */
  predicate Contains(s: string, sub: string)
    decreases |s|
  {
    |sub| <= |s| && (s[..|sub|] == sub || Contains(s[1..], sub))
  }

  /** `sub` occurs in `s` starting at offset `i`. */
  predicate OccursAt(s: string, sub: string, i: nat)
  {
    i + |sub| <= |s| && s[i..i + |sub|] == sub
  }

  /** `Contains` is substring occurrence at some offset. */
  lemma {:induction false} ContainsIff(s: string, sub: string)
    ensures Contains(s, sub) <==> exists i: nat :: OccursAt(s, sub, i)
    decreases |s|
  {
    if |sub| <= |s| {
      if s[..|sub|] == sub {
        assert OccursAt(s, sub, 0);
      } else {
        ContainsIff(s[1..], sub);
        if Contains(s[1..], sub) {
          var i: nat :| OccursAt(s[1..], sub, i);
          assert s[i + 1..i + 1 + |sub|] == s[1..][i..i + |sub|];
          assert OccursAt(s, sub, i + 1);
        } else if exists i: nat :: OccursAt(s, sub, i) {
          var i: nat :| OccursAt(s, sub, i);
          if i > 0 {
            assert s[1..][i - 1..i - 1 + |sub|] == s[i..i + |sub|];
            assert OccursAt(s[1..], sub, i - 1);
          }
        }
      }
    }
  }

  /** An occurrence survives text added on either side. */
  lemma ContainsExtend(a: string, sub: string, before: string, after: string)
    requires Contains(a, sub)
    ensures Contains(before + a + after, sub)
  {
    ContainsIff(a, sub);
    var i: nat :| OccursAt(a, sub, i);
    var t := before + a + after;
    assert t[|before| + i..|before| + i + |sub|] == a[i..i + |sub|];
    assert OccursAt(t, sub, |before| + i);
    ContainsIff(t, sub);
  }

  /** The UTF-16 code units JavaScript stores for one character: a surrogate pair for a
      character outside the Basic Multilingual Plane, one unit otherwise. */
  function Utf16Units(c: char): (n: nat)
    ensures 1 <= n <= 2
    ensures n == 2 <==> c as int >= 0x10000
  {
    if c as int >= 0x10000 then 2 else 1
  }

  /** JavaScript `s.length`: the number of UTF-16 code units of `s`. */
  function Utf16Length(s: string): (r: nat)
    ensures |s| <= r <= 2 * |s|
  {
    if s == [] then 0 else Utf16Units(s[0]) + Utf16Length(s[1..])
  }

  /** A string of Basic Multilingual Plane characters (every ASCII string among them) has
      as many code units as characters. */
  lemma {:induction false} Utf16LengthBmp(s: string)
    requires forall i :: 0 <= i < |s| ==> s[i] as int < 0x10000
    ensures Utf16Length(s) == |s|
  {
    if s != [] {
      Utf16LengthBmp(s[1..]);
    }
  }

  /** The code units of a concatenation are those of its parts. */
  lemma {:induction false} Utf16LengthAppend(a: string, b: string)
    ensures Utf16Length(a + b) == Utf16Length(a) + Utf16Length(b)
  {
    if a == [] {
      assert a + b == b;
    } else {
      assert (a + b)[1..] == a[1..] + b;
      Utf16LengthAppend(a[1..], b);
    }
  }

  /** JavaScript `s.substring(0, n)` taken on whole characters: the longest prefix of `s`
      with at most `n` code units. */
  function Utf16Prefix(s: string, n: nat): (r: string)
    ensures r <= s && Utf16Length(r) <= n
    ensures |r| < |s| ==> n < Utf16Length(r) + Utf16Units(s[|r|])
  {
    if s == [] || n < Utf16Units(s[0]) then []
    else
      var rest := Utf16Prefix(s[1..], n - Utf16Units(s[0]));
      assert ([s[0]] + rest)[1..] == rest;
      [s[0]] + rest
  }

  /** A string of at most `n` code units is its own prefix; a longer one is cut at `n`
      units, or at `n - 1` when the unit at `n` would split a surrogate pair. */
  lemma Utf16PrefixCut(s: string, n: nat)
    ensures Utf16Length(s) <= n ==> Utf16Prefix(s, n) == s
    ensures Utf16Length(s) > n ==>
              var r := Utf16Prefix(s, n);
              |r| < |s| && n <= Utf16Length(r) + 1 &&
              (Utf16Length(r) < n ==> s[|r|] as int >= 0x10000)
  {
    var r := Utf16Prefix(s, n);
    assert s == r + s[|r|..];
    Utf16LengthAppend(r, s[|r|..]);
    if |r| < |s| {
      assert s[|r|..] == [s[|r|]] + s[|r| + 1..];
      Utf16LengthAppend([s[|r|]], s[|r| + 1..]);
    }
  }

  /** On Basic Multilingual Plane text, `substring(0, n)` is the first `n` characters. */
  lemma Utf16PrefixBmp(s: string, n: nat)
    requires forall i :: 0 <= i < |s| ==> s[i] as int < 0x10000
    requires n <= |s|
    ensures Utf16Prefix(s, n) == s[..n]
  {
    var r := Utf16Prefix(s, n);
    assert forall i :: 0 <= i < |r| ==> r[i] == s[i];
    Utf16LengthBmp(r);
    if |r| < |s| {
      assert Utf16Units(s[|r|]) == 1;
    }
    assert |r| == n;
  }

  predicate IsDigit(c: char)
  {
    '0' <= c <= '9'
  }

  predicate AllDigits(s: string)
  {
    forall i :: 0 <= i < |s| ==> IsDigit(s[i])
  }

  function DigitChar(d: nat): (c: char)
    requires d < 10
    ensures IsDigit(c)
  {
    ('0' as int + d) as char
  }

  function DigitValue(c: char): (d: nat)
    requires IsDigit(c)
    ensures d < 10
  {
    c as int - '0' as int
  }

  /** The decimal rendering of a natural number (JavaScript `String(n)`, Python `str(n)`). */
  function NatToString(n: nat): (r: string)
    ensures |r| > 0 && AllDigits(r)
    ensures r[0] == '0' ==> n == 0
    decreases n
  {
    if n < 10 then [DigitChar(n)] else NatToString(n / 10) + [DigitChar(n % 10)]
  }

  /** The value of a digit string (JavaScript `Number(s)` on digits; the empty string is 0). */
  function DigitsValue(s: string): nat
    requires AllDigits(s)
  {
    if s == [] then 0 else DigitsValue(s[..|s| - 1]) * 10 + DigitValue(s[|s| - 1])
  }

  /** Reading back a rendered number gives the number. */
  lemma {:induction false} NatToStringRoundTrip(n: nat)
    ensures DigitsValue(NatToString(n)) == n
    decreases n
  {
    var r := NatToString(n);
    if n >= 10 {
      NatToStringRoundTrip(n / 10);
      assert r[..|r| - 1] == NatToString(n / 10);
    }
  }

  lemma NatToStringInjective(m: nat, n: nat)
    requires NatToString(m) == NatToString(n)
    ensures m == n
  {
    NatToStringRoundTrip(m);
    NatToStringRoundTrip(n);
  }

  /** `String(n).padStart(2, '0')`. */
  function Pad2(n: nat): (r: string)
    ensures n < 100 ==> |r| == 2 && AllDigits(r) && DigitsValue(r) == n
    ensures n >= 10 ==> r == NatToString(n)
  {
    var s := NatToString(n);
    if |s| < 2 then
      assert DigitsValue(s) == n by { NatToStringRoundTrip(n); }
      assert DigitsValue(['0'] + s) == n by { assert (['0'] + s)[..1] == ['0']; }
      ['0'] + s
    else
      assert n < 100 ==> DigitsValue(s) == n && |s| == 2 by {
        NatToStringRoundTrip(n);
        if n < 100 { assert NatToString(n / 10) == [DigitChar(n / 10)]; }
      }
      s
  }

  /** The index of the first `c` in `s`, or `|s|` when there is none. */
  function IndexOf(s: string, c: char): (k: nat)
    ensures k <= |s|
    ensures forall i :: 0 <= i < k ==> s[i] != c
    ensures k < |s| ==> s[k] == c
  {
    if s == [] then 0 else if s[0] == c then 0 else 1 + IndexOf(s[1..], c)
  }

  /** Splitting at the first separator recovers the two parts when the first part
      does not contain it. */
  lemma IndexOfJoin(a: string, c: char, b: string)
    requires forall i :: 0 <= i < |a| ==> a[i] != c
    ensures IndexOf(a + [c] + b, c) == |a|
  {
    var s := a + [c] + b;
    assert s[|a|] == c;
    assert forall i :: 0 <= i < |a| ==> s[i] == a[i];
  }

  /** A digit string followed by a non-digit separator is recovered by splitting at the
      separator's first occurrence. */
  lemma SplitAfterDigits(a: string, c: char, b: string)
    requires AllDigits(a) && !IsDigit(c)
    ensures IndexOf(a + [c] + b, c) == |a|
    ensures (a + [c] + b)[..|a|] == a && (a + [c] + b)[|a| + 1..] == b
  {
    IndexOfJoin(a, c, b);
  }

  /** Splits `s` at the first `c` when everything before it is digits, giving the number
      and the text after `c`. */
  function ReadNumber(s: string, c: char): Option<(nat, string)>
  {
    var k := IndexOf(s, c);
    if k < |s| && AllDigits(s[..k]) then Some((DigitsValue(s[..k]), s[k + 1..])) else None
  }

  lemma ReadNumberJoin(a: string, c: char, b: string)
    requires AllDigits(a) && !IsDigit(c)
    ensures ReadNumber(a + [c] + b, c) == Some((DigitsValue(a), b))
  {
    SplitAfterDigits(a, c, b);
  }
}
