/** The string operations the search box relies on: `toLowerCase`, `trim`,
    `includes` and `Number.prototype.toString` on integers. */
module Text {

  /** Lower-case mapping of one character. It covers the letters the data is
      written in: ASCII, Latin-1, and the Vietnamese letters outside Latin-1
      (Ă Đ Ĩ Ũ Ơ Ư and the block U+1EA0..U+1EF9, where upper-case letters sit
      at even code points and their lower-case forms just after). Every other
      character is returned unchanged. */
  function Lower(c: char): char
  {
    if 'A' <= c <= 'Z' then (c as int + 32) as char
    else if '\U{00C0}' <= c <= '\U{00DE}' && c != '\U{00D7}' then (c as int + 32) as char
    else if c == '\U{0102}' || c == '\U{0110}' || c == '\U{0128}' || c == '\U{0168}' || c == '\U{01A0}' then (c as int + 1) as char
    else if c == '\U{01AF}' then '\U{01B0}'
    else if '\U{1EA0}' <= c <= '\U{1EF8}' && (c as int) % 2 == 0 then (c as int + 1) as char
    else c
  }

  /** The characters `String.prototype.trim` removes: ECMAScript WhiteSpace
      (tab, vertical tab, form feed, space, no-break space, byte order mark
      and the other space separators) and LineTerminator. */
  predicate IsSpace(c: char)
  {
    c == '\t' || c == '\U{000B}' || c == '\U{000C}' || c == ' ' || c == '\U{00A0}' || c == '\U{FEFF}'
    || c == '\U{1680}' || ('\U{2000}' <= c <= '\U{200A}') || c == '\U{202F}' || c == '\U{205F}' || c == '\U{3000}'
    || c == '\n' || c == '\r' || c == '\U{2028}' || c == '\U{2029}'
  }

  /** `s.toLowerCase()`, character by character. */
  function LowerStr(s: string): string
  {
    seq(|s|, i requires 0 <= i < |s| => Lower(s[i]))
  }

  /** `s` without its leading white space. */
  function TrimStart(s: string): (r: string)
    ensures |r| <= |s|
    ensures r == [] || !IsSpace(r[0])
  {
    if s != [] && IsSpace(s[0]) then TrimStart(s[1..]) else s
  }

  /** `s` without its trailing white space. */
  function TrimEnd(s: string): (r: string)
    ensures r <= s
    ensures r == [] || !IsSpace(r[|r| - 1])
  {
    if s != [] && IsSpace(s[|s| - 1]) then TrimEnd(s[..|s| - 1]) else s
  }

  /** `s.trim()`: the piece of `s` left after cutting white space from both
      ends, which neither starts nor ends with white space. */
  function Trim(s: string): (r: string)
    ensures exists i, j ::
      && 0 <= i <= j <= |s|
      && r == s[i..j]
      && (forall k :: 0 <= k < i ==> IsSpace(s[k]))
      && (forall k :: j <= k < |s| ==> IsSpace(s[k]))
    ensures r == [] || (!IsSpace(r[0]) && !IsSpace(r[|r| - 1]))
  {
    TrimPiece(s);
    TrimEnd(TrimStart(s))
  }

  /** `hay.includes(needle)`. */
  predicate Contains(hay: string, needle: string)
    decreases |hay|
  {
    needle <= hay || (hay != [] && Contains(hay[1..], needle))
  }

  function DigitChar(d: nat): char
    requires d < 10
  {
    (('0' as int) + d) as char
  }

  predicate IsDigit(c: char)
  {
    '0' <= c <= '9'
  }

  /** The decimal digits of `n`, most significant first. */
  function NatString(n: nat): string
    decreases n
  {
    if n < 10 then [DigitChar(n)] else NatString(n / 10) + [DigitChar(n % 10)]
  }

  /** `i.toString()` for an integer-valued number. */
  function DecimalString(i: int): string
  {
    if i < 0 then "-" + NatString(-i) else NatString(i)
  }

  /** The value of a string of decimal digits; the reading direction is the
      reverse of how NatString builds it. */
  function DigitsValue(s: string): nat
    requires forall k :: 0 <= k < |s| ==> IsDigit(s[k])
  {
    if s == [] then 0
    else
      assert IsDigit(s[|s| - 1]);
      DigitsValue(s[..|s| - 1]) * 10 + (s[|s| - 1] as int - '0' as int)
  }

  // ---------------------------------------------------------------------------
  // Lower-casing

  /** Lower-casing twice is lower-casing once. */
  lemma LowerIdempotent(c: char)
    ensures Lower(Lower(c)) == Lower(c)
  {
  }

  /** Lower-casing never turns white space into a letter, nor a letter into white space. */
  lemma LowerKeepsSpace(c: char)
    ensures IsSpace(Lower(c)) == IsSpace(c)
  {
  }

  lemma LowerStrIdempotent(s: string)
    ensures LowerStr(LowerStr(s)) == LowerStr(s)
  {
    forall i | 0 <= i < |s| ensures LowerStr(LowerStr(s))[i] == LowerStr(s)[i] {
      LowerIdempotent(s[i]);
    }
  }

  lemma {:induction false} TrimStartLower(s: string)
    ensures TrimStart(LowerStr(s)) == LowerStr(TrimStart(s))
  {
    if s != [] {
      LowerKeepsSpace(s[0]);
      assert LowerStr(s)[1..] == LowerStr(s[1..]);
      TrimStartLower(s[1..]);
    }
  }

  lemma {:induction false} TrimEndLower(s: string)
    ensures TrimEnd(LowerStr(s)) == LowerStr(TrimEnd(s))
  {
    if s != [] {
      LowerKeepsSpace(s[|s| - 1]);
      assert LowerStr(s)[..|s| - 1] == LowerStr(s[..|s| - 1]);
      TrimEndLower(s[..|s| - 1]);
    }
  }

  /** Lower-casing and trimming commute, so `term.toLowerCase().trim()` is
      also the lower-cased trimmed term. */
  lemma TrimLowerCommute(s: string)
    ensures Trim(LowerStr(s)) == LowerStr(Trim(s))
  {
    TrimStartLower(s);
    TrimEndLower(TrimStart(s));
  }

  // ---------------------------------------------------------------------------
  // Trimming

  lemma {:induction false} TrimStartEmpty(s: string)
    ensures TrimStart(s) == [] <==> forall k :: 0 <= k < |s| ==> IsSpace(s[k])
  {
    if s != [] && IsSpace(s[0]) {
      TrimStartEmpty(s[1..]);
      assert forall k :: 1 <= k < |s| ==> s[k] == s[1..][k - 1];
    }
  }

  lemma {:induction false} TrimEndEmpty(s: string)
    ensures TrimEnd(s) == [] <==> forall k :: 0 <= k < |s| ==> IsSpace(s[k])
  {
    if s != [] && IsSpace(s[|s| - 1]) {
      TrimEndEmpty(s[..|s| - 1]);
    }
  }

  /** Trimming leaves nothing exactly when every character is white space. */
  lemma TrimEmpty(s: string)
    ensures Trim(s) == [] <==> forall k :: 0 <= k < |s| ==> IsSpace(s[k])
  {
    TrimStartEmpty(s);
    TrimEndEmpty(TrimStart(s));
  }

  /** TrimStart removes only leading white space. */
  lemma {:induction false} TrimStartSuffix(s: string)
    ensures TrimStart(s) == s[|s| - |TrimStart(s)|..]
    ensures forall k :: 0 <= k < |s| - |TrimStart(s)| ==> IsSpace(s[k])
  {
    if s != [] && IsSpace(s[0]) {
      TrimStartSuffix(s[1..]);
      assert forall k :: 1 <= k < |s| ==> s[k] == s[1..][k - 1];
    }
  }

  /** TrimEnd removes only trailing white space. */
  lemma {:induction false} TrimEndPrefix(s: string)
    ensures forall k :: |TrimEnd(s)| <= k < |s| ==> IsSpace(s[k])
  {
    if s != [] && IsSpace(s[|s| - 1]) {
      TrimEndPrefix(s[..|s| - 1]);
    }
  }

  /** The trimmed string is a piece of `s` with only white space around it. */
  lemma TrimPiece(s: string)
    ensures exists i, j ::
      && 0 <= i <= j <= |s|
      && TrimEnd(TrimStart(s)) == s[i..j]
      && (forall k :: 0 <= k < i ==> IsSpace(s[k]))
      && (forall k :: j <= k < |s| ==> IsSpace(s[k]))
  {
    var t := TrimStart(s);
    var r := TrimEnd(t);
    var i := |s| - |t|;
    var j := i + |r|;
    TrimStartSuffix(s);
    assert r == s[i..j] by {
      assert t == s[i..];
      assert r <= t;
    }
    assert forall k :: j <= k < |s| ==> IsSpace(s[k]) by {
      TrimEndPrefix(t);
      forall k | j <= k < |s| ensures IsSpace(s[k]) {
        assert s[k] == t[k - i];
      }
    }
  }

  // ---------------------------------------------------------------------------
  // Substring search

  /** `Contains` holds exactly when `needle` occurs at some position of `hay`. */
  lemma {:induction false} ContainsAt(hay: string, needle: string)
    ensures Contains(hay, needle) <==> exists i :: 0 <= i <= |hay| && needle <= hay[i..]
  {
    if needle <= hay {
      assert hay[0..] == hay;
    } else if hay != [] {
      ContainsAt(hay[1..], needle);
      if exists i :: 0 <= i <= |hay| && needle <= hay[i..] {
        var i :| 0 <= i <= |hay| && needle <= hay[i..];
        assert i != 0 && hay[1..][i - 1..] == hay[i..];
      }
      if exists i :: 0 <= i <= |hay[1..]| && needle <= hay[1..][i..] {
        var i :| 0 <= i <= |hay[1..]| && needle <= hay[1..][i..];
        assert hay[1..][i..] == hay[i + 1..];
      }
    } else {
      assert forall i :: 0 <= i <= |hay| ==> hay[i..] == [];
    }
  }

  /** A needle found in `hay` contains only characters that occur in `hay`. */
  lemma ContainsOnlyFrom(hay: string, needle: string, allowed: char -> bool)
    requires Contains(hay, needle)
    requires forall k :: 0 <= k < |hay| ==> allowed(hay[k])
    ensures forall k :: 0 <= k < |needle| ==> allowed(needle[k])
  {
    ContainsAt(hay, needle);
    var i :| 0 <= i <= |hay| && needle <= hay[i..];
    forall k | 0 <= k < |needle| ensures allowed(needle[k]) {
      assert needle[k] == hay[i..][k] == hay[i + k];
    }
  }

  // ---------------------------------------------------------------------------
  // Decimal rendering of integers

  /** NatString writes only digits, with no leading zero, and reading them
      back gives `n`. */
  lemma {:induction false} NatStringRoundTrip(n: nat)
    ensures forall k :: 0 <= k < |NatString(n)| ==> IsDigit(NatString(n)[k])
    ensures NatString(n)[0] != '0' || n == 0
    ensures DigitsValue(NatString(n)) == n
  {
    if n >= 10 {
      NatStringRoundTrip(n / 10);
      var s := NatString(n);
      assert s[..|s| - 1] == NatString(n / 10);
    }
  }

  /** `i.toString()` is made only of digits and, for a negative `i`, a leading minus sign. */
  lemma DecimalStringChars(i: int)
    ensures forall k :: 0 <= k < |DecimalString(i)| ==> IsDigit(DecimalString(i)[k]) || DecimalString(i)[k] == '-'
    ensures i < 0 <==> DecimalString(i)[0] == '-'
  {
    NatStringRoundTrip(if i < 0 then -i else i);
  }
}
