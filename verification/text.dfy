/**
 Character-level helpers the prompts rely on: Python's `str.strip()` with no
 arguments, and `str.isdigit()` / `int()` restricted to ASCII decimal digits.
 */
module Text {

  /** The characters Python's `str.isspace` accepts: ASCII whitespace, the
      four ASCII separators 0x1C-0x1F, and the Unicode white-space code points. */
  const Whitespace: set<char> := {
    '\t', '\n', '\U{0B}', '\U{0C}', '\r', '\U{1C}', '\U{1D}', '\U{1E}', '\U{1F}', ' ',
    '\U{85}', '\U{A0}', '\U{1680}',
    '\U{2000}', '\U{2001}', '\U{2002}', '\U{2003}', '\U{2004}', '\U{2005}',
    '\U{2006}', '\U{2007}', '\U{2008}', '\U{2009}', '\U{200A}',
    '\U{2028}', '\U{2029}', '\U{202F}', '\U{205F}', '\U{3000}'
  }

  predicate IsSpace(c: char) {
    c in Whitespace
  }

  predicate AllSpace(s: string) {
    forall i :: 0 <= i < |s| ==> IsSpace(s[i])
  }

  /** No leading or trailing whitespace: the shape of every stripped string. */
  predicate Trimmed(s: string) {
    s == [] || (!IsSpace(s[0]) && !IsSpace(s[|s| - 1]))
  }

  /** Python's `s.strip()`: whitespace is removed from the front, then from
      the back, until neither end is whitespace. */
  function Strip(s: string): (r: string)
    ensures |r| <= |s|
    ensures Trimmed(r)
    decreases |s|
  {
    if |s| > 0 && IsSpace(s[0]) then Strip(s[1..])
    else if |s| > 0 && IsSpace(s[|s| - 1]) then Strip(s[..|s| - 1])
    else s
  }

  /** Every string is whitespace, then its stripped form, then whitespace. */
  lemma {:induction false} StripSplits(s: string) returns (pre: string, post: string)
    ensures AllSpace(pre) && AllSpace(post)
    ensures s == pre + Strip(s) + post
    decreases |s|
  {
    if |s| > 0 && IsSpace(s[0]) {
      var p, q := StripSplits(s[1..]);
      pre, post := [s[0]] + p, q;
      calc {
        s;
        [s[0]] + s[1..];
        [s[0]] + (p + Strip(s[1..]) + q);
        pre + Strip(s) + post;
      }
    } else if |s| > 0 && IsSpace(s[|s| - 1]) {
      var p, q := StripSplits(s[..|s| - 1]);
      pre, post := p, q + [s[|s| - 1]];
      calc {
        s;
        s[..|s| - 1] + [s[|s| - 1]];
        (p + Strip(s[..|s| - 1]) + q) + [s[|s| - 1]];
        pre + Strip(s) + post;
      }
    } else {
      pre, post := [], [];
      assert s == pre + s + post;
    }
  }

  /** Conversely, whitespace around an already-trimmed string is exactly what
      `strip` removes: together with StripSplits this pins `Strip` down. */
  lemma {:induction false} StripPadded(pre: string, core: string, post: string)
    requires AllSpace(pre) && AllSpace(post)
    requires Trimmed(core)
    ensures Strip(pre + core + post) == core
    decreases |pre| + |post|
  {
    var s := pre + core + post;
    if |pre| > 0 {
      assert s[0] == pre[0];
      assert s[1..] == pre[1..] + core + post;
      StripPadded(pre[1..], core, post);
    } else if |post| > 0 {
      if |core| == 0 {
        assert s == post;
        assert s[1..] == [] + [] + post[1..];
        StripPadded([], [], post[1..]);
      } else {
        assert s[0] == core[0];
        assert s[|s| - 1] == post[|post| - 1];
        assert s[..|s| - 1] == [] + core + post[..|post| - 1];
        StripPadded([], core, post[..|post| - 1]);
      }
    } else {
      assert s == core;
    }
  }

  predicate IsAsciiDigit(c: char) {
    '0' <= c <= '9'
  }

  /** Python's `str.isdigit()` restricted to ASCII: non-empty, digits only. */
  predicate IsDigits(s: string) {
    |s| > 0 && forall i :: 0 <= i < |s| ==> IsAsciiDigit(s[i])
  }

  function DigitValue(c: char): nat
    requires IsAsciiDigit(c)
  {
    (c as int - '0' as int) as nat
  }

  function DigitChar(d: nat): (c: char)
    requires d <= 9
    ensures IsAsciiDigit(c) && DigitValue(c) == d
  {
    ('0' as int + d) as char
  }

  /** Python's `int(s)` on a string of ASCII digits: most significant first. */
  function DecimalValue(s: string): nat
    requires forall i :: 0 <= i < |s| ==> IsAsciiDigit(s[i])
  {
    if |s| == 0 then 0 else DecimalValue(s[..|s| - 1]) * 10 + DigitValue(s[|s| - 1])
  }

  predicate AllZeros(s: string) {
    forall i :: 0 <= i < |s| ==> s[i] == '0'
  }

  /** The digit `d` written with any number of leading zeros. */
  predicate ZeroPadded(s: string, d: nat)
    requires d <= 9
  {
    |s| > 0 && AllZeros(s[..|s| - 1]) && s[|s| - 1] == DigitChar(d)
  }

  lemma {:induction false} DecimalValueZero(s: string)
    requires forall i :: 0 <= i < |s| ==> IsAsciiDigit(s[i])
    ensures DecimalValue(s) == 0 <==> AllZeros(s)
    decreases |s|
  {
    if |s| > 0 {
      var p := s[..|s| - 1];
      DecimalValueZero(p);
      assert AllZeros(s) <==> AllZeros(p) && s[|s| - 1] == '0';
    }
  }

  /** A digit string worth at most 9 is zeros followed by that one digit, and
      every such string is a digit string of that value. */
  lemma SmallDecimal(s: string, d: nat)
    requires d <= 9
    ensures IsDigits(s) && DecimalValue(s) == d <==> ZeroPadded(s, d)
  {
    if |s| > 0 {
      var p := s[..|s| - 1];
      if ZeroPadded(s, d) {
        assert forall i :: 0 <= i < |s| ==> IsAsciiDigit(s[i]) by {
          forall i | 0 <= i < |s| ensures IsAsciiDigit(s[i]) {
            if i < |s| - 1 {
              assert s[i] == p[i];
            }
          }
        }
        DecimalValueZero(p);
      }
      if IsDigits(s) && DecimalValue(s) == d {
        DecimalValueZero(p);
        assert DigitChar(DigitValue(s[|s| - 1])) == s[|s| - 1];
      }
    }
  }
}
