/**
 * The JavaScript string primitives the core relies on: `trim`, `toUpperCase`,
 * `split` on one character, `startsWith`, and the decimal rendering produced by
 * `Number.prototype.toString` (with its inverse, used wherever an id written as
 * text is read back).
 */
module Text {
  import opened Prelude

  /** The code points JavaScript treats as WhiteSpace or LineTerminator:
      what `String.prototype.trim` strips and what `\s` in a regular expression matches. */
  predicate IsJsSpace(c: char)
  {
    || c == '\t' || c == '\n' || c == '\U{000B}' || c == '\U{000C}' || c == '\r' || c == ' '
    || c == '\U{00A0}' || c == '\U{1680}' || ('\U{2000}' <= c <= '\U{200A}')
    || c == '\U{2028}' || c == '\U{2029}' || c == '\U{202F}' || c == '\U{205F}'
    || c == '\U{3000}' || c == '\U{FEFF}'
  }

  predicate AllSpace(s: string)
  {
    forall i :: 0 <= i < |s| ==> IsJsSpace(s[i])
  }

  /** `String.prototype.trimStart`. */
  function TrimStart(s: string): string
  {
    if |s| > 0 && IsJsSpace(s[0]) then TrimStart(s[1..]) else s
  }

  /** `String.prototype.trimEnd`. */
  function TrimEnd(s: string): string
  {
    if |s| > 0 && IsJsSpace(s[|s| - 1]) then TrimEnd(s[..|s| - 1]) else s
  }

  /** `trimStart` removes a prefix made entirely of white space and stops at the
      first character that is not white space. */
  lemma {:induction false} TrimStartShape(s: string)
    ensures var r := TrimStart(s);
            && |r| <= |s| && r == s[|s| - |r|..]
            && (r == [] || !IsJsSpace(r[0]))
            && AllSpace(s[..|s| - |r|])
    decreases |s|
  {
    if |s| > 0 && IsJsSpace(s[0]) {
      TrimStartShape(s[1..]);
      var r := TrimStart(s[1..]);
      assert s[..|s| - |r|] == [s[0]] + s[1..][..|s| - 1 - |r|];
    }
  }

  /** `trimEnd` removes a suffix made entirely of white space and stops at the
      last character that is not white space. */
  lemma {:induction false} TrimEndShape(s: string)
    ensures var r := TrimEnd(s);
            && |r| <= |s| && r == s[..|r|]
            && (r == [] || !IsJsSpace(r[|r| - 1]))
            && AllSpace(s[|r|..])
    decreases |s|
  {
    if |s| > 0 && IsJsSpace(s[|s| - 1]) {
      var t := s[..|s| - 1];
      TrimEndShape(t);
      var r := TrimEnd(t);
      assert s[|r|..] == t[|r|..] + [s[|s| - 1]];
    }
  }

  /** `String.prototype.trim`. */
  function Trim(s: string): string
  {
    TrimEnd(TrimStart(s))
  }

  /** A string with no white space at either end. */
  predicate Trimmed(s: string)
  {
    s == [] || (!IsJsSpace(s[0]) && !IsJsSpace(s[|s| - 1]))
  }

  lemma {:induction false} TrimStartPadding(pre: string, s: string)
    requires AllSpace(pre)
    requires s == [] || !IsJsSpace(s[0])
    ensures TrimStart(pre + s) == s
    decreases |pre|
  {
    if pre != [] {
      assert (pre + s)[1..] == pre[1..] + s;
      TrimStartPadding(pre[1..], s);
    } else {
      assert pre + s == s;
    }
  }

  lemma {:induction false} TrimEndPadding(s: string, post: string)
    requires AllSpace(post)
    requires s == [] || !IsJsSpace(s[|s| - 1])
    ensures TrimEnd(s + post) == s
    decreases |post|
  {
    if post != [] {
      var w := s + post;
      assert w[..|w| - 1] == s + post[..|post| - 1];
      TrimEndPadding(s, post[..|post| - 1]);
    } else {
      assert s + post == s;
    }
  }

  /** Trimming removes exactly the white space around a trimmed core. */
  lemma TrimPadding(pre: string, s: string, post: string)
    requires AllSpace(pre) && AllSpace(post) && Trimmed(s)
    ensures Trim(pre + s + post) == s
  {
    assert pre + s + post == pre + (s + post);
    if s == [] {
      assert s + post == post;
      TrimStartPadding(pre + post, []);
      assert pre + post + [] == pre + post;
      assert forall i :: 0 <= i < |pre + post| ==> IsJsSpace((pre + post)[i]);
    } else {
      assert (s + post)[0] == s[0];
      TrimStartPadding(pre, s + post);
      TrimEndPadding(s, post);
    }
  }

  /** The result of `trim` has no white space at its ends, and trimming again changes nothing. */
  lemma TrimIsTrimmed(s: string)
    ensures Trimmed(Trim(s))
    ensures Trim(Trim(s)) == Trim(s)
  {
    var t := TrimStart(s);
    var r := TrimEnd(t);
    TrimStartShape(s);
    TrimEndShape(t);
    if r != [] {
      assert r[0] == t[0];
    }
    assert Trimmed(r);
    assert [] + r + [] == r;
    TrimPadding([], r, []);
  }

  /** `trim` yields the empty string exactly when the input is all white space. */
  lemma TrimEmptyIffAllSpace(s: string)
    ensures Trim(s) == [] <==> AllSpace(s)
  {
    if AllSpace(s) {
      assert [] + [] + s == s;
      TrimPadding([], [], s);
    }
    if Trim(s) == [] {
      var t := TrimStart(s);
      TrimStartShape(s);
      TrimEndShape(t);
      assert AllSpace(t[0..]);
      assert s == s[..|s| - |t|] + t;
    }
  }

  /** `toUpperCase` on one code point. ASCII letters, together with the two
      non-ASCII lower-case letters whose upper case is an ASCII letter
      (dotless i and long s), are mapped; every other code point is kept. */
  function UpperChar(c: char): char
  {
    if 'a' <= c <= 'z' then (c as int - 32) as char
    else if c == '\U{0131}' then 'I'
    else if c == '\U{017F}' then 'S'
    else c
  }

  /** A code point `toUpperCase` keeps: neither an ASCII lower-case letter nor dotless
      i nor long s. */
  predicate UpperFixed(c: char)
  {
    !('a' <= c <= 'z') && c != '\U{0131}' && c != '\U{017F}'
  }

  /** `c` is `k` read case-insensitively: `k` itself, the ASCII lower case of a
      capital `k`, dotless i for `I` or long s for `S`. */
  predicate UpperOf(c: char, k: char)
  {
    || c == k
    || ('A' <= k <= 'Z' && c as int == k as int + 32)
    || (k == 'I' && c == '\U{0131}')
    || (k == 'S' && c == '\U{017F}')
  }

  /** `String.prototype.toUpperCase`, code point by code point: the length is kept,
      nothing upper-casing changes is left, and a string of such code points is
      returned as it is. */
  function ToUpper(s: string): (r: string)
    ensures |r| == |s|
    ensures forall i :: 0 <= i < |r| ==> UpperFixed(r[i])
    ensures (forall i :: 0 <= i < |s| ==> UpperFixed(s[i])) ==> r == s
  {
    seq(|s|, i requires 0 <= i < |s| => UpperChar(s[i]))
  }

  /** Upper-casing twice is upper-casing once. */
  lemma ToUpperIdempotent(s: string)
    ensures ToUpper(ToUpper(s)) == ToUpper(s)
  {
  }

  /** The code points that upper-case to a kept `k` are exactly those `UpperOf` names. */
  lemma UpperCharPreimage(c: char, k: char)
    requires UpperFixed(k)
    ensures UpperChar(c) == k <==> UpperOf(c, k)
  {
  }

  /** A string upper-cases to `k`, made of kept code points, exactly when it has the
      length of `k` and each of its code points is the one of `k` read
      case-insensitively. */
  lemma ToUpperEqualsIff(t: string, k: string)
    requires forall i :: 0 <= i < |k| ==> UpperFixed(k[i])
    ensures ToUpper(t) == k <==> |t| == |k| && forall i :: 0 <= i < |t| ==> UpperOf(t[i], k[i])
  {
    if |t| == |k| {
      forall i | 0 <= i < |t| {
        UpperCharPreimage(t[i], k[i]);
      }
      if forall i :: 0 <= i < |t| ==> UpperOf(t[i], k[i]) {
        assert forall i :: 0 <= i < |t| ==> ToUpper(t)[i] == k[i];
      }
    }
  }

  predicate StartsWith(s: string, prefix: string)
  {
    |prefix| <= |s| && s[..|prefix|] == prefix
  }

  /** `s.split(sep)` for a one-character separator: the pieces between separators, in order. */
  function Split(s: string, sep: char): (r: seq<string>)
    ensures |r| >= 1
  {
    if |s| == 0 then [""]
    else
      var rest := Split(s[1..], sep);
      if s[0] == sep then [""] + rest
      else [[s[0]] + rest[0]] + rest[1..]
  }

  /** Splitting at the first separator: the text before it is the first piece. */
  lemma {:induction false} SplitAtFirst(a: string, b: string, sep: char)
    requires sep !in a
    ensures Split(a + [sep] + b, sep) == [a] + Split(b, sep)
    decreases |a|
  {
    if a == [] {
      assert a + [sep] + b == [sep] + b;
      assert ([sep] + b)[1..] == b;
    } else {
      var w := a + [sep] + b;
      assert w[0] == a[0];
      assert w[1..] == a[1..] + [sep] + b;
      SplitAtFirst(a[1..], b, sep);
      assert [a[0]] + a[1..] == a;
    }
  }

  /** A string without the separator splits into itself alone. */
  lemma {:induction false} SplitNone(a: string, sep: char)
    requires sep !in a
    ensures Split(a, sep) == [a]
    decreases |a|
  {
    if a != [] {
      SplitNone(a[1..], sep);
      assert [a[0]] + a[1..] == a;
    }
  }

  // ----- decimal numbers -----

  predicate IsDigit(c: char)
  {
    '0' <= c <= '9'
  }

  predicate AllDigits(s: string)
  {
    forall i :: 0 <= i < |s| ==> IsDigit(s[i])
  }

  function DigitChar(d: nat): (c: char)
    requires d < 10
    ensures IsDigit(c)
  {
    ('0' as int + d) as char
  }

  function DigitValue(c: char): (d: nat)
    requires IsDigit(c)
    ensures d < 10
  {
    c as int - '0' as int
  }

  /** `n.toString()` for a non-negative integer: its decimal digits, most significant first. */
  function NatToString(n: nat): (r: string)
    ensures |r| >= 1 && AllDigits(r)
    decreases n
  {
    if n < 10 then [DigitChar(n)] else NatToString(n / 10) + [DigitChar(n % 10)]
  }

  function ParseDigits(s: string): nat
    requires AllDigits(s)
  {
    if |s| == 0 then 0 else ParseDigits(s[..|s| - 1]) * 10 + DigitValue(s[|s| - 1])
  }

  /** Reads a non-empty string of decimal digits back as a number; anything else has no value. */
  function ParseNat(s: string): Option<nat>
  {
    if |s| > 0 && AllDigits(s) then Some(ParseDigits(s)) else None
  }

  /** Reading back what `NatToString` wrote gives the number again. */
  lemma {:induction false} ParseNatToString(n: nat)
    ensures ParseNat(NatToString(n)) == Some(n)
    decreases n
  {
    var s := NatToString(n);
    if n < 10 {
      assert s[..|s| - 1] == [];
      assert ParseDigits(s) == ParseDigits([]) * 10 + DigitValue(s[0]);
    } else {
      ParseNatToString(n / 10);
      assert s[..|s| - 1] == NatToString(n / 10);
      assert DigitValue(s[|s| - 1]) == n % 10;
    }
  }

  /** Distinct numbers have distinct decimal renderings. */
  lemma NatToStringInjective(m: nat, n: nat)
    requires NatToString(m) == NatToString(n)
    ensures m == n
  {
    ParseNatToString(m);
    ParseNatToString(n);
  }

  function Pow10(k: nat): (r: nat)
    ensures r >= 1
  {
    if k == 0 then 1 else 10 * Pow10(k - 1)
  }

  /** A number with k + 1 decimal digits is rendered with k + 1 characters. */
  lemma {:induction false} DecimalLength(n: nat, k: nat)
    requires Pow10(k) <= n < Pow10(k + 1)
    ensures |NatToString(n)| == k + 1
    decreases k
  {
    if k > 0 {
      assert Pow10(k - 1) <= n / 10 < Pow10(k) by {
        assert Pow10(k) == 10 * Pow10(k - 1);
        assert Pow10(k + 1) == 10 * Pow10(k);
      }
      DecimalLength(n / 10, k - 1);
    }
  }
}
