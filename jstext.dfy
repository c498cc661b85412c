/** The two pieces of JavaScript string behaviour the dashboard relies on:
    String.prototype.trim (used to reject blank input) and Number.prototype.toString
    on a non-negative integer (used to turn the clock into record ids). Strings are
    sequences of UTF-16 code units in JavaScript; here they are `seq<char>`. */
module JsText {

  /** The characters trim removes: ECMAScript WhiteSpace (tab, vertical tab, form feed,
      space, no-break space, zero-width no-break space and every Zs space) and
      LineTerminator (line feed, carriage return, line and paragraph separator). */
  predicate IsTrimmable(c: char) {
    c == '\t' || c == '\n' || c == '\U{000B}' || c == '\U{000C}' || c == '\r' || c == ' '
    || c == '\U{00A0}' || c == '\U{1680}' || ('\U{2000}' <= c <= '\U{200A}')
    || c == '\U{2028}' || c == '\U{2029}' || c == '\U{202F}' || c == '\U{205F}'
    || c == '\U{3000}' || c == '\U{FEFF}'
  }

  /** Every character of `s` is one that trim removes. */
  predicate IsBlank(s: string) {
    forall i :: 0 <= i < |s| ==> IsTrimmable(s[i])
  }

  /** Drops leading trimmable characters: the result is the suffix of `s` left after the
      longest blank prefix. */
  function TrimStart(s: string): (r: string)
    ensures |r| <= |s| && r == s[|s| - |r|..]
    ensures IsBlank(s[..|s| - |r|])
    ensures r == [] || !IsTrimmable(r[0])
  {
    if s != [] && IsTrimmable(s[0]) then
      var t := TrimStart(s[1..]);
      assert forall i :: 1 <= i < |s| - |t| ==> s[i] == s[1..][..|s| - 1 - |t|][i - 1];
      t
    else s
  }

  /** Drops trailing trimmable characters: the result is the prefix of `s` left before the
      longest blank suffix. */
  function TrimEnd(s: string): (r: string)
    ensures |r| <= |s| && r == s[..|r|]
    ensures IsBlank(s[|r|..])
    ensures r == [] || !IsTrimmable(r[|r| - 1])
  {
    if s != [] && IsTrimmable(s[|s| - 1]) then
      var t := TrimEnd(s[..|s| - 1]);
      assert forall i :: |t| <= i < |s| - 1 ==> s[i] == s[..|s| - 1][|t|..][i - |t|];
      t
    else s
  }

  /** String.prototype.trim: TrimStart removes the blank prefix, TrimEnd the blank
      suffix, and what is left neither starts nor ends with a trimmable character. */
  function Trim(s: string): (r: string)
    ensures |r| <= |s|
    ensures r == [] || (!IsTrimmable(r[0]) && !IsTrimmable(r[|r| - 1]))
  {
    var t := TrimStart(s);
    var r := TrimEnd(t);
    assert r != [] ==> r[0] == t[0];
    r
  }

  /** A part `r` taken from position `a` of `s`, with a blank piece before it and a blank
      piece after it, is the slice of `s` from `a` to `a + |r|`. */
  lemma {:induction false} Middle(s: string, a: nat, r: string)
    requires a <= |s| && |r| <= |s| - a
    requires IsBlank(s[..a]) && r == s[a..][..|r|] && IsBlank(s[a..][|r|..])
    ensures a + |r| <= |s| && r == s[a..a + |r|] && IsBlank(s[a + |r|..])
  {
    assert s[a..][..|r|] == s[a..a + |r|];
    assert s[a..][|r|..] == s[a + |r|..];
  }

  /** What trim returns is the part of `s` between a blank prefix and a blank suffix. With
      the ends Trim's contract gives, this fixes the result: the prefix is the longest blank
      one, and so is the suffix. */
  lemma TrimIsMiddle(s: string)
    ensures (exists a :: 0 <= a <= |s| - |Trim(s)| && Trim(s) == s[a..a + |Trim(s)|]
                         && IsBlank(s[..a]) && IsBlank(s[a + |Trim(s)|..]))
  {
    var a := |s| - |TrimStart(s)|;
    Middle(s, a, TrimEnd(TrimStart(s)));
  }

  /** `!s.trim()` holds exactly when `s` has no character other than whitespace and line
      terminators: the empty string is the one falsy string. */
  lemma {:induction false} TrimEmptyIffBlank(s: string)
    ensures Trim(s) == [] <==> IsBlank(s)
  {
    var t := TrimStart(s);
    if Trim(s) == [] {
      // what TrimEnd removed from t is all of t, yet t cannot start with a blank
      assert t[0..] == t;
      assert t == [];
      assert s[..|s|] == s;
    } else {
      var r := Trim(s);
      assert r == t[..|r|];
      if t != [] {
        assert t[0] == s[|s| - |t|];
      }
    }
  }

  function DigitChar(d: nat): (c: char)
    requires d < 10
    ensures '0' <= c <= '9' && c as int - '0' as int == d
  {
    "0123456789"[d]
  }

  /** Number.prototype.toString on a non-negative integer below 10^21, which every
      `Date.now()` reading is: its decimal digits, with no leading zero unless the number
      is zero. From 10^21 on JavaScript switches to exponent notation, which is not
      modelled. */
  function NatToString(n: nat): (r: string)
    ensures r != [] && forall i :: 0 <= i < |r| ==> '0' <= r[i] <= '9'
    ensures r[0] == '0' ==> r == "0"
    decreases n
  {
    if n < 10 then [DigitChar(n)] else NatToString(n / 10) + [DigitChar(n % 10)]
  }

  /** The value of a string of decimal digits, most significant first. */
  function DecimalValue(s: string): nat
    requires forall i :: 0 <= i < |s| ==> '0' <= s[i] <= '9'
  {
    if s == [] then 0
    else 10 * DecimalValue(s[..|s| - 1]) + (s[|s| - 1] as int - '0' as int)
  }

  /** Reading back the digits gives the number: toString is injective, so two clock
      readings give the same id exactly when they are the same reading. */
  lemma {:induction false} NatToStringRoundTrip(n: nat)
    ensures DecimalValue(NatToString(n)) == n
    decreases n
  {
    if n >= 10 {
      var r := NatToString(n);
      assert r[..|r| - 1] == NatToString(n / 10);
      NatToStringRoundTrip(n / 10);
    }
  }

  lemma NatToStringInjective(a: nat, b: nat)
    ensures NatToString(a) == NatToString(b) <==> a == b
  {
    NatToStringRoundTrip(a);
    NatToStringRoundTrip(b);
  }
}
