/**
 * The JavaScript string primitives the signature engine relies on, stated over
 * `seq<char>`: whitespace as `\s` and `String.prototype.trim` see it, `trim`
 * itself, truthiness, `.length` in UTF-16 code units, `includes`, and the
 * decimal rendering of a non-negative index used in template literals.
 */
module JsString {

  /** JavaScript's WhiteSpace and LineTerminator code points. The regular-expression
      escape `\s` matches exactly these, and `trim` removes exactly these. */
  predicate IsJsSpace(c: char) {
    var n := c as int;
    n == 0x09 || n == 0x0A || n == 0x0B || n == 0x0C || n == 0x0D || n == 0x20 ||
    n == 0xA0 || n == 0x1680 || (0x2000 <= n <= 0x200A) || n == 0x2028 || n == 0x2029 ||
    n == 0x202F || n == 0x205F || n == 0x3000 || n == 0xFEFF
  }

  predicate IsAsciiLetter(c: char) {
    ('a' <= c <= 'z') || ('A' <= c <= 'Z')
  }

  predicate IsDigit(c: char) {
    '0' <= c <= '9'
  }

  /** A string is truthy in JavaScript exactly when it is not empty. */
  predicate Truthy(s: string) {
    s != ""
  }

  /** `s.trimStart()`: drops the maximal run of leading whitespace. */
  function TrimStart(s: string): (r: string)
    ensures |r| <= |s| && r == s[|s| - |r|..]
    ensures forall i {:trigger IsJsSpace(s[i])} :: 0 <= i < |s| - |r| ==> IsJsSpace(s[i])
    ensures r != "" ==> !IsJsSpace(r[0])
  {
    if s != "" && IsJsSpace(s[0]) then TrimStart(s[1..]) else s
  }

  /** `s.trimEnd()`: drops the maximal run of trailing whitespace. */
  function TrimEnd(s: string): (r: string)
    ensures |r| <= |s| && r == s[..|r|]
    ensures forall i {:trigger IsJsSpace(s[i])} :: |r| <= i < |s| ==> IsJsSpace(s[i])
    ensures r != "" ==> !IsJsSpace(r[|r| - 1])
  {
    if s != "" && IsJsSpace(s[|s| - 1]) then TrimEnd(s[..|s| - 1]) else s
  }

  /** `s.trim()`: the slice of `s` left once the whitespace at both ends is cut; what
      is cut is whitespace only, and what is left neither starts nor ends with it. */
  function Trim(s: string): (r: string)
    ensures |r| <= |s|
    ensures exists a :: 0 <= a <= |s| - |r| && IsBlank(s[..a]) && r <= s[a..] && IsBlank(s[a..][|r|..])
    ensures r != "" ==> !IsJsSpace(r[0]) && !IsJsSpace(r[|r| - 1])
  {
    var t := TrimStart(s);
    var r := TrimEnd(t);
    CutWitness(s, t, r, |s| - |t|);
    r
  }

  /** Cutting a whitespace-only prefix of length `a`, then a whitespace-only tail after
      `r`, leaves `r` at offset `a`. */
  lemma CutWitness(s: string, t: string, r: string, a: nat)
    requires a <= |s| && t == s[a..] && r <= t
    requires forall i {:trigger IsJsSpace(s[i])} :: 0 <= i < a ==> IsJsSpace(s[i])
    requires forall i {:trigger IsJsSpace(t[i])} :: |r| <= i < |t| ==> IsJsSpace(t[i])
    ensures exists a' :: 0 <= a' <= |s| - |r| && IsBlank(s[..a']) && r <= s[a'..] && IsBlank(s[a'..][|r|..])
  {
    BlankPrefix(s, a);
    BlankSuffix(t, |r|);
    assert 0 <= a <= |s| - |r| && IsBlank(s[..a]) && r <= s[a..] && IsBlank(s[a..][|r|..]);
  }

  /** A prefix whose characters are all whitespace is blank. */
  lemma BlankPrefix(s: string, a: nat)
    requires a <= |s|
    requires forall i {:trigger IsJsSpace(s[i])} :: 0 <= i < a ==> IsJsSpace(s[i])
    ensures IsBlank(s[..a])
  {
    forall i | 0 <= i < a ensures IsJsSpace(s[..a][i]) {
      assert s[..a][i] == s[i];
    }
  }

  /** A suffix whose characters are all whitespace is blank. */
  lemma BlankSuffix(s: string, k: nat)
    requires k <= |s|
    requires forall i {:trigger IsJsSpace(s[i])} :: k <= i < |s| ==> IsJsSpace(s[i])
    ensures IsBlank(s[k..])
  {
    forall i | 0 <= i < |s| - k ensures IsJsSpace(s[k..][i]) {
      assert s[k..][i] == s[k + i];
    }
  }

  /** `!s.trim()`: the string is empty or whitespace only. */
  predicate IsBlank(s: string) {
    forall i {:trigger IsJsSpace(s[i])} :: 0 <= i < |s| ==> IsJsSpace(s[i])
  }

  /** A string is blank exactly when it trims to the empty string, so the `trim`-based
      checks and the `\s` character class agree. */
  lemma BlankIffTrimsEmpty(s: string)
    ensures IsBlank(s) <==> Trim(s) == ""
  {
    var t := TrimStart(s);
    if !IsBlank(s) {
      var i :| 0 <= i < |s| && !IsJsSpace(s[i]);
      assert i >= |s| - |t|;
      assert t != "" && !IsJsSpace(t[0]);
    }
  }

  /** `s.length`: UTF-16 code units, two for every code point above U+FFFF. */
  function Utf16Length(s: string): (n: nat)
    ensures |s| <= n <= 2 * |s|
    ensures (forall i :: 0 <= i < |s| ==> s[i] as int < 0x10000) ==> n == |s|
    ensures |s| == 1 ==> n == if s[0] as int < 0x10000 then 1 else 2
  {
    if s == "" then 0
    else (if s[0] as int < 0x10000 then 1 else 2) + Utf16Length(s[1..])
  }

  /** The length of a concatenation is the sum of the lengths, so every character
      contributes its own one or two units. */
  lemma {:induction false} Utf16LengthConcat(s: string, t: string)
    ensures Utf16Length(s + t) == Utf16Length(s) + Utf16Length(t)
  {
    if s == "" {
      assert s + t == t;
    } else {
      assert (s + t)[1..] == s[1..] + t;
      Utf16LengthConcat(s[1..], t);
    }
  }

  /** `s.includes(sub)`: `sub` occurs in `s` at some offset. */
  predicate Contains(s: string, sub: string)
    ensures Contains(s, sub) <==> exists i :: 0 <= i <= |s| - |sub| && sub <= s[i..]
  {
    if sub <= s then
      assert sub <= s[0..];
      true
    else if s == "" then false
    else
      var r := Contains(s[1..], sub);
      assert forall i :: 1 <= i <= |s| - |sub| ==> s[i..] == s[1..][i - 1..];
      if r then
        var j :| 0 <= j <= |s[1..]| - |sub| && sub <= s[1..][j..];
        assert sub <= s[j + 1..];
        true
      else
        false
  }

  /** The decimal digit of a value below ten. */
  function DigitChar(d: nat): (c: char)
    requires d < 10
    ensures IsDigit(c) && c as int - '0' as int == d
  {
    ('0' as int + d) as char
  }

  /** The text a template literal prints for a non-negative integer `n` (`${n}`). */
  function NatToString(n: nat): (r: string)
    ensures 1 <= |r|
    ensures forall i :: 0 <= i < |r| ==> IsDigit(r[i])
    ensures r[|r| - 1] == DigitChar(n % 10)
    ensures n < 10 <==> |r| == 1
  {
    if n < 10 then [DigitChar(n)] else NatToString(n / 10) + [DigitChar(n % 10)]
  }

  /** The number a string of decimal digits denotes, most significant digit first. */
  function DigitsValue(s: string): nat
    requires forall i :: 0 <= i < |s| ==> IsDigit(s[i])
  {
    if s == [] then 0
    else
      assert IsDigit(s[|s| - 1]);
      10 * DigitsValue(s[..|s| - 1]) + (s[|s| - 1] as int - '0' as int)
  }

  /** The printed digits read back as `n`, with no leading zero except for `0` itself. */
  lemma {:induction false} NatToStringValue(n: nat)
    ensures DigitsValue(NatToString(n)) == n
    ensures NatToString(n)[0] == '0' ==> n == 0
  {
    if n >= 10 {
      var s := NatToString(n);
      NatToStringValue(n / 10);
      assert s[..|s| - 1] == NatToString(n / 10);
      assert s[0] == NatToString(n / 10)[0];
    }
  }

  /** Distinct indices print as distinct strings, so a key built from an index names
      that index alone. */
  lemma {:induction false} NatToStringInjective(m: nat, n: nat)
    requires NatToString(m) == NatToString(n)
    ensures m == n
  {
    if m >= 10 && n >= 10 {
      var sm, sn := NatToString(m), NatToString(n);
      assert sm[..|sm| - 1] == NatToString(m / 10);
      assert sn[..|sn| - 1] == NatToString(n / 10);
      NatToStringInjective(m / 10, n / 10);
    }
  }
}
