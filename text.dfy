/** String operations the storefront takes from the JavaScript platform: the `\s` character class,
    `toLowerCase`, `includes`, `parseInt` and the decimal rendering of an integer id
    (`${product.id}` in a template). Strings are sequences of Unicode scalar values. */
module Text {
  import opened Wrappers

  /** ECMAScript WhiteSpace and LineTerminator code points: the `\s` class of a regular expression
      and what `parseInt` skips before the number. */
  predicate IsWhitespace(c: char) {
    c == '\t' || c == '\n' || c == '\U{000B}' || c == '\U{000C}' || c == '\r' || c == ' '
    || c == '\U{00A0}' || c == '\U{1680}' || ('\U{2000}' <= c <= '\U{200A}')
    || c == '\U{2028}' || c == '\U{2029}' || c == '\U{202F}' || c == '\U{205F}'
    || c == '\U{3000}' || c == '\U{FEFF}'
  }

  /** `toLowerCase` on one character, for the ASCII letters. */
  function LowerChar(c: char): (r: char)
    ensures 'A' <= c <= 'Z' ==> r as int == c as int + 32
    ensures !('A' <= c <= 'Z') ==> r == c
    ensures !('A' <= r <= 'Z')
  {
    if 'A' <= c <= 'Z' then (c as int + 32) as char else c
  }

  function Lower(s: string): (r: string)
    ensures |r| == |s|
    ensures forall i :: 0 <= i < |s| ==> r[i] == LowerChar(s[i])
  {
    seq(|s|, i requires 0 <= i < |s| => LowerChar(s[i]))
  }

  lemma LowerIdempotent(s: string)
    ensures Lower(Lower(s)) == Lower(s)
  {
  }

  /** `sub` occurs in `s` starting at index `i`. */
  ghost predicate OccursAt(s: string, sub: string, i: int) {
    0 <= i && i + |sub| <= |s| && s[i..i + |sub|] == sub
  }

  /** `String.prototype.includes`: `sub` occurs somewhere in `s`. */
  function Includes(s: string, sub: string): (r: bool)
    ensures sub == [] ==> r
    ensures sub <= s ==> r
    ensures r ==> |sub| <= |s|
    decreases |s|
  {
    sub <= s || (s != [] && Includes(s[1..], sub))
  }

  lemma {:induction false} IncludesIffOccurs(s: string, sub: string)
    ensures Includes(s, sub) <==> exists i :: OccursAt(s, sub, i)
    decreases |s|
  {
    if sub <= s {
      assert OccursAt(s, sub, 0);
    } else if s == [] {
      assert forall i :: !OccursAt(s, sub, i);
    } else {
      IncludesIffOccurs(s[1..], sub);
      OccursInTail(s, sub);
    }
  }

  /** When `sub` is not a prefix of `s`, it occurs in `s` exactly where it occurs, one further on,
      in `s[1..]`. */
  lemma OccursInTail(s: string, sub: string)
    requires s != [] && !(sub <= s)
    ensures (exists i :: OccursAt(s, sub, i)) <==> (exists i :: OccursAt(s[1..], sub, i))
  {
    forall i | OccursAt(s[1..], sub, i) ensures OccursAt(s, sub, i + 1) {
      assert s[i + 1..i + 1 + |sub|] == s[1..][i..i + |sub|];
    }
    forall i | OccursAt(s, sub, i) ensures OccursAt(s[1..], sub, i - 1) {
      assert i != 0;
      assert s[1..][i - 1..i - 1 + |sub|] == s[i..i + |sub|];
    }
  }

  /** The empty string is included in every string, so `search('')` keeps every product. */
  lemma IncludesEmpty(s: string)
    ensures Includes(s, "")
  {
  }

  // ---- integers as text -------------------------------------------------------------------

  function DigitChar(d: nat): (c: char)
    requires d < 10
    ensures '0' <= c <= '9'
  {
    ('0' as int + d) as char
  }

  /** The decimal digits of a non-negative integer, most significant first, without leading zeros. */
  function NatToDecimal(n: nat): (r: string)
    ensures |r| > 0
    ensures forall i :: 0 <= i < |r| ==> '0' <= r[i] <= '9'
    ensures |r| > 1 ==> r[0] != '0'
  {
    if n < 10 then [DigitChar(n)] else NatToDecimal(n / 10) + [DigitChar(n % 10)]
  }

  /** `String(n)` for an integer id, as `${product.id}` writes it into a `data-id` attribute. */
  function IntToDecimal(n: int): (r: string)
    ensures |r| > 0
  {
    if n < 0 then "-" + NatToDecimal(-n) else NatToDecimal(n)
  }

  /** The value of `c` as a digit of radix `radix` (10 or 16), if it is one. */
  function DigitValue(c: char, radix: nat): (r: Option<nat>)
    ensures r.Some? ==> r.value < radix
  {
    if '0' <= c <= '9' && (c as int - '0' as int) < radix then Some(c as int - '0' as int)
    else if radix == 16 && 'a' <= c <= 'f' then Some(c as int - 'a' as int + 10)
    else if radix == 16 && 'A' <= c <= 'F' then Some(c as int - 'A' as int + 10)
    else None
  }

  /** The longest prefix of `s` made of digits of `radix`. */
  function DigitPrefix(s: string, radix: nat): (r: string)
    ensures r <= s
    ensures forall i :: 0 <= i < |r| ==> DigitValue(r[i], radix).Some?
    ensures |r| < |s| ==> DigitValue(s[|r|], radix).None?
  {
    if s != [] && DigitValue(s[0], radix).Some? then [s[0]] + DigitPrefix(s[1..], radix) else []
  }

  /** The number written by the digits `z` in radix `radix`. */
  function DigitsValue(z: string, radix: nat): nat
    requires forall i :: 0 <= i < |z| ==> DigitValue(z[i], radix).Some?
  {
    if z == [] then 0
    else
      var init := z[..|z| - 1];
      assert forall i :: 0 <= i < |init| ==> init[i] == z[i];
      var digit := DigitValue(z[|z| - 1], radix);
      DigitsValue(init, radix) * radix + digit.value
  }

  /** Step 1 of `parseInt`'s reading of the text: the leading white space is dropped. */
  function TrimStart(s: string): (r: string)
    ensures r != [] ==> !IsWhitespace(r[0])
  {
    if s != [] && IsWhitespace(s[0]) then TrimStart(s[1..]) else s
  }

  /** What `TrimStart` removes is exactly the run of white space that begins `s`: the result is a
      suffix of `s`, and everything before it is white space. */
  lemma {:induction false} TrimStartDropsWhitespace(s: string)
    ensures |TrimStart(s)| <= |s| && TrimStart(s) == s[|s| - |TrimStart(s)|..]
    ensures forall i :: 0 <= i < |s| - |TrimStart(s)| ==> IsWhitespace(s[i])
    decreases |s|
  {
    if s != [] && IsWhitespace(s[0]) {
      TrimStartDropsWhitespace(s[1..]);
      var t := TrimStart(s[1..]);
      assert s[1..][|s| - 1 - |t|..] == s[|s| - |t|..];
      forall i | 0 <= i < |s| - |t| ensures IsWhitespace(s[i]) {
        if i > 0 {
          assert s[i] == s[1..][i - 1];
        }
      }
    }
  }

  /** The digits after the sign in `parseInt`: a `0x`/`0X` prefix selects radix 16, and the longest
      run of digits that follows is the value; `None` when there is no digit at all. */
  function ParseMagnitude(u: string): Option<nat> {
    var hex := |u| >= 2 && u[0] == '0' && (u[1] == 'x' || u[1] == 'X');
    var radix := if hex then 16 else 10;
    var z := DigitPrefix(if hex then u[2..] else u, radix);
    if z == [] then None else Some(DigitsValue(z, radix))
  }

  /** `parseInt(s)` with no radix, as section 19.2.5 of ECMA-262 defines it: leading white space is
      skipped, one sign is read, and the magnitude follows; `None` stands for `NaN`. */
  function ParseInt(s: string): (r: Option<int>)
    ensures var t := TrimStart(s);
            (t == [] ==> r.None?)
            && (t != [] && '1' <= t[0] <= '9' ==> r.Some? && r.value >= 0)
            && (t != [] && t[0] == '0' && r.Some? ==> r.value >= 0)
            && (t != [] && t[0] == '-' && r.Some? ==> r.value <= 0)
            && (t != [] && !('0' <= t[0] <= '9') && t[0] != '+' && t[0] != '-' ==> r.None?)
  {
    var t := TrimStart(s);
    var negative := t != [] && t[0] == '-';
    var u := if t != [] && (t[0] == '+' || t[0] == '-') then t[1..] else t;
    match ParseMagnitude(u)
    case None => None
    case Some(v) =>
      var w: int := v;
      Some(if negative then -w else w)
  }

  lemma {:induction false} DecimalDigits(n: nat)
    ensures DigitPrefix(NatToDecimal(n), 10) == NatToDecimal(n)
    ensures DigitsValue(NatToDecimal(n), 10) == n
  {
    var r := NatToDecimal(n);
    DigitPrefixOfDigits(r);
    if n >= 10 {
      DecimalDigits(n / 10);
      assert r[..|r| - 1] == NatToDecimal(n / 10);
    }
  }

  lemma {:induction false} DigitPrefixOfDigits(r: string)
    requires forall i :: 0 <= i < |r| ==> '0' <= r[i] <= '9'
    ensures DigitPrefix(r, 10) == r
    decreases |r|
  {
    if r != [] {
      DigitPrefixOfDigits(r[1..]);
    }
  }

  lemma MagnitudeOfDecimal(m: nat)
    ensures ParseMagnitude(NatToDecimal(m)) == Some(m)
  {
    var d := NatToDecimal(m);
    DecimalDigits(m);
    assert |d| >= 2 ==> d[0] != '0';
  }

  lemma TrimStartNoop(t: string)
    requires t != [] && !IsWhitespace(t[0])
    ensures TrimStart(t) == t
  {
  }

  /** Once white space is skipped, a sign followed by the digits of `m` reads as `m` or `-m`. */
  lemma ParseIntOfSigned(t: string, u: string, m: nat)
    requires t != [] && !IsWhitespace(t[0])
    requires ParseMagnitude(u) == Some(m)
    requires t == u || t == ['-'] + u
    requires t == u ==> t[0] != '+' && t[0] != '-'
    ensures ParseInt(t) == Some(if t == u then m as int else -(m as int))
  {
    TrimStartNoop(t);
    if t != u {
      assert t[1..] == u;
    }
  }

  /** Reading back the decimal text of an id gives the id: `parseInt(String(n)) === n`. */
  lemma ParseIntOfDecimal(n: int)
    ensures ParseInt(IntToDecimal(n)) == Some(n)
  {
    var m: nat := if n < 0 then -n else n;
    var d := NatToDecimal(m);
    MagnitudeOfDecimal(m);
    assert '0' <= d[0] <= '9';
    if n < 0 {
      ParseIntOfSigned("-" + d, d, m);
    } else {
      ParseIntOfSigned(d, d, m);
    }
  }

  /** `parseInt` reads the longest numeric prefix after white space and a sign. */
  lemma ParseIntStopsAtNonDigit()
    ensures ParseInt("12px") == Some(12)
  {
    assert TrimStart("12px") == "12px";
    assert DigitPrefix("px", 10) == [];
    assert DigitPrefix("2px", 10) == "2";
    assert DigitPrefix("12px", 10) == "12";
    assert "12"[..1] == "1" && "1"[..0] == [];
    assert DigitsValue("12", 10) == 12;
    assert ParseMagnitude("12px") == Some(12);
  }

  lemma ParseIntNegative()
    ensures ParseInt(" -7") == Some(-7)
  {
    assert TrimStart("-7") == "-7";
    assert TrimStart(" -7") == "-7";
    assert "-7"[1..] == "7";
    assert "7"[1..] == [] && "7"[..0] == [];
    assert DigitPrefix("7", 10) == "7";
    assert ParseMagnitude("7") == Some(7);
  }

  /** A `0x` prefix reads the digits in radix 16. */
  lemma ParseIntHex()
    ensures ParseInt("0x1A") == Some(26)
  {
    assert TrimStart("0x1A") == "0x1A";
    assert "0x1A"[2..] == "1A";
    assert "1A"[1..] == "A" && "A"[1..] == [];
    assert DigitPrefix("A", 16) == "A";
    assert DigitPrefix("1A", 16) == "1A";
    assert "1A"[..1] == "1" && "1"[..0] == [];
    assert DigitsValue("1A", 16) == 26;
    assert ParseMagnitude("0x1A") == Some(26);
  }

  /** No digit after the optional sign: `NaN`. */
  lemma ParseIntNaN()
    ensures ParseInt("abc") == None && ParseInt("") == None && ParseInt("-") == None
  {
    assert TrimStart("abc") == "abc";
    assert DigitPrefix("abc", 10) == [];
    assert TrimStart("-") == "-";
    assert "-"[1..] == [];
  }
}
