/**
 * The handful of Python `str` operations the hub's receive path relies on:
 * `sep in s`, `s.split(sep)` for a one-character separator, `s.strip()`,
 * `s.replace(pat, '')`, `int(s)` and `str(n)` for integers.
 */
module Text {
  import opened Wrappers

  // ---------------------------------------------------------------------------
  // Substring test (`sub in s`)
  // ---------------------------------------------------------------------------

  /** `sub in s`: `sub` occurs in `s` at some position. */
  predicate Contains(s: string, sub: string)
    decreases |s|
  {
    sub <= s || (|s| > 0 && Contains(s[1..], sub))
  }

  /** `sub` occurs in `s` starting at position `i`. */
  predicate OccursAt(s: string, sub: string, i: int)
  {
    0 <= i <= |s| - |sub| && s[i..i + |sub|] == sub
  }

  /** Contains agrees with the positional definition of an occurrence, in both directions. */
  lemma {:induction false} ContainsIff(s: string, sub: string)
    ensures Contains(s, sub) <==> exists i :: OccursAt(s, sub, i)
    decreases |s|
  {
    if sub <= s {
      assert OccursAt(s, sub, 0);
    } else if |s| == 0 {
    } else {
      ContainsIff(s[1..], sub);
      OccursShift(s, sub);
      if Contains(s[1..], sub) {
        var i :| OccursAt(s[1..], sub, i);
        assert OccursAt(s, sub, i + 1);
      }
    }
  }

  /** An occurrence at position 0 is a prefix; one further on is an occurrence in the tail. */
  lemma OccursShift(s: string, sub: string)
    requires |s| > 0
    ensures OccursAt(s, sub, 0) ==> sub <= s
    ensures forall i :: 0 < i && OccursAt(s, sub, i) ==> OccursAt(s[1..], sub, i - 1)
  {
    forall i | 0 < i && OccursAt(s, sub, i) ensures OccursAt(s[1..], sub, i - 1) {
      assert s[1..][i - 1..i - 1 + |sub|] == s[i..i + |sub|];
    }
  }

  /** An occurrence in a piece is an occurrence in any text the piece is part of. */
  lemma ContainsInside(a: string, b: string, c: string, sub: string)
    requires Contains(b, sub)
    ensures Contains(a + b + c, sub)
  {
    ContainsIff(b, sub);
    var i :| OccursAt(b, sub, i);
    assert OccursAt(a + b + c, sub, |a| + i);
    ContainsIff(a + b + c, sub);
  }

  /** A text lacking one of the characters of `sub` cannot contain `sub`. */
  lemma MissingCharNotContained(s: string, sub: string, k: nat)
    requires k < |sub| && sub[k] !in s
    ensures !Contains(s, sub)
  {
    ContainsIff(s, sub);
    forall i | 0 <= i <= |s| - |sub| ensures !OccursAt(s, sub, i) {
      assert s[i..i + |sub|][k] == s[i + k] && s[i + k] in s;
    }
  }

  // ---------------------------------------------------------------------------
  // Splitting on one character (`s.split(sep)`) and joining back
  // ---------------------------------------------------------------------------

  /** `s.split(sep)`: the maximal pieces between separators, never fewer than one. */
  function Split(s: string, sep: char): (parts: seq<string>)
    ensures |parts| >= 1
    ensures forall i :: 0 <= i < |parts| ==> sep !in parts[i]
    decreases |s|
  {
    if |s| == 0 then [""]
    else
      var rest := Split(s[1..], sep);
      if s[0] == sep then [""] + rest
      else [[s[0]] + rest[0]] + rest[1..]
  }

  /** `sep.join(parts)`. */
  function Join(parts: seq<string>, sep: char): string
  {
    if |parts| == 0 then ""
    else if |parts| == 1 then parts[0]
    else parts[0] + [sep] + Join(parts[1..], sep)
  }

  /** Splitting loses nothing: joining the pieces with the separator gives the text back. */
  lemma {:induction false} SplitJoin(s: string, sep: char)
    ensures Join(Split(s, sep), sep) == s
    decreases |s|
  {
    if |s| > 0 {
      var rest := Split(s[1..], sep);
      SplitJoin(s[1..], sep);
      if s[0] == sep {
        assert ([""] + rest)[1..] == rest;
      } else if |rest| > 1 {
        var parts := [[s[0]] + rest[0]] + rest[1..];
        assert parts[1..] == rest[1..];
        assert Join(rest, sep) == rest[0] + [sep] + Join(rest[1..], sep);
        assert s == [s[0]] + s[1..];
      } else {
        assert s == [s[0]] + s[1..];
      }
    }
  }

  /** A text without the separator is a single piece. */
  lemma {:induction false} SplitWithoutSep(s: string, sep: char)
    requires sep !in s
    ensures Split(s, sep) == [s]
    decreases |s|
  {
    if |s| > 0 {
      SplitWithoutSep(s[1..], sep);
      assert [s[0]] + s[1..] == s;
    }
  }

  /** The first separator ends the first piece; the rest is split on its own. */
  lemma {:induction false} SplitAtFirst(a: string, sep: char, b: string)
    requires sep !in a
    ensures Split(a + [sep] + b, sep) == [a] + Split(b, sep)
    decreases |a|
  {
    if |a| == 0 {
      assert a + [sep] + b == [sep] + b;
      assert (a + [sep] + b)[1..] == b;
    } else {
      SplitAtFirst(a[1..], sep, b);
      assert (a + [sep] + b)[1..] == a[1..] + [sep] + b;
      assert [a[0]] + a[1..] == a;
    }
  }

  /**
   * Splitting text that arrives in two pieces: the finished pieces of the first stay as they
   * are, and its unfinished last piece is continued by the second.
   */
  lemma {:induction false} SplitAppend(a: string, b: string, sep: char)
    ensures var pa := Split(a, sep);
      Split(a + b, sep) == pa[..|pa| - 1] + Split(pa[|pa| - 1] + b, sep)
    decreases |a|
  {
    if |a| == 0 {
      assert a + b == b;
    } else {
      SplitAppend(a[1..], b, sep);
      if a[0] == sep {
        SplitAppendSep(a, b, sep);
      } else {
        SplitAppendOther(a, b, sep);
      }
    }
  }

  /** The step of `SplitAppend` for a text that starts with the separator: an empty piece goes first. */
  lemma SplitAppendSep(a: string, b: string, sep: char)
    requires |a| > 0 && a[0] == sep
    requires var sa := Split(a[1..], sep);
      Split(a[1..] + b, sep) == sa[..|sa| - 1] + Split(sa[|sa| - 1] + b, sep)
    ensures var pa := Split(a, sep);
      Split(a + b, sep) == pa[..|pa| - 1] + Split(pa[|pa| - 1] + b, sep)
  {
    var sa := Split(a[1..], sep);
    assert (a + b)[1..] == a[1..] + b;
    assert Split(a, sep) == [""] + sa;
    assert Split(a + b, sep) == [""] + Split(a[1..] + b, sep);
    SepPieces(sa, Split(sa[|sa| - 1] + b, sep));
  }

  /** The sequence algebra of `SplitAppendSep`: the empty piece stays in front. */
  lemma SepPieces(pt: seq<string>, tail: seq<string>)
    requires |pt| > 0
    ensures var pa := [""] + pt;
      [""] + (pt[..|pt| - 1] + tail) == pa[..|pa| - 1] + tail && pa[|pa| - 1] == pt[|pt| - 1]
  {
    var pa := [""] + pt;
    assert pa[..|pa| - 1] == [""] + pt[..|pt| - 1];
  }

  /** The step of `SplitAppend` for a text that starts with another character: it joins the first piece. */
  lemma SplitAppendOther(a: string, b: string, sep: char)
    requires |a| > 0 && a[0] != sep
    requires var sa := Split(a[1..], sep);
      Split(a[1..] + b, sep) == sa[..|sa| - 1] + Split(sa[|sa| - 1] + b, sep)
    ensures var pa := Split(a, sep);
      Split(a + b, sep) == pa[..|pa| - 1] + Split(pa[|pa| - 1] + b, sep)
  {
    var sa := Split(a[1..], sep);
    var tail := Split(sa[|sa| - 1] + b, sep);
    var r := Split(a[1..] + b, sep);
    assert (a + b)[1..] == a[1..] + b;
    assert Split(a, sep) == [[a[0]] + sa[0]] + sa[1..];
    assert Split(a + b, sep) == [[a[0]] + r[0]] + r[1..];
    if |sa| > 1 {
      ConsPieces([a[0]], sa, tail);
    } else {
      assert r == tail;
      JoinFirstPiece(a[0], sa[0], b, sep);
    }
  }

  /** A character other than the separator in front of a text joins the first piece of its split. */
  lemma JoinFirstPiece(c: char, p: string, b: string, sep: char)
    requires c != sep
    ensures var r := Split(p + b, sep); Split([c] + p + b, sep) == [[c] + r[0]] + r[1..]
  {
    var x := [c] + p + b;
    assert x[0] == c && x[1..] == p + b;
  }

  /** The sequence algebra of `SplitAppendOther` when the first piece is not the last: only the first piece grows. */
  lemma ConsPieces(h: string, pt: seq<string>, tail: seq<string>)
    requires |pt| > 1
    ensures var rest := pt[..|pt| - 1] + tail; var pa := [h + pt[0]] + pt[1..];
      [h + rest[0]] + rest[1..] == pa[..|pa| - 1] + tail && pa[|pa| - 1] == pt[|pt| - 1]
  {
    var rest := pt[..|pt| - 1] + tail;
    assert rest[0] == pt[0];
    assert rest[1..] == pt[1..|pt| - 1] + tail;
    var pa := [h + pt[0]] + pt[1..];
    assert pa[..|pa| - 1] == [h + pt[0]] + pt[1..|pt| - 1];
  }



  /** Whether `s` ends with `suffix` (`s.endswith(suffix)`). */
  predicate EndsWith(s: string, suffix: string)
  {
    |suffix| <= |s| && s[|s| - |suffix|..] == suffix
  }

  /** Where the first occurrence of `c` in `s` is (`s.index(c)`). */
  function IndexOf(s: string, c: char): (i: nat)
    requires c in s
    ensures i < |s| && s[i] == c && c !in s[..i]
    decreases |s|
  {
    if s[0] == c then 0 else 1 + IndexOf(s[1..], c)
  }

  // ---------------------------------------------------------------------------
  // Whitespace stripping (`s.strip()`)
  // ---------------------------------------------------------------------------

  /** Python's `str.isspace` characters, which `strip()` and `int()` remove. */
  predicate IsSpace(c: char)
  {
    c == ' ' || c == '\t' || c == '\n' || c == '\r' || c == '\U{B}' || c == '\U{C}'
    || ('\U{1C}' <= c <= '\U{1F}') || c == '\U{85}' || c == '\U{A0}' || c == '\U{1680}'
    || ('\U{2000}' <= c <= '\U{200A}') || c == '\U{2028}' || c == '\U{2029}'
    || c == '\U{202F}' || c == '\U{205F}' || c == '\U{3000}'
  }

  /** `s.lstrip()`: drops the leading whitespace and nothing else. */
  function StripStart(s: string): (r: string)
    ensures |r| <= |s| && r == s[|s| - |r|..]
    ensures forall i :: 0 <= i < |s| - |r| ==> IsSpace(s[i])
    ensures |r| > 0 ==> !IsSpace(r[0])
    decreases |s|
  {
    if |s| > 0 && IsSpace(s[0]) then StripStart(s[1..]) else s
  }

  /** `s.rstrip()`: drops the trailing whitespace and nothing else. */
  function StripEnd(s: string): (r: string)
    ensures |r| <= |s| && r == s[..|r|]
    ensures forall i :: |r| <= i < |s| ==> IsSpace(s[i])
    ensures |r| > 0 ==> !IsSpace(r[|r| - 1])
    decreases |s|
  {
    if |s| > 0 && IsSpace(s[|s| - 1]) then StripEnd(s[..|s| - 1]) else s
  }

  /** `s.strip()`. */
  function Strip(s: string): string
  {
    StripEnd(StripStart(s))
  }

  /** Dropping one trailing whitespace character from text that does not start with whitespace keeps its `strip()`. */
  lemma StripEndDrop(s: string)
    requires |s| > 0 && !IsSpace(s[0]) && IsSpace(s[|s| - 1])
    ensures Strip(s[..|s| - 1]) == Strip(s)
  {
  }

  /** Text that neither starts nor ends with whitespace is left as it is by `strip()`. */
  lemma StripUnpadded(s: string)
    requires |s| > 0 ==> !IsSpace(s[0]) && !IsSpace(s[|s| - 1])
    ensures Strip(s) == s
  {
  }

  // ---------------------------------------------------------------------------
  // Removal of every occurrence (`s.replace(pat, '')`)
  // ---------------------------------------------------------------------------

  /** `s.replace(pat, '')`: occurrences are removed scanning left to right, without overlap. */
  function RemoveAll(s: string, pat: string): (r: string)
    requires |pat| > 0
    ensures |r| <= |s|
    decreases |s|
  {
    if pat <= s then RemoveAll(s[|pat|..], pat)
    else if |s| == 0 then ""
    else [s[0]] + RemoveAll(s[1..], pat)
  }

  /** A text without an occurrence of `pat` is not changed by removing `pat`. */
  lemma {:induction false} RemoveAbsent(s: string, pat: string)
    requires |pat| > 0 && !Contains(s, pat)
    ensures RemoveAll(s, pat) == s
    decreases |s|
  {
    if |s| > 0 {
      RemoveAbsent(s[1..], pat);
      assert [s[0]] + s[1..] == s;
    }
  }

  // ---------------------------------------------------------------------------
  // Decimal integers (`int(s)` and `str(n)`)
  // ---------------------------------------------------------------------------

  predicate IsDigit(c: char)
  {
    '0' <= c <= '9'
  }

  predicate AllDigits(d: string)
  {
    forall i :: 0 <= i < |d| ==> IsDigit(d[i])
  }

  /** The value of a run of decimal digits, most significant first. */
  function DigitsValue(d: string): nat
    requires AllDigits(d)
    decreases |d|
  {
    if |d| == 0 then 0 else DigitsValue(d[..|d| - 1]) * 10 + (d[|d| - 1] as int - '0' as int)
  }

  /**
   * `int(s)` on text: surrounding whitespace is ignored, then an optional sign and at least one
   * decimal digit; anything else is the ValueError case (None).
   */
  function ParseInt(s: string): Option<int>
  {
    SignedInteger(Strip(s))
  }

  /** An optional sign, then at least one decimal digit. */
  function SignedInteger(t: string): Option<int>
  {
    if |t| > 0 && (t[0] == '-' || t[0] == '+') then
      var d := t[1..];
      if |d| > 0 && AllDigits(d) then
        var v: int := if t[0] == '-' then -(DigitsValue(d) as int) else DigitsValue(d);
        Some(v)
      else None
    else if |t| > 0 && AllDigits(t) then Some(DigitsValue(t))
    else None
  }

  // ---------------------------------------------------------------------------
  // Decimal fractions (`float(s)` on text)
  // ---------------------------------------------------------------------------

  /** The value of the digits after a decimal point: `0.d1d2...` is `(d1 + 0.d2...) / 10`. */
  function FractionValue(f: string): (x: real)
    requires AllDigits(f)
    ensures 0.0 <= x < 1.0
    decreases |f|
  {
    if |f| == 0 then 0.0 else ((f[0] as int - '0' as int) as real + FractionValue(f[1..])) / 10.0
  }

  /** The value of the numeral with integer digits `whole` and fraction digits `frac`. */
  function DecimalValue(whole: string, frac: string): real
    requires AllDigits(whole) && AllDigits(frac)
  {
    DigitsValue(whole) as real + FractionValue(frac)
  }

  /**
   * An unsigned decimal numeral: digits, optionally a point and more digits (`38`, `38.5`,
   * `38.`, `.5`), with at least one digit in all; anything else is None.
   */
  function UnsignedDecimal(u: string): Option<real>
  {
    var whole := if '.' in u then u[..IndexOf(u, '.')] else u;
    var frac := if '.' in u then u[IndexOf(u, '.') + 1..] else "";
    if AllDigits(whole) && AllDigits(frac) && |whole| + |frac| > 0 then
      Some(DecimalValue(whole, frac))
    else None
  }

  /** An optional sign, then an unsigned decimal numeral. */
  function SignedDecimal(t: string): Option<real>
  {
    if |t| > 0 && t[0] == '-' then
      match UnsignedDecimal(t[1..]) case Some(x) => Some(-x) case None => None
    else if |t| > 0 && t[0] == '+' then UnsignedDecimal(t[1..])
    else UnsignedDecimal(t)
  }

  /**
   * `float(s)` on decimal text: surrounding whitespace is skipped, then an optional sign and an
   * unsigned decimal numeral; anything else is the ValueError case (None).
   */
  function ParseFloat(s: string): Option<real>
    decreases |s|
  {
    if |s| > 0 && IsSpace(s[0]) then ParseFloat(s[1..])
    else if |s| > 0 && IsSpace(s[|s| - 1]) then ParseFloat(s[..|s| - 1])
    else SignedDecimal(s)
  }

  /** Text that neither starts nor ends with whitespace is read as it is. */
  lemma ParseFloatUnpadded(t: string)
    requires |t| > 0 && !IsSpace(t[0]) && !IsSpace(t[|t| - 1])
    ensures ParseFloat(t) == SignedDecimal(t)
  {
  }

  /** Skipping whitespace from both ends, in any order, is `strip()`. */
  lemma {:induction false} ParseFloatStrips(s: string)
    ensures ParseFloat(s) == SignedDecimal(Strip(s))
    decreases |s|
  {
    if |s| > 0 && IsSpace(s[0]) {
      ParseFloatStrips(s[1..]);
    } else if |s| > 0 && IsSpace(s[|s| - 1]) {
      ParseFloatStrips(s[..|s| - 1]);
      StripEndDrop(s);
    } else {
      StripUnpadded(s);
    }
  }

  /** Digits without a point read as a decimal numeral give their integer value. */
  lemma UnsignedDecimalOfDigits(d: string)
    requires |d| > 0 && AllDigits(d)
    ensures UnsignedDecimal(d) == Some(DigitsValue(d) as real)
  {
    assert '.' !in d;
  }

  /** `float(s) == int(s)` whenever `int()` accepts the text. */
  lemma ParseFloatExtendsParseInt(s: string)
    requires ParseInt(s).Some?
    ensures ParseFloat(s) == Some(ParseInt(s).value as real)
  {
    ParseFloatStrips(s);
    SignedDecimalExtendsInteger(Strip(s));
  }

  lemma SignedDecimalExtendsInteger(t: string)
    requires SignedInteger(t).Some?
    ensures SignedDecimal(t) == Some(SignedInteger(t).value as real)
  {
    if |t| > 0 && (t[0] == '-' || t[0] == '+') {
      UnsignedDecimalOfDigits(t[1..]);
    } else {
      UnsignedDecimalOfDigits(t);
    }
  }

  /** The numeral `w.f` of digits reads as `w` plus the fraction `0.f`. */
  lemma UnsignedDecimalFraction(whole: string, frac: string)
    requires AllDigits(whole) && AllDigits(frac) && |whole| > 0
    ensures UnsignedDecimal(whole + "." + frac) == Some(DecimalValue(whole, frac))
  {
    var u := whole + "." + frac;
    assert '.' in u && IndexOf(u, '.') == |whole| by {
      assert '.' !in whole;
      assert u[..|whole|] == whole;
      assert u[|whole|] == '.';
    }
    assert u[..|whole|] == whole && u[|whole| + 1..] == frac;
  }

  lemma SignedDecimalNegative(t: string)
    requires |t| > 0 && t[0] == '-'
    ensures SignedDecimal(t) == match UnsignedDecimal(t[1..]) case Some(x) => Some(-x) case None => None
  {
  }

  lemma SignedDecimalUnsigned(t: string)
    requires |t| > 0 && IsDigit(t[0])
    ensures SignedDecimal(t) == UnsignedDecimal(t)
  {
  }

  /** A numeral `w.f` of digits reads as `w` plus the fraction `0.f`. */
  lemma ParseFloatFraction(whole: string, frac: string)
    requires AllDigits(whole) && AllDigits(frac) && |whole| > 0
    ensures ParseFloat(whole + "." + frac) == Some(DecimalValue(whole, frac))
  {
    var u := whole + "." + frac;
    assert !IsSpace(u[0]) && !IsSpace(u[|u| - 1]) by {
      assert u[0] == whole[0];
      if |frac| > 0 {
        assert u[|u| - 1] == frac[|frac| - 1];
      }
    }
    ParseFloatUnpadded(u);
    UnsignedDecimalFraction(whole, frac);
    SignedDecimalUnsigned(u);
  }

  /** A minus sign before an unpadded numeral negates what `float()` reads, and is rejected with it. */
  lemma ParseFloatNegated(u: string)
    requires |u| > 0 && IsDigit(u[0]) && !IsSpace(u[|u| - 1])
    ensures ParseFloat("-" + u) == match ParseFloat(u) case Some(x) => Some(-x) case None => None
  {
    var s := "-" + u;
    assert ParseFloat(u) == UnsignedDecimal(u) by {
      ParseFloatUnpadded(u);
      SignedDecimalUnsigned(u);
    }
    assert ParseFloat(s) == match UnsignedDecimal(u) case Some(x) => Some(-x) case None => None by {
      assert s[|s| - 1] == u[|u| - 1] && s[1..] == u;
      ParseFloatUnpadded(s);
      SignedDecimalNegative(s);
    }
  }

  /** `str(n)` for a natural number: its decimal digits, no sign, no padding. */
  function NatToText(n: nat): (s: string)
    ensures |s| >= 1 && AllDigits(s) && DigitsValue(s) == n
    decreases n
  {
    if n < 10 then [('0' as int + n) as char]
    else
      var s := NatToText(n / 10) + [('0' as int + n % 10) as char];
      assert s[..|s| - 1] == NatToText(n / 10);
      s
  }

  /** `str(n)` for an integer. */
  function IntToText(n: int): (s: string)
    ensures |s| >= 1 && IsDigit(s[|s| - 1])
    ensures forall i :: 0 <= i < |s| ==> IsDigit(s[i]) || s[i] == '-'
  {
    if n < 0 then "-" + NatToText(-n) else NatToText(n)
  }

  /** Integer text holds only digits and a sign, so none of the given characters. */
  lemma IntTextLacks(n: int, c: char)
    requires !IsDigit(c) && c != '-'
    ensures c !in IntToText(n)
  {
  }

  /** `int(str(n)) == n`: the integer text the hub receives parses back to the same number. */
  lemma ParseIntRoundTrip(n: int)
    ensures ParseInt(IntToText(n)) == Some(n)
  {
    var s := IntToText(n);
    StripUnpadded(s);
    if n < 0 {
      assert s[1..] == NatToText(-n);
    }
  }
}
