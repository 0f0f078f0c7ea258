/** What int() and str() make of texts, flags and null. */
module Numerals {
  import opened Wrappers
  import opened Scalars

  predicate IsDigit(c: char) { '0' <= c <= '9' }

  // A digit, or an underscore after the first character and before a digit.
  predicate Fitting(s: string, i: nat)
    requires i < |s|
  {
    IsDigit(s[i]) || (s[i] == '_' && 0 < i < |s| - 1 && IsDigit(s[i + 1]))
  }

  // Digits, with single underscores between two of them.
  predicate IsNumeral(s: string) {
    s != [] && forall i :: 0 <= i < |s| ==> Fitting(s, i)
  }

  // The number its digits make up, read from the left.
  function ValueOf(s: string): nat {
    if s == [] then 0
    else
      var rest := ValueOf(s[..|s| - 1]);
      if IsDigit(s[|s| - 1]) then 10 * rest + (s[|s| - 1] as int - '0' as int) else rest
  }

  lemma ShorterNumeral(s: string, lead: string)
    requires s != [] && IsDigit(s[|s| - 1])
    requires lead == (if |s| > 1 && s[|s| - 2] == '_' then s[..|s| - 2] else s[..|s| - 1])
    ensures IsNumeral(s) <==> s[..|s| - 1] == [] || IsNumeral(lead)
  {
    if IsNumeral(s) && |s| > 1 {
      assert Fitting(s, |s| - 2);
      if s[|s| - 2] == '_' { assert Fitting(s, |s| - 3); }
      forall i | 0 <= i < |lead| ensures Fitting(lead, i) { assert Fitting(s, i) && s[i] == lead[i]; }
    }
    if |s| > 1 && IsNumeral(lead) {
      forall i | 0 <= i < |s| ensures Fitting(s, i) {
        if i < |lead| { assert Fitting(lead, i) && s[i] == lead[i]; }
      }
    }
  }

  /** A magnitude is read exactly from a numeral, and is the number its digits make up. */
  lemma {:induction false} MagnitudeExactly(s: string)
    ensures Magnitude(s).Some? <==> IsNumeral(s)
    ensures IsNumeral(s) ==> Magnitude(s) == Some(ValueOf(s))
  {
    if IsNumeral(s) { assert Fitting(s, |s| - 1); }
    if s != [] && IsDigit(s[|s| - 1]) {
      var rest := s[..|s| - 1];
      var lead := if rest != [] && rest[|rest| - 1] == '_' then rest[..|rest| - 1] else rest;
      assert lead == if |s| > 1 && s[|s| - 2] == '_' then s[..|s| - 2] else s[..|s| - 1];
      ShorterNumeral(s, lead);
      MagnitudeExactly(lead);
    }
  }

  predicate AllSpace(s: string, space: char -> bool) { forall c :: c in s ==> space(c) }

  lemma {:induction false} TrimsTo(lead: string, core: string, trail: string, space: char -> bool)
    requires AllSpace(lead, space) && AllSpace(trail, space)
    requires core != [] && !space(core[0]) && !space(core[|core| - 1])
    ensures Trim(lead + core + trail, space) == core
    decreases |lead| + |trail|
  {
    var s := lead + core + trail;
    if lead != [] {
      assert s[1..] == lead[1..] + core + trail;
      TrimsTo(lead[1..], core, trail, space);
    } else if trail != [] {
      assert s[0] == core[0] && s[|s| - 1] == trail[|trail| - 1];
      assert s[..|s| - 1] == lead + core + trail[..|trail| - 1];
      TrimsTo(lead, core, trail[..|trail| - 1], space);
    } else {
      assert s == core;
    }
  }

  function Signed(sign: string, n: nat): int {
    if sign == "-" then -(n as int) else n
  }

  /** int() passes over white space around a numeral and heeds its sign. */
  lemma IntReads(lead: string, sign: string, numeral: string, trail: string)
    requires AllSpace(lead, IsIntSpace) && AllSpace(trail, IsIntSpace) && IsNumeral(numeral)
    requires sign == "" || sign == "+" || sign == "-"
    ensures IntOf(Text(lead + (sign + numeral) + trail)) == Some(Signed(sign, ValueOf(numeral)))
  {
    hide Magnitude, Trim;
    var core := sign + numeral;
    assert Fitting(numeral, 0) && Fitting(numeral, |numeral| - 1);
    assert core[|core| - 1] == numeral[|numeral| - 1];
    TrimsTo(lead, core, trail, IsIntSpace);
    MagnitudeExactly(numeral);
    if sign == "" { assert core == numeral; } else { assert core[0] == sign[0] && core[1..] == numeral; }
  }

  // Digits only, and no zero in front of others.
  predicate IsPlain(s: string) {
    s != [] && (forall i :: 0 <= i < |s| ==> IsDigit(s[i])) && (s[0] == '0' ==> |s| == 1)
  }

  lemma {:induction false} DigitsWritten(n: nat)
    ensures IsPlain(Digits(n)) && ValueOf(Digits(n)) == n
    ensures n > 0 ==> Digits(n)[0] != '0'
  {
    var d := Digits(n);
    if n >= 10 {
      DigitsWritten(n / 10);
      assert d[..|d| - 1] == Digits(n / 10);
    } else {
      assert d[..|d| - 1] == [];
    }
  }

  /** str() writes a number as its plain digits, with a minus sign exactly if it is negative. */
  lemma IntWritten(n: int)
    ensures var text := IntText(n);
      if n < 0 then "-" <= text && IsPlain(text[1..]) && ValueOf(text[1..]) == -n else IsPlain(text) && ValueOf(text) == n
  {
    hide Digits, IsPlain;
    DigitsWritten(if n < 0 then -n else n);
    if n < 0 { assert IntText(n)[1..] == Digits(-n); }
  }

  // bool is a kind of int, with names of its own.
  lemma FlagsAndNull(b: bool)
    ensures StrOf(Flag(b)) == (if b then "True" else "False") && StrOf(Null) == "None"
    ensures IntOf(Flag(b)) == IntOf(Number(if b then 1 else 0)) && IntOf(Null) == None
  {
  }
}
