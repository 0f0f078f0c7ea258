/** JSON scalars carried by an action, and the conversions the sources apply to them. */
module Scalars {
  import opened Wrappers

  // A float is known by what str() and int() make of it.
  datatype Scalar =
    | Text(text: string)
    | Number(number: int)
    | Flag(flag: bool)
    | Real(repr: string, truncated: Option<int>)
    | Null

  function Digits(n: nat): string {
    (if n < 10 then [] else Digits(n / 10)) + [('0' as int + n % 10) as char]
  }

  /** str() of an integer. */
  function IntText(n: int): string {
    if n < 0 then "-" + Digits(-n) else Digits(n)
  }

  /** str() of a scalar. */
  function StrOf(s: Scalar): string {
    match s
    case Text(t) => t
    case Number(n) => IntText(n)
    case Flag(b) => if b then "True" else "False"
    case Real(r, _) => r
    case Null => "None"
  }

  /** ",".join() */
  function Commas(texts: seq<string>): string {
    if texts == [] then "" else if |texts| == 1 then texts[0] else texts[0] + "," + Commas(texts[1..])
  }

  function UpToComma(text: string): (n: nat)
    ensures n <= |text|
  {
    if text == [] || text[0] == ',' then 0 else 1 + UpToComma(text[1..])
  }

  lemma {:induction false} FindsComma(text: string, rest: string)
    requires ',' !in text && (rest == [] || rest[0] == ',')
    ensures UpToComma(text + rest) == |text|
  {
    if text == [] {
      assert text + rest == rest;
    } else {
      assert (text + rest)[1..] == text[1..] + rest;
      FindsComma(text[1..], rest);
    }
  }

  // str.split(",")
  function Split(text: string): seq<string> {
    var n := UpToComma(text);
    if n == |text| then [text] else [text[..n]] + Split(text[n + 1..])
  }

  /** Texts without commas can be read back from what they were joined to. */
  lemma {:induction false} CommasSplit(texts: seq<string>)
    requires texts != [] && (forall t :: t in texts ==> ',' !in t)
    ensures Split(Commas(texts)) == texts
  {
    if |texts| == 1 {
      FindsComma(texts[0], []);
      assert texts[0] + [] == texts[0];
    } else {
      var rest := "," + Commas(texts[1..]);
      FindsComma(texts[0], rest);
      assert Commas(texts) == texts[0] + rest && rest[1..] == Commas(texts[1..]);
      CommasSplit(texts[1..]);
    }
  }

  // White space as str.isspace() knows it.
  predicate IsSpace(c: char) {
    || '\t' <= c <= '\r' || '\U{1C}' <= c <= ' ' || c == '\U{85}' || c == '\U{A0}' || c == '\U{1680}'
    || '\U{2000}' <= c <= '\U{200A}' || '\U{2028}' <= c <= '\U{2029}' || c == '\U{202F}' || c == '\U{205F}' || c == '\U{3000}'
  }

  // int() does not pass over the four separators among the control characters.
  predicate IsIntSpace(c: char) {
    IsSpace(c) && !('\U{1C}' <= c <= '\U{1F}')
  }

  function Trim(s: string, space: char -> bool): string {
    if s == [] then s
    else if space(s[0]) then Trim(s[1..], space)
    else if space(s[|s| - 1]) then Trim(s[..|s| - 1], space)
    else s
  }

  /** str.strip() */
  function Strip(s: string): string {
    Trim(s, IsSpace)
  }

  // Digits in which single underscores may separate two digits.
  function Magnitude(s: string): Option<nat>
  {
    if s == [] || !('0' <= s[|s| - 1] <= '9') then None
    else
      var last := (s[|s| - 1] as int) - ('0' as int);
      var rest := s[..|s| - 1];
      if rest == [] then Some(last)
      else
        var lead := if rest[|rest| - 1] == '_' then rest[..|rest| - 1] else rest;
        match Magnitude(lead)
        case None => None
        case Some(n) => Some(10 * n + last)
  }

  function ParseInt(s: string): Option<int> {
    var t := Trim(s, IsIntSpace);
    if t == [] then None
    else if t[0] == '-' then
      var m := Magnitude(t[1..]);
      if m.None? then None else Some(0 - m.value as int)
    else if t[0] == '+' then Magnitude(t[1..])
    else Magnitude(t)
  }

  /** int() of a scalar; None where it raises. */
  function IntOf(s: Scalar): Option<int> {
    match s
    case Text(t) => ParseInt(t)
    case Number(n) => Some(n)
    case Flag(b) => Some(if b then 1 else 0)
    case Real(_, whole) => whole
    case Null => None
  }
}
