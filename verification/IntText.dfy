/** The numbers that int() and long() read from text: white space around them, a sign with
    white space behind it, decimal digits and, for long() alone, one trailing L. */
module IntText {
  import opened Decimal
  import opened Text
  import opened Wrappers

  function Signed(t: string): Option<int> {
    if t != "" && (t[0] == '-' || t[0] == '+') then
      var digits := StripLeft(t[1..]);
      if !IsNumeral(digits) then None
      else if t[0] == '-' then Some(-(Val(digits) as int)) else Some(Val(digits))
    else if IsNumeral(t) then Some(Val(t))
    else None
  }

  function ReadInt(s: string): Option<int> {
    Signed(Strip(s))
  }

  function ReadLong(s: string): Option<int> {
    var t := Strip(s);
    if t != "" && (t[|t| - 1] == 'L' || t[|t| - 1] == 'l') then Signed(t[..|t| - 1]) else Signed(t)
  }

  /** Plain digits have the value one expects, for both. */
  lemma ReadNumeral(s: string)
    requires IsNumeral(s)
    ensures ReadInt(s) == Some(Val(s)) && ReadLong(s) == Some(Val(s))
  {
    assert IsDigit(s[0]) && IsDigit(s[|s| - 1]);
    StripLine(s);
  }

  /** What str() writes for a negative number. */
  lemma ReadNegative(s: string)
    requires IsNumeral(s)
    ensures ReadInt("-" + s) == Some(-(Val(s) as int))
  {
    assert IsDigit(s[0]) && IsDigit(s[|s| - 1]);
    assert ("-" + s)[1..] == s;
    StripLine("-" + s);
  }

  lemma SignedDigits(x: string, digits: string)
    requires AllSpace(x) && IsNumeral(digits)
    ensures Signed("-" + x + digits) == Some(-(Val(digits) as int)) && Signed("+" + x + digits) == Some(Val(digits))
  {
    assert IsDigit(digits[0]);
    StripLeftSpace(x, digits);
    assert ("-" + x + digits)[1..] == x + digits && ("+" + x + digits)[1..] == x + digits;
  }

  /** White space around a number, and between its sign and its digits, changes nothing; one L
      behind it is for long() only. */
  lemma ReadSpelled(u: string, sign: char, x: string, digits: string, v: string)
    requires AllSpace(u) && AllSpace(x) && AllSpace(v) && IsNumeral(digits) && (sign == '-' || sign == '+')
    ensures var n := if sign == '-' then -(Val(digits) as int) else Val(digits) as int;
            && ReadInt(u + ([sign] + x + digits) + v) == ReadLong(u + ([sign] + x + digits) + v) == Some(n)
            && ReadLong(u + ([sign] + x + digits + "L") + v) == Some(n)
  {
    var t := [sign] + x + digits;
    assert IsDigit(digits[|digits| - 1]) && t[|t| - 1] == digits[|digits| - 1];
    StripSpace(u, t, v);
    StripSpace(u, t + "L", v);
    assert (t + "L")[..|t|] == t;
    SignedDigits(x, digits);
    assert [sign] == "-" || [sign] == "+";
  }
}
