/**
 * Decimal text of whole numbers: how the handler turns an amount typed by the
 * reporter into a number (`Number(text)` after `^\d+$` matched) and how chat ids
 * travel through callback payloads (`${chatId}` out, `Number(targetChat)` back).
 */
module Numbers {
  import opened Wrappers
  import opened Text

  function DigitValue(c: char): nat
    requires IsDigit(c)
  {
    c as int - '0' as int
  }

  function DigitChar(d: nat): (c: char)
    requires d < 10
    ensures IsDigit(c) && DigitValue(c) == d
  {
    ('0' as int + d) as char
  }

  /** The decimal value of a string of ASCII digits (leading zeros allowed). */
  function ParseDigits(s: string): nat
    requires forall i :: 0 <= i < |s| ==> IsDigit(s[i])
  {
    if |s| == 0 then 0 else ParseDigits(s[..|s| - 1]) * 10 + DigitValue(s[|s| - 1])
  }

  /**
   * The decimal rendering of `n`: non-empty digits, no leading zero unless `n` is
   * zero, and reading it back gives `n`.
   */
  function NatToString(n: nat): (s: string)
    ensures IsDigits(s)
    ensures s[0] != '0' || s == "0"
    ensures ParseDigits(s) == n
  {
    if n < 10 then [DigitChar(n)]
    else
      var prefix := NatToString(n / 10);
      var s := prefix + [DigitChar(n % 10)];
      assert s[..|s| - 1] == prefix;
      s
  }

  lemma {:induction false} ParseDigitsPositive(s: string)
    requires IsDigits(s) && s[0] != '0'
    ensures ParseDigits(s) > 0
    decreases |s|
  {
    if |s| > 1 {
      ParseDigitsPositive(s[..|s| - 1]);
    }
  }

  /** A canonical digit string (no leading zero) is the rendering of its own value. */
  lemma {:induction false} ParseDigitsRendersBack(s: string)
    requires IsDigits(s) && (s[0] != '0' || |s| == 1)
    ensures NatToString(ParseDigits(s)) == s
    decreases |s|
  {
    if |s| > 1 {
      var prefix := s[..|s| - 1];
      ParseDigitsPositive(prefix);
      ParseDigitsRendersBack(prefix);
      var n := ParseDigits(s);
      assert n / 10 == ParseDigits(prefix) && n % 10 == DigitValue(s[|s| - 1]);
      assert s == prefix + [s[|s| - 1]];
    }
  }

  /** `String(n)` for an integer chat id: an optional `-` followed by digits. */
  function IntToString(n: int): (s: string)
    ensures forall i :: 0 <= i < |s| ==> IsDigit(s[i]) || s[i] == '-'
  {
    if n < 0 then "-" + NatToString(-n) else NatToString(n)
  }

  /**
   * `Number(s)` restricted to decimal integers: an optional `-` and one or more
   * digits; anything else gives no number.
   */
  function ParseInt(s: string): Option<int>
  {
    if |s| > 0 && s[0] == '-' && IsDigits(s[1..]) then Some(-(ParseDigits(s[1..]) as int))
    else if IsDigits(s) then Some(ParseDigits(s) as int)
    else None
  }

  /** A chat id written into a payload is read back unchanged. */
  lemma IntToStringRoundTrip(n: int)
    ensures ParseInt(IntToString(n)) == Some(n)
    ensures ':' !in IntToString(n)
  {
    var s := IntToString(n);
    if n < 0 {
      assert s[1..] == NatToString(-n);
    } else {
      assert s[0] != '-';
    }
  }
}
