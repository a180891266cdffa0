/**
 * The value tree the renderer consumes (the `toml::Value` sum type matched at
 * src/lib.rs:90-116) and the decimal text of a 64-bit integer
 * (`i.to_string()`, src/lib.rs:92).
 */
module Values {
  import opened Wrappers

  /** A signed 64-bit integer, as `toml::Value::Integer` holds. */
  newtype i64 = x: int | -0x8000_0000_0000_0000 <= x < 0x8000_0000_0000_0000

  /**
   * A parsed TOML value. A float and a datetime carry the text their own
   * formatters produce; a table is the ordered list of its entries in
   * document order.
   */
  datatype Value =
    | Str(s: string)
    | Int(i: i64)
    | Flt(text: string)
    | Bool(b: bool)
    | Datetime(text: string)
    | Array(items: seq<Value>)
    | Table(entries: seq<(string, Value)>)

  predicate IsDigit(c: char) {
    '0' <= c <= '9'
  }

  function DigitChar(d: nat): (c: char)
    requires d < 10
    ensures IsDigit(c) && c as int - '0' as int == d
  {
    (d + '0' as int) as char
  }

  /** The decimal digits of `n`, most significant first, without leading zeros. */
  function Digits(n: nat): string
    decreases n
  {
    if n < 10 then [DigitChar(n)] else Digits(n / 10) + [DigitChar(n % 10)]
  }

  /** The text `Display` gives an integer: a minus sign only for a negative
      value, then the digits of its magnitude. */
  function IntText(i: int): string {
    if i < 0 then "-" + Digits(-i) else Digits(i)
  }

  /** The value of a non-empty string of digits; `None` for anything else. */
  function DigitsValue(s: string): Option<nat>
    decreases |s|
  {
    if s == [] || !IsDigit(s[|s| - 1]) then None
    else if |s| == 1 then Some(s[0] as int - '0' as int)
    else
      var high :- DigitsValue(s[..|s| - 1]);
      Some(high * 10 + (s[|s| - 1] as int - '0' as int))
  }

  /** Reads a decimal integer with an optional leading minus sign. */
  function IntValue(s: string): Option<int> {
    if |s| > 0 && s[0] == '-' then
      var m :- DigitsValue(s[1..]);
      Some(-(m as int))
    else
      var m :- DigitsValue(s);
      Some(m as int)
  }

  /** The digits of `n` are digits, have no leading zero and read back as `n`. */
  lemma {:induction false} DigitsCorrect(n: nat)
    ensures |Digits(n)| > 0
    ensures forall k | 0 <= k < |Digits(n)| :: IsDigit(Digits(n)[k])
    ensures |Digits(n)| > 1 ==> Digits(n)[0] != '0'
    ensures DigitsValue(Digits(n)) == Some(n)
    decreases n
  {
    if n >= 10 {
      DigitsCorrect(n / 10);
      var d := Digits(n);
      assert d[..|d| - 1] == Digits(n / 10);
      assert d[0] == Digits(n / 10)[0];
    }
  }

  /** The integer text starts with `-` exactly when the integer is negative,
      and every other character is a digit. */
  lemma IntTextShape(i: int)
    ensures |IntText(i)| > 0
    ensures IntText(i)[0] == '-' <==> i < 0
    ensures forall k | 0 <= k < |IntText(i)| :: IsDigit(IntText(i)[k]) || (k == 0 && i < 0)
  {
    if i < 0 {
      DigitsCorrect(-i);
      forall k | 1 <= k < |IntText(i)| ensures IsDigit(IntText(i)[k]) {
        assert IntText(i)[k] == Digits(-i)[k - 1];
      }
    } else {
      DigitsCorrect(i);
    }
  }

  /** The integer text reads back as the same integer. */
  lemma IntTextRoundTrip(i: int)
    ensures IntValue(IntText(i)) == Some(i)
  {
    if i < 0 {
      DigitsCorrect(-i);
      assert IntText(i)[1..] == Digits(-i);
    } else {
      DigitsCorrect(i);
      assert IsDigit(IntText(i)[0]);
    }
  }
}
