/** Unsigned 64-bit numbers as Git prints them and the program reads them. */
module GitNumbers {
  import opened Wrappers
  import opened PathText

  const U64: nat := 0x1_0000_0000_0000_0000

  function WithoutPlus(text: string): string {
    if text != "" && text[0] == '+' then text[1..] else text
  }

  predicate AllDigits(text: string) {
    text != "" && forall i :: 0 <= i < |text| ==> Digit(text[i])
  }

  /** An optional plus sign, at least one digit, nothing else, and no overflow. */
  function ParseU64(text: string): (number: Option<nat>)
    ensures number.Some? ==> number.value < U64
    ensures number.Some? ==> text != "" && (Digit(text[0]) || text[0] == '+')
  {
    var digits := WithoutPlus(text);
    if !AllDigits(digits) then None
    else
      assert Digit(digits[0]);
      if DigitsValue(digits) < U64 then Some(DigitsValue(digits)) else None
  }

  lemma ParseU64OfDecimal(n: nat)
    ensures ParseU64(Decimal(n)) == if n < U64 then Some(n) else None
  {
    DecimalValue(n);
    assert Digit(Decimal(n)[0]);
  }

  /** The number, or the largest that fits. */
  function Saturated(n: nat): nat {
    if n < U64 then n else U64 - 1
  }

  function SaturatingAdd(a: nat, b: nat): nat {
    if a + b < U64 then a + b else U64 - 1
  }

  /** The text before the first separator, or all of it. */
  function Before(text: string, separator: char): (head: string)
    ensures separator !in head
  {
    if text == "" || text[0] == separator then "" else [text[0]] + Before(text[1..], separator)
  }

  /** The text after the first separator, if there is one. */
  function After(text: string, separator: char): Option<string> {
    if text == "" then None
    else if text[0] == separator then Some(text[1..])
    else After(text[1..], separator)
  }

  lemma {:induction false} AfterShorter(text: string, separator: char)
    ensures After(text, separator).Some? ==> |After(text, separator).value| < |text|
  {
    if text != "" && text[0] != separator { AfterShorter(text[1..], separator); }
  }

  lemma {:induction false} CutAtSeparator(head: string, separator: char, tail: string)
    requires separator !in head
    ensures Before(head + [separator] + tail, separator) == head
    ensures After(head + [separator] + tail, separator) == Some(tail)
  {
    var text := head + [separator] + tail;
    if head == "" {
      assert text[1..] == tail;
    } else {
      assert text[1..] == head[1..] + [separator] + tail;
      CutAtSeparator(head[1..], separator, tail);
      assert head == [head[0]] + head[1..];
    }
  }

  lemma {:induction false} NoSeparator(text: string, separator: char)
    requires separator !in text
    ensures Before(text, separator) == text && After(text, separator).None?
  {
    if text != "" {
      NoSeparator(text[1..], separator);
    }
  }

  lemma DecimalPlain(n: nat, c: char)
    requires !Digit(c)
    ensures c !in Decimal(n)
  {
  }

  /** A text without the separator is all before it; any other is what is before, the separator and what is after. */
  lemma {:induction false} CutMeans(text: string, separator: char)
    ensures After(text, separator).None? ==> separator !in text && Before(text, separator) == text
    ensures After(text, separator).Some? ==> text == Before(text, separator) + [separator] + After(text, separator).value
  {
    if text != "" {
      assert text == [text[0]] + text[1..];
      if text[0] != separator { CutMeans(text[1..], separator); }
    }
  }

  /** A number is read exactly from digits, perhaps with a plus sign before them, whose value fits. */
  lemma ParseU64Iff(text: string, n: nat)
    ensures ParseU64(text) == Some(n) <==>
              n < U64 && exists digits :: (text == digits || text == "+" + digits) && AllDigits(digits)
                                          && DigitsValue(digits) == n
  {
    var read := WithoutPlus(text);
    assert text != "" && text[0] == '+' ==> text == "+" + read;
    forall digits | (text == digits || text == "+" + digits) && AllDigits(digits)
      ensures digits == read
    {
      assert Digit(digits[0]);
      assert text == "+" + digits ==> text[0] == '+' && text[1..] == digits;
    }
  }
}
