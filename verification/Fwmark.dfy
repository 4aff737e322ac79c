/** The firewall-mark parser: an unsigned 32-bit number whose base its prefix tells. */
module Fwmark {
  import opened Core

  datatype ParseError = Syntax | Range

  const U32_MAX: nat := 0xFFFF_FFFF

  /** The digit a character stands for in base 36; 36 for any other character. */
  function DigitOf(c: char): (d: nat)
    ensures d <= 36
  {
    if '0' <= c <= '9' then c as int - '0' as int
    else if 'a' <= c <= 'z' then c as int - 'a' as int + 10
    else if 'A' <= c <= 'Z' then c as int - 'A' as int + 10
    else 36
  }

  predicate Base(radix: nat) {
    radix == 2 || radix == 8 || radix == 10 || radix == 16
  }

  // ---------------------------------------------------------------- the grammar

  /** A numeral is a digit, a numeral and a digit, or a numeral, an underscore and a digit. */
  predicate Numeral(text: string, radix: nat) {
    && text != []
    && DigitOf(text[|text| - 1]) < radix
    && (|text| == 1
        || Numeral(text[..|text| - 1], radix)
        || (text[|text| - 2] == '_' && Numeral(text[..|text| - 2], radix)))
  }

  /** The unbounded value of the digits, underscores left out. */
  function Value(text: string, radix: nat): nat {
    if text == [] then 0
    else
      var last := text[|text| - 1];
      var before := Value(text[..|text| - 1], radix);
      if last == '_' then before else before * radix + DigitOf(last)
  }

  /** Some numeral may begin like this. */
  predicate Viable(text: string, radix: nat) {
    text == [] || Numeral(text, radix) || (text[|text| - 1] == '_' && Numeral(text[..|text| - 1], radix))
  }

  lemma {:induction false} BeginningsViable(text: string, n: nat, radix: nat)
    requires Base(radix) && n <= |text| && Viable(text, radix)
    ensures Viable(text[..n], radix)
    decreases |text|
  {
    if n == |text| {
      TakeAll(text);
    } else {
      var shorter := text[..|text| - 1];
      assert shorter[..n] == text[..n];
      assert |text| >= 2 ==> shorter[..|shorter| - 1] == text[..|text| - 2];
      BeginningsViable(shorter, n, radix);
    }
  }

  /** What one more character makes of a beginning. */
  lemma {:induction false} OneMore(before: string, c: char, radix: nat)
    requires Base(radix)
    ensures Numeral(before + [c], radix) <==> DigitOf(c) < radix && Viable(before, radix)
    ensures Viable(before + [c], radix) <==> Numeral(before + [c], radix) || (c == '_' && Numeral(before, radix))
    ensures Value(before + [c], radix) ==
      if c == '_' then Value(before, radix) else Value(before, radix) * radix + DigitOf(c)
  {
    var now := before + [c];
    assert now[..|before|] == before;
    assert before != [] ==> now[..|before| - 1] == before[..|before| - 1];
  }

  /** What a numeral is read as. */
  function Reading(text: string, radix: nat): Result<nat, ParseError> {
    if !Numeral(text, radix) then Err(Syntax)
    else if Value(text, radix) <= U32_MAX then Ok(Value(text, radix))
    else Err(Range)
  }

  // ---------------------------------------------------------------- the parser

  /** One checked step of the 64-bit accumulator: none if it would overflow. */
  function CheckedStep(value: nat, radix: nat, digit: nat): Option<nat> {
    if value * radix > 0xFFFF_FFFF_FFFF_FFFF || value * radix + digit > 0xFFFF_FFFF_FFFF_FFFF then None
    else Some(value * radix + digit)
  }

  /** The 64-bit step cannot fail while the value fits 32 bits, and a step never makes the value smaller. */
  lemma {:induction false} StepFits(value: nat, radix: nat, digit: nat)
    requires Base(radix) && digit < radix
    ensures value <= U32_MAX ==> CheckedStep(value, radix, digit) == Some(value * radix + digit)
    ensures value * radix + digit >= value
  {
    if radix == 2 {
    } else if radix == 8 {
    } else if radix == 10 {
    } else {
    }
  }

  method ParseDigits(digits: string, radix: nat) returns (r: Result<nat, ParseError>)
    requires Base(radix)
    ensures r == Reading(digits, radix)
  {
    var value: nat, seenDigit, previousWasDigit, overflowed := 0, false, false, false;
    ghost var done: string := [];
    for i := 0 to |digits|
      invariant done == digits[..i]
      invariant previousWasDigit == Numeral(done, radix) && Viable(done, radix)
      invariant seenDigit == (i > 0)
      invariant if overflowed then Value(done, radix) > U32_MAX else value == Value(done, radix) <= U32_MAX
    {
      var c := digits[i];
      OneMore(done, c, radix);
      ghost var before := Value(done, radix);
      done := done + [c];
      assert done == digits[..i + 1];
      if c == '_' {
        if !previousWasDigit {
          Hopeless(digits, i + 1, radix);
          return Err(Syntax);
        }
        previousWasDigit := false;
        continue;
      }
      var digit := DigitOf(c);
      if digit >= radix {
        Hopeless(digits, i + 1, radix);
        return Err(Syntax);
      }
      StepFits(before, radix, digit);
      if !overflowed {
        var next := CheckedStep(value, radix, digit);
        if next.Some? && next.value <= U32_MAX {
          value := next.value;
        } else {
          overflowed := true;
        }
      }
      seenDigit := true;
      previousWasDigit := true;
    }
    TakeAll(digits);
    if !seenDigit || !previousWasDigit {
      return Err(Syntax);
    }
    if overflowed {
      return Err(Range);
    }
    return Ok(value);
  }

  lemma {:induction false} Hopeless(digits: string, n: nat, radix: nat)
    requires Base(radix) && n <= |digits| && !Viable(digits[..n], radix)
    ensures !Numeral(digits, radix)
  {
    if Numeral(digits, radix) {
      BeginningsViable(digits, n, radix);
    }
  }

  datatype Literal = Literal(digits: string, radix: nat)

  predicate Prefixed(text: string, lower: char, upper: char) {
    |text| >= 2 && text[0] == '0' && (text[1] == lower || text[1] == upper)
  }

  /** The digits of a number and the base its prefix selects. */
  function SplitBase(text: string): (literal: Option<Literal>)
    ensures literal.Some? <==> text != []
    ensures literal.Some? ==> Base(literal.value.radix)
  {
    if text == [] then None
    else if Prefixed(text, 'x', 'X') then Some(Literal(text[2..], 16))
    else if Prefixed(text, 'b', 'B') then Some(Literal(text[2..], 2))
    else if Prefixed(text, 'o', 'O') then Some(Literal(text[2..], 8))
    else if |text| > 1 && text[0] == '0' then Some(Literal(text[1..], 8))
    else Some(Literal(text, 10))
  }

  /** What the text means, if anything. */
  function Meaning(text: string): Result<nat, ParseError> {
    var literal := SplitBase(text);
    if literal.None? then Err(Syntax) else Reading(literal.value.digits, literal.value.radix)
  }

  method ParseU32Base0(text: string) returns (r: Result<nat, ParseError>)
    ensures r == Meaning(text)
  {
    var literal := SplitBase(text);
    if literal.None? {
      return Err(Syntax);
    }
    r := ParseDigits(literal.value.digits, literal.value.radix);
  }

  // ---------------------------------------------------------------- printing and reading back

  function Printed(digit: nat): (c: char)
    requires digit < 36
    ensures DigitOf(c) == digit && c != '_'
    ensures c == '0' <==> digit == 0
  {
    if digit < 10 then ('0' as int + digit) as char else ('a' as int + digit - 10) as char
  }

  /** The digits of a number, without leading zeros. */
  function Digits(value: nat, radix: nat): string
    requires Base(radix)
    decreases value
  {
    if value < radix then [Printed(value)]
    else
      Smaller(value, radix);
      Digits(value / radix, radix) + [Printed(value % radix)]
  }

  lemma {:induction false} Smaller(value: nat, radix: nat)
    requires Base(radix) && value >= radix
    ensures 0 < value / radix < value && value / radix * radix + value % radix == value
  {
    if radix == 2 {
    } else if radix == 8 {
    } else if radix == 10 {
    } else {
    }
  }

  /** A printed number is a numeral with that value, and starts with a zero only if it is zero. */
  lemma {:induction false} DigitsRead(value: nat, radix: nat)
    requires Base(radix)
    ensures Numeral(Digits(value, radix), radix) && Value(Digits(value, radix), radix) == value
    ensures Digits(value, radix)[0] == '0' <==> value == 0
    ensures value < radix ==> |Digits(value, radix)| == 1
    decreases value
  {
    var digits := Digits(value, radix);
    if value < radix {
      assert digits[..0] == [];
    } else {
      Smaller(value, radix);
      DigitsRead(value / radix, radix);
      assert digits[..|digits| - 1] == Digits(value / radix, radix);
    }
  }

  /** The prefixes select the base; a plain zero before octal digits is one of them. */
  lemma {:induction false} PrefixesSplit(digits: string)
    ensures SplitBase("0x" + digits) == Some(Literal(digits, 16)) && SplitBase("0X" + digits) == Some(Literal(digits, 16))
    ensures SplitBase("0b" + digits) == Some(Literal(digits, 2)) && SplitBase("0B" + digits) == Some(Literal(digits, 2))
    ensures SplitBase("0o" + digits) == Some(Literal(digits, 8)) && SplitBase("0O" + digits) == Some(Literal(digits, 8))
    ensures digits != [] && DigitOf(digits[0]) < 8 ==> SplitBase("0" + digits) == Some(Literal(digits, 8))
  {
    assert ("0x" + digits)[2..] == digits && ("0X" + digits)[2..] == digits;
    assert ("0b" + digits)[2..] == digits && ("0B" + digits)[2..] == digits;
    assert ("0o" + digits)[2..] == digits && ("0O" + digits)[2..] == digits;
    assert ("0" + digits)[1..] == digits;
  }

  lemma {:induction false} SplitReads(text: string, value: nat, radix: nat)
    requires Base(radix) && SplitBase(text) == Some(Literal(Digits(value, radix), radix))
    ensures Meaning(text) == ReadBack(value)
  {
    DigitsRead(value, radix);
  }

  /** What the spelling of a value should be read as. */
  function ReadBack(value: nat): Result<nat, ParseError> {
    if value < 0x1_0000_0000 then Ok(value) else Err(Range)
  }

  /** Every 32-bit value is read back from each of its spellings, and greater ones are out of range. */
  lemma {:induction false} SpellingsRead(value: nat)
    ensures Meaning(Digits(value, 10)) == ReadBack(value)
    ensures Meaning("0x" + Digits(value, 16)) == ReadBack(value)
    ensures Meaning("0b" + Digits(value, 2)) == ReadBack(value)
    ensures Meaning("0o" + Digits(value, 8)) == ReadBack(value)
    ensures Meaning("0" + Digits(value, 8)) == ReadBack(value)
  {
    DecimalSplits(value);
    SplitReads(Digits(value, 10), value, 10);
    PrefixesSplit(Digits(value, 16));
    SplitReads("0x" + Digits(value, 16), value, 16);
    PrefixesSplit(Digits(value, 2));
    SplitReads("0b" + Digits(value, 2), value, 2);
    PrefixesSplit(Digits(value, 8));
    SplitReads("0o" + Digits(value, 8), value, 8);
    FirstDigit(value);
    SplitReads("0" + Digits(value, 8), value, 8);
  }

  lemma {:induction false} DecimalSplits(value: nat)
    ensures SplitBase(Digits(value, 10)) == Some(Literal(Digits(value, 10), 10))
  {
    DigitsRead(value, 10);
  }

  /** An octal numeral begins with an octal digit, so a plain zero before it is not mistaken for a prefix. */
  lemma {:induction false} FirstDigit(value: nat)
    ensures DigitOf(Digits(value, 8)[0]) < 8
    decreases value
  {
    if value >= 8 {
      FirstDigit(value / 8);
    }
  }

  // ---------------------------------------------------------------- what is refused, and what makes no difference

  lemma {:induction false} FirstMustBeDigit(text: string, radix: nat)
    requires Base(radix) && Numeral(text, radix)
    ensures DigitOf(text[0]) < radix
  {
    if |text| > 1 {
      if Numeral(text[..|text| - 1], radix) {
        FirstMustBeDigit(text[..|text| - 1], radix);
      } else {
        FirstMustBeDigit(text[..|text| - 2], radix);
      }
    }
  }

  /** Digits with single underscores between them: none in front, none behind, no two together. */
  ghost predicate WellSpaced(text: string, radix: nat) {
    && text != [] && text[0] != '_' && text[|text| - 1] != '_'
    && (forall i :: 0 <= i < |text| ==> text[i] == '_' || DigitOf(text[i]) < radix)
    && (forall i, j :: 0 <= i < j < |text| && j == i + 1 ==> text[i] != '_' || text[j] != '_')
  }

  lemma {:induction false} NumeralMeans(text: string, radix: nat)
    requires Base(radix)
    ensures Numeral(text, radix) <==> WellSpaced(text, radix)
  {
    if |text| > 1 {
      var n := |text| - 1;
      NumeralMeans(text[..n], radix);
      NumeralMeans(text[..n - 1], radix);
      SpacedOn(text, radix);
    }
  }

  /** Digits stay well spaced under one more digit, behind an underscore or not. */
  lemma {:induction false} SpacedOn(text: string, radix: nat)
    requires Base(radix) && |text| > 1
    ensures var n := |text| - 1;
            WellSpaced(text, radix) <==>
              && DigitOf(text[n]) < radix
              && (WellSpaced(text[..n], radix) || (text[n - 1] == '_' && WellSpaced(text[..n - 1], radix)))
  {
    var n := |text| - 1;
    if WellSpaced(text, radix) && text[n - 1] == '_' {
      assert n >= 2 && text[n - 2] != '_';
    }
  }

  /** The text without its underscores. */
  function Stripped(text: string): string {
    if text == [] then []
    else
      var last := text[|text| - 1];
      Stripped(text[..|text| - 1]) + if last == '_' then [] else [last]
  }

  /** Underscores make no difference to the value. */
  lemma {:induction false} UnderscoresIgnored(text: string, radix: nat)
    ensures Value(Stripped(text), radix) == Value(text, radix) && '_' !in Stripped(text)
  {
    if text != [] {
      var before, last := Stripped(text[..|text| - 1]), text[|text| - 1];
      UnderscoresIgnored(text[..|text| - 1], radix);
      if last == '_' {
        ConcatEmpty(before);
      } else {
        assert (before + [last])[..|before|] == before;
      }
    }
  }

  predicate PrefixLetter(c: char) {
    c in {'x', 'X', 'b', 'B', 'o', 'O'}
  }

  /** A zero is followed by a prefix letter or by an octal digit, or it stands alone; nothing is no number. */
  lemma {:induction false} ZeroLed(text: string)
    ensures text == [] ==> Meaning(text) == Err(Syntax)
    ensures |text| >= 2 && text[0] == '0' && !PrefixLetter(text[1]) && !('0' <= text[1] <= '7') ==>
      Meaning(text) == Err(Syntax)
    ensures text == "0" ==> Meaning(text) == Ok(0)
  {
    if |text| >= 2 && text[0] == '0' && !PrefixLetter(text[1]) && !('0' <= text[1] <= '7') {
      assert SplitBase(text) == Some(Literal(text[1..], 8));
      if Numeral(text[1..], 8) {
        FirstMustBeDigit(text[1..], 8);
      }
    } else if text == "0" {
      assert Digits(0, 10) == text;
      SpellingsRead(0);
    }
  }

  function UpperChar(c: char): char {
    if 'a' <= c <= 'z' then (c as int - 'a' as int + 'A' as int) as char else c
  }

  function Upper(text: string): (upper: string)
    ensures |upper| == |text|
  {
    if text == [] then [] else Upper(text[..|text| - 1]) + [UpperChar(text[|text| - 1])]
  }

  lemma {:induction false} UpperAt(text: string, n: nat)
    requires n <= |text|
    ensures Upper(text)[..n] == Upper(text[..n])
    ensures n < |text| ==> Upper(text)[n] == UpperChar(text[n])
  {
    if n < |text| {
      var front := text[..|text| - 1];
      UpperAt(front, if n < |front| then n else |front|);
      assert front[..if n < |front| then n else |front|] == text[..n];
      assert Upper(text)[..n] == Upper(front)[..n];
    } else {
      TakeAll(text);
      TakeAll(Upper(text));
    }
  }

  lemma {:induction false} UpperReads(text: string, radix: nat)
    requires Base(radix)
    ensures Numeral(Upper(text), radix) == Numeral(text, radix) && Value(Upper(text), radix) == Value(text, radix)
  {
    hide Upper;
    if text != [] {
      var upper, n := Upper(text), |text| - 1;
      UpperAt(text, n);
      UpperReads(text[..n], radix);
      if n > 0 {
        UpperAt(text, n - 1);
        UpperReads(text[..n - 1], radix);
      }
    }
  }

  lemma {:induction false} UpperDrops(text: string, n: nat)
    requires n <= |text|
    ensures Upper(text)[n..] == Upper(text[n..])
  {
    forall i | 0 <= i < |text| - n ensures Upper(text)[n..][i] == Upper(text[n..])[i] {
      UpperAt(text, n + i);
      UpperAt(text[n..], i);
    }
  }

  /** Capital letters mean what small ones do, in prefixes and in digits. */
  lemma {:induction false} CaseIrrelevant(text: string)
    ensures Meaning(Upper(text)) == Meaning(text)
  {
    hide Upper;
    if text != [] {
      UpperAt(text, 0);
      UpperDrops(text, 1);
      if |text| >= 2 {
        UpperAt(text, 1);
        UpperDrops(text, 2);
      }
      var literal := SplitBase(text).value;
      assert SplitBase(Upper(text)) == Some(Literal(Upper(literal.digits), literal.radix));
      UpperReads(literal.digits, literal.radix);
    }
  }
}
