/** The text that reports the end of a command, and how to read the exit code in it. */
module ExitCodes {
  import opened Framing
  import opened Links

  /** Read decimal digits from left to right. */
  function ReadNat(digits: bytes, acc: int): int
    decreases |digits|
  {
    if digits == [] then acc else ReadNat(digits[1..], acc * 10 + digits[0] as int - 48)
  }

  /** Read a number with an optional minus sign. */
  function ReadInt(text: bytes): int {
    if text != [] && text[0] == 45 then -ReadNat(text[1..], 0) else ReadNat(text, 0)
  }

  /** The number between "[exit] " and the newline. */
  function ReadExit(text: bytes): int {
    if |text| < 8 then 0 else ReadInt(text[7..|text| - 1])
  }

  /** Decimal digits without a leading zero. */
  predicate Decimal(digits: bytes) {
    && digits != []
    && (forall i :: 0 <= i < |digits| ==> 48 <= digits[i] <= 57)
    && (digits[0] == 48 ==> |digits| == 1)
  }

  lemma {:induction false} ReadNatSnoc(digits: bytes, b: byte, acc: int)
    ensures ReadNat(digits + [b], acc) == ReadNat(digits, acc) * 10 + b as int - 48
    decreases |digits|
  {
    if digits != [] {
      assert (digits + [b])[1..] == digits[1..] + [b];
      ReadNatSnoc(digits[1..], b, acc * 10 + digits[0] as int - 48);
    }
  }

  lemma {:induction false} DigitsRead(n: nat)
    ensures Decimal(Digits(n)) && (Digits(n)[0] == 48 <==> n == 0)
    ensures ReadNat(Digits(n), 0) == n
    decreases n
  {
    if n >= 10 {
      DigitsRead(n / 10);
      ReadNatSnoc(Digits(n / 10), 48 + n % 10, 0);
    }
  }

  /** The text is "[exit] ", an optional minus sign, the decimal digits of the exit code, and a
      newline; it reads back as the code. */
  lemma ExitTextReads(code: int64)
    ensures var text := ExitText(code);
            var number := text[7..|text| - 1];
      && text[..7] == [91, 101, 120, 105, 116, 93, 32] && text[|text| - 1] == 10
      && (if code < 0 then number[0] == 45 && Decimal(number[1..]) && number[1] != 48 else Decimal(number))
      && ReadExit(text) == code
  {
    var magnitude: int := if code < 0 then -(code as int) else code;
    var head: bytes := [91, 101, 120, 105, 116, 93, 32];
    var number := (if code < 0 then [45] else []) + Digits(magnitude);
    DigitsRead(magnitude);
    hide Digits, ReadNat;
    assert ExitText(code) == head + number + [10];
    assert ExitText(code)[7..|ExitText(code)| - 1] == number;
    if code < 0 {
      assert number[1..] == Digits(magnitude);
    } else {
      assert number == Digits(magnitude);
    }
  }

  /** Different exit codes are reported by different texts. */
  lemma ExitTextInjective(a: int64, b: int64)
    requires ExitText(a) == ExitText(b)
    ensures a == b
  {
    ExitTextReads(a);
    ExitTextReads(b);
    hide ExitText;
  }
}
