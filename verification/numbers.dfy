/** Numbers in text: what strconv makes of hexadecimal and decimal fields, and the minimal hexadecimal form. */
module Numbers {
  import opened Text

  datatype NumError = Syntax | Range

  /** A number and an error, as strconv returns them: the number is there even when there is an error. */
  datatype Parsed = Parsed(value: int, error: Option<NumError>)

  const MAX_UINT32 := 0xFFFF_FFFF
  const LIMIT_INT32 := 0x8000_0000

  /** Digits beyond those of base 16 are as wrong as any other character in the bases used here. */
  function DigitOf(c: char): nat {
    if IsHex(c) then HexDigitValue(c) else 99
  }

  /** The number n with one more digit. */
  function Append(n: nat, base: nat, digit: nat): nat {
    n * base + digit
  }

  /** strconv.ParseUint(s, base, 32) behind the digits whose value is n. */
  function ParseDigits(s: string, base: nat, n: nat): (p: Parsed)
    requires n <= MAX_UINT32
    ensures 0 <= p.value <= MAX_UINT32
  {
    if s == "" then Parsed(n, None)
    else if DigitOf(s[0]) >= base then Parsed(0, Some(Syntax))
    else if Append(n, base, DigitOf(s[0])) > MAX_UINT32 then Parsed(MAX_UINT32, Some(Range))
    else ParseDigits(s[1..], base, Append(n, base, DigitOf(s[0])))
  }

  function ParseUint(s: string, base: nat): (p: Parsed)
    ensures 0 <= p.value <= MAX_UINT32
  {
    if s == "" then Parsed(0, Some(Syntax)) else ParseDigits(s, base, 0)
  }

  /** strconv.ParseInt(s, base, 32): an optional sign, and a range of its own. */
  function ParseInt(s: string, base: nat): Parsed {
    if s == "" then Parsed(0, Some(Syntax))
    else
      var negative := s[0] == '-';
      var un := ParseUint(if s[0] == '+' || negative then s[1..] else s, base);
      if un.error == Some(Syntax) then Parsed(0, Some(Syntax))
      else if !negative && un.value >= LIMIT_INT32 then Parsed(LIMIT_INT32 - 1, Some(Range))
      else if negative && un.value > LIMIT_INT32 then Parsed(-LIMIT_INT32, Some(Range))
      else Parsed(if negative then -un.value else un.value, None)
  }

  // ----- What the parsers compute -----

  predicate AllBelow(s: string, base: nat) {
    forall i :: 0 <= i < |s| ==> DigitOf(s[i]) < base
  }

  /** The number a text of digits stands for, written behind the digits of n. */
  function Value(s: string, base: nat, n: nat := 0): nat {
    if s == "" then n else Append(Value(s[..|s| - 1], base, n), base, DigitOf(s[|s| - 1]))
  }

  lemma {:induction false} ValueFirst(s: string, base: nat, n: nat)
    requires s != ""
    ensures Value(s, base, n) == Value(s[1..], base, Append(n, base, DigitOf(s[0])))
  {
    hide Append;
    if |s| == 1 {
      assert s[..0] == "" && s[1..] == "";
    } else {
      ValueFirst(s[..|s| - 1], base, n);
      assert s[..|s| - 1][1..] == s[1..][..|s| - 2];
    }
  }

  lemma {:induction false} ValueGrows(s: string, base: nat, n: nat)
    requires base >= 1
    ensures Value(s, base, n) >= n
  {
    if s != "" {
      ValueGrows(s[..|s| - 1], base, n);
      var v := Value(s[..|s| - 1], base, n);
      assert v * base >= v;
    }
  }

  /** Digits are read as the number they stand for; only numbers that do not fit and characters that are no digits fail. */
  lemma {:induction false} ParsesDigits(s: string, base: nat, n: nat)
    requires base >= 1 && AllBelow(s, base) && n <= MAX_UINT32
    ensures ParseDigits(s, base, n) ==
            if Value(s, base, n) <= MAX_UINT32 then Parsed(Value(s, base, n), None) else Parsed(MAX_UINT32, Some(Range))
  {
    hide Append;
    if s != "" {
      var next := Append(n, base, DigitOf(s[0]));
      ValueFirst(s, base, n);
      ValueGrows(s[1..], base, next);
      if next <= MAX_UINT32 {
        ParsesDigits(s[1..], base, next);
      }
    }
  }

  /** ParseUint succeeds on exactly the non-empty texts of digits whose number fits into 32 bits. */
  lemma {:induction false} ParseUintExact(s: string, base: nat)
    requires base >= 1
    ensures ParseUint(s, base).error == None <==> s != "" && AllBelow(s, base) && Value(s, base) <= MAX_UINT32
    ensures ParseUint(s, base).error == None ==> ParseUint(s, base).value == Value(s, base)
  {
    hide Append;
    if AllBelow(s, base) {
      ParsesDigits(s, base, 0);
    } else {
      BadDigit(s, base, 0);
    }
  }

  lemma {:induction false} BadDigit(s: string, base: nat, n: nat)
    requires n <= MAX_UINT32 && !AllBelow(s, base)
    ensures ParseDigits(s, base, n).error.Some?
  {
    if DigitOf(s[0]) < base && Append(n, base, DigitOf(s[0])) <= MAX_UINT32 {
      BadDigit(s[1..], base, Append(n, base, DigitOf(s[0])));
    }
  }

  lemma {:induction false} RangeIsTop(s: string, base: nat, n: nat)
    requires n <= MAX_UINT32
    ensures ParseDigits(s, base, n).error == Some(Range) ==> ParseDigits(s, base, n).value == MAX_UINT32
  {
    hide Append;
    if s != "" && DigitOf(s[0]) < base && Append(n, base, DigitOf(s[0])) <= MAX_UINT32 {
      RangeIsTop(s[1..], base, Append(n, base, DigitOf(s[0])));
    }
  }

  function PowerOf16(k: nat): nat {
    if k == 0 then 1 else 16 * PowerOf16(k - 1)
  }

  lemma {:induction false} RoomForDigits(s: string, n: nat)
    requires |s| <= 8 && n < PowerOf16(8 - |s|)
    ensures n <= MAX_UINT32
    ensures ParseDigits(s, 16, n) == if AllBelow(s, 16) then Parsed(Value(s, 16, n), None) else Parsed(0, Some(Syntax))
  {
    assert PowerOf16(8) == 0x1_0000_0000 by {
      assert PowerOf16(4) == 0x1_0000;
    }
    PowersGrow(8 - |s|, 8);
    if s != "" && DigitOf(s[0]) < 16 {
      RoomForDigits(s[1..], Append(n, 16, DigitOf(s[0])));
      ValueFirst(s, 16, n);
    }
  }

  lemma {:induction false} PowersGrow(j: nat, k: nat)
    requires j <= k
    ensures PowerOf16(j) <= PowerOf16(k)
  {
    if j < k {
      PowersGrow(j, k - 1);
    }
  }

  /** Up to eight hexadecimal digits always fit; other texts of that length have the value zero. */
  lemma FewDigits(s: string)
    requires |s| <= 8
    ensures ParseUint(s, 16) == if s != "" && AllBelow(s, 16) then Parsed(Value(s, 16), None) else Parsed(0, Some(Syntax))
  {
    PowersGrow(0, 8 - |s|);
    RoomForDigits(s, 0);
  }

  /** The digits behind an optional sign. */
  function Unsigned(s: string): string {
    if Starts(s, '+') || Starts(s, '-') then s[1..] else s
  }

  /** ParseInt succeeds on exactly the digits, behind an optional sign, whose number fits into 31 bits and a sign. */
  lemma ParseIntExact(s: string, base: nat)
    requires base >= 1
    ensures
      var d, limit := Unsigned(s), if Starts(s, '-') then 0x8000_0000 else 0x7FFF_FFFF;
      ParseInt(s, base).error == None <==> d != "" && AllBelow(d, base) && Value(d, base) <= limit
    ensures
      var v: int := Value(Unsigned(s), base);
      ParseInt(s, base).error == None ==> ParseInt(s, base).value == if Starts(s, '-') then -v else v
  {
    hide Append, Value, ParseDigits;
    if s != "" {
      var d := Unsigned(s);
      ParseUintExact(d, base);
      RangeIsTop(d, base, 0);
      if AllBelow(d, base) {
        ParsesDigits(d, base, 0);
      } else {
        BadDigit(d, base, 0);
        assert d != "" && ParseUint(d, base) == ParseDigits(d, base, 0);
        match ParseUint(d, base).error.value {
          case Syntax =>
          case Range => assert ParseUint(d, base).value == MAX_UINT32;
        }
      }
    }
  }

  /** Two more digits. */
  lemma ValuePair(s: string, a: char, b: char)
    ensures Value(s + [a, b], 16) == Value(s, 16) * 256 + DigitOf(a) * 16 + DigitOf(b)
  {
    assert (s + [a, b])[..|s| + 1] == s + [a] && (s + [a])[..|s|] == s;
  }

  // ----- The minimal form -----

  /** %x of a natural number. */
  function PrintHex(n: nat): (s: string)
    ensures s != "" && AllHex(s) && (|s| > 1 ==> s[0] != '0')
  {
    if n < 16 then [HexDigit(n)] else PrintHex(n / 16) + [HexDigit(n % 16)]
  }

  lemma {:induction false} ValuePrintHex(n: nat)
    ensures Value(PrintHex(n), 16) == n
  {
    var s := PrintHex(n);
    if n < 16 {
      assert s[..0] == "";
    } else {
      ValuePrintHex(n / 16);
      assert s[..|s| - 1] == PrintHex(n / 16);
    }
  }
}
