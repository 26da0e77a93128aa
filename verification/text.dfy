/** The parts of Go's `strings` and `strconv` packages the load-balancer manager relies on.
    A string is a sequence of Unicode scalar values; code point order is the byte order of valid UTF-8. */
module Text {

  datatype Option<+T> = None | Some(value: T) {
    predicate IsFailure() {
      None?
    }

    function PropagateFailure<U>(): Option<U>
      requires None?
    {
      None
    }

    function Extract(): T
      requires Some?
    {
      value
    }
  }

  predicate Distinct<T(==)>(keys: seq<T>) {
    forall i, j :: 0 <= i < j < |keys| ==> keys[i] != keys[j]
  }

  lemma DistinctCons<T>(x: T, rest: seq<T>)
    ensures Distinct([x] + rest) <==> x !in rest && Distinct(rest)
  {
    var keys := [x] + rest;
    assert forall i :: 0 <= i < |rest| ==> rest[i] == keys[i + 1];
    forall i | 0 <= i < |rest| && Distinct(keys) ensures rest[i] != x {
      assert keys[0] != keys[i + 1];
    }
  }

  predicate All<T>(xs: seq<T>, p: T -> bool) {
    forall i :: 0 <= i < |xs| ==> p(xs[i])
  }

  lemma AllLast<T>(front: seq<T>, last: T, p: T -> bool)
    ensures All(front + [last], p) <==> All(front, p) && p(last)
  {
    var all := front + [last];
    assert forall i :: 0 <= i < |front| ==> all[i] == front[i];
    assert all[|front|] == last;
  }

  /** The texts of all elements, one after the other. */
  function Flatten<T>(xs: seq<T>, f: T -> seq<string>): seq<string> {
    if xs == [] then [] else Flatten(xs[..|xs| - 1], f) + f(xs[|xs| - 1])
  }

  /** The invariant of a loop that appends the texts of its elements until one of them fails. */
  ghost predicate AppendedUpTo<T>(head: seq<string>, xs: seq<T>, i: nat, p: T -> bool, f: T -> seq<string>, buffer: seq<string>) {
    i <= |xs| && All(xs[..i], p) && buffer == head + Flatten(xs[..i], f)
  }

  lemma AppendStep<T>(head: seq<string>, xs: seq<T>, i: nat, p: T -> bool, f: T -> seq<string>, buffer: seq<string>)
    requires i < |xs| && AppendedUpTo(head, xs, i, p, f, buffer)
    ensures p(xs[i]) ==> AppendedUpTo(head, xs, i + 1, p, f, buffer + f(xs[i]))
    ensures !p(xs[i]) ==> !All(xs, p)
  {
    assert xs[..i + 1][..i] == xs[..i];
    assert xs[..i + 1] == xs[..i] + [xs[i]];
    AllLast(xs[..i], xs[i], p);
    Concat3(head, Flatten(xs[..i], f), f(xs[i]));
  }

  // ----- Splitting and joining -----

  predicate Free(s: string, sep: char) {
    sep !in s
  }

  predicate AllFree(lines: seq<string>, sep: char) {
    forall i :: 0 <= i < |lines| ==> Free(lines[i], sep)
  }

  /** strings.Split for a one-character separator. */
  function Split(s: string, sep: char): (lines: seq<string>)
    ensures lines != []
  {
    if s == "" then [""] else Prepend(s[0], Split(s[1..], sep), sep)
  }

  /** Puts one character in front of text that is already split. */
  function Prepend(c: char, lines: seq<string>, sep: char): seq<string>
    requires lines != []
  {
    if c == sep then [""] + lines else [[c] + lines[0]] + lines[1..]
  }

  /** strings.Join. */
  function Join(lines: seq<string>, sep: char): string {
    if |lines| == 0 then ""
    else if |lines| == 1 then lines[0]
    else lines[0] + [sep] + Join(lines[1..], sep)
  }

  /** Splitting every element of a list and concatenating the results. */
  function SplitEach(lines: seq<string>, sep: char): seq<string> {
    if lines == [] then [] else Split(lines[0], sep) + SplitEach(lines[1..], sep)
  }

  lemma {:induction false} JoinSplit(s: string, sep: char)
    ensures Join(Split(s, sep), sep) == s
  {
    if s == "" {
    } else {
      var rest := Split(s[1..], sep);
      JoinSplit(s[1..], sep);
      if s[0] == sep {
        assert ([""] + rest)[1..] == rest;
        assert s == [sep] + s[1..];
      } else {
        assert ([[s[0]] + rest[0]] + rest[1..])[1..] == rest[1..];
        assert s == [s[0]] + s[1..];
        if |rest| > 1 {
          assert [s[0]] + (rest[0] + [sep] + Join(rest[1..], sep)) == ([s[0]] + rest[0]) + [sep] + Join(rest[1..], sep);
        }
      }
    }
  }

  lemma {:induction false} SplitFree(s: string, sep: char)
    ensures AllFree(Split(s, sep), sep)
  {
    if s != "" {
      SplitFree(s[1..], sep);
    }
  }

  lemma {:induction false} SplitOfFree(s: string, sep: char)
    requires Free(s, sep)
    ensures Split(s, sep) == [s]
  {
    if s != "" {
      SplitOfFree(s[1..], sep);
      assert s == [s[0]] + s[1..];
    }
  }

  lemma {:induction false} SplitConcat(a: string, b: string, sep: char)
    ensures Split(a + [sep] + b, sep) == Split(a, sep) + Split(b, sep)
  {
    if a == "" {
      assert ([sep] + b)[1..] == b && [] + [sep] + b == [sep] + b;
    } else {
      SplitConcat(a[1..], b, sep);
      SplitStep(a[0], a[1..] + [sep] + b, sep);
      SplitStep(a[0], a[1..], sep);
      assert a + [sep] + b == [a[0]] + (a[1..] + [sep] + b) && a == [a[0]] + a[1..];
      PrependConcat(a[0], Split(a[1..], sep), Split(b, sep), sep);
    }
  }

  lemma SplitStep(c: char, s: string, sep: char)
    ensures Split([c] + s, sep) == Prepend(c, Split(s, sep), sep)
  {
    assert ([c] + s)[1..] == s;
  }

  lemma PrependConcat(c: char, a: seq<string>, b: seq<string>, sep: char)
    requires a != []
    ensures Prepend(c, a + b, sep) == Prepend(c, a, sep) + b
  {
    assert (a + b)[1..] == a[1..] + b;
  }

  lemma {:induction false} SplitJoinEach(lines: seq<string>, sep: char)
    requires lines != []
    ensures Split(Join(lines, sep), sep) == SplitEach(lines, sep)
  {
    if |lines| == 1 {
      assert SplitEach(lines[1..], sep) == [];
    } else {
      SplitConcat(lines[0], Join(lines[1..], sep), sep);
      SplitJoinEach(lines[1..], sep);
    }
  }

  lemma SplitEachStep(line: string, rest: seq<string>, sep: char)
    ensures SplitEach([line] + rest, sep) == Split(line, sep) + SplitEach(rest, sep)
  {
    assert ([line] + rest)[1..] == rest;
  }

  lemma {:induction false} SplitEachConcat(a: seq<string>, b: seq<string>, sep: char)
    ensures SplitEach(a + b, sep) == SplitEach(a, sep) + SplitEach(b, sep)
  {
    if a == [] {
      assert a + b == b;
    } else {
      SplitEachConcat(a[1..], b, sep);
      SplitEachStep(a[0], a[1..] + b, sep);
      SplitEachStep(a[0], a[1..], sep);
      Concat3([a[0]], a[1..], b);
      Concat3(Split(a[0], sep), SplitEach(a[1..], sep), SplitEach(b, sep));
      assert a == [a[0]] + a[1..];
    }
  }

  lemma Concat3<T>(a: seq<T>, b: seq<T>, c: seq<T>)
    ensures (a + b) + c == a + (b + c)
  {
  }

  lemma {:induction false} SplitEachOfFree(lines: seq<string>, sep: char)
    requires AllFree(lines, sep)
    ensures SplitEach(lines, sep) == lines
  {
    if lines != [] {
      SplitOfFree(lines[0], sep);
      SplitEachOfFree(lines[1..], sep);
    }
  }

  lemma SplitJoin(lines: seq<string>, sep: char)
    requires lines != [] && AllFree(lines, sep)
    ensures Split(Join(lines, sep), sep) == lines
  {
    SplitJoinEach(lines, sep);
    SplitEachOfFree(lines, sep);
  }

  // ----- Trimming -----

  /** unicode.IsSpace. */
  predicate IsSpace(c: char) {
    || c == '\t' || c == '\n' || c == '\U{0B}' || c == '\U{0C}' || c == '\r' || c == ' '
    || c == '\U{85}' || c == '\U{A0}' || c == '\U{1680}' || '\U{2000}' <= c <= '\U{200A}'
    || c == '\U{2028}' || c == '\U{2029}' || c == '\U{202F}' || c == '\U{205F}' || c == '\U{3000}'
  }

  function TrimSpaceLeft(s: string): (t: string)
    ensures t == "" || !IsSpace(t[0])
  {
    if s != "" && IsSpace(s[0]) then TrimSpaceLeft(s[1..]) else s
  }

  function TrimSpaceRight(s: string): (t: string)
    ensures t <= s
    ensures t == "" || !IsSpace(t[|t| - 1])
  {
    if s != "" && IsSpace(s[|s| - 1]) then TrimSpaceRight(s[..|s| - 1]) else s
  }

  /** strings.TrimSpace. */
  function Trim(s: string): string {
    TrimSpaceRight(TrimSpaceLeft(s))
  }

  predicate Trimmed(s: string) {
    s == "" || (!IsSpace(s[0]) && !IsSpace(s[|s| - 1]))
  }

  predicate Blank(s: string) {
    Trim(s) == ""
  }

  lemma TrimIsTrimmed(s: string)
    ensures Trimmed(Trim(s))
  {
    var left := TrimSpaceLeft(s);
    var t := TrimSpaceRight(left);
    assert t != "" ==> t[0] == left[0];
  }

  lemma TrimOfTrimmed(s: string)
    requires Trimmed(s)
    ensures Trim(s) == s
  {
  }

  lemma TrimIdempotent(s: string)
    ensures Trim(Trim(s)) == Trim(s)
  {
    TrimIsTrimmed(s);
    TrimOfTrimmed(Trim(s));
  }

  lemma {:induction false} TrimLeftIsSuffix(s: string)
    ensures |TrimSpaceLeft(s)| <= |s| && TrimSpaceLeft(s) == s[|s| - |TrimSpaceLeft(s)|..]
  {
    if s != "" && IsSpace(s[0]) {
      TrimLeftIsSuffix(s[1..]);
    }
  }

  /** Trimming removes characters only: what is absent before is absent after. */
  lemma TrimKeepsFree(s: string, c: char)
    requires Free(s, c)
    ensures Free(Trim(s), c)
  {
    TrimLeftIsSuffix(s);
    var left := TrimSpaceLeft(s);
    var t := TrimSpaceRight(left);
    assert forall i :: 0 <= i < |t| ==> t[i] == left[i];
  }

  lemma {:induction false} TrimRightKeeps(s: string, i: nat)
    requires i < |s| && !IsSpace(s[i])
    ensures |TrimSpaceRight(s)| > i
  {
    if IsSpace(s[|s| - 1]) {
      assert i != |s| - 1;
      TrimRightKeeps(s[..|s| - 1], i);
    }
  }

  /** A line that starts with a visible character keeps it in front after trimming. */
  lemma TrimKeepsFirst(s: string)
    requires s != "" && !IsSpace(s[0])
    ensures Trim(s) != "" && Trim(s)[0] == s[0]
  {
    TrimRightKeeps(s, 0);
  }

  /** Four blanks of indentation are dropped by trimming. */
  lemma TrimIndented(s: string)
    requires s != "" && !IsSpace(s[0])
    ensures Trim("    " + s) == Trim(s)
  {
    var t := "    " + s;
    assert t[1..][1..][1..][1..] == s;
    assert TrimSpaceLeft(t) == TrimSpaceLeft(t[1..]);
    assert TrimSpaceLeft(t[1..]) == TrimSpaceLeft(t[1..][1..]);
    assert TrimSpaceLeft(t[1..][1..]) == TrimSpaceLeft(t[1..][1..][1..]);
    assert TrimSpaceLeft(t[1..][1..][1..]) == TrimSpaceLeft(s);
  }

  /** strings.TrimRight for a one-character cutset. */
  function TrimRightChar(s: string, c: char): (t: string)
    ensures t <= s
    ensures t == "" || t[|t| - 1] != c
  {
    if s != "" && s[|s| - 1] == c then TrimRightChar(s[..|s| - 1], c) else s
  }

  /** What strings.TrimRight cuts off consists of the cut character only. */
  lemma {:induction false} TrimRightCharCut(s: string, c: char)
    ensures forall i :: |TrimRightChar(s, c)| <= i < |s| ==> s[i] == c
  {
    if s != "" && s[|s| - 1] == c {
      TrimRightCharCut(s[..|s| - 1], c);
    }
  }

  /** strings.TrimLeft for a one-character cutset. */
  function TrimLeftChar(s: string, c: char): (t: string)
    ensures |t| <= |s| && t == s[|s| - |t|..]
    ensures t == "" || t[0] != c
    ensures forall i :: 0 <= i < |s| - |t| ==> s[i] == c
  {
    if s != "" && s[0] == c then TrimLeftChar(s[1..], c) else s
  }

  /** Text that ends visibly is not blank. */
  lemma {:induction false} EndsVisibly(s: string)
    requires s != "" && !IsSpace(s[|s| - 1])
    ensures !Blank(s)
  {
    if IsSpace(s[0]) {
      EndsVisibly(s[1..]);
    }
  }

  predicate HasPrefix(s: string, prefix: string) {
    prefix <= s
  }

  predicate Starts(s: string, c: char) {
    s != "" && s[0] == c
  }

  // ----- Case -----

  /** unicode.ToLower on ASCII and on the two other letters whose lower case is ASCII. */
  function LowerChar(c: char): char {
    if 'A' <= c <= 'Z' then (c as int + 32) as char
    else if c == '\U{130}' then 'i'
    else if c == '\U{212A}' then 'k'
    else c
  }

  function Lower(s: string): (t: string)
    ensures |t| == |s| && forall i :: 0 <= i < |s| ==> t[i] == LowerChar(s[i])
  {
    seq(|s|, i requires 0 <= i < |s| => LowerChar(s[i]))
  }

  /** unicode.ToLower, given what it makes of the letters beyond ASCII that stay beyond ASCII. */
  function LowerCharBy(c: char, lower: char -> char): char {
    if c < '\U{80}' || c == '\U{130}' || c == '\U{212A}' then LowerChar(c) else lower(c)
  }

  function LowerBy(s: string, lower: char -> char): (t: string)
    ensures |t| == |s| && forall i :: 0 <= i < |s| ==> t[i] == LowerCharBy(s[i], lower)
  {
    seq(|s|, i requires 0 <= i < |s| => LowerCharBy(s[i], lower))
  }

  lemma LowerIdempotent(s: string)
    ensures Lower(Lower(s)) == Lower(s)
  {
    assert forall i :: 0 <= i < |s| ==> Lower(Lower(s))[i] == Lower(s)[i];
  }

  /** strings.ToLower(strings.TrimSpace(s)) is a normal form. */
  lemma LowerTrimIdempotent(s: string)
    ensures Lower(Trim(Lower(Trim(s)))) == Lower(Trim(s))
  {
    TrimIsTrimmed(s);
    assert Trimmed(Lower(Trim(s)));
    TrimOfTrimmed(Lower(Trim(s)));
    LowerIdempotent(Trim(s));
  }

  lemma LowerKeepsFree(s: string)
    requires Free(s, '\n')
    ensures Free(Lower(s), '\n')
  {
  }

  // ----- Order -----

  /** Go's `<` on strings. */
  predicate Less(a: string, b: string) {
    b != "" && (a == "" || a[0] < b[0] || (a[0] == b[0] && Less(a[1..], b[1..])))
  }

  lemma {:induction false} LessIrreflexive(a: string)
    ensures !Less(a, a)
  {
    if a != "" {
      LessIrreflexive(a[1..]);
    }
  }

  lemma {:induction false} LessTransitive(a: string, b: string, c: string)
    requires Less(a, b) && Less(b, c)
    ensures Less(a, c)
  {
    if a != "" && a[0] == b[0] == c[0] {
      LessTransitive(a[1..], b[1..], c[1..]);
    }
  }

  lemma {:induction false} LessTotal(a: string, b: string)
    ensures Less(a, b) || a == b || Less(b, a)
  {
    if a != "" && b != "" && a[0] == b[0] {
      LessTotal(a[1..], b[1..]);
      assert a == [a[0]] + a[1..] && b == [b[0]] + b[1..];
    }
  }

  // ----- Decimal numbers -----

  function Digit(n: nat): (c: char)
    requires n < 10
    ensures IsDigit(c) && c as int - '0' as int == n
  {
    ('0' as int + n) as char
  }

  predicate IsDigit(c: char) {
    '0' <= c <= '9'
  }

  predicate AllDigits(s: string) {
    forall i :: 0 <= i < |s| ==> IsDigit(s[i])
  }

  /** The decimal text of a natural number. */
  function PrintNat(n: nat): (s: string)
    ensures s != "" && AllDigits(s)
    ensures |s| > 1 ==> s[0] != '0'
  {
    if n < 10 then [Digit(n)] else PrintNat(n / 10) + [Digit(n % 10)]
  }

  /** %d of an integer. */
  function PrintInt(n: int): string {
    if n < 0 then "-" + PrintNat(-n) else PrintNat(n)
  }

  /** The value of a string of decimal digits. */
  function NatValue(s: string): nat
    requires AllDigits(s)
  {
    if s == "" then 0 else NatValue(s[..|s| - 1]) * 10 + (s[|s| - 1] as int - '0' as int)
  }

  lemma {:induction false} NatValuePrint(n: nat)
    ensures NatValue(PrintNat(n)) == n
  {
    if n < 10 {
      var s := PrintNat(n);
      assert s[..|s| - 1] == "";
    } else {
      NatValuePrint(n / 10);
      var s := PrintNat(n);
      assert s[..|s| - 1] == PrintNat(n / 10);
    }
  }

  // ----- Hexadecimal digits -----

  predicate IsHex(c: char) {
    IsDigit(c) || 'a' <= c <= 'f' || 'A' <= c <= 'F'
  }

  function HexDigitValue(c: char): (n: nat)
    requires IsHex(c)
    ensures n < 16
  {
    if IsDigit(c) then c as int - '0' as int
    else if c >= 'a' then c as int - 'a' as int + 10
    else c as int - 'A' as int + 10
  }

  predicate AllHex(s: string) {
    forall i :: 0 <= i < |s| ==> IsHex(s[i])
  }

  function HexDigit(n: nat): (c: char)
    requires n < 16
    ensures IsHex(c) && HexDigitValue(c) == n
  {
    if n < 10 then ('0' as int + n) as char else ('a' as int + n - 10) as char
  }
}
