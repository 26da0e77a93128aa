/** The grammar of JSON texts (RFC 8259), and the parser as its exact reader. */
module JsonGrammar {
  import opened Text
  import opened JsonText

  // ----- The grammar -----

  predicate JsonBlanks(s: string) {
    forall i :: 0 <= i < |s| ==> IsJsonSpace(s[i])
  }

  predicate Digits(s: string) {
    s != "" && AllDigits(s)
  }

  predicate IsWhole(s: string) {
    Digits(s) && (|s| > 1 ==> s[0] != '0')
  }

  predicate IsFraction(s: string) {
    s == "" || (s[0] == '.' && Digits(s[1..]))
  }

  predicate IsExponent(s: string) {
    || s == ""
    || ((s[0] == 'e' || s[0] == 'E') && (Digits(s[1..]) || (|s| > 1 && (s[1] == '+' || s[1] == '-') && Digits(s[2..]))))
  }

  /** Section 6: an optional minus, an integer part without superfluous zeros, a fraction and an exponent. */
  ghost predicate IsNumber(text: string) {
    exists i, j, k ::
      && 0 <= i <= j <= k <= |text| && (text[..i] == "" || text[..i] == "-")
      && IsWhole(text[i..j]) && IsFraction(text[j..k]) && IsExponent(text[k..])
  }

  /** Section 7: the characters behind a backslash that stand for one character. */
  predicate Stands(e: char, c: char) {
    || (e == c && (c == '\"' || c == '\\' || c == '/'))
    || (e == 'b' && c == '\U{08}') || (e == 'f' && c == '\U{0C}') || (e == 'n' && c == '\n') || (e == 'r' && c == '\r')
    || (e == 't' && c == '\t')
  }

  /** The number in an escape of four digits. */
  predicate Names(e: string, u: nat) {
    |e| == 6 && IsUnicodeEscape(e) && Hex4Value(e[2..6]) == u
  }

  predicate NamesLow(e: string) {
    |e| == 6 && IsUnicodeEscape(e) && 0xDC00 <= Hex4Value(e[2..6]) < 0xE000
  }

  /** The text e is a way to write c in front of the rest of a string. Half a surrogate pair stands for U+FFFD. */
  predicate SpellsChar(e: string, behind: string, c: char) {
    || (e == [c] && ' ' <= c && c != '\"' && c != '\\')
    || (|e| == 2 && e[0] == '\\' && Stands(e[1], c))
    || Names(e, c as int)
    || (|e| == 6 && IsUnicodeEscape(e) && IsSurrogate(Hex4Value(e[2..6])) && c == '\U{FFFD}'
        && !(Hex4Value(e[2..6]) < 0xDC00 && |behind| >= 6 && NamesLow(behind[..6])))
    || (|e| == 12 && c as int >= 0x10000 && Names(e[..6], 0xD800 + (c as int - 0x10000) / 0x400)
        && Names(e[6..], 0xDC00 + (c as int - 0x10000) % 0x400))
  }

  ghost predicate SpellsText(body: string, x: string) {
    if x == "" then body == ""
    else exists n :: 0 < n <= |body| && SpellsChar(body[..n], body[n..], x[0]) && SpellsText(body[n..], x[1..])
  }

  predicate Enclosed(t: string, open: char, close: char) {
    |t| >= 2 && t[0] == open && t[|t| - 1] == close
  }

  function Inside(t: string): string
    requires |t| >= 2
  {
    t[1..|t| - 1]
  }

  ghost predicate Quoted(t: string, x: string) {
    Enclosed(t, '\"', '\"') && SpellsText(Inside(t), x)
  }

  ghost predicate SpellsKey(s: string, key: string) {
    exists a, b :: 0 <= a <= b <= |s| && JsonBlanks(s[..a]) && Quoted(s[a..b], key) && JsonBlanks(s[b..])
  }

  /** Section 3: the text is a way to write the value, without blanks around it. */
  ghost predicate Bare(t: string, v: Json)
    decreases v, 0
  {
    match v
    case Null => t == "null"
    case Bool(b) => t == if b then "true" else "false"
    case Number(text) => t == text && IsNumber(text)
    case String(x) => Quoted(t, x)
    case Array(items) => Enclosed(t, '[', ']') && SpellsItems(Inside(t), items)
    case Object(members) => Enclosed(t, '{', '}') && SpellsMembers(Inside(t), members)
  }

  ghost predicate Spells(s: string, v: Json)
    decreases v, 1
  {
    exists a, b :: 0 <= a <= b <= |s| && JsonBlanks(s[..a]) && Bare(s[a..b], v) && JsonBlanks(s[b..])
  }

  /** Section 5: values with commas between them. */
  ghost predicate SpellsItems(s: string, items: seq<Json>)
    decreases items
  {
    if items == [] then JsonBlanks(s)
    else if |items| == 1 then Spells(s, items[0])
    else exists n :: 0 <= n < |s| && s[n] == ',' && Spells(s[..n], items[0]) && SpellsItems(s[n + 1..], items[1..])
  }

  /** Section 4: names and values with colons between them. */
  ghost predicate SpellsMember(s: string, m: Member)
    decreases m
  {
    exists n :: 0 <= n < |s| && s[n] == ':' && SpellsKey(s[..n], m.key) && Spells(s[n + 1..], m.value)
  }

  ghost predicate SpellsMembers(s: string, members: seq<Member>)
    decreases members
  {
    if members == [] then JsonBlanks(s)
    else if |members| == 1 then SpellsMember(s, members[0])
    else exists n :: 0 <= n < |s| && s[n] == ',' && SpellsMember(s[..n], members[0]) && SpellsMembers(s[n + 1..], members[1..])
  }

  // ----- Parts of texts -----

  lemma FrontOf(s: string, n: nat, k: string)
    requires n <= |s|
    ensures s + k == s[..n] + (s[n..] + k)
  {
  }

  lemma MiddleOf(s: string, a: nat, b: nat, k: string)
    requires a <= b <= |s|
    ensures s + k == s[..a] + (s[a..b] + (s[b..] + k))
  {
  }

  lemma PartsOfFront(s: string, a: nat, b: nat, n: nat)
    requires a <= b <= n <= |s|
    ensures s[..n][..a] == s[..a] && s[..n][a..b] == s[a..b] && s[..n][b..] == s[b..][..n - b]
  {
  }

  lemma SliceOfFront(s: string, a: nat, b: nat, k: string)
    requires a <= b <= |s|
    ensures (s + k)[a..b] == s[a..b]
  {
  }

  // ----- Strings -----

  lemma EscapeAhead(body: string, k: string)
    ensures IsUnicodeEscape(body + "\"" + k) <==> |body| >= 6 && IsUnicodeEscape(body[..6])
  {
    var s := body + "\"" + k;
    if |body| >= 6 {
      assert s[2..6] == body[..6][2..6];
    } else if |s| >= 6 {
      assert s[|body|] == '\"';
      assert |body| >= 2 ==> s[2..6][|body| - 2] == '\"';
    }
  }

  lemma ShortIsRead(e: string, c: char, rest: string)
    requires (e == [c] && ' ' <= c && c != '\"' && c != '\\') || (|e| == 2 && e[0] == '\\' && Stands(e[1], c))
    ensures ParseBody(e + rest) == ConsChar(c, ParseBody(rest))
  {
    hide IsUnicodeEscape;
    assert (e + rest)[|e|..] == rest;
  }

  /** An escape with its digits in front of a text. */
  lemma EscapeInFront(e: string, rest: string)
    requires |e| == 6 && IsUnicodeEscape(e)
    ensures
      var s := e + rest;
      IsUnicodeEscape(s) && s[2..6] == e[2..6] && s[6..] == rest
  {
    var s := e + rest;
    assert s[2..6] == e[2..6] && s[6..] == rest;
  }

  lemma SixAreRead(e: string, c: char, rest: string)
    requires |e| == 6 && IsUnicodeEscape(e)
    requires
      var u := Hex4Value(e[2..6]);
      if IsSurrogate(u)
      then c == '\U{FFFD}' && !(u < 0xDC00 && IsUnicodeEscape(rest) && 0xDC00 <= Hex4Value(rest[2..6]) < 0xE000)
      else c as int == u
    ensures ParseBody(e + rest) == ConsChar(c, ParseBody(rest))
  {
    hide Hex4Value;
    EscapeInFront(e, rest);
  }

  lemma TwelveAreRead(e: string, c: char, rest: string)
    requires |e| == 12 && c as int >= 0x10000 && Names(e[..6], 0xD800 + (c as int - 0x10000) / 0x400)
    requires Names(e[6..], 0xDC00 + (c as int - 0x10000) % 0x400)
    ensures ParseBody(e + rest) == ConsChar(c, ParseBody(rest))
  {
    hide Hex4Value;
    var s := e + rest;
    EscapeInFront(e[..6], e[6..] + rest);
    EscapeInFront(e[6..], rest);
    assert s == e[..6] + (e[6..] + rest) && s[12..] == rest;
  }

  lemma CharIsRead(e: string, body: string, c: char, k: string)
    requires SpellsChar(e, body, c)
    ensures ParseBody(e + (body + "\"" + k)) == ConsChar(c, ParseBody(body + "\"" + k))
  {
    hide ParseBody, Hex4Value, IsUnicodeEscape;
    var rest := body + "\"" + k;
    if |e| == 6 {
      EscapeAhead(body, k);
      assert |body| >= 6 ==> rest[2..6] == body[..6][2..6];
      SixAreRead(e, c, rest);
    } else if |e| == 12 {
      TwelveAreRead(e, c, rest);
    } else {
      ShortIsRead(e, c, rest);
    }
  }

  lemma FirstChar(body: string, x: string) returns (n: nat)
    requires SpellsText(body, x) && x != ""
    ensures 0 < n <= |body| && SpellsChar(body[..n], body[n..], x[0]) && SpellsText(body[n..], x[1..])
  {
    n :| 0 < n <= |body| && SpellsChar(body[..n], body[n..], x[0]) && SpellsText(body[n..], x[1..]);
  }

  lemma QuoteBehind(body: string, n: nat, k: string)
    requires n <= |body|
    ensures body + "\"" + k == body[..n] + (body[n..] + "\"" + k)
  {
  }

  lemma FirstBack(x: string, k: string)
    requires x != ""
    ensures ConsChar(x[0], Some(Parsed(x[1..], k))) == Some(Parsed(x, k))
  {
    assert x == [x[0]] + x[1..];
  }

  lemma ClosingQuote(k: string)
    ensures ParseBody("" + "\"" + k) == Some(Parsed("", k))
  {
    assert "" + "\"" + k == "\"" + k && ("\"" + k)[1..] == k;
  }

  lemma {:induction false} TextIsRead(body: string, x: string, k: string)
    requires SpellsText(body, x)
    ensures ParseBody(body + "\"" + k) == Some(Parsed(x, k))
    decreases |x|
  {
    if x == "" {
      ClosingQuote(k);
    } else {
      hide SpellsText, SpellsChar, ParseBody, ConsChar;
      var n := FirstChar(body, x);
      TextIsRead(body[n..], x[1..], k);
      CharIsRead(body[..n], body[n..], x[0], k);
      QuoteBehind(body, n, k);
      FirstBack(x, k);
    }
  }

  /** How many characters of the text stand for its first one, and which one that is. */
  lemma CharIsSpelled(s: string) returns (n: nat, c: char)
    requires ParseBody(s).Some? && s[0] != '\"'
    ensures 0 < n <= |s| && ParseBody(s) == ConsChar(c, ParseBody(s[n..]))
    ensures forall m :: n <= m <= |s| ==> SpellsChar(s[..n], s[n..m], c)
  {
    if s[0] != '\\' {
      n, c := 1, s[0];
    } else if !IsUnicodeEscape(s) {
      n := 2;
      c := if s[1] == 'b' then '\U{08}' else if s[1] == 'f' then '\U{0C}' else if s[1] == 'n' then '\n'
           else if s[1] == 'r' then '\r' else if s[1] == 't' then '\t' else s[1];
    } else {
      n, c := EscapeIsSpelled(s);
    }
  }

  lemma EscapeFront(s: string)
    requires |s| >= 6
    ensures (IsUnicodeEscape(s[..6]) <==> IsUnicodeEscape(s)) && s[..6][2..6] == s[2..6]
  {
  }

  lemma PairOf(u: nat, low: nat) returns (c: char)
    requires 0xD800 <= u < 0xDC00 <= low < 0xE000
    ensures c as int >= 0x10000 && u == 0xD800 + (c as int - 0x10000) / 0x400 && low == 0xDC00 + (c as int - 0x10000) % 0x400
  {
    c := (0x10000 + (u - 0xD800) * 0x400 + (low - 0xDC00)) as char;
  }

  lemma EscapeIsSpelled(s: string) returns (n: nat, c: char)
    requires IsUnicodeEscape(s)
    ensures 0 < n <= |s| && ParseBody(s) == ConsChar(c, ParseBody(s[n..]))
    ensures forall m :: n <= m <= |s| ==> SpellsChar(s[..n], s[n..m], c)
  {
    hide ParseBody, Hex4Value, AllHex, ConsChar;
    var u, rest := Hex4Value(s[2..6]), s[6..];
    EscapeFront(s);
    assert s == s[..6] + rest;
    if u < 0xDC00 && IsSurrogate(u) && IsUnicodeEscape(rest) && 0xDC00 <= Hex4Value(rest[2..6]) < 0xE000 {
      n := 12;
      c := PairOf(u, Hex4Value(rest[2..6]));
      EscapeFront(rest);
      assert s[..12][..6] == s[..6] && s[..12][6..] == rest[..6] && s == s[..12] + s[12..];
      TwelveAreRead(s[..12], c, s[12..]);
    } else {
      n, c := 6, if IsSurrogate(u) then '\U{FFFD}' else u as char;
      SixAreRead(s[..6], c, rest);
      forall m | 6 <= m <= |s| ensures SpellsChar(s[..6], s[6..m], c) {
        if m >= 12 {
          EscapeFront(rest);
          assert s[6..m][..6] == rest[..6];
        }
      }
    }
  }

  lemma {:induction false} TextIsSpelled(s: string) returns (n: nat)
    requires ParseBody(s).Some?
    ensures n < |s| && s[n] == '\"' && s[n + 1..] == ParseBody(s).value.rest
    ensures SpellsText(s[..n], ParseBody(s).value.value)
    decreases |s|
  {
    hide SpellsChar;
    if s[0] == '\"' {
      return 0;
    }
    var l, c := CharIsSpelled(s);
    var m := TextIsSpelled(s[l..]);
    n := l + m;
    assert s[..n][..l] == s[..l] && s[..n][l..] == s[l..n] == s[l..][..m];
  }

  // ----- Numbers -----

  /** Digits up to something that is none. */
  lemma DigitsAreRead(s: string, i: nat, j: nat)
    requires i <= j <= |s| && AllDigits(s[i..j]) && (j < |s| ==> !IsDigit(s[j]))
    ensures DigitsEnd(s, i) == j
  {
    assert forall x :: i <= x < j ==> s[x] == s[i..j][x - i];
    DigitsEndAt(s, i, j);
  }

  lemma WholeIsRead(s: string, i: nat, j: nat)
    requires i <= j <= |s| && IsWhole(s[i..j]) && (j < |s| ==> !IsDigit(s[j]))
    ensures i < |s| && IsDigit(s[i]) && j == if s[i] == '0' then i + 1 else DigitsEnd(s, i)
  {
    assert s[i..j][0] == s[i];
    DigitsAreRead(s, i, j);
  }

  lemma FractionIsRead(s: string, i: nat, j: nat)
    requires i <= j <= |s| && IsFraction(s[i..j]) && (j < |s| ==> !IsDigit(s[j]) && s[j] != '.')
    ensures FractionEnd(s, i) == Some(j)
  {
    if i < j {
      assert s[i..j][0] == s[i] && s[i..j][1..] == s[i + 1..j];
      DigitsAreRead(s, i + 1, j);
    }
  }

  lemma ExponentIsRead(s: string, i: nat, j: nat)
    requires i <= j <= |s| && IsExponent(s[i..j]) && (j < |s| ==> !IsDigit(s[j]) && s[j] != 'e' && s[j] != 'E')
    ensures ExponentEnd(s, i) == Some(j)
  {
    if i < j {
      var e := s[i..j];
      assert e[0] == s[i] && e[1..] == s[i + 1..j];
      if Digits(e[1..]) {
        assert s[i + 1] == e[1..][0];
        DigitsAreRead(s, i + 1, j);
      } else {
        assert e[1] == s[i + 1] && e[2..] == s[i + 2..j];
        DigitsAreRead(s, i + 2, j);
      }
    }
  }

  lemma PartsAreRead(s: string, i: nat, j: nat, l: nat, n: nat)
    requires i <= j <= l <= n <= |s| && i <= 1 && (i == 1 ==> s[0] == '-')
    requires IsWhole(s[i..j]) && IsFraction(s[j..l]) && IsExponent(s[l..n])
    requires (j < |s| ==> !IsDigit(s[j])) && (l < |s| ==> !IsDigit(s[l]) && s[l] != '.')
    requires n < |s| ==> !IsDigit(s[n]) && s[n] != 'e' && s[n] != 'E'
    ensures ScanNumber(s) == Some(Parsed(s[..n], s[n..])) && (IsDigit(s[0]) || s[0] == '-')
  {
    hide IsWhole, IsFraction, IsExponent, DigitsEnd, FractionEnd, ExponentEnd;
    WholeIsRead(s, i, j);
    FractionIsRead(s, j, l);
    ExponentIsRead(s, l, n);
  }

  lemma NumberIsRead(text: string, k: string)
    requires IsNumber(text) && Delimited(k)
    ensures ScanNumber(text + k) == Some(Parsed(text, k)) && text != "" && (IsDigit(text[0]) || text[0] == '-')
  {
    hide ScanNumber, IsWhole, IsFraction, IsExponent;
    var i, j, l :|
      && 0 <= i <= j <= l <= |text| && (text[..i] == "" || text[..i] == "-")
      && IsWhole(text[i..j]) && IsFraction(text[j..l]) && IsExponent(text[l..]);
    var s, n := text + k, |text|;
    SliceOfFront(text, i, j, k);
    SliceOfFront(text, j, l, k);
    SliceOfFront(text, l, n, k);
    assert |text[..i]| == i && (i == 1 ==> text[..i][0] == '-');
    Follows(text, k, j, l);
    SomeWhole(text, i, j);
    PartsAreRead(s, i, j, l, n);
    assert s[..n] == text && s[n..] == k;
  }

  lemma SomeWhole(s: string, i: nat, j: nat)
    requires i <= j <= |s| && IsWhole(s[i..j])
    ensures i < j
  {
  }

  /** What stands behind the integer part and behind the fraction. */
  lemma Follows(text: string, k: string, j: nat, l: nat)
    requires j <= l <= |text| && IsFraction(text[j..l]) && IsExponent(text[l..]) && Delimited(k)
    ensures j < |text + k| ==> !IsDigit((text + k)[j])
    ensures l < |text + k| ==> !IsDigit((text + k)[l]) && (text + k)[l] != '.'
  {
    var s := text + k;
    if l < |text| {
      assert s[l] == text[l..][0];
    }
    if j < l {
      assert s[j] == text[j..l][0];
    }
  }

  lemma WholeIsSpelled(s: string, i: nat)
    requires i < |s| && IsDigit(s[i])
    ensures
      var j := if s[i] == '0' then i + 1 else DigitsEnd(s, i);
      i < j <= |s| && IsWhole(s[i..j])
  {
    var j := if s[i] == '0' then i + 1 else DigitsEnd(s, i);
    assert s[i..j][0] == s[i];
  }

  lemma FractionIsSpelled(s: string, i: nat)
    requires i <= |s| && FractionEnd(s, i).Some?
    ensures IsFraction(s[i..FractionEnd(s, i).value])
  {
    var j := FractionEnd(s, i).value;
    if i < j {
      assert s[i..j][0] == s[i] && s[i..j][1..] == s[i + 1..j];
    }
  }

  lemma ExponentIsSpelled(s: string, i: nat)
    requires i <= |s| && ExponentEnd(s, i).Some?
    ensures IsExponent(s[i..ExponentEnd(s, i).value])
  {
    var j := ExponentEnd(s, i).value;
    if i < j {
      var e := s[i..j];
      assert e[0] == s[i] && e[1..] == s[i + 1..j];
      if |e| > 1 {
        assert e[1] == s[i + 1] && e[2..] == s[i + 2..j];
      }
    }
  }

  lemma NumberOfParts(s: string, i: nat, j: nat, l: nat, n: nat)
    requires i <= j <= l <= n <= |s| && i <= 1 && (i == 1 ==> s[0] == '-')
    requires IsWhole(s[i..j]) && IsFraction(s[j..l]) && IsExponent(s[l..n])
    ensures IsNumber(s[..n])
  {
    hide IsWhole, IsFraction, IsExponent;
    var text := s[..n];
    assert text[i..j] == s[i..j] && text[j..l] == s[j..l] && text[l..] == s[l..n];
    assert text[..i] == if i == 1 then "-" else "";
  }

  lemma NumberIsSpelled(s: string)
    requires ScanNumber(s).Some?
    ensures IsNumber(ScanNumber(s).value.value) && s == ScanNumber(s).value.value + ScanNumber(s).value.rest
  {
    hide IsNumber, IsWhole, IsFraction, IsExponent, DigitsEnd, FractionEnd, ExponentEnd;
    var i := if Starts(s, '-') then 1 else 0;
    WholeIsSpelled(s, i);
    var j := if s[i] == '0' then i + 1 else DigitsEnd(s, i);
    FractionIsSpelled(s, j);
    var l := FractionEnd(s, j).value;
    ExponentIsSpelled(s, l);
    var n := ExponentEnd(s, l).value;
    NumberOfParts(s, i, j, l, n);
  }

  // ----- Blanks -----

  lemma {:induction false} BlanksAreSkipped(a: string, s: string)
    requires JsonBlanks(a)
    ensures SkipSpace(a + s) == SkipSpace(s)
  {
    if a == "" {
      assert a + s == s;
    } else {
      BlanksAreSkipped(a[1..], s);
      assert (a + s)[1..] == a[1..] + s;
    }
  }

  lemma {:induction false} Skipped(s: string) returns (n: nat)
    ensures n <= |s| && JsonBlanks(s[..n]) && SkipSpace(s) == s[n..] && (n < |s| ==> !IsJsonSpace(s[n]))
  {
    n := 0;
    if s != "" && IsJsonSpace(s[0]) {
      var m := Skipped(s[1..]);
      n := m + 1;
      assert s[..n] == [s[0]] + s[1..][..m];
    }
  }

  lemma ValueSkipsBlanks(a: string, s: string)
    requires JsonBlanks(a)
    ensures ParseValue(a + s) == ParseValue(s)
  {
    hide SkipSpace, ParseWord, ParseBody, ParseArray, ParseObject, ScanNumber;
    BlanksAreSkipped(a, s);
  }

  // ----- What the grammar describes is read -----

  lemma QuotedIsRead(t: string, x: string, k: string)
    requires Quoted(t, x)
    ensures ParseBody((t + k)[1..]) == Some(Parsed(x, k))
  {
    hide ParseBody, SpellsText;
    TextIsRead(Inside(t), x, k);
    assert (t + k)[1..] == Inside(t) + "\"" + k;
  }

  lemma LiteralIsRead(t: string, v: Json, k: string)
    requires (v.Null? || v.Bool?) && Bare(t, v)
    ensures ParseValue(t + k) == Some(Parsed(v, k))
  {
    hide ParseBody, ParseArray, ParseObject, ScanNumber;
    assert (t + k)[|t|..] == k;
    assert SkipSpace(t + k) == t + k;
  }

  lemma ScalarIsRead(t: string, v: Json, k: string)
    requires (v.Number? || v.String?) && Bare(t, v) && Delimited(k)
    ensures ParseValue(t + k) == Some(Parsed(v, k))
  {
    hide ParseBody, ParseArray, ParseObject, ScanNumber, ParseWord, SpellsText, IsNumber;
    if v.Number? {
      NumberIsRead(t, k);
    } else {
      QuotedIsRead(t, v.s, k);
    }
    assert SkipSpace(t + k) == t + k;
  }

  lemma {:induction false} ValueIsRead(t: string, v: Json, k: string)
    requires Bare(t, v) && Delimited(k)
    ensures ParseValue(t + k) == Some(Parsed(v, k))
    decreases v, 2
  {
    hide ParseBody, ParseArray, ParseObject, ScanNumber, ParseWord, Delimited, SpellsItems, SpellsMembers, Quoted, IsNumber;
    match v
    case Null => LiteralIsRead(t, v, k);
    case Bool(_) => LiteralIsRead(t, v, k);
    case Number(_) => ScalarIsRead(t, v, k);
    case String(_) => ScalarIsRead(t, v, k);
    case Array(items) =>
      ArrayIsRead(Inside(t), items, k);
      assert (t + k)[1..] == Inside(t) + ("]" + k);
      assert SkipSpace(t + k) == t + k;
    case Object(members) =>
      ObjectIsRead(Inside(t), members, k);
      assert (t + k)[1..] == Inside(t) + ("}" + k);
      assert SkipSpace(t + k) == t + k;
  }

  /** A value with blanks around it. */
  lemma {:induction false} SpelledIsRead(s: string, v: Json, k: string)
    requires Spells(s, v) && Delimited(k)
    ensures
      var p := ParseValue(s + k);
      p.Some? && p.value.value == v && SkipSpace(p.value.rest) == SkipSpace(k)
    decreases v, 3
  {
    hide ParseValue, SkipSpace, Bare;
    var a, b :| 0 <= a <= b <= |s| && JsonBlanks(s[..a]) && Bare(s[a..b], v) && JsonBlanks(s[b..]);
    MiddleOf(s, a, b, k);
    ValueSkipsBlanks(s[..a], s[a..b] + (s[b..] + k));
    assert s[b..] != "" ==> IsJsonSpace((s[b..] + k)[0]);
    ValueIsRead(s[a..b], v, s[b..] + k);
    BlanksAreSkipped(s[b..], k);
  }

  lemma {:induction false} ArrayIsRead(s: string, items: seq<Json>, k: string)
    requires SpellsItems(s, items)
    ensures ParseArray(s + ("]" + k)) == Some(Parsed(Array(items), k))
    decreases items, 5
  {
    hide ParseItems, SkipSpace, SpellsItems;
    if items == [] {
      NoItems(s, k);
    } else {
      ItemsAreRead(s, items, k);
      NoClosing(s + ("]" + k));
    }
  }

  lemma NoItems(s: string, k: string)
    requires SpellsItems(s, [])
    ensures SkipSpace(s + ("]" + k)) == "]" + k && ("]" + k)[1..] == k
  {
    BlanksAreSkipped(s, "]" + k);
  }

  lemma NoClosing(s: string)
    requires ParseItems(s).Some?
    ensures !Starts(SkipSpace(s), ']')
  {
    hide SkipSpace, ParseWord, ParseBody, ParseArray, ParseObject;
  }

  lemma LastItem(s: string, v: Json, k: string)
    requires var p := ParseValue(s); p.Some? && p.value.value == v && SkipSpace(p.value.rest) == "]" + k
    ensures ParseItems(s) == Some(Parsed([v], k))
  {
    hide ParseValue, SkipSpace;
    assert ("]" + k)[1..] == k;
  }

  lemma MoreItems(s: string, v: Json, rest: string, items: seq<Json>, k: string)
    requires var p := ParseValue(s); p.Some? && p.value.value == v && SkipSpace(p.value.rest) == "," + rest
    requires ParseItems(rest) == Some(Parsed(items, k))
    ensures ParseItems(s) == Some(Parsed([v] + items, k))
  {
    hide ParseValue, SkipSpace;
    assert ("," + rest)[1..] == rest;
  }

  lemma NoBlank(c: char, k: string)
    requires !IsJsonSpace(c)
    ensures SkipSpace([c] + k) == [c] + k
  {
  }

  lemma FirstItem(s: string, items: seq<Json>) returns (n: nat)
    requires |items| > 1 && SpellsItems(s, items)
    ensures n < |s| && s[n] == ',' && Spells(s[..n], items[0]) && SpellsItems(s[n + 1..], items[1..])
  {
    hide Spells;
    n :| 0 <= n < |s| && s[n] == ',' && Spells(s[..n], items[0]) && SpellsItems(s[n + 1..], items[1..]);
  }

  lemma CommaAt(s: string, n: nat, k: string)
    requires n < |s| && s[n] == ','
    ensures s + k == s[..n] + ("," + (s[n + 1..] + k))
  {
  }

  lemma {:induction false} ItemsAreRead(s: string, items: seq<Json>, k: string)
    requires items != [] && SpellsItems(s, items)
    ensures ParseItems(s + ("]" + k)) == Some(Parsed(items, k))
    decreases items, 4
  {
    hide ParseValue, ParseItems, Spells, SkipSpace, Delimited;
    var close := "]" + k;
    DelimitersAre(k);
    if |items| == 1 {
      SpelledIsRead(s, items[0], close);
      NoBlank(']', k);
      LastItem(s + close, items[0], k);
      assert items == [items[0]];
    } else {
      hide SpellsItems;
      var n := FirstItem(s, items);
      var rest := s[n + 1..] + close;
      DelimitersAre(rest);
      SpelledIsRead(s[..n], items[0], "," + rest);
      NoBlank(',', rest);
      ItemsAreRead(s[n + 1..], items[1..], k);
      CommaAt(s, n, close);
      MoreItems(s + close, items[0], rest, items[1..], k);
      assert items == [items[0]] + items[1..];
    }
  }

  lemma DelimitersAre(k: string)
    ensures Delimited("]" + k) && Delimited("}" + k) && Delimited("," + k)
  {
  }

  lemma KeyIsRead(s: string, key: string, k: string)
    requires SpellsKey(s, key)
    ensures
      var t := SkipSpace(s + k);
      && Starts(t, '\"') && ParseBody(t[1..]).Some? && ParseBody(t[1..]).value.value == key
      && SkipSpace(ParseBody(t[1..]).value.rest) == SkipSpace(k)
  {
    hide ParseBody, SpellsText, SkipSpace;
    var a, b :| 0 <= a <= b <= |s| && JsonBlanks(s[..a]) && Quoted(s[a..b], key) && JsonBlanks(s[b..]);
    var t := s[a..b] + (s[b..] + k);
    MiddleOf(s, a, b, k);
    BlanksAreSkipped(s[..a], t);
    assert t[0] == s[a..b][0];
    NoBlank(t[0], t[1..]);
    assert t == [t[0]] + t[1..];
    QuotedIsRead(s[a..b], key, s[b..] + k);
    BlanksAreSkipped(s[b..], k);
  }

  lemma {:induction false} ObjectIsRead(s: string, members: seq<Member>, k: string)
    requires SpellsMembers(s, members)
    ensures ParseObject(s + ("}" + k)) == Some(Parsed(Object(members), k))
    decreases members, 6
  {
    hide ParseMembers, SkipSpace, SpellsMembers;
    if members == [] {
      NoMembers(s, k);
    } else {
      MembersAreRead(s, members, k);
      QuoteFirst(s + ("}" + k));
    }
  }

  lemma NoMembers(s: string, k: string)
    requires SpellsMembers(s, [])
    ensures SkipSpace(s + ("}" + k)) == "}" + k && ("}" + k)[1..] == k
  {
    BlanksAreSkipped(s, "}" + k);
  }

  lemma QuoteFirst(s: string)
    requires ParseMembers(s).Some?
    ensures !Starts(SkipSpace(s), '}')
  {
    hide SkipSpace, ParseBody, ParseValue;
  }

  /** What ParseMembers finds up to the end of the first value, and what follows it. */
  ghost predicate FindsMember(s: string, m: Member, rest: string) {
    var t := SkipSpace(s);
    && Starts(t, '\"') && ParseBody(t[1..]).Some? && ParseBody(t[1..]).value.value == m.key
    && var u := SkipSpace(ParseBody(t[1..]).value.rest);
       && Starts(u, ':') && ParseValue(u[1..]).Some? && ParseValue(u[1..]).value.value == m.value
       && SkipSpace(ParseValue(u[1..]).value.rest) == rest
  }

  lemma LastMemberFound(s: string, m: Member, k: string)
    requires FindsMember(s, m, "}" + k)
    ensures ParseMembers(s) == Some(Parsed([m], k))
  {
    hide ParseValue, ParseBody, SkipSpace;
    assert ("}" + k)[1..] == k;
  }

  lemma MoreMembersFound(s: string, m: Member, rest: string, members: seq<Member>, k: string)
    requires FindsMember(s, m, "," + rest) && ParseMembers(rest) == Some(Parsed(members, k))
    ensures ParseMembers(s) == Some(Parsed([m] + members, k))
  {
    hide ParseValue, ParseBody, SkipSpace;
    assert ("," + rest)[1..] == rest;
  }

  lemma {:induction false} MemberIsRead(s: string, m: Member, k: string)
    requires SpellsMember(s, m) && Delimited(k)
    ensures FindsMember(s + k, m, SkipSpace(k))
    decreases m, 4
  {
    hide ParseBody, ParseValue, Spells, SpellsKey, Delimited;
    var n :| 0 <= n < |s| && s[n] == ':' && SpellsKey(s[..n], m.key) && Spells(s[n + 1..], m.value);
    var behind := s[n + 1..] + k;
    assert s + k == s[..n] + (":" + behind);
    KeyIsRead(s[..n], m.key, ":" + behind);
    assert SkipSpace(":" + behind) == ":" + behind && (":" + behind)[1..] == behind;
    SpelledIsRead(s[n + 1..], m.value, k);
  }

  lemma FirstMember(s: string, members: seq<Member>) returns (n: nat)
    requires |members| > 1 && SpellsMembers(s, members)
    ensures n < |s| && s[n] == ',' && SpellsMember(s[..n], members[0]) && SpellsMembers(s[n + 1..], members[1..])
  {
    hide SpellsMember;
    n :| 0 <= n < |s| && s[n] == ',' && SpellsMember(s[..n], members[0]) && SpellsMembers(s[n + 1..], members[1..]);
  }

  lemma {:induction false} MembersAreRead(s: string, members: seq<Member>, k: string)
    requires members != [] && SpellsMembers(s, members)
    ensures ParseMembers(s + ("}" + k)) == Some(Parsed(members, k))
    decreases members, 5
  {
    hide ParseMembers, FindsMember, SpellsMember, SkipSpace, Delimited;
    var m, close := members[0], "}" + k;
    DelimitersAre(k);
    if |members| == 1 {
      MemberIsRead(s, m, close);
      NoBlank('}', k);
      LastMemberFound(s + close, m, k);
      assert members == [m];
    } else {
      hide SpellsMembers;
      var n := FirstMember(s, members);
      var rest := s[n + 1..] + close;
      DelimitersAre(rest);
      MemberIsRead(s[..n], m, "," + rest);
      NoBlank(',', rest);
      MembersAreRead(s[n + 1..], members[1..], k);
      CommaAt(s, n, close);
      MoreMembersFound(s + close, m, rest, members[1..], k);
      assert members == [m] + members[1..];
    }
  }

  // ----- Whatever is read is described by the grammar -----

  lemma WordIsSpelled(t: string, word: string, v: Json)
    requires ParseWord(t, word, v).Some?
    ensures |word| <= |t| && ParseWord(t, word, v) == Some(Parsed(v, t[|word|..])) && t[..|word|] == word
  {
  }

  lemma LiteralIsSpelled(t: string) returns (n: nat)
    requires t != "" && !IsJsonSpace(t[0]) && (t[0] == 'n' || t[0] == 't' || t[0] == 'f') && ParseValue(t).Some?
    ensures
      var p := ParseValue(t).value;
      n <= |t| && t[n..] == p.rest && Bare(t[..n], p.value)
  {
    hide ParseBody, ParseArray, ParseObject, ScanNumber, ParseWord;
    n := if t[0] == 'f' then 5 else 4;
    if t[0] == 'n' {
      WordIsSpelled(t, "null", Null);
    } else if t[0] == 't' {
      WordIsSpelled(t, "true", Bool(true));
    } else {
      WordIsSpelled(t, "false", Bool(false));
    }
  }

  /** From the first character up to the closing one. */
  lemma ClosedAt(t: string, m: nat)
    requires t != "" && m < |t[1..]|
    ensures Enclosed(t[..m + 2], t[0], t[1..][m]) && Inside(t[..m + 2]) == t[1..][..m] && t[m + 2..] == t[1..][m + 1..]
  {
  }

  lemma ScalarIsSpelled(t: string) returns (n: nat)
    requires t != "" && !IsJsonSpace(t[0]) && t[0] != '[' && t[0] != '{' && ParseValue(t).Some?
    ensures
      var p := ParseValue(t).value;
      n <= |t| && t[n..] == p.rest && Bare(t[..n], p.value)
  {
    hide ParseBody, ParseArray, ParseObject, ScanNumber, ParseWord, IsNumber, SpellsText, Enclosed, Inside;
    assert SkipSpace(t) == t;
    if t[0] == '\"' {
      var m := TextIsSpelled(t[1..]);
      n := m + 2;
      ClosedAt(t, m);
    } else if t[0] == 'n' || t[0] == 't' || t[0] == 'f' {
      n := LiteralIsSpelled(t);
    } else {
      NumberIsSpelled(t);
      n := |ScanNumber(t).value.value|;
    }
  }

  /** A value in front of a text is spelled by what stands between the blanks in front of it and the rest. */
  lemma {:induction false} BareIsSpelled(t: string) returns (n: nat)
    requires t != "" && !IsJsonSpace(t[0]) && ParseValue(t).Some?
    ensures n <= |t| && Bare(t[..n], ParseValue(t).value.value) && t[n..] == ParseValue(t).value.rest
    decreases |t|, 1
  {
    hide ParseBody, ParseArray, ParseObject, ScanNumber, ParseWord, SpellsItems, SpellsMembers, Quoted, IsNumber, Enclosed,
         Inside;
    if t[0] == '[' || t[0] == '{' {
      assert SkipSpace(t) == t;
      if t[0] == '[' {
        n := ArrayIsSpelled(t[1..]);
      } else {
        n := ObjectIsSpelled(t[1..]);
      }
      ClosedAt(t, n);
      n := n + 2;
    } else {
      n := ScalarIsSpelled(t);
    }
  }

  lemma {:induction false} ValueIsSpelled(s: string) returns (a: nat, b: nat)
    requires ParseValue(s).Some?
    ensures a <= b <= |s| && JsonBlanks(s[..a]) && Bare(s[a..b], ParseValue(s).value.value) && s[b..] == ParseValue(s).value.rest
    decreases |s|, 2
  {
    hide ParseValue, SkipSpace, Bare;
    a := Skipped(s);
    var t := s[a..];
    assert s == s[..a] + t;
    ValueSkipsBlanks(s[..a], t);
    NothingIsNoValue();
    var n := BareIsSpelled(t);
    b := a + n;
    assert s[a..b] == t[..n] && s[b..] == t[n..];
  }

  lemma NothingIsNoValue()
    ensures ParseValue("").None?
  {
  }

  /** A value up to the next character that is no blank. */
  lemma {:induction false} ValueUpTo(s: string) returns (n: nat)
    requires ParseValue(s).Some?
    ensures n <= |s| && Spells(s[..n], ParseValue(s).value.value) && s[n..] == SkipSpace(ParseValue(s).value.rest)
    decreases |s|, 3
  {
    hide ParseValue, SkipSpace, Bare;
    var a, b := ValueIsSpelled(s);
    var m := Skipped(s[b..]);
    n := b + m;
    PartsOfFront(s, a, b, n);
  }

  lemma {:induction false} ArrayIsSpelled(s: string) returns (n: nat)
    requires ParseArray(s).Some?
    ensures n < |s| && s[n] == ']' && s[n + 1..] == ParseArray(s).value.rest && ParseArray(s).value.value.Array?
    ensures SpellsItems(s[..n], ParseArray(s).value.value.items)
    decreases |s|, 5
  {
    hide ParseItems, SkipSpace;
    n := Skipped(s);
    if !Starts(s[n..], ']') {
      n := ItemsAreSpelled(s);
    }
  }

  lemma {:induction false} ItemsAreSpelled(s: string) returns (n: nat)
    requires ParseItems(s).Some?
    ensures n < |s| && s[n] == ']' && s[n + 1..] == ParseItems(s).value.rest && ParseItems(s).value.value != []
    ensures SpellsItems(s[..n], ParseItems(s).value.value)
    decreases |s|, 4
  {
    hide ParseValue, SkipSpace, Spells;
    n := ValueUpTo(s);
    if s[n] == ',' {
      var m := ItemsAreSpelled(s[n + 1..]);
      var all := s[..n + 1 + m];
      assert all[n] == ',' && all[..n] == s[..n] && all[n + 1..] == s[n + 1..][..m];
      assert ParseItems(s).value.value[1..] == ParseItems(s[n + 1..]).value.value;
      n := n + 1 + m;
    }
  }

  lemma {:induction false} ObjectIsSpelled(s: string) returns (n: nat)
    requires ParseObject(s).Some?
    ensures n < |s| && s[n] == '}' && s[n + 1..] == ParseObject(s).value.rest && ParseObject(s).value.value.Object?
    ensures SpellsMembers(s[..n], ParseObject(s).value.value.members)
    decreases |s|, 6
  {
    hide ParseMembers, SkipSpace;
    n := Skipped(s);
    if !Starts(s[n..], '}') {
      n := MembersAreSpelled(s);
    }
  }

  lemma KeyUpTo(s: string) returns (n: nat)
    requires Starts(SkipSpace(s), '\"') && ParseBody(SkipSpace(s)[1..]).Some?
    ensures
      var key := ParseBody(SkipSpace(s)[1..]).value;
      n <= |s| && SpellsKey(s[..n], key.value) && s[n..] == SkipSpace(key.rest)
  {
    hide ParseBody, SkipSpace, SpellsText;
    var a := Skipped(s);
    var t := s[a + 1..];
    assert SkipSpace(s)[1..] == t;
    var m := TextIsSpelled(t);
    var b := a + m + 2;
    ClosedAt(s[a..], m);
    assert s[a..][..m + 2] == s[a..b] && s[a..][1..] == t && s[b..] == t[m + 1..];
    var l := Skipped(s[b..]);
    n := b + l;
    PartsOfFront(s, a, b, n);
  }

  lemma {:induction false} MemberUpTo(s: string, m: Member, rest: string) returns (n: nat)
    requires FindsMember(s, m, rest)
    ensures n <= |s| && SpellsMember(s[..n], m) && s[n..] == rest
    decreases |s|, 4
  {
    hide ParseBody, ParseValue, SkipSpace, Spells, SpellsKey;
    var l := KeyUpTo(s);
    assert s[l] == ':';
    var k := ValueUpTo(s[l + 1..]);
    n := l + 1 + k;
    var all := s[..n];
    assert all[l] == ':' && all[..l] == s[..l] && all[l + 1..] == s[l + 1..][..k];
  }

  lemma FirstMemberFound(s: string) returns (m: Member, rest: string)
    requires ParseMembers(s).Some?
    ensures FindsMember(s, m, rest)
    ensures
      var p := ParseMembers(s).value;
      if Starts(rest, '}') then p == Parsed([m], rest[1..])
      else
        && Starts(rest, ',') && ParseMembers(rest[1..]).Some?
        && p == Parsed([m] + ParseMembers(rest[1..]).value.value, ParseMembers(rest[1..]).value.rest)
  {
    hide ParseBody, ParseValue, SkipSpace;
    var key := ParseBody(SkipSpace(s)[1..]).value;
    var p := ParseValue(SkipSpace(key.rest)[1..]).value;
    m, rest := Member(key.value, p.value), SkipSpace(p.rest);
  }

  lemma {:induction false} MembersAreSpelled(s: string) returns (n: nat)
    requires ParseMembers(s).Some?
    ensures n < |s| && s[n] == '}' && s[n + 1..] == ParseMembers(s).value.rest && ParseMembers(s).value.value != []
    ensures SpellsMembers(s[..n], ParseMembers(s).value.value)
    decreases |s|, 5
  {
    hide ParseMembers, FindsMember, SpellsMember;
    var m, rest := FirstMemberFound(s);
    n := MemberUpTo(s, m, rest);
    if !Starts(rest, '}') {
      var l := MembersAreSpelled(s[n + 1..]);
      var all := s[..n + 1 + l];
      assert all[n] == ',' && all[..n] == s[..n] && all[n + 1..] == s[n + 1..][..l];
      assert ParseMembers(s).value.value[1..] == ParseMembers(s[n + 1..]).value.value;
      n := n + 1 + l;
    }
  }

  // ----- Documents -----

  /** The parser reads exactly the texts of the grammar, as the values they are texts of. */
  lemma ParsesExactly(s: string, v: Json)
    ensures ParseDocument(s) == Some(v) <==> Spells(s, v)
  {
    hide ParseValue, SkipSpace, Bare;
    if ParseDocument(s) == Some(v) {
      var n := ValueUpTo(s);
      assert s[..n] == s;
    }
    if Spells(s, v) {
      SpelledIsRead(s, v, "");
      assert s + "" == s;
    }
  }

  // ----- What is printed is a text of the grammar -----

  lemma PrintedChar(c: char, behind: string)
    ensures SpellsChar(EscapeChar(c), behind, c)
  {
    var e := EscapeChar(c);
    if |e| == 6 {
      Hex4RoundTrip(c as int);
      assert e[2..6] == Hex4(c as int);
    }
  }

  lemma {:induction false} PrintedText(x: string)
    ensures SpellsText(EscapeOnto(x, ""), x)
  {
    if x != "" {
      var e, behind := EscapeChar(x[0]), EscapeOnto(x[1..], "");
      PrintedText(x[1..]);
      PrintedChar(x[0], behind);
      assert (e + behind)[..|e|] == e && (e + behind)[|e|..] == behind;
    }
  }

  lemma QuotedInside(body: string)
    ensures Enclosed("\"" + body + "\"", '\"', '\"') && Inside("\"" + body + "\"") == body
    ensures Enclosed("[" + body + "]", '[', ']') && Inside("[" + body + "]") == body
    ensures Enclosed("{" + body + "}", '{', '}') && Inside("{" + body + "}") == body
  {
  }

  lemma PlainIntegerIsNumber(text: string)
    requires PlainInteger(text)
    ensures IsNumber(text)
  {
    var i, n := if Starts(text, '-') then 1 else 0, |text|;
    assert text[i..n] == if i == 1 then text[1..] else text;
    assert text[..i] == if i == 1 then "-" else "";
    assert IsWhole(text[i..n]) && IsFraction(text[n..n]) && IsExponent(text[n..]);
  }

  lemma BareSpells(t: string, v: Json)
    requires Bare(t, v)
    ensures Spells(t, v)
  {
    hide Bare;
    assert t[0..|t|] == t && t[..0] == "" && t[|t|..] == "";
  }

  lemma {:induction false} PrintedIsBare(v: Json)
    requires Printable(v)
    ensures Bare(Print(v), v)
    decreases v, 2
  {
    hide Print, SpellsText, SpellsItems, SpellsMembers, IsNumber, Enclosed, Inside, Join;
    PrintedForm(v);
    match v
    case Null =>
    case Bool(_) =>
    case Number(text) => PlainIntegerIsNumber(text);
    case String(x) =>
      PrintedText(x);
      QuotedInside(EscapeOnto(x, ""));
    case Array(items) =>
      PrintedItems(items);
      QuotedInside(Join(Texts(items), ','));
    case Object(members) =>
      PrintedMembers(members);
      QuotedInside(Join(Pairs(members), ','));
  }

  lemma CommaBetween(first: string, rest: string)
    ensures
      var s := first + [','] + rest;
      s[|first|] == ',' && s[..|first|] == first && s[|first| + 1..] == rest
  {
  }

  lemma {:induction false} PrintedItems(items: seq<Json>)
    requires forall i :: 0 <= i < |items| ==> Printable(items[i])
    ensures SpellsItems(Join(Texts(items), ','), items)
    decreases items, 1
  {
    hide Bare, Spells, Print;
    if items != [] {
      var first := Print(items[0]);
      PrintedIsBare(items[0]);
      BareSpells(first, items[0]);
      if |items| > 1 {
        PrintedItems(items[1..]);
        assert Texts(items)[1..] == Texts(items[1..]);
        CommaBetween(first, Join(Texts(items[1..]), ','));
      }
    }
  }

  lemma PrintedKey(key: string)
    ensures SpellsKey(Print(String(key)), key)
  {
    hide SpellsText, Print, Enclosed, Inside;
    var t := Print(String(key));
    PrintedForm(String(key));
    PrintedText(key);
    QuotedInside(EscapeOnto(key, ""));
    assert t[0..|t|] == t && t[..0] == "" && t[|t|..] == "";
  }

  lemma {:induction false} PrintedMember(m: Member)
    requires Printable(m.value)
    ensures SpellsMember(Print(String(m.key)) + ":" + Print(m.value), m)
    decreases m, 3
  {
    hide Bare, Spells, SpellsKey, Print;
    var key, value := Print(String(m.key)), Print(m.value);
    PrintedKey(m.key);
    PrintedIsBare(m.value);
    BareSpells(value, m.value);
    var s := key + ":" + value;
    assert s[|key|] == ':' && s[..|key|] == key && s[|key| + 1..] == value;
  }

  lemma {:induction false} PrintedMembers(members: seq<Member>)
    requires forall i :: 0 <= i < |members| ==> Printable(members[i].value)
    ensures SpellsMembers(Join(Pairs(members), ','), members)
    decreases members, 1
  {
    hide SpellsMember, Print;
    if members != [] {
      var first := Print(String(members[0].key)) + ":" + Print(members[0].value);
      PrintedMember(members[0]);
      if |members| > 1 {
        PrintedMembers(members[1..]);
        assert Pairs(members)[1..] == Pairs(members[1..]);
        CommaBetween(first, Join(Pairs(members[1..]), ','));
      }
    }
  }

  /** Reading what was printed gives it back. */
  lemma DocumentRoundTrip(v: Json)
    requires Printable(v)
    ensures ParseDocument(Print(v)) == Some(v)
  {
    hide Print, Bare, Spells;
    PrintedIsBare(v);
    BareSpells(Print(v), v);
    ParsesExactly(Print(v), v);
  }
}
