/** JSON text as Go's encoding/json writes and reads it (RFC 8259). */
module JsonText {
  import opened Text

  datatype Json =
    | Null
    | Bool(b: bool)
    | Number(text: string)
    | String(s: string)
    | Array(items: seq<Json>)
    | Object(members: seq<Member>)

  datatype Member = Member(key: string, value: Json)

  /** A value read from the front of a text, and the text that follows it. */
  datatype Parsed<+T> = Parsed(value: T, rest: string)

  // ----- Printing: every printer puts its output in front of the continuation k -----

  function Print(v: Json): string {
    PrintOnto(v, "")
  }

  function PrintOnto(v: Json, k: string): string
    decreases v, 0
  {
    match v
    case Null => "null" + k
    case Bool(b) => (if b then "true" else "false") + k
    case Number(text) => text + k
    case String(s) => QuoteOnto(s, k)
    case Array(items) => "[" + ItemsOnto(items, "]" + k)
    case Object(members) => "{" + MembersOnto(members, "}" + k)
  }

  function ItemsOnto(items: seq<Json>, k: string): string
    decreases items, 0
  {
    if items == [] then k else PrintOnto(items[0], ItemsTail(items, k))
  }

  function ItemsTail(items: seq<Json>, k: string): string
    requires items != []
    decreases items[1..], 1
  {
    if |items| == 1 then k else "," + ItemsOnto(items[1..], k)
  }

  function MembersOnto(members: seq<Member>, k: string): string
    decreases members, 0
  {
    if members == [] then k else MemberOnto(members[0], MembersTail(members, k))
  }

  function MemberOnto(m: Member, k: string): string
    decreases m, 0
  {
    QuoteOnto(m.key, ":" + PrintOnto(m.value, k))
  }

  function MembersTail(members: seq<Member>, k: string): string
    requires members != []
    decreases members[1..], 1
  {
    if |members| == 1 then k else "," + MembersOnto(members[1..], k)
  }

  function QuoteOnto(s: string, k: string): string {
    "\"" + EscapeOnto(s, "\"" + k)
  }

  function EscapeOnto(s: string, k: string): string {
    if s == "" then k else EscapeChar(s[0]) + EscapeOnto(s[1..], k)
  }

  /** Short escapes, \u escapes for control and HTML characters and U+2028/U+2029, anything else as it is. */
  function EscapeChar(c: char): string {
    if c == '\"' then "\\\""
    else if c == '\\' then "\\\\"
    else if c == '\n' then "\\n"
    else if c == '\r' then "\\r"
    else if c == '\t' then "\\t"
    else if c == '\U{08}' then "\\b"
    else if c == '\U{0C}' then "\\f"
    else if c < ' ' || c == '<' || c == '>' || c == '&' || c == '\U{2028}' || c == '\U{2029}' then
      "\\u" + Hex4(c as int)
    else [c]
  }

  function Hex4(n: nat): string
    requires n < 0x10000
  {
    [HexDigit(n / 0x1000), HexDigit(n / 0x100 % 0x10), HexDigit(n / 0x10 % 0x10), HexDigit(n % 0x10)]
  }

  function Hex4Value(s: string): (n: nat)
    requires |s| == 4 && AllHex(s)
    ensures n < 0x10000
  {
    HexDigitValue(s[0]) * 0x1000 + HexDigitValue(s[1]) * 0x100 + HexDigitValue(s[2]) * 0x10 + HexDigitValue(s[3])
  }

  // ----- Parsing -----

  predicate IsJsonSpace(c: char) {
    c == ' ' || c == '\t' || c == '\r' || c == '\n'
  }

  function SkipSpace(s: string): (t: string)
    ensures |t| <= |s|
  {
    if s != "" && IsJsonSpace(s[0]) then SkipSpace(s[1..]) else s
  }

  /** A whole text holding exactly one value. */
  function ParseDocument(s: string): Option<Json> {
    var p :- ParseValue(s);
    if SkipSpace(p.rest) == "" then Some(p.value) else None
  }

  function ParseValue(s: string): (r: Option<Parsed<Json>>)
    ensures r.Some? ==> |r.value.rest| < |s|
    decreases |s|, 1
  {
    var t := SkipSpace(s);
    if t == "" then None
    else if t[0] == 'n' then ParseWord(t, "null", Null)
    else if t[0] == 't' then ParseWord(t, "true", Bool(true))
    else if t[0] == 'f' then ParseWord(t, "false", Bool(false))
    else if t[0] == '\"' then
      var p :- ParseBody(t[1..]);
      Some(Parsed(String(p.value), p.rest))
    else if t[0] == '[' then ParseArray(t[1..])
    else if t[0] == '{' then ParseObject(t[1..])
    else
      var p :- ScanNumber(t);
      Some(Parsed(Number(p.value), p.rest))
  }

  function ParseWord(t: string, word: string, v: Json): Option<Parsed<Json>> {
    if HasPrefix(t, word) then Some(Parsed(v, t[|word|..])) else None
  }

  /** An array whose opening bracket is already read. */
  function ParseArray(s: string): (r: Option<Parsed<Json>>)
    ensures r.Some? ==> |r.value.rest| <= |s|
    decreases |s|, 3
  {
    var u := SkipSpace(s);
    if Starts(u, ']') then Some(Parsed(Array([]), u[1..]))
    else
      var p :- ParseItems(s);
      Some(Parsed(Array(p.value), p.rest))
  }

  /** An object whose opening brace is already read. */
  function ParseObject(s: string): (r: Option<Parsed<Json>>)
    ensures r.Some? ==> |r.value.rest| <= |s|
    decreases |s|, 3
  {
    var u := SkipSpace(s);
    if Starts(u, '}') then Some(Parsed(Object([]), u[1..]))
    else
      var p :- ParseMembers(s);
      Some(Parsed(Object(p.value), p.rest))
  }

  /** One or more values, separated by commas and closed by a bracket. */
  function ParseItems(s: string): (r: Option<Parsed<seq<Json>>>)
    ensures r.Some? ==> |r.value.rest| < |s|
    decreases |s|, 2
  {
    var p :- ParseValue(s);
    var t := SkipSpace(p.rest);
    if Starts(t, ']') then Some(Parsed([p.value], t[1..]))
    else if Starts(t, ',') then
      var q :- ParseItems(t[1..]);
      Some(Parsed([p.value] + q.value, q.rest))
    else None
  }

  /** One or more members, separated by commas and closed by a brace. */
  function ParseMembers(s: string): (r: Option<Parsed<seq<Member>>>)
    ensures r.Some? ==> |r.value.rest| < |s|
    decreases |s|, 2
  {
    var t := SkipSpace(s);
    if !Starts(t, '\"') then None
    else
      var key :- ParseBody(t[1..]);
      var u := SkipSpace(key.rest);
      if !Starts(u, ':') then None
      else
        var p :- ParseValue(u[1..]);
        var m, w := Member(key.value, p.value), SkipSpace(p.rest);
        if Starts(w, '}') then Some(Parsed([m], w[1..]))
        else if Starts(w, ',') then
          var q :- ParseMembers(w[1..]);
          Some(Parsed([m] + q.value, q.rest))
        else None
  }

  /** The rest of a string literal whose opening quote is already read. */
  function ParseBody(s: string): (r: Option<Parsed<string>>)
    ensures r.Some? ==> |r.value.rest| < |s|
  {
    if s == "" || s[0] < ' ' then None
    else if s[0] == '\"' then Some(Parsed("", s[1..]))
    else if s[0] != '\\' then ConsChar(s[0], ParseBody(s[1..]))
    else if |s| < 2 then None
    else if s[1] == '\"' || s[1] == '\\' || s[1] == '/' then ConsChar(s[1], ParseBody(s[2..]))
    else if s[1] == 'b' then ConsChar('\U{08}', ParseBody(s[2..]))
    else if s[1] == 'f' then ConsChar('\U{0C}', ParseBody(s[2..]))
    else if s[1] == 'n' then ConsChar('\n', ParseBody(s[2..]))
    else if s[1] == 'r' then ConsChar('\r', ParseBody(s[2..]))
    else if s[1] == 't' then ConsChar('\t', ParseBody(s[2..]))
    else if !IsUnicodeEscape(s) then None
    else
      var u := Hex4Value(s[2..6]);
      if !IsSurrogate(u) then ConsChar(u as char, ParseBody(s[6..]))
      else if u < 0xDC00 && IsUnicodeEscape(s[6..]) && 0xDC00 <= Hex4Value(s[6..][2..6]) < 0xE000 then
        var low := Hex4Value(s[6..][2..6]);
        ConsChar((0x10000 + (u - 0xD800) * 0x400 + (low - 0xDC00)) as char, ParseBody(s[12..]))
      else ConsChar('\U{FFFD}', ParseBody(s[6..]))
  }

  predicate IsUnicodeEscape(s: string) {
    |s| >= 6 && s[0] == '\\' && s[1] == 'u' && AllHex(s[2..6])
  }

  predicate IsSurrogate(u: nat) {
    0xD800 <= u < 0xE000
  }

  function ConsChar(c: char, r: Option<Parsed<string>>): Option<Parsed<string>> {
    var p :- r;
    Some(Parsed([c] + p.value, p.rest))
  }

  /** A number token: optional minus, integer part without superfluous zero, fraction, exponent. */
  function ScanNumber(s: string): (r: Option<Parsed<string>>)
    ensures r.Some? ==> |r.value.rest| < |s|
  {
    var i := if Starts(s, '-') then 1 else 0;
    if i >= |s| || !IsDigit(s[i]) then None
    else
      var j := if s[i] == '0' then i + 1 else DigitsEnd(s, i);
      var f :- FractionEnd(s, j);
      var e :- ExponentEnd(s, f);
      Some(Parsed(s[..e], s[e..]))
  }

  function DigitsEnd(s: string, i: nat): (j: nat)
    requires i <= |s|
    ensures i <= j <= |s| && AllDigits(s[i..j]) && (j < |s| ==> !IsDigit(s[j]))
    ensures i < |s| && IsDigit(s[i]) ==> i < j
    decreases |s| - i
  {
    if i < |s| && IsDigit(s[i]) then DigitsEnd(s, i + 1) else i
  }

  function FractionEnd(s: string, i: nat): (r: Option<nat>)
    requires i <= |s|
    ensures r.Some? ==> i <= r.value <= |s|
  {
    if i < |s| && s[i] == '.' then
      var j := DigitsEnd(s, i + 1);
      if j == i + 1 then None else Some(j)
    else Some(i)
  }

  function ExponentEnd(s: string, i: nat): (r: Option<nat>)
    requires i <= |s|
    ensures r.Some? ==> i <= r.value <= |s|
  {
    if i < |s| && (s[i] == 'e' || s[i] == 'E') then
      var j := if i + 1 < |s| && (s[i + 1] == '+' || s[i + 1] == '-') then i + 2 else i + 1;
      var e := DigitsEnd(s, j);
      if e == j then None else Some(e)
    else Some(i)
  }

  // ----- Numbers and digits -----

  predicate PlainInteger(text: string) {
    var digits := if Starts(text, '-') then text[1..] else text;
    digits != "" && AllDigits(digits) && (|digits| > 1 ==> digits[0] != '0')
  }

  /** Every number in the value is written as a plain integer. */
  predicate Printable(v: Json) {
    match v
    case Number(text) => PlainInteger(text)
    case Array(items) => forall i :: 0 <= i < |items| ==> Printable(items[i])
    case Object(members) => forall i :: 0 <= i < |members| ==> Printable(members[i].value)
    case _ => true
  }

  /** Nothing in k can be taken for the continuation of a number. */
  predicate Delimited(k: string) {
    k == "" || !(IsDigit(k[0]) || k[0] == '.' || k[0] == 'e' || k[0] == 'E')
  }

  lemma Hex4RoundTrip(n: nat)
    requires n < 0x10000
    ensures Hex4Value(Hex4(n)) == n
  {
    var a, b, c := n / 0x1000, n / 0x100, n / 0x10;
    assert b / 0x10 == a && c / 0x10 == b;
    assert n == c * 0x10 + n % 0x10 && c == b * 0x10 + c % 0x10 && b == a * 0x10 + b % 0x10;
  }

  lemma {:induction false} DigitsEndAt(s: string, i: nat, j: nat)
    requires i <= j <= |s| && (forall x :: i <= x < j ==> IsDigit(s[x])) && (j < |s| ==> !IsDigit(s[j]))
    ensures DigitsEnd(s, i) == j
    decreases j - i
  {
    if i < j {
      DigitsEndAt(s, i + 1, j);
    }
  }

  // ----- Shape of printed text -----

  /** One line, ending like k. */
  predicate Shape(s: string, k: string) {
    Free(s, '\n') && (k != "" ==> s != "" && s[|s| - 1] == k[|k| - 1])
  }

  lemma {:induction false} QuoteShape(s: string, k: string)
    requires Free(k, '\n')
    ensures Shape(QuoteOnto(s, k), k)
  {
    EscapeShape(s, "\"" + k);
  }

  lemma {:induction false} EscapeShape(s: string, k: string)
    requires Free(k, '\n')
    ensures Shape(EscapeOnto(s, k), k)
  {
    if s != "" {
      EscapeShape(s[1..], k);
    }
  }

  /** Printed JSON never contains a line break and ends with what follows it. */
  lemma {:induction false} PrintShape(v: Json, k: string)
    requires Printable(v) && Free(k, '\n')
    ensures Shape(PrintOnto(v, k), k)
    decreases v, 1
  {
    match v
    case Null =>
    case Bool(_) =>
    case Number(text) => PlainIntegerFree(text);
    case String(s) => QuoteShape(s, k);
    case Array(items) => ItemsShape(items, "]" + k);
    case Object(members) => MembersShape(members, "}" + k);
  }

  lemma PlainIntegerFree(text: string)
    requires PlainInteger(text)
    ensures Free(text, '\n')
  {
    if Starts(text, '-') {
      assert forall i :: 1 <= i < |text| ==> text[i] == text[1..][i - 1];
    }
  }

  lemma {:induction false} ItemsShape(items: seq<Json>, k: string)
    requires (forall i :: 0 <= i < |items| ==> Printable(items[i])) && Free(k, '\n')
    ensures Shape(ItemsOnto(items, k), k)
    decreases items, 0
  {
    if items != [] {
      ItemsShape(items[1..], k);
      PrintShape(items[0], ItemsTail(items, k));
    }
  }

  lemma {:induction false} MembersShape(members: seq<Member>, k: string)
    requires (forall i :: 0 <= i < |members| ==> Printable(members[i].value)) && Free(k, '\n')
    ensures Shape(MembersOnto(members, k), k)
    decreases members, 0
  {
    if members != [] {
      MembersShape(members[1..], k);
      PrintShape(members[0].value, MembersTail(members, k));
      MemberShape(members[0], MembersTail(members, k));
    }
  }

  lemma MemberShape(m: Member, k: string)
    requires Shape(PrintOnto(m.value, k), k)
    ensures Shape(MemberOnto(m, k), k)
  {
    var value := PrintOnto(m.value, k);
    QuoteShape(m.key, ":" + value);
  }

  /** A printed object is one line between braces. */
  lemma ObjectShape(members: seq<Member>)
    requires Printable(Object(members))
    ensures
      var s := Print(Object(members));
      |s| >= 2 && s[0] == '{' && s[|s| - 1] == '}' && Free(s, '\n')
  {
    MembersShape(members, "}" + "");
  }

  // ----- What is printed -----

  function Texts(items: seq<Json>): (texts: seq<string>)
    ensures |texts| == |items|
  {
    if items == [] then [] else [Print(items[0])] + Texts(items[1..])
  }

  function Pairs(members: seq<Member>): (texts: seq<string>)
    ensures |texts| == |members|
  {
    if members == [] then [] else [Print(String(members[0].key)) + ":" + Print(members[0].value)] + Pairs(members[1..])
  }

  lemma {:induction false} EscapeBehind(s: string, k: string)
    ensures EscapeOnto(s, k) == EscapeOnto(s, "") + k
  {
    if s != "" {
      EscapeBehind(s[1..], k);
      Concat3(EscapeChar(s[0]), EscapeOnto(s[1..], ""), k);
    }
  }

  lemma QuoteBehind(s: string, k: string)
    ensures QuoteOnto(s, k) == Print(String(s)) + k
  {
    EscapeBehind(s, "\"" + k);
    EscapeBehind(s, "\"");
    assert "\"" + "" == "\"";
    assert "\"" + (EscapeOnto(s, "") + ("\"" + k)) == ("\"" + (EscapeOnto(s, "") + "\"")) + k;
  }

  /** A continuation stands behind what is printed. */
  lemma {:induction false} PrintBehind(v: Json, k: string)
    ensures PrintOnto(v, k) == Print(v) + k
    decreases v, 1
  {
    hide EscapeOnto, QuoteOnto;
    match v
    case Null => assert "null" + k == ("null" + "") + k;
    case Bool(b) =>
      var word := if b then "true" else "false";
      assert word + k == (word + "") + k;
    case Number(text) => assert text + k == (text + "") + k;
    case String(s) =>
      QuoteBehind(s, k);
    case Array(items) =>
      ItemsBehind(items, "]" + k);
      ItemsBehind(items, "]");
      assert "]" + "" == "]";
      var inside := Join(Texts(items), ',');
      assert "[" + (inside + ("]" + k)) == ("[" + (inside + "]")) + k;
    case Object(members) =>
      MembersBehind(members, "}" + k);
      MembersBehind(members, "}");
      assert "}" + "" == "}";
      var inside := Join(Pairs(members), ',');
      assert "{" + (inside + ("}" + k)) == ("{" + (inside + "}")) + k;
  }

  lemma {:induction false} ItemsBehind(items: seq<Json>, k: string)
    ensures ItemsOnto(items, k) == Join(Texts(items), ',') + k
    decreases items, 0
  {
    hide PrintOnto, Print;
    if items == [] {
      assert "" + k == k;
    } else {
      PrintBehind(items[0], ItemsTail(items, k));
      if |items| > 1 {
        ItemsBehind(items[1..], k);
        assert Texts(items)[1..] == Texts(items[1..]);
        JoinFirst(Print(items[0]), Texts(items[1..]), k);
      }
    }
  }

  lemma JoinFirst(first: string, rest: seq<string>, k: string)
    requires rest != []
    ensures first + ("," + (Join(rest, ',') + k)) == Join([first] + rest, ',') + k
  {
    assert ([first] + rest)[1..] == rest;
    assert first + ("," + (Join(rest, ',') + k)) == (first + [','] + Join(rest, ',')) + k;
  }

  lemma {:induction false} MembersBehind(members: seq<Member>, k: string)
    ensures MembersOnto(members, k) == Join(Pairs(members), ',') + k
    decreases members, 0
  {
    hide PrintOnto, Print, QuoteOnto;
    if members == [] {
      assert "" + k == k;
    } else {
      var m, tail := members[0], MembersTail(members, k);
      PrintBehind(m.value, tail);
      QuoteBehind(m.key, ":" + PrintOnto(m.value, tail));
      var first := Print(String(m.key)) + ":" + Print(m.value);
      assert Print(String(m.key)) + (":" + (Print(m.value) + tail)) == first + tail;
      if |members| > 1 {
        MembersBehind(members[1..], k);
        assert Pairs(members)[1..] == Pairs(members[1..]);
        JoinFirst(first, Pairs(members[1..]), k);
      }
    }
  }

  /** Characters that stand for themselves between quotes. */
  predicate IsPlainText(s: string) {
    forall i :: 0 <= i < |s| ==>
      && ' ' <= s[i] && s[i] != '\"' && s[i] != '\\' && s[i] != '<' && s[i] != '>' && s[i] != '&'
      && s[i] != '\U{2028}' && s[i] != '\U{2029}'
  }

  lemma {:induction false} PlainTextIsKept(s: string)
    requires IsPlainText(s)
    ensures EscapeOnto(s, "") == s
  {
    if s != "" {
      PlainTextIsKept(s[1..]);
      assert EscapeChar(s[0]) == [s[0]];
      assert s == [s[0]] + s[1..];
    }
  }

  /** The grammar of what is printed: words and numbers as they are, texts between quotes, items between brackets, and pairs of
      a quoted key and a value between braces, with commas between them. */
  lemma PrintedForm(v: Json)
    ensures
      match v
      case Null => Print(v) == "null"
      case Bool(b) => Print(v) == if b then "true" else "false"
      case Number(text) => Print(v) == text
      case String(s) => Print(v) == "\"" + EscapeOnto(s, "") + "\"" && (IsPlainText(s) ==> EscapeOnto(s, "") == s)
      case Array(items) => Print(v) == "[" + Join(Texts(items), ',') + "]"
      case Object(members) => Print(v) == "{" + Join(Pairs(members), ',') + "}"
  {
    hide EscapeOnto;
    assert "\"" + "" == "\"" && "]" + "" == "]" && "}" + "" == "}";
    match v
    case String(s) =>
      EscapeBehind(s, "\"");
      if IsPlainText(s) {
        PlainTextIsKept(s);
      }
      assert "\"" + (EscapeOnto(s, "") + "\"") == "\"" + EscapeOnto(s, "") + "\"";
    case Array(items) =>
      ItemsBehind(items, "]");
      assert "[" + (Join(Texts(items), ',') + "]") == "[" + Join(Texts(items), ',') + "]";
    case Object(members) =>
      MembersBehind(members, "}");
      assert "{" + (Join(Pairs(members), ',') + "}") == "{" + Join(Pairs(members), ',') + "}";
    case _ =>
  }
}
