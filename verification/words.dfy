/** strings.Fields: texts as words between blanks. */
module Words {
  import opened Text

  /** The length of the part in front of the first blank. */
  function WordLength(s: string): (n: nat)
    ensures n <= |s| && (forall i :: 0 <= i < n ==> !IsSpace(s[i])) && (n < |s| ==> IsSpace(s[n]))
  {
    if s == "" || IsSpace(s[0]) then 0 else 1 + WordLength(s[1..])
  }

  /** strings.Fields: the words between blanks. */
  function Fields(s: string): seq<string>
    decreases |s|
  {
    if s == "" then []
    else if IsSpace(s[0]) then Fields(s[1..])
    else [s[..WordLength(s)]] + Fields(s[WordLength(s)..])
  }

  predicate IsWord(s: string) {
    s != "" && forall i :: 0 <= i < |s| ==> !IsSpace(s[i])
  }

  lemma {:induction false} LengthOfWord(w: string, rest: string)
    requires forall i :: 0 <= i < |w| ==> !IsSpace(w[i])
    requires rest == "" || IsSpace(rest[0])
    ensures WordLength(w + rest) == |w|
  {
    if w == "" {
      assert w + rest == rest;
    } else {
      LengthOfWord(w[1..], rest);
      assert (w + rest)[1..] == w[1..] + rest;
    }
  }

  lemma {:induction false} SkipBlanks(blanks: string, rest: string)
    requires forall i :: 0 <= i < |blanks| ==> IsSpace(blanks[i])
    ensures Fields(blanks + rest) == Fields(rest)
  {
    if blanks == "" {
      assert blanks + rest == rest;
    } else {
      SkipBlanks(blanks[1..], rest);
      assert (blanks + rest)[1..] == blanks[1..] + rest;
    }
  }

  /** However a line is padded, its fields are the words between the blanks. */
  lemma FirstField(blanks: string, word: string, rest: string)
    requires forall i :: 0 <= i < |blanks| ==> IsSpace(blanks[i])
    requires IsWord(word) && (rest == "" || IsSpace(rest[0]))
    ensures Fields(blanks + word + rest) == [word] + Fields(rest)
  {
    assert blanks + word + rest == blanks + (word + rest);
    SkipBlanks(blanks, word + rest);
    LengthOfWord(word, rest);
    assert (word + rest)[..|word|] == word && (word + rest)[|word|..] == rest;
  }

  predicate AllWords(words: seq<string>) {
    forall i :: 0 <= i < |words| ==> IsWord(words[i])
  }

  /** Words joined by single blanks, with any indentation, are its fields. */
  lemma {:induction false} FieldsJoin(blanks: string, words: seq<string>)
    requires AllWords(words) && forall i :: 0 <= i < |blanks| ==> IsSpace(blanks[i])
    ensures Fields(blanks + Join(words, ' ')) == words
    decreases |words|
  {
    if words == [] {
      SkipBlanks(blanks, "");
    } else if |words| == 1 {
      FirstField(blanks, words[0], "");
      assert blanks + words[0] + "" == blanks + Join(words, ' ');
    } else {
      var rest := Join(words[1..], ' ');
      FirstField(blanks, words[0], [' '] + rest);
      assert blanks + words[0] + ([' '] + rest) == blanks + Join(words, ' ');
      FieldsJoin([' '], words[1..]);
    }
  }
}
