/** Reading the stanzas of a configuration word by word, as HAProxy reads lines without comments, quotes and backslashes:
    every setting arrives in its place. */
module StanzaReader {
  import opened Text
  import opened Words
  import opened Types
  import opened StanzaRenderer

  /** What a server line says. */
  datatype Server = Server(name: string, address: string, port: nat, interval: int, skipVerify: bool)

  /** What the two stanzas of a configuration say. */
  datatype Stanza = Stanza(
    frontend: string,
    address: string,
    port: nat,
    certificate: Option<string>,
    mode: string,
    defaultBackend: string,
    redirect: bool,
    backend: string,
    backendMode: string,
    balance: string,
    servers: seq<Server>)

  // ----- Words -----

  /** Characters with a meaning of their own in HAProxy files: comments, escapes and quotes. */
  predicate IsSpecial(c: char) {
    c == '#' || c == '\\' || c == '\"' || c == '\''
  }

  predicate Ordinary(s: string) {
    forall i :: 0 <= i < |s| ==> !IsSpecial(s[i])
  }

  /** Neither blanks nor special characters. */
  predicate Unbroken(s: string) {
    forall i :: 0 <= i < |s| ==> !IsSpace(s[i]) && !IsSpecial(s[i])
  }

  predicate Token(s: string) {
    s != "" && Unbroken(s)
  }

  predicate AllTokens(words: seq<string>) {
    forall i :: 0 <= i < |words| ==> Token(words[i])
  }

  /** The words of a line; a line with special characters is not read at all. */
  function Lex(line: string): seq<string> {
    if Ordinary(line) then Fields(line) else []
  }

  lemma {:induction false} OrdinaryJoin(words: seq<string>)
    requires AllTokens(words)
    ensures Ordinary(Join(words, ' '))
  {
    if |words| > 1 {
      OrdinaryJoin(words[1..]);
    }
  }

  lemma LexJoin(blanks: string, words: seq<string>)
    requires AllTokens(words) && Ordinary(blanks) && forall i :: 0 <= i < |blanks| ==> IsSpace(blanks[i])
    ensures Lex(blanks + Join(words, ' ')) == words
  {
    hide Join, Fields;
    OrdinaryJoin(words);
    FieldsJoin(blanks, words);
  }

  lemma {:induction false} FieldsAreTokens(s: string)
    requires Ordinary(s)
    ensures AllTokens(Fields(s))
    decreases |s|
  {
    if s != "" {
      if IsSpace(s[0]) {
        FieldsAreTokens(s[1..]);
      } else {
        FieldsAreTokens(s[WordLength(s)..]);
      }
    }
  }

  /** The words of a line with single blanks between them, and nothing else behind the indentation. */
  predicate LaidOut(line: string, indentation: string) {
    line == indentation + Join(Lex(line), ' ')
  }

  lemma LexTokens(line: string)
    ensures AllTokens(Lex(line))
  {
    if Ordinary(line) {
      FieldsAreTokens(line);
    }
  }

  // ----- Reading -----

  /** The position of the last colon, or the length. */
  function LastColon(s: string): (n: nat)
    ensures n <= |s|
  {
    if ':' !in s then |s| else if s[|s| - 1] == ':' then |s| - 1 else LastColon(s[..|s| - 1])
  }

  function ReadNumber(s: string): Option<nat> {
    if s != "" && AllDigits(s) then Some(NatValue(s)) else None
  }

  /** address:port. */
  function ReadEndpoint(s: string): Option<(string, nat)> {
    var n := LastColon(s);
    if n == |s| then None
    else
      var port :- ReadNumber(s[n + 1..]);
      Some((s[..n], port))
  }

  /** A number of seconds. */
  function ReadSeconds(s: string): Option<nat> {
    if s != "" && s[|s| - 1] == 's' then ReadNumber(s[..|s| - 1]) else None
  }

  /** The value of a directive with one word. */
  function ReadDirective(line: string, keyword: string): Option<string> {
    var words := Lex(line);
    if |words| == 2 && words[0] == keyword then Some(words[1]) else None
  }

  function ReadBind(line: string): Option<(string, nat, Option<string>)> {
    var words := Lex(line);
    if |words| == 2 && words[0] == "bind" then
      var endpoint :- ReadEndpoint(words[1]);
      Some((endpoint.0, endpoint.1, None))
    else if |words| == 5 && words[0] == "bind" && words[2] == "ssl" && words[3] == "crt" then
      var endpoint :- ReadEndpoint(words[1]);
      Some((endpoint.0, endpoint.1, Some(words[4])))
    else None
  }

  function ReadServer(line: string): Option<Server> {
    var words := Lex(line);
    if !(|words| == 6 || (|words| == 9 && words[6..] == ["ssl", "verify", "none"])) then None
    else if words[0] != "server" || words[3] != "check" || words[4] != "inter" then None
    else
      var endpoint :- ReadEndpoint(words[2]);
      var interval :- ReadSeconds(words[5]);
      Some(Server(words[1], endpoint.0, endpoint.1, interval, |words| == 9))
  }

  function ReadServers(lines: seq<string>): Option<seq<Server>> {
    if lines == [] then Some([])
    else
      var front :- ReadServers(lines[..|lines| - 1]);
      var last :- ReadServer(lines[|lines| - 1]);
      Some(front + [last])
  }

  predicate IsRedirect(line: string) {
    Lex(line) == ["http-request", "redirect", "scheme", "https", "code", "301", "if", "!{", "ssl_fc", "}"]
  }

  /** A frontend of four lines, a redirect or none, a backend of three lines and its servers. */
  function ReadStanza(lines: seq<string>): Option<Stanza> {
    if |lines| < 7 then None
    else
      var redirect := IsRedirect(lines[4]);
      var rest := if redirect then lines[5..] else lines[4..];
      if |rest| < 3 then None
      else
        var frontend :- ReadDirective(lines[0], "frontend");
        var bind :- ReadBind(lines[1]);
        var mode :- ReadDirective(lines[2], "mode");
        var defaultBackend :- ReadDirective(lines[3], "default_backend");
        var backend :- ReadDirective(rest[0], "backend");
        var backendMode :- ReadDirective(rest[1], "mode");
        var balance :- ReadDirective(rest[2], "balance");
        var servers :- ReadServers(rest[3..]);
        Some(Stanza(frontend, bind.0, bind.1, bind.2, mode, defaultBackend, redirect, backend, backendMode, balance, servers))
  }

  // ----- What should be read -----

  function ServerOf(b: Target, skipVerify: bool): Server {
    Server(b.name, Trim(b.address), b.port, b.checkIntervalSecond, skipVerify)
  }

  /** The settings that reach the stanzas are single words without special characters; intervals are not negative. */
  predicate Readable(c: Configuration) {
    && Token(c.frontendName) && Token(c.backendName) && Unbroken(Trim(c.frontendBindAddress))
    && Token(NormalizeWord(c.trafficMode)) && Token(NormalizeWord(c.loadBalancing))
    && (TlsEnabled(c) ==> Token(Trim(c.tls.value.certificatePath)))
    && forall b :: b in c.backends ==> ReadableTarget(b)
  }

  predicate ReadableTarget(b: Target) {
    Token(b.name) && Unbroken(Trim(b.address)) && b.checkIntervalSecond >= 0
  }

  function StanzaOf(c: Configuration): Stanza {
    Stanza(c.frontendName, Trim(c.frontendBindAddress), c.frontendBindPort,
           if TlsEnabled(c) then Some(Trim(c.tls.value.certificatePath)) else None,
           NormalizeWord(c.trafficMode), c.backendName, c.autoHttpsRedirect,
           c.backendName, NormalizeWord(c.trafficMode), NormalizeWord(c.loadBalancing),
           ServersOf(c.backends, c.tls.Some? && c.tls.value.skipBackendTlsVerify))
  }

  function ServersOf(backends: seq<Target>, skipVerify: bool): (servers: seq<Server>)
    ensures |servers| == |backends|
    ensures forall i :: 0 <= i < |backends| ==> servers[i] == ServerOf(backends[i], skipVerify)
  {
    if backends == [] then []
    else ServersOf(backends[..|backends| - 1], skipVerify) + [ServerOf(backends[|backends| - 1], skipVerify)]
  }

  // ----- Words of lines -----

  lemma {:induction false} LastColonAt(a: string, digits: string)
    requires ':' !in digits
    ensures LastColon(a + ":" + digits) == |a|
  {
    var s := a + ":" + digits;
    assert s[|a|] == ':';
    if digits != "" {
      var front := digits[..|digits| - 1];
      assert s[|s| - 1] == digits[|digits| - 1];
      assert s[..|s| - 1] == a + ":" + front;
      LastColonAt(a, front);
    }
  }

  lemma EndpointReadsBack(a: string, port: nat)
    ensures ReadEndpoint(a + ":" + PrintNat(port)) == Some((a, port))
  {
    hide PrintNat, NatValue;
    var s := a + ":" + PrintNat(port);
    LastColonAt(a, PrintNat(port));
    NatValuePrint(port);
    assert s[..|a|] == a && s[|a| + 1..] == PrintNat(port);
  }

  lemma SecondsReadBack(n: nat)
    ensures ReadSeconds(PrintNat(n) + "s") == Some(n)
  {
    hide PrintNat, NatValue;
    NatValuePrint(n);
    assert (PrintNat(n) + "s")[..|PrintNat(n)|] == PrintNat(n);
  }

  lemma DigitsAreToken(s: string)
    requires s != "" && AllDigits(s)
    ensures Token(s)
  {
  }

  lemma EndpointIsToken(a: string, port: nat)
    requires Unbroken(a)
    ensures Token(a + ":" + PrintNat(port))
  {
    DigitsAreToken(PrintNat(port));
  }

  /** Two words, with and without indentation. */
  lemma TwoWords(a: string, b: string)
    requires Token(a) && Token(b)
    ensures Lex(Directive(a, b)) == [a, b] && Lex(Indent(Directive(a, b))) == [a, b]
    ensures LaidOut(Directive(a, b), "") && LaidOut(Indent(Directive(a, b)), "    ")
  {
    hide Lex, IsWord;
    LexJoin("", [a, b]);
    LexJoin("    ", [a, b]);
    assert Join([a, b][1..], ' ') == b;
    assert Join([a, b], ' ') == Directive(a, b);
    assert "" + Directive(a, b) == Directive(a, b);
  }

  lemma {:induction false} JoinConcat(a: seq<string>, b: seq<string>)
    requires a != [] && b != []
    ensures Join(a + b, ' ') == Join(a, ' ') + " " + Join(b, ' ')
  {
    if |a| == 1 {
      assert (a + b)[1..] == b;
    } else {
      JoinConcat(a[1..], b);
      assert (a + b)[1..] == a[1..] + b;
      assert Join(a + b, ' ') == a[0] + " " + (Join(a[1..], ' ') + " " + Join(b, ' '));
    }
  }

  lemma JoinThree(a: string, b: string, c: string)
    ensures Join([a, b, c], ' ') == a + " " + b + " " + c
  {
    assert [a, b, c][1..] == [b, c] && [b, c][1..] == [c];
    assert Join([b, c], ' ') == b + " " + c;
    assert a + " " + (b + " " + c) == a + " " + b + " " + c;
  }

  // ----- Servers -----

  lemma CheckInter(n: nat)
    ensures Join(["check", "inter", PrintNat(n) + "s"], ' ') == "check inter " + PrintNat(n) + "s"
  {
    JoinThree("check", "inter", PrintNat(n) + "s");
    assert "check" + " " + "inter" + " " == "check inter ";
  }

  lemma VerifyTokens()
    ensures Token("ssl") && Token("verify") && Token("none")
  {
  }

  lemma VerifyNone()
    ensures " " + Join(["ssl", "verify", "none"], ' ') == VERIFY_NONE
    ensures AllTokens(["ssl", "verify", "none"])
  {
    hide Token;
    JoinThree("ssl", "verify", "none");
    VerifyTokens();
    var words := ["ssl", "verify", "none"];
    assert words[0] == "ssl" && words[1] == "verify" && words[2] == "none";
    assert " " + ("ssl" + " " + "verify" + " " + "none") == VERIFY_NONE;
  }

  function ServerWords(b: Target): seq<string>
    requires b.checkIntervalSecond >= 0
  {
    [SERVER, b.name, Trim(b.address) + ":" + PrintNat(b.port)] + ["check", "inter", PrintNat(b.checkIntervalSecond) + "s"]
  }

  lemma ServerText(k: string, name: string, address: string, port: string, check: string, n: string)
    ensures
      (k + " " + name + " " + (address + ":" + port)) + " " + (check + n + "s") ==
      k + " " + (name + " " + address + ":" + port + (" " + check) + n + "s")
  {
    var value := name + " " + address + ":" + port;
    assert k + " " + name + " " + (address + ":" + port) == k + " " + value;
    assert (k + " " + value) + " " + (check + n + "s") == k + " " + (value + (" " + check) + n + "s");
  }

  lemma ServerWordsJoined(b: Target)
    requires b.checkIntervalSecond >= 0
    ensures Join(ServerWords(b), ' ') == Directive(SERVER, ServerValue(b))
  {
    hide Trim, PrintNat;
    var endpoint, n := Trim(b.address) + ":" + PrintNat(b.port), PrintNat(b.checkIntervalSecond);
    JoinConcat([SERVER, b.name, endpoint], ["check", "inter", n + "s"]);
    JoinThree(SERVER, b.name, endpoint);
    CheckInter(b.checkIntervalSecond);
    assert " " + "check inter " == " check inter ";
    ServerText(SERVER, b.name, Trim(b.address), PrintNat(b.port), "check inter ", n);
  }

  lemma ServerWordsAreTokens(b: Target)
    requires ReadableTarget(b)
    ensures AllTokens(ServerWords(b))
  {
    hide Trim, PrintNat;
    EndpointIsToken(Trim(b.address), b.port);
    DigitsAreToken(PrintNat(b.checkIntervalSecond));
  }

  lemma ServerFields(b: Target, skipVerify: bool)
    requires ReadableTarget(b)
    ensures Lex(ServerLine(b, skipVerify)) == ServerWords(b) + if skipVerify then ["ssl", "verify", "none"] else []
    ensures LaidOut(ServerLine(b, skipVerify), "    ")
  {
    hide Lex, ServerWords, ServerValue;
    var words, more := ServerWords(b), ["ssl", "verify", "none"];
    ServerWordsAreTokens(b);
    ServerWordsJoined(b);
    LexJoin("    ", words);
    if skipVerify {
      VerifyNone();
      SomeWords(b);
      JoinConcat(words, more);
      LexJoin("    ", words + more);
      Concat3(Join(words, ' '), " ", Join(more, ' '));
      assert Directive(SERVER, ServerValue(b)) + VERIFY_NONE == Directive(SERVER, ServerValue(b) + VERIFY_NONE);
    } else {
      assert words + [] == words;
    }
  }

  lemma SomeWords(b: Target)
    requires b.checkIntervalSecond >= 0
    ensures ServerWords(b) != []
  {
  }

  lemma ServerReadsBackIf(b: Target, skipVerify: bool)
    requires ReadableTarget(b)
    ensures ReadServer(ServerLine(b, skipVerify)) == Some(ServerOf(b, skipVerify))
  {
    hide Lex, ServerLine, PrintNat, Trim, ReadEndpoint, ReadSeconds;
    ServerFields(b, skipVerify);
    EndpointReadsBack(Trim(b.address), b.port);
    SecondsReadBack(b.checkIntervalSecond);
    var words := Lex(ServerLine(b, skipVerify));
    assert words[..6] == ServerWords(b);
    assert words[0] == words[..6][0] && words[1] == words[..6][1] && words[2] == words[..6][2];
    assert words[3] == words[..6][3] && words[4] == words[..6][4] && words[5] == words[..6][5];
    assert skipVerify ==> words[6..] == ["ssl", "verify", "none"];
  }

  lemma {:induction false} ServersReadBack(backends: seq<Target>, skipVerify: bool)
    requires forall b :: b in backends ==> ReadableTarget(b)
    ensures ReadServers(ServerLines(backends, skipVerify)) == Some(ServersOf(backends, skipVerify))
  {
    hide ReadServer, ServerLine, ReadableTarget;
    if backends != [] {
      var front, last := backends[..|backends| - 1], backends[|backends| - 1];
      ServersReadBack(front, skipVerify);
      ServerReadsBackIf(last, skipVerify);
      var lines := ServerLines(front, skipVerify) + [ServerLine(last, skipVerify)];
      assert lines[..|lines| - 1] == ServerLines(front, skipVerify);
    }
  }

  // ----- The bind line -----

  lemma BindReadsBackIf(c: Configuration)
    requires Unbroken(Trim(c.frontendBindAddress)) && (TlsEnabled(c) ==> Token(Trim(c.tls.value.certificatePath)))
    ensures ReadBind(Indent(Directive(BIND, BindValue(c)))) ==
            Some((Trim(c.frontendBindAddress), c.frontendBindPort,
                  if TlsEnabled(c) then Some(Trim(c.tls.value.certificatePath)) else None))
    ensures LaidOut(Indent(Directive(BIND, BindValue(c))), "    ")
  {
    hide Lex, PrintNat, Trim, ReadEndpoint;
    var endpoint := Trim(c.frontendBindAddress) + ":" + PrintNat(c.frontendBindPort);
    EndpointIsToken(Trim(c.frontendBindAddress), c.frontendBindPort);
    EndpointReadsBack(Trim(c.frontendBindAddress), c.frontendBindPort);
    assert Token(BIND);
    if TlsEnabled(c) {
      TlsBindFields(endpoint, Trim(c.tls.value.certificatePath));
    } else {
      TwoWords(BIND, endpoint);
    }
  }

  lemma BindTokens()
    ensures Token(BIND) && Token("ssl") && Token("crt")
  {
  }

  lemma TlsBindFields(endpoint: string, path: string)
    requires Token(endpoint) && Token(path)
    ensures Lex(Indent(Directive(BIND, endpoint + SSL_CRT + path))) == [BIND, endpoint, "ssl", "crt", path]
    ensures LaidOut(Indent(Directive(BIND, endpoint + SSL_CRT + path)), "    ")
  {
    hide Lex, Token;
    var words, more := [BIND, endpoint], ["ssl", "crt", path];
    BindTokens();
    JoinConcat(words, more);
    JoinThree("ssl", "crt", path);
    assert Join([BIND, endpoint][1..], ' ') == endpoint;
    assert Join(words, ' ') == BIND + " " + endpoint;
    assert " " + ("ssl" + " " + "crt" + " ") == SSL_CRT;
    assert Join(words + more, ' ') == BIND + " " + (endpoint + SSL_CRT + path);
    LexJoin("    ", words + more);
    assert words + more == [BIND, endpoint, "ssl", "crt", path];
  }

  // ----- The redirect line -----

  lemma RedirectIsRead()
    ensures IsRedirect(Indent(Directive(HTTP_REQUEST, REDIRECT))) && LaidOut(Indent(Directive(HTTP_REQUEST, REDIRECT)), "    ")
  {
    hide Lex;
    var a, b, c, d := ["http-request", "redirect", "scheme"], ["https", "code", "301"], ["if", "!{", "ssl_fc"], ["}"];
    JoinThree("http-request", "redirect", "scheme");
    JoinThree("https", "code", "301");
    JoinThree("if", "!{", "ssl_fc");
    JoinConcat(a, b);
    JoinConcat(a + b, c);
    JoinConcat(a + b + c, d);
    RedirectWords();
    RedirectText();
    LexJoin("    ", a + b + c + d);
    assert a + b + c + d == ["http-request", "redirect", "scheme", "https", "code", "301", "if", "!{", "ssl_fc", "}"];
  }

  lemma RedirectWords()
    ensures AllTokens(["http-request", "redirect", "scheme"] + ["https", "code", "301"] + ["if", "!{", "ssl_fc"] + ["}"])
  {
    RedirectTokens();
    RedirectConditionTokens();
    hide Token;
    ThreeTokens("http-request", "redirect", "scheme");
    ThreeTokens("https", "code", "301");
    ThreeTokens("if", "!{", "ssl_fc");
  }

  lemma RedirectTokens()
    ensures Token("http-request") && Token("redirect") && Token("scheme") && Token("https") && Token("code") && Token("301")
  {
  }

  lemma RedirectConditionTokens()
    ensures Token("if") && Token("!{") && Token("ssl_fc") && Token("}")
  {
  }

  lemma ThreeTokens(a: string, b: string, c: string)
    requires Token(a) && Token(b) && Token(c)
    ensures AllTokens([a, b, c])
  {
    hide Token;
    var words := [a, b, c];
    assert words[0] == a && words[1] == b && words[2] == c;
  }

  lemma FrontText()
    ensures "redirect" + " " + "scheme" + " " + ("https" + " " + "code" + " " + "301") == "redirect scheme https code 301"
  {
  }

  lemma BackText()
    ensures " " + ("if" + " " + "!{" + " " + "ssl_fc") + " " + "}" == " if !{ ssl_fc }"
  {
  }

  lemma Associate(h: string, a: string, b: string, c: string, d: string, e: string)
    ensures (h + " " + a + " " + b) + " " + c + " " + d + " " + e
            == h + " " + ((a + " " + b + " " + c) + (" " + d + " " + e))
  {
    var front, back := a + " " + b + " " + c, " " + d + " " + e;
    assert (h + " " + a + " " + b) + " " + c == h + " " + front;
    assert (h + " " + front) + " " + d + " " + e == (h + " " + front) + back;
  }

  lemma RedirectText()
    ensures ("http-request" + " " + "redirect" + " " + "scheme") + " " + ("https" + " " + "code" + " " + "301") + " "
            + ("if" + " " + "!{" + " " + "ssl_fc") + " " + "}" == Directive(HTTP_REQUEST, REDIRECT)
  {
    FrontText();
    BackText();
    Associate("http-request", "redirect", "scheme", "https" + " " + "code" + " " + "301",
              "if" + " " + "!{" + " " + "ssl_fc", "}");
  }

  // ----- Whole stanzas -----

  lemma DirectiveReadsBack(keyword: string, value: string)
    requires Token(keyword) && Token(value)
    ensures ReadDirective(Directive(keyword, value), keyword) == Some(value)
    ensures ReadDirective(Indent(Directive(keyword, value)), keyword) == Some(value)
  {
    hide Lex, IsWord;
    TwoWords(keyword, value);
  }

  lemma KeywordsAreTokens()
    ensures Token(FRONTEND) && Token(BACKEND) && Token(MODE) && Token(DEFAULT_BACKEND) && Token(BALANCE)
  {
  }

  lemma BackendIsNoRedirect(c: Configuration)
    requires Token(c.backendName)
    ensures !IsRedirect(Directive(BACKEND, c.backendName))
  {
    hide Lex, IsWord;
    KeywordsAreTokens();
    TwoWords(BACKEND, c.backendName);
  }

  lemma StanzaReadsBackIf(c: Configuration)
    requires Readable(c)
    ensures ReadStanza(StanzaLines(c)) == Some(StanzaOf(c))
  {
    hide Lex, Token, ReadDirective, ReadBind, ReadServers, IsRedirect, BindValue, Directive, Indent, NormalizeWord, Trim,
         ServerLines, ServersOf;
    KeywordsAreTokens();
    DirectiveReadsBack(FRONTEND, c.frontendName);
    BindReadsBackIf(c);
    DirectiveReadsBack(MODE, NormalizeWord(c.trafficMode));
    DirectiveReadsBack(DEFAULT_BACKEND, c.backendName);
    DirectiveReadsBack(BACKEND, c.backendName);
    DirectiveReadsBack(BALANCE, NormalizeWord(c.loadBalancing));
    RedirectIsRead();
    BackendIsNoRedirect(c);
    ServersReadBack(c.backends, SkipsVerification(c));
    var lines, n := StanzaLines(c), |FrontendLines(c)|;
    assert lines[n..] == BackendLines(c) && lines[n] == BackendLines(c)[0];
    assert BackendLines(c)[3..] == ServerLines(c.backends, SkipsVerification(c));
  }

  // ----- Layout -----

  lemma FrontendIsLaidOut(c: Configuration, i: nat)
    requires Readable(c) && i < |FrontendLines(c)|
    ensures LaidOut(FrontendLines(c)[i], if i == 0 then "" else "    ")
  {
    hide Token, LaidOut, Lex, ReadBind, IsRedirect, BindValue, Directive, Indent, NormalizeWord, Trim;
    KeywordsAreTokens();
    TwoWords(FRONTEND, c.frontendName);
    BindReadsBackIf(c);
    TwoWords(MODE, NormalizeWord(c.trafficMode));
    TwoWords(DEFAULT_BACKEND, c.backendName);
    RedirectIsRead();
  }

  lemma BackendIsLaidOut(c: Configuration, i: nat)
    requires Readable(c) && i < |BackendLines(c)|
    ensures LaidOut(BackendLines(c)[i], if i == 0 then "" else "    ")
  {
    hide Token, LaidOut, Lex, Directive, Indent, NormalizeWord, Trim, ServerLines, ServerLine;
    ServerCount(c.backends, SkipsVerification(c));
    if i < 3 {
      KeywordsAreTokens();
      TwoWords(BACKEND, c.backendName);
      TwoWords(MODE, NormalizeWord(c.trafficMode));
      TwoWords(BALANCE, NormalizeWord(c.loadBalancing));
    } else {
      ServerLineAt(c.backends, SkipsVerification(c), i - 3);
      ServerFields(c.backends[i - 3], SkipsVerification(c));
    }
  }

  /** Where the stanzas can be read, their text is that of their words: single blanks between them, and in front of all but
      the first line of the frontend and the first line of the backend an indentation of four. */
  lemma StanzaIsLaidOut(c: Configuration, i: nat)
    requires Readable(c) && i < |StanzaLines(c)|
    ensures
      var backend := if c.autoHttpsRedirect then 5 else 4;
      LaidOut(StanzaLines(c)[i], if i == 0 || i == backend then "" else "    ")
  {
    hide Readable, LaidOut, BackendLines, Directive, Indent;
    var n := |FrontendLines(c)|;
    if i < n {
      FrontendIsLaidOut(c, i);
    } else {
      BackendIsLaidOut(c, i - n);
    }
  }

  // ----- Whatever can be read consists of words -----

  predicate WellRead(s: Stanza) {
    && Token(s.frontend) && Unbroken(s.address) && (s.certificate.Some? ==> Token(s.certificate.value)) && Token(s.mode)
    && Token(s.backend) && Token(s.balance)
    && forall i :: 0 <= i < |s.servers| ==> WellReadServer(s.servers[i])
  }

  predicate WellReadServer(s: Server) {
    Token(s.name) && Unbroken(s.address) && s.interval >= 0
  }

  lemma DirectiveIsToken(line: string, keyword: string)
    ensures ReadDirective(line, keyword).Some? ==> Token(ReadDirective(line, keyword).value)
  {
    hide Lex;
    LexTokens(line);
  }

  lemma EndpointIsUnbroken(s: string)
    requires Unbroken(s)
    ensures ReadEndpoint(s).Some? ==> Unbroken(ReadEndpoint(s).value.0)
  {
  }

  lemma BindIsWellRead(line: string)
    ensures
      var b := ReadBind(line);
      b.Some? ==> Unbroken(b.value.0) && (b.value.2.Some? ==> Token(b.value.2.value))
  {
    hide Lex, ReadEndpoint;
    LexTokens(line);
    var words := Lex(line);
    if |words| >= 2 {
      EndpointIsUnbroken(words[1]);
    }
  }

  lemma ServerIsWellRead(line: string)
    ensures ReadServer(line).Some? ==> WellReadServer(ReadServer(line).value)
  {
    hide Lex, ReadEndpoint, ReadSeconds;
    LexTokens(line);
    var words := Lex(line);
    if |words| >= 6 {
      EndpointIsUnbroken(words[2]);
    }
  }

  lemma {:induction false} ServersAreWellRead(lines: seq<string>)
    ensures
      var servers := ReadServers(lines);
      servers.Some? ==> forall i :: 0 <= i < |servers.value| ==> WellReadServer(servers.value[i])
  {
    hide ReadServer;
    if lines != [] {
      ServersAreWellRead(lines[..|lines| - 1]);
      ServerIsWellRead(lines[|lines| - 1]);
    }
  }

  lemma StanzaIsWellRead(lines: seq<string>)
    ensures ReadStanza(lines).Some? ==> WellRead(ReadStanza(lines).value)
  {
    hide ReadDirective, ReadBind, ReadServers, IsRedirect, Token, Unbroken, WellReadServer;
    if ReadStanza(lines).Some? {
      var rest := if IsRedirect(lines[4]) then lines[5..] else lines[4..];
      DirectiveIsToken(lines[0], "frontend");
      BindIsWellRead(lines[1]);
      DirectiveIsToken(lines[2], "mode");
      DirectiveIsToken(rest[0], "backend");
      DirectiveIsToken(rest[2], "balance");
      ServersAreWellRead(rest[3..]);
      var stanza := ReadStanza(lines).value;
      assert Some(stanza.frontend) == ReadDirective(lines[0], "frontend");
      assert Some((stanza.address, stanza.port, stanza.certificate)) == ReadBind(lines[1]);
      assert Some(stanza.mode) == ReadDirective(lines[2], "mode");
      assert Some(stanza.backend) == ReadDirective(rest[0], "backend");
      assert Some(stanza.balance) == ReadDirective(rest[2], "balance");
      assert Some(stanza.servers) == ReadServers(rest[3..]);
      assert forall i :: 0 <= i < |stanza.servers| ==> WellReadServer(stanza.servers[i]);
    }
  }

  /** A server line gives its target back if and only if name and address are unbroken and the interval is not negative. */
  lemma ServerReadsBack(b: Target, skipVerify: bool)
    ensures ReadServer(ServerLine(b, skipVerify)) == Some(ServerOf(b, skipVerify)) <==> ReadableTarget(b)
  {
    hide ReadServer, ServerLine, Token, Unbroken, Trim;
    if ReadableTarget(b) {
      ServerReadsBackIf(b, skipVerify);
    }
    ServerIsWellRead(ServerLine(b, skipVerify));
  }

  /** A bind line gives address, port and certificate path back if and only if they are unbroken. */
  lemma BindReadsBack(c: Configuration)
    ensures
      var path := if TlsEnabled(c) then Some(Trim(c.tls.value.certificatePath)) else None;
      ReadBind(Indent(Directive(BIND, BindValue(c)))) == Some((Trim(c.frontendBindAddress), c.frontendBindPort, path)) <==>
      Unbroken(Trim(c.frontendBindAddress)) && (path.Some? ==> Token(path.value))
  {
    hide ReadBind, BindValue, Directive, Indent, Token, Unbroken, Trim;
    if Unbroken(Trim(c.frontendBindAddress)) && (TlsEnabled(c) ==> Token(Trim(c.tls.value.certificatePath))) {
      BindReadsBackIf(c);
    }
    BindIsWellRead(Indent(Directive(BIND, BindValue(c))));
  }

  /** Reading the rendered stanzas word by word gives back every name, address, port, path, mode and interval, the redirect
      and for every server whether certificates are verified, if and only if the settings are single words without special
      characters and the intervals are not negative. Validation ensures the latter, but not the former. */
  lemma StanzaReadsBack(c: Configuration)
    ensures ReadStanza(StanzaLines(c)) == Some(StanzaOf(c)) <==> Readable(c)
  {
    hide ReadStanza, StanzaLines, Token, Unbroken, NormalizeWord, Trim;
    if Readable(c) {
      StanzaReadsBackIf(c);
    }
    if ReadStanza(StanzaLines(c)) == Some(StanzaOf(c)) {
      StanzaIsWellRead(StanzaLines(c));
      var servers := ServersOf(c.backends, SkipsVerification(c));
      forall b | b in c.backends ensures ReadableTarget(b) {
        var i :| 0 <= i < |c.backends| && c.backends[i] == b;
        assert WellReadServer(servers[i]);
      }
    }
  }
}
