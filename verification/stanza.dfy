/** The HAProxy stanzas of one configuration. */
module StanzaRenderer {
  import opened Text
  import opened Types

  /** One directive of the HAProxy language. */
  function Directive(keyword: string, value: string): string {
    keyword + " " + value
  }

  function Indent(s: string): string {
    "    " + s
  }

  const FRONTEND := "frontend"
  const BACKEND := "backend"
  const BIND := "bind"
  const MODE := "mode"
  const DEFAULT_BACKEND := "default_backend"
  const BALANCE := "balance"
  const SERVER := "server"
  const HTTP_REQUEST := "http-request"
  const REDIRECT := "redirect scheme https code 301" + " if !{ ssl_fc }"
  const SSL_CRT := " ssl crt "
  const VERIFY_NONE := " ssl verify none"

  function BindValue(c: Configuration): string {
    var address := Trim(c.frontendBindAddress) + ":" + PrintNat(c.frontendBindPort);
    if TlsEnabled(c) then address + SSL_CRT + Trim(c.tls.value.certificatePath) else address
  }

  function FrontendHead(c: Configuration): seq<string> {
    [Directive(FRONTEND, c.frontendName),
     Indent(Directive(BIND, BindValue(c))),
     Indent(Directive(MODE, NormalizeWord(c.trafficMode))),
     Indent(Directive(DEFAULT_BACKEND, c.backendName))]
  }

  function FrontendLines(c: Configuration): seq<string> {
    if c.autoHttpsRedirect then FrontendHead(c) + [Indent(Directive(HTTP_REQUEST, REDIRECT))] else FrontendHead(c)
  }

  /** Enabled TLS without a certificate path is an error. */
  method RenderFrontendSection(c: Configuration) returns (lines: Option<seq<string>>)
    ensures lines == if Renderable(c) then Some(FrontendLines(c)) else None
  {
    var trafficMode := NormalizeWord(c.trafficMode);
    var bindLine := Indent(Directive(BIND, Trim(c.frontendBindAddress) + ":" + PrintNat(c.frontendBindPort)));
    if c.tls.Some? && c.tls.value.enabled {
      var certificatePath := Trim(c.tls.value.certificatePath);
      if certificatePath == "" {
        return None;
      }
      bindLine := bindLine + SSL_CRT + certificatePath;
      BindLineGrows(c);
    }
    var section := [Directive(FRONTEND, c.frontendName),
                    bindLine,
                    Indent(Directive(MODE, trafficMode)),
                    Indent(Directive(DEFAULT_BACKEND, c.backendName))];
    if c.autoHttpsRedirect {
      section := section + [Indent(Directive(HTTP_REQUEST, REDIRECT))];
    }
    return Some(section);
  }

  /** Appending the certificate to the bind line is appending it to the value. */
  lemma BindLineGrows(c: Configuration)
    requires TlsEnabled(c)
    ensures
      Indent(Directive(BIND, Trim(c.frontendBindAddress) + ":" + PrintNat(c.frontendBindPort)))
      + SSL_CRT + Trim(c.tls.value.certificatePath) == Indent(Directive(BIND, BindValue(c)))
  {
    var endpoint := Trim(c.frontendBindAddress) + ":" + PrintNat(c.frontendBindPort);
    Append(BIND + " ", endpoint, SSL_CRT, Trim(c.tls.value.certificatePath));
    Append("    ", BIND + " " + endpoint, SSL_CRT, Trim(c.tls.value.certificatePath));
  }

  lemma Append(head: string, a: string, b: string, c: string)
    ensures head + a + b + c == head + (a + b + c)
  {
  }

  function BackendHead(c: Configuration): seq<string> {
    [Directive(BACKEND, c.backendName),
     Indent(Directive(MODE, NormalizeWord(c.trafficMode))),
     Indent(Directive(BALANCE, NormalizeWord(c.loadBalancing)))]
  }

  function ServerValue(b: Target): string {
    b.name + " " + Trim(b.address) + ":" + PrintNat(b.port) + " check inter " + PrintInt(b.checkIntervalSecond) + "s"
  }

  function ServerLine(b: Target, skipVerify: bool): string {
    Indent(Directive(SERVER, if skipVerify then ServerValue(b) + VERIFY_NONE else ServerValue(b)))
  }

  function ServerLines(backends: seq<Target>, skipVerify: bool): seq<string> {
    if backends == [] then []
    else ServerLines(backends[..|backends| - 1], skipVerify) + [ServerLine(backends[|backends| - 1], skipVerify)]
  }

  predicate SkipsVerification(c: Configuration) {
    c.tls.Some? && c.tls.value.skipBackendTlsVerify
  }

  function BackendLines(c: Configuration): seq<string> {
    BackendHead(c) + ServerLines(c.backends, SkipsVerification(c))
  }

  method RenderBackendSection(c: Configuration) returns (lines: seq<string>)
    ensures lines == BackendLines(c)
  {
    lines := AppendServers(BackendHead(c), c.backends, c.tls);
  }

  /** The loop over the backend targets. */
  method AppendServers(head: seq<string>, backends: seq<Target>, tls: Option<Tls>) returns (lines: seq<string>)
    ensures lines == head + ServerLines(backends, tls.Some? && tls.value.skipBackendTlsVerify)
  {
    hide ServerLine;
    lines := head;
    for i := 0 to |backends|
      invariant lines == head + ServerLines(backends[..i], tls.Some? && tls.value.skipBackendTlsVerify)
    {
      var line := RenderServer(backends[i], tls);
      lines := lines + [line];
      assert backends[..i + 1][..i] == backends[..i];
    }
    assert backends[..|backends|] == backends;
  }

  method RenderServer(b: Target, tls: Option<Tls>) returns (line: string)
    ensures line == ServerLine(b, tls.Some? && tls.value.skipBackendTlsVerify)
  {
    var value := ServerValue(b);
    if tls.Some? && tls.value.skipBackendTlsVerify {
      value := value + VERIFY_NONE;
    }
    line := Indent(Directive(SERVER, value));
  }

  /** Everything rendered for one configuration. */
  function StanzaLines(c: Configuration): seq<string> {
    FrontendLines(c) + BackendLines(c)
  }

  /** The normalisation applied before storing does not show in the stanzas. */
  lemma NormalizeKeepsStanza(c: Configuration)
    ensures StanzaLines(Normalize(c)) == StanzaLines(c)
    ensures Renderable(Normalize(c)) <==> Renderable(c)
  {
    LowerTrimIdempotent(c.loadBalancing);
    LowerTrimIdempotent(c.trafficMode);
  }

  // ----- Line breaks -----

  predicate PlainTarget(b: Target) {
    Free(b.name, '\n') && Free(Trim(b.address), '\n')
  }

  /** No line break in any text that reaches the stanzas; validation does not check this. */
  predicate Plain(c: Configuration) {
    && Free(c.frontendName, '\n') && Free(c.backendName, '\n') && Free(Trim(c.frontendBindAddress), '\n')
    && Free(NormalizeWord(c.trafficMode), '\n') && Free(NormalizeWord(c.loadBalancing), '\n')
    && (TlsEnabled(c) ==> Free(Trim(c.tls.value.certificatePath), '\n'))
    && forall b :: b in c.backends ==> PlainTarget(b)
  }

  lemma DirectiveFree(keyword: string, value: string)
    requires Free(keyword, '\n')
    ensures Free(Directive(keyword, value), '\n') <==> Free(value, '\n')
  {
  }

  lemma IndentFree(s: string)
    ensures Free(Indent(s), '\n') <==> Free(s, '\n')
  {
  }

  lemma ServerValueFree(b: Target)
    ensures Free(ServerValue(b), '\n') <==> PlainTarget(b)
  {
    var address, port, interval := Trim(b.address), PrintNat(b.port), PrintInt(b.checkIntervalSecond);
    assert Free(port, '\n') && Free(interval, '\n');
    assert Free(" check inter ", '\n');
  }

  lemma PlainServerLine(b: Target, skipVerify: bool)
    ensures Free(ServerLine(b, skipVerify), '\n') <==> PlainTarget(b)
  {
    var value := if skipVerify then ServerValue(b) + VERIFY_NONE else ServerValue(b);
    ServerValueFree(b);
    assert Free(VERIFY_NONE, '\n') && Free(SERVER, '\n');
    DirectiveFree(SERVER, value);
    IndentFree(Directive(SERVER, value));
  }

  lemma {:induction false} ServerLineAt(backends: seq<Target>, skipVerify: bool, i: nat)
    requires i < |backends|
    ensures |ServerLines(backends, skipVerify)| == |backends|
    ensures ServerLines(backends, skipVerify)[i] == ServerLine(backends[i], skipVerify)
  {
    hide ServerLine;
    if |backends| > 1 {
      ServerLineAt(backends[..|backends| - 1], skipVerify, if i < |backends| - 1 then i else 0);
    }
  }

  lemma ServerCount(backends: seq<Target>, skipVerify: bool)
    ensures |ServerLines(backends, skipVerify)| == |backends|
  {
    if backends != [] {
      ServerLineAt(backends, skipVerify, 0);
    }
  }

  lemma PlainServerLines(backends: seq<Target>, skipVerify: bool)
    ensures AllFree(ServerLines(backends, skipVerify), '\n') <==> forall b :: b in backends ==> PlainTarget(b)
  {
    var lines := ServerLines(backends, skipVerify);
    if backends != [] {
      ServerLineAt(backends, skipVerify, 0);
      forall i | 0 <= i < |lines| ensures Free(lines[i], '\n') <==> PlainTarget(backends[i]) {
        ServerLineAt(backends, skipVerify, i);
        PlainServerLine(backends[i], skipVerify);
      }
      LinesFree(lines, backends);
    }
  }

  lemma LinesFree(lines: seq<string>, backends: seq<Target>)
    requires |lines| == |backends| && forall i :: 0 <= i < |lines| ==> (Free(lines[i], '\n') <==> PlainTarget(backends[i]))
    ensures AllFree(lines, '\n') <==> forall b :: b in backends ==> PlainTarget(b)
  {
  }

  lemma AllFreeConcat(a: seq<string>, b: seq<string>, c: char)
    ensures AllFree(a + b, c) <==> AllFree(a, c) && AllFree(b, c)
  {
    assert forall i :: 0 <= i < |a| ==> (a + b)[i] == a[i];
    assert forall i :: 0 <= i < |b| ==> (a + b)[|a| + i] == b[i];
  }

  lemma PlainBindValue(c: Configuration)
    ensures
      Free(BindValue(c), '\n') <==>
      Free(Trim(c.frontendBindAddress), '\n') && (TlsEnabled(c) ==> Free(Trim(c.tls.value.certificatePath), '\n'))
  {
    var address, port := Trim(c.frontendBindAddress), PrintNat(c.frontendBindPort);
    assert Free(port, '\n') && Free(SSL_CRT, '\n');
  }

  lemma PlainIndented(keyword: string, value: string)
    requires Free(keyword, '\n')
    ensures Free(Indent(Directive(keyword, value)), '\n') <==> Free(value, '\n')
  {
    DirectiveFree(keyword, value);
    IndentFree(Directive(keyword, value));
  }

  lemma RedirectFree()
    ensures Free(Indent(Directive(HTTP_REQUEST, REDIRECT)), '\n')
  {
    assert Free("redirect scheme https code 301", '\n') && Free(" if !{ ssl_fc }", '\n');
    assert Free(HTTP_REQUEST, '\n');
    PlainIndented(HTTP_REQUEST, REDIRECT);
  }

  lemma PlainFrontend(c: Configuration)
    ensures
      AllFree(FrontendLines(c), '\n') <==>
      && Free(c.frontendName, '\n') && Free(BindValue(c), '\n') && Free(NormalizeWord(c.trafficMode), '\n')
      && Free(c.backendName, '\n')
  {
    assert Free(FRONTEND, '\n') && Free(BIND, '\n') && Free(MODE, '\n') && Free(DEFAULT_BACKEND, '\n');
    RedirectFree();
    DirectiveFree(FRONTEND, c.frontendName);
    PlainIndented(BIND, BindValue(c));
    PlainIndented(MODE, NormalizeWord(c.trafficMode));
    PlainIndented(DEFAULT_BACKEND, c.backendName);
    AllFreeConcat(FrontendHead(c), [Indent(Directive(HTTP_REQUEST, REDIRECT))], '\n');
    FourFree(Directive(FRONTEND, c.frontendName), Indent(Directive(BIND, BindValue(c))),
             Indent(Directive(MODE, NormalizeWord(c.trafficMode))), Indent(Directive(DEFAULT_BACKEND, c.backendName)));
  }

  lemma FourFree(a: string, b: string, c: string, d: string)
    ensures
      AllFree([a, b, c, d], '\n') <==> Free(a, '\n') && Free(b, '\n') && Free(c, '\n') && Free(d, '\n')
  {
    var lines := [a, b, c, d];
    assert lines[0] == a && lines[1] == b && lines[2] == c && lines[3] == d;
  }

  lemma PlainBackendHead(c: Configuration)
    ensures
      AllFree(BackendHead(c), '\n') <==>
      Free(c.backendName, '\n') && Free(NormalizeWord(c.trafficMode), '\n') && Free(NormalizeWord(c.loadBalancing), '\n')
  {
    assert Free(BACKEND, '\n') && Free(MODE, '\n') && Free(BALANCE, '\n');
    DirectiveFree(BACKEND, c.backendName);
    PlainIndented(MODE, NormalizeWord(c.trafficMode));
    PlainIndented(BALANCE, NormalizeWord(c.loadBalancing));
    var lines := BackendHead(c);
    assert AllFree(lines, '\n') <==> Free(lines[0], '\n') && Free(lines[1], '\n') && Free(lines[2], '\n');
  }

  /** The fields decide: every rendered line is one line exactly if no rendered text contains a line break. */
  lemma PlainIffOneLineEach(c: Configuration)
    ensures Plain(c) <==> AllFree(StanzaLines(c), '\n')
  {
    AllFreeConcat(FrontendLines(c), BackendLines(c), '\n');
    AllFreeConcat(BackendHead(c), ServerLines(c.backends, SkipsVerification(c)), '\n');
    PlainFrontend(c);
    PlainBindValue(c);
    PlainBackendHead(c);
    PlainServerLines(c.backends, SkipsVerification(c));
  }

  // ----- Stanza lines are never comments -----

  /** A line that shows something other than a comment. */
  predicate Visible(line: string) {
    Trim(line) != "" && Trim(line)[0] != '#'
  }

  predicate AllVisible(lines: seq<string>) {
    forall i :: 0 <= i < |lines| ==> Visible(lines[i])
  }

  lemma AllVisibleConcat(a: seq<string>, b: seq<string>)
    requires AllVisible(a) && AllVisible(b)
    ensures AllVisible(a + b)
  {
    assert forall i :: |a| <= i < |a + b| ==> (a + b)[i] == b[i - |a|];
  }

  lemma WordIsVisible(s: string)
    requires s != "" && 'a' <= s[0] <= 'z'
    ensures Visible(s) && Visible(Indent(s))
  {
    TrimKeepsFirst(s);
    TrimIndented(s);
  }

  lemma DirectiveIsVisible(keyword: string, value: string)
    requires keyword != "" && 'a' <= keyword[0] <= 'z'
    ensures Visible(Directive(keyword, value)) && Visible(Indent(Directive(keyword, value)))
  {
    WordIsVisible(Directive(keyword, value));
  }

  lemma StanzaIsVisible(c: Configuration)
    ensures AllVisible(StanzaLines(c))
  {
    FrontendIsVisible(c);
    BackendIsVisible(c);
    AllVisibleConcat(FrontendLines(c), BackendLines(c));
  }

  lemma FrontendIsVisible(c: Configuration)
    ensures AllVisible(FrontendLines(c))
  {
    hide Visible, AllVisible, Directive, Indent, NormalizeWord, BindValue;
    DirectiveIsVisible(FRONTEND, c.frontendName);
    DirectiveIsVisible(BIND, BindValue(c));
    DirectiveIsVisible(MODE, NormalizeWord(c.trafficMode));
    DirectiveIsVisible(DEFAULT_BACKEND, c.backendName);
    FourVisible(Directive(FRONTEND, c.frontendName), Indent(Directive(BIND, BindValue(c))),
                Indent(Directive(MODE, NormalizeWord(c.trafficMode))),
                Indent(Directive(DEFAULT_BACKEND, c.backendName)));
    DirectiveIsVisible(HTTP_REQUEST, REDIRECT);
    AllVisibleConcat(FrontendHead(c), [Indent(Directive(HTTP_REQUEST, REDIRECT))]);
  }

  lemma FourVisible(a: string, b: string, c: string, d: string)
    requires Visible(a) && Visible(b) && Visible(c) && Visible(d)
    ensures AllVisible([a, b, c, d])
  {
    hide Visible;
  }

  lemma ThreeVisible(a: string, b: string, c: string)
    requires Visible(a) && Visible(b) && Visible(c)
    ensures AllVisible([a, b, c])
  {
    hide Visible;
  }

  lemma BackendIsVisible(c: Configuration)
    ensures AllVisible(BackendLines(c))
  {
    hide Visible, AllVisible, Directive, Indent, NormalizeWord, ServerLines;
    DirectiveIsVisible(BACKEND, c.backendName);
    DirectiveIsVisible(MODE, NormalizeWord(c.trafficMode));
    DirectiveIsVisible(BALANCE, NormalizeWord(c.loadBalancing));
    ThreeVisible(Directive(BACKEND, c.backendName), Indent(Directive(MODE, NormalizeWord(c.trafficMode))),
                 Indent(Directive(BALANCE, NormalizeWord(c.loadBalancing))));
    ServersAreVisible(c.backends, SkipsVerification(c));
    AllVisibleConcat(BackendHead(c), ServerLines(c.backends, SkipsVerification(c)));
  }

  lemma {:induction false} ServersAreVisible(backends: seq<Target>, skipVerify: bool)
    ensures AllVisible(ServerLines(backends, skipVerify))
  {
    if backends != [] {
      var value := ServerValue(backends[|backends| - 1]);
      DirectiveIsVisible(SERVER, if skipVerify then value + VERIFY_NONE else value);
      ServersAreVisible(backends[..|backends| - 1], skipVerify);
    }
  }
}
