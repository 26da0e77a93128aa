/** Managed configurations: the values, their normal form and their validation. */
module Types {
  import opened Text
  import FilePath

  type uint32 = n: int | 0 <= n < 0x1_0000_0000
  type int64 = n: int | -0x8000_0000_0000_0000 <= n < 0x8000_0000_0000_0000

  datatype Target = Target(name: string, address: string, port: uint32, checkIntervalSecond: int64)

  datatype Tls = Tls(
    enabled: bool,
    certificatePath: string,
    privateKeyPath: string,
    certificatePem: string,
    privateKeyPem: string,
    skipBackendTlsVerify: bool)

  datatype Configuration = Configuration(
    name: string,
    frontendName: string,
    frontendBindAddress: string,
    frontendBindPort: uint32,
    url: string,
    loadBalancing: string,
    backendName: string,
    backends: seq<Target>,
    trafficMode: string,
    autoHttpsRedirect: bool,
    tls: Option<Tls>)

  /** The fields of an entity no text has been read into yet. */
  const ZERO_TARGET := Target("", "", 0, 0)
  const ZERO_TLS := Tls(false, "", "", "", "", false)
  const ZERO_CONFIGURATION := Configuration("", "", "", 0, "", "", "", [], "", false, None)

  // ----- Normal form -----

  /** The key under which a configuration is managed: its name without surrounding blanks. */
  function Key(c: Configuration): string {
    Trim(c.name)
  }

  /** The name lists are ordered by. */
  function NameOf(c: Configuration): string {
    c.name
  }

  function NormalizeWord(s: string): string {
    Lower(Trim(s))
  }

  /** The form in which the service stores an accepted configuration. */
  function Normalize(c: Configuration): Configuration {
    c.(name := Key(c), loadBalancing := NormalizeWord(c.loadBalancing), trafficMode := NormalizeWord(c.trafficMode))
  }

  // ----- Validation -----

  /** What the URL, X.509 and Unicode libraries say about the texts of one configuration. */
  datatype Verdicts = Verdicts(url: UrlVerdict, certificatePem: bool, privateKeyPem: bool, lower: char -> char)
  datatype UrlVerdict = Unparsable | Url(scheme: string, host: string)

  datatype ValidationError = InvalidKey | InvalidConfiguration

  predicate ValidConfiguration(c: Configuration, v: Verdicts) {
    var mode, balance := NormalizeWord(c.trafficMode), NormalizeWord(c.loadBalancing);
    && !Blank(c.name) && !Blank(c.frontendName) && !Blank(c.backendName) && !Blank(c.frontendBindAddress)
    && mode in {"http", "tcp"}
    && (mode == "http" ==> !Blank(c.url) && AbsoluteHttpUrl(v.url))
    && balance in {"roundrobin", "leastconn", "source"}
    && (c.autoHttpsRedirect ==> mode == "http" && TlsEnabled(c))
    && (c.tls.Some? ==> ValidTls(c.tls.value, v))
    && ValidPort(c.frontendBindPort)
    && c.backends != [] && ValidTargets(c.backends, v.lower)
  }

  predicate AbsoluteHttpUrl(u: UrlVerdict) {
    u.Url? && u.host != "" && u.scheme in {"http", "https"}
  }

  predicate ValidPort(port: uint32) {
    1 <= port <= 65535
  }

  predicate ValidTargets(backends: seq<Target>, lower: char -> char) {
    (forall b :: b in backends ==> ValidTarget(b)) && Distinct(TargetKeys(backends, lower))
  }

  predicate ValidTarget(b: Target) {
    !Blank(b.name) && !Blank(b.address) && ValidPort(b.port) && b.checkIntervalSecond > 0
  }

  /** Target names are compared without surrounding blanks and without case. */
  function TargetKeys(backends: seq<Target>, lower: char -> char): seq<string> {
    seq(|backends|, i requires 0 <= i < |backends| => LowerBy(Trim(backends[i].name), lower))
  }

  predicate TlsEnabled(c: Configuration) {
    c.tls.Some? && c.tls.value.enabled
  }

  /** Disabled TLS carries no certificate; enabled TLS carries exactly one complete pair, of paths or of PEM texts. */
  predicate ValidTls(t: Tls, v: Verdicts) {
    var path, key := !Blank(t.certificatePath), !Blank(t.privateKeyPath);
    var pem, keyPem := !Blank(t.certificatePem), !Blank(t.privateKeyPem);
    if t.enabled then
      || (path && key && !pem && !keyPem)
      || (!path && !key && pem && keyPem && v.certificatePem && v.privateKeyPem)
    else !path && !key && !pem && !keyPem
  }

  /** The error ValidateConfiguration reports: blank names have an error of their own. */
  function ValidationErrorOf(c: Configuration, v: Verdicts): Option<ValidationError> {
    if Blank(c.name) then Some(InvalidKey)
    else if ValidConfiguration(c, v) then None
    else Some(InvalidConfiguration)
  }

  method ValidateConfiguration(c: Configuration, v: Verdicts) returns (error: Option<ValidationError>)
    ensures error == ValidationErrorOf(c, v)
    ensures error.None? <==> ValidConfiguration(c, v)
  {
    hide NormalizeWord, Trim, ValidTargets, ValidTls;
    if Trim(c.name) == "" {
      return Some(InvalidKey);
    }
    if Trim(c.frontendName) == "" || Trim(c.backendName) == "" {
      return Some(InvalidConfiguration);
    }
    var mode := NormalizeWord(c.trafficMode);
    if mode == "" || mode !in {"http", "tcp"} {
      return Some(InvalidConfiguration);
    }
    if mode == "http" {
      if Trim(c.url) == "" || v.url.Unparsable? || v.url.scheme == "" || v.url.host == "" {
        return Some(InvalidConfiguration);
      }
      if v.url.scheme != "http" && v.url.scheme != "https" {
        return Some(InvalidConfiguration);
      }
    }
    var balance := NormalizeWord(c.loadBalancing);
    if balance == "" || balance !in {"roundrobin", "leastconn", "source"} {
      return Some(InvalidConfiguration);
    }
    if c.autoHttpsRedirect {
      if mode != "http" || c.tls.None? || !c.tls.value.enabled {
        return Some(InvalidConfiguration);
      }
    }
    var tlsError := ValidateTls(c.tls, v);
    if tlsError.Some? {
      return tlsError;
    }
    if Trim(c.frontendBindAddress) == "" || c.frontendBindPort == 0 || c.frontendBindPort > 65535 {
      return Some(InvalidConfiguration);
    }
    if |c.backends| == 0 {
      return Some(InvalidConfiguration);
    }
    error := ValidateTargets(c.backends, v.lower);
  }

  /** The part of ValidateConfiguration that walks the targets. */
  method ValidateTargets(backends: seq<Target>, lower: char -> char) returns (error: Option<ValidationError>)
    ensures error == if ValidTargets(backends, lower) then None else Some(InvalidConfiguration)
  {
    TargetsPassIffValid(backends, lower, {});
    var names: set<string> := {};
    for i := 0 to |backends|
      invariant TargetsPass(backends, lower, {}) == TargetsPass(backends[i..], lower, names)
    {
      var backend := backends[i];
      assert backends[i..][1..] == backends[i + 1..];
      if Trim(backend.name) == "" {
        return Some(InvalidConfiguration);
      }
      var name := LowerBy(Trim(backend.name), lower);
      if name in names {
        return Some(InvalidConfiguration);
      }
      names := names + {name};
      if Trim(backend.address) == "" || backend.port == 0 || backend.port > 65535 || backend.checkIntervalSecond <= 0 {
        return Some(InvalidConfiguration);
      }
    }
    return None;
  }

  /** The walk over the remaining targets succeeds, given the names already met. */
  predicate TargetsPass(backends: seq<Target>, lower: char -> char, met: set<string>) {
    backends != [] ==>
      var name := LowerBy(Trim(backends[0].name), lower);
      ValidTarget(backends[0]) && name !in met && TargetsPass(backends[1..], lower, met + {name})
  }

  lemma {:induction false} TargetsPassIffValid(backends: seq<Target>, lower: char -> char, met: set<string>)
    ensures
      TargetsPass(backends, lower, met) <==>
      ValidTargets(backends, lower) && forall key :: key in TargetKeys(backends, lower) ==> key !in met
  {
    if backends != [] {
      var name, rest := LowerBy(Trim(backends[0].name), lower), backends[1..];
      TargetsPassIffValid(rest, lower, met + {name});
      assert TargetKeys(backends, lower) == [name] + TargetKeys(rest, lower);
      DistinctCons(name, TargetKeys(rest, lower));
      ValidTargetsCons(backends, lower);
    }
  }

  lemma ValidTargetsCons(backends: seq<Target>, lower: char -> char)
    requires backends != []
    ensures
      ValidTargets(backends, lower) <==>
      && ValidTarget(backends[0]) && (forall b :: b in backends[1..] ==> ValidTarget(b))
      && Distinct(TargetKeys(backends, lower))
  {
    assert forall b :: b in backends <==> b == backends[0] || b in backends[1..];
  }

  method ValidateTls(tls: Option<Tls>, v: Verdicts) returns (error: Option<ValidationError>)
    ensures error == if tls.Some? && !ValidTls(tls.value, v) then Some(InvalidConfiguration) else None
  {
    if tls.None? {
      return None;
    }
    var t := tls.value;
    var hasPathPair := Trim(t.certificatePath) != "" || Trim(t.privateKeyPath) != "";
    var hasPemPair := Trim(t.certificatePem) != "" || Trim(t.privateKeyPem) != "";
    if !t.enabled {
      return if hasPathPair || hasPemPair then Some(InvalidConfiguration) else None;
    }
    if hasPathPair && (Trim(t.certificatePath) == "" || Trim(t.privateKeyPath) == "") {
      return Some(InvalidConfiguration);
    }
    if hasPemPair {
      if Trim(t.certificatePem) == "" || Trim(t.privateKeyPem) == "" || !v.certificatePem || !v.privateKeyPem {
        return Some(InvalidConfiguration);
      }
    }
    if hasPathPair == hasPemPair {
      return Some(InvalidConfiguration);
    }
    return None;
  }

  /** Normalising an accepted configuration is harmless: it stays accepted, and a normal form stays as it is. */
  lemma NormalizeKeepsValid(c: Configuration, v: Verdicts)
    ensures ValidConfiguration(Normalize(c), v) <==> ValidConfiguration(c, v)
    ensures Normalize(Normalize(c)) == Normalize(c)
  {
    TrimIdempotent(c.name);
    LowerTrimIdempotent(c.loadBalancing);
    LowerTrimIdempotent(c.trafficMode);
  }

  // ----- Certificates -----

  /** TLS is off, or there is a certificate path to put on the bind line. */
  predicate Renderable(c: Configuration) {
    TlsEnabled(c) ==> !Blank(c.tls.value.certificatePath)
  }

  /** EnsureCertificatePath writes a certificate file for exactly these configurations. */
  predicate NeedsCertificateFile(c: Configuration) {
    && TlsEnabled(c) && Blank(c.tls.value.certificatePath)
    && !Blank(c.tls.value.certificatePem) && !Blank(c.tls.value.privateKeyPem)
  }

  function ReplaceSpaces(s: string): (t: string)
    ensures |t| == |s| && forall i :: 0 <= i < |s| ==> t[i] == if s[i] == ' ' then '_' else s[i]
  {
    seq(|s|, i requires 0 <= i < |s| => if s[i] == ' ' then '_' else s[i])
  }

  function CertificatesDirectory(configurationFile: string): string {
    FilePath.JoinPath(FilePath.Dir(configurationFile), "certificates")
  }

  function CertificateFile(dir: string, name: string): string {
    FilePath.JoinPath(dir, Lower(ReplaceSpaces(name)) + ".pem")
  }

  function TlsWithFile(t: Tls, file: string): Tls {
    t.(certificatePath := file, certificatePem := "", privateKeyPem := "")
  }

  /** The configuration after EnsureCertificatePath has succeeded. */
  function EnsurePath(c: Configuration, dir: string): Configuration {
    if NeedsCertificateFile(c) then c.(tls := Some(TlsWithFile(c.tls.value, CertificateFile(dir, c.name)))) else c
  }

  lemma CertificateFileIsVisible(dir: string, name: string)
    ensures !Blank(CertificateFile(dir, name))
  {
    FilePath.JoinPathEnds(dir, Lower(ReplaceSpaces(name)) + ".pem", 'm');
    EndsVisibly(CertificateFile(dir, name));
  }

  lemma EnsurePathChanges(c: Configuration, dir: string)
    requires NeedsCertificateFile(c)
    ensures EnsurePath(c, dir) != c
  {
    CertificateFileIsVisible(dir, c.name);
  }

  /** Every accepted configuration can be rendered once its certificate is in place. */
  lemma ValidBecomesRenderable(c: Configuration, v: Verdicts, dir: string)
    requires ValidConfiguration(c, v)
    ensures Renderable(EnsurePath(c, dir))
  {
    CertificateFileIsVisible(dir, c.name);
  }

  /** Renderable configurations are exactly those EnsureCertificatePath can leave behind without touching them again. */
  lemma EnsurePathSettles(c: Configuration, dir: string, dir': string)
    ensures Renderable(c) ==> EnsurePath(c, dir) == c
    ensures EnsurePath(EnsurePath(c, dir), dir') == EnsurePath(c, dir)
  {
    CertificateFileIsVisible(dir, c.name);
  }

  /** What is stored for an accepted PEM pair would not be accepted again: the path has no key path beside it. */
  lemma StoredFormIsNotAccepted(c: Configuration, v: Verdicts, v': Verdicts, dir: string)
    requires ValidConfiguration(c, v)
    ensures NeedsCertificateFile(c) ==> !ValidConfiguration(EnsurePath(c, dir), v')
    ensures !NeedsCertificateFile(c) ==> ValidConfiguration(EnsurePath(c, dir), v)
  {
    CertificateFileIsVisible(dir, c.name);
  }
}
