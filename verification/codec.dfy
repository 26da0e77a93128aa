/** json.Marshal and json.Unmarshal of a managed configuration. */
module Codec {
  import opened Text
  import opened JsonText
  import opened Types
  import JsonGrammar

  // ----- Field names, in the order in which the fields are written -----

  const TARGET_FIELDS := ["name", "address", "port", "check_interval_seconds"]

  const TLS_FIELDS :=
    ["enabled", "certificate_path", "private_key_path", "certificate_pem", "private_key_pem", "skip_backend_tls_verify"]

  const CONFIGURATION_FIELDS :=
    ["name", "frontend_name", "frontend_bind_address", "frontend_bind_port", "url", "load_balancing_strategy",
     "backend_name", "backends", "traffic_mode", "auto_https_redirect", "tls"]

  // ----- Encoding -----

  function Integer(n: int): Json {
    Number(PrintInt(n))
  }

  function TargetMembers(b: Target, f: seq<string>): seq<Member>
    requires |f| == 4
  {
    [Member(f[0], String(b.name)), Member(f[1], String(b.address)), Member(f[2], Integer(b.port)),
     Member(f[3], Integer(b.checkIntervalSecond))]
  }

  function TargetItems(backends: seq<Target>): seq<Json> {
    if backends == [] then []
    else [Object(TargetMembers(backends[0], TARGET_FIELDS))] + TargetItems(backends[1..])
  }

  function TargetsJson(backends: seq<Target>): Json {
    if backends == [] then Null else Array(TargetItems(backends))
  }

  function TlsMembers(t: Tls, f: seq<string>): seq<Member>
    requires |f| == 6
  {
    [Member(f[0], Bool(t.enabled)), Member(f[1], String(t.certificatePath)), Member(f[2], String(t.privateKeyPath)),
     Member(f[3], String(t.certificatePem)), Member(f[4], String(t.privateKeyPem)),
     Member(f[5], Bool(t.skipBackendTlsVerify))]
  }

  /** The TLS member is left out when there is no TLS object. */
  function ConfigurationMembers(c: Configuration, f: seq<string>): seq<Member>
    requires |f| == 11
  {
    [Member(f[0], String(c.name)), Member(f[1], String(c.frontendName)), Member(f[2], String(c.frontendBindAddress)),
     Member(f[3], Integer(c.frontendBindPort)), Member(f[4], String(c.url)), Member(f[5], String(c.loadBalancing)),
     Member(f[6], String(c.backendName)), Member(f[7], TargetsJson(c.backends)), Member(f[8], String(c.trafficMode)),
     Member(f[9], Bool(c.autoHttpsRedirect))]
    + if c.tls.Some? then [Member(f[10], Object(TlsMembers(c.tls.value, TLS_FIELDS)))] else []
  }

  /** json.Marshal. */
  function Encode(c: Configuration): string {
    Print(Object(ConfigurationMembers(c, CONFIGURATION_FIELDS)))
  }

  // ----- Decoding: null leaves a field alone, unknown keys are skipped, keys match without case -----

  /** The ASCII letter a key character is equal to under case folding. */
  function FoldChar(c: char): char {
    if 'A' <= c <= 'Z' then (c as int + 32) as char
    else if c == '\U{17F}' then 's'
    else if c == '\U{212A}' then 'k'
    else c
  }

  predicate Matches(key: string, field: string) {
    key == field || (|key| == |field| && forall i :: 0 <= i < |key| ==> FoldChar(key[i]) == field[i])
  }

  /** The number of the first field from i on that the key names; |fields| when there is none. */
  function FieldNumber(key: string, fields: seq<string>, i: nat := 0): nat
    requires i <= |fields|
    decreases |fields| - i
  {
    if i == |fields| || Matches(key, fields[i]) then i else FieldNumber(key, fields, i + 1)
  }

  function AsString(current: string, v: Json): Option<string> {
    match v
    case Null => Some(current)
    case String(s) => Some(s)
    case _ => None
  }

  function AsBool(current: bool, v: Json): Option<bool> {
    match v
    case Null => Some(current)
    case Bool(b) => Some(b)
    case _ => None
  }

  function AsUint32(current: uint32, v: Json): Option<uint32> {
    match v
    case Null => Some(current)
    case Number(text) =>
      if text != "" && AllDigits(text) && NatValue(text) < 0x1_0000_0000 then Some(NatValue(text)) else None
    case _ => None
  }

  function AsInt64(current: int64, v: Json): Option<int64> {
    match v
    case Null => Some(current)
    case Number(text) =>
      var digits := if Starts(text, '-') then text[1..] else text;
      if digits == "" || !AllDigits(digits) then None
      else
        var magnitude: int := NatValue(digits);
        var n := if Starts(text, '-') then -magnitude else magnitude;
        if -0x8000_0000_0000_0000 <= n < 0x8000_0000_0000_0000 then Some(n) else None
    case _ => None
  }

  function SetTargetField(b: Target, n: nat, v: Json): Option<Target> {
    match n
    case 0 => var s :- AsString(b.name, v); Some(b.(name := s))
    case 1 => var s :- AsString(b.address, v); Some(b.(address := s))
    case 2 => var p :- AsUint32(b.port, v); Some(b.(port := p))
    case 3 => var k :- AsInt64(b.checkIntervalSecond, v); Some(b.(checkIntervalSecond := k))
    case _ => Some(b)
  }

  /** The members from number i on, read into b one after the other. */
  function SetTargetFields(b: Target, fields: seq<string>, members: seq<Member>, i: nat): Option<Target>
    requires i <= |members|
    decreases |members| - i
  {
    if i == |members| then Some(b)
    else
      var next :- SetTargetField(b, FieldNumber(members[i].key, fields), members[i].value);
      SetTargetFields(next, fields, members, i + 1)
  }

  function DecodeTarget(v: Json): Option<Target> {
    match v
    case Null => Some(ZERO_TARGET)
    case Object(members) => SetTargetFields(ZERO_TARGET, TARGET_FIELDS, members, 0)
    case _ => None
  }

  function DecodeTargets(items: seq<Json>): Option<seq<Target>> {
    if items == [] then Some([])
    else
      var first :- DecodeTarget(items[0]);
      var rest :- DecodeTargets(items[1..]);
      Some([first] + rest)
  }

  function AsTargets(v: Json): Option<seq<Target>> {
    match v
    case Null => Some([])
    case Array(items) => DecodeTargets(items)
    case _ => None
  }

  function SetTlsField(t: Tls, n: nat, v: Json): Option<Tls> {
    match n
    case 0 => var b :- AsBool(t.enabled, v); Some(t.(enabled := b))
    case 1 => var s :- AsString(t.certificatePath, v); Some(t.(certificatePath := s))
    case 2 => var s :- AsString(t.privateKeyPath, v); Some(t.(privateKeyPath := s))
    case 3 => var s :- AsString(t.certificatePem, v); Some(t.(certificatePem := s))
    case 4 => var s :- AsString(t.privateKeyPem, v); Some(t.(privateKeyPem := s))
    case 5 => var b :- AsBool(t.skipBackendTlsVerify, v); Some(t.(skipBackendTlsVerify := b))
    case _ => Some(t)
  }

  function SetTlsFields(t: Tls, fields: seq<string>, members: seq<Member>, i: nat): Option<Tls>
    requires i <= |members|
    decreases |members| - i
  {
    if i == |members| then Some(t)
    else
      var next :- SetTlsField(t, FieldNumber(members[i].key, fields), members[i].value);
      SetTlsFields(next, fields, members, i + 1)
  }

  /** A second TLS object is read into the first one. */
  function AsTls(current: Option<Tls>, v: Json): Option<Option<Tls>> {
    match v
    case Null => Some(None)
    case Object(members) =>
      var t :- SetTlsFields(if current.Some? then current.value else ZERO_TLS, TLS_FIELDS, members, 0);
      Some(Some(t))
    case _ => None
  }

  function SetField(c: Configuration, n: nat, v: Json): Option<Configuration> {
    match n
    case 0 => var s :- AsString(c.name, v); Some(c.(name := s))
    case 1 => var s :- AsString(c.frontendName, v); Some(c.(frontendName := s))
    case 2 => var s :- AsString(c.frontendBindAddress, v); Some(c.(frontendBindAddress := s))
    case 3 => var p :- AsUint32(c.frontendBindPort, v); Some(c.(frontendBindPort := p))
    case 4 => var s :- AsString(c.url, v); Some(c.(url := s))
    case 5 => var s :- AsString(c.loadBalancing, v); Some(c.(loadBalancing := s))
    case 6 => var s :- AsString(c.backendName, v); Some(c.(backendName := s))
    case 7 => var bs :- AsTargets(v); Some(c.(backends := bs))
    case 8 => var s :- AsString(c.trafficMode, v); Some(c.(trafficMode := s))
    case 9 => var b :- AsBool(c.autoHttpsRedirect, v); Some(c.(autoHttpsRedirect := b))
    case 10 => var t :- AsTls(c.tls, v); Some(c.(tls := t))
    case _ => Some(c)
  }

  function SetFields(c: Configuration, fields: seq<string>, members: seq<Member>, i: nat): Option<Configuration>
    requires i <= |members|
    decreases |members| - i
  {
    if i == |members| then Some(c)
    else
      var next :- SetField(c, FieldNumber(members[i].key, fields), members[i].value);
      SetFields(next, fields, members, i + 1)
  }

  function DecodeConfiguration(v: Json): Option<Configuration> {
    match v
    case Null => Some(ZERO_CONFIGURATION)
    case Object(members) => SetFields(ZERO_CONFIGURATION, CONFIGURATION_FIELDS, members, 0)
    case _ => None
  }

  /** json.Unmarshal into a zero configuration. */
  function Decode(text: string): Option<Configuration> {
    var v :- ParseDocument(text);
    DecodeConfiguration(v)
  }

  // ----- Every field name names its own field -----

  ghost predicate Separate(fields: seq<string>) {
    forall i, j :: 0 <= i < j < |fields| ==> !Matches(fields[j], fields[i])
  }

  lemma {:induction false} OwnNumber(fields: seq<string>, n: nat, i: nat)
    requires Separate(fields) && i <= n < |fields|
    ensures FieldNumber(fields[n], fields, i) == n
    decreases n - i
  {
    if i < n {
      OwnNumber(fields, n, i + 1);
    }
  }

  lemma DifferentStart(a: string, b: string)
    requires a != "" && b != "" && FoldChar(a[0]) != b[0] && a[0] != b[0]
    ensures !Matches(a, b)
  {
  }

  lemma TargetFieldsSeparate()
    ensures Separate(TARGET_FIELDS)
  {
    DifferentStart("port", "name");
  }

  lemma TlsFieldsSeparate()
    ensures Separate(TLS_FIELDS)
  {
    DifferentStart("private_key_path", "certificate_path");
    DifferentStart("private_key_pem", "certificate_pem");
  }

  lemma DifferentLength(a: string, b: string)
    requires |a| != |b|
    ensures !Matches(a, b)
  {
  }

  /** Two pairs of fields have names of the same length. */
  lemma ConfigurationFieldsSeparate()
    ensures Separate(CONFIGURATION_FIELDS)
  {
    hide Matches;
    var fields, lengths := CONFIGURATION_FIELDS, [4, 13, 21, 18, 3, 23, 12, 8, 12, 19, 3];
    FieldLengths(lengths);
    forall i, j | 0 <= i < j < |fields| ensures !Matches(fields[j], fields[i]) {
      if i == 4 && j == 10 {
        DifferentStart("tls", "url");
      } else if i == 6 && j == 8 {
        DifferentStart("traffic_mode", "backend_name");
      } else {
        assert lengths[i] != lengths[j];
        DifferentLength(fields[j], fields[i]);
      }
    }
  }

  lemma FieldLengths(lengths: seq<int>)
    requires lengths == [4, 13, 21, 18, 3, 23, 12, 8, 12, 19, 3]
    ensures |CONFIGURATION_FIELDS| == |lengths| && forall i :: 0 <= i < |lengths| ==> |CONFIGURATION_FIELDS[i]| == lengths[i]
  {
  }

  // ----- Round trip -----

  lemma PrintedInteger(n: int)
    ensures PlainInteger(PrintInt(n))
    ensures n >= 0 ==> AllDigits(PrintInt(n)) && NatValue(PrintInt(n)) == n
    ensures n < 0 ==> Starts(PrintInt(n), '-') && AllDigits(PrintInt(n)[1..]) && NatValue(PrintInt(n)[1..]) == -n
  {
    NatValuePrint(if n < 0 then -n else n);
    if n < 0 {
      assert PrintInt(n)[1..] == PrintNat(-n);
    }
  }

  lemma AsInt64Printed(current: int64, n: int64)
    ensures AsInt64(current, Integer(n)) == Some(n)
  {
    PrintedInteger(n);
  }

  lemma AsUint32Printed(current: uint32, n: uint32)
    ensures AsUint32(current, Integer(n)) == Some(n)
  {
    PrintedInteger(n);
  }

  /** One member read: the field it names takes its value. */
  lemma TargetStep(b: Target, f: seq<string>, m: seq<Member>, i: nat, next: Target)
    requires Separate(f) && i < |m| && i < |f| && m[i].key == f[i] && SetTargetField(b, i, m[i].value) == Some(next)
    ensures SetTargetFields(b, f, m, i) == SetTargetFields(next, f, m, i + 1)
  {
    OwnNumber(f, i, 0);
  }

  lemma NoTargetFields(b: Target, f: seq<string>, m: seq<Member>)
    ensures SetTargetFields(b, f, m, |m|) == Some(b)
  {
  }

  lemma TargetRoundTrip(b: Target, f: seq<string>)
    requires |f| == 4 && Separate(f)
    ensures
      var m := TargetMembers(b, f);
      Printable(Object(m)) && SetTargetFields(ZERO_TARGET, f, m, 0) == Some(b)
  {
    hide Separate, PrintInt, PlainInteger, SetTargetFields, AsUint32, AsInt64;
    PrintedInteger(b.port);
    PrintedInteger(b.checkIntervalSecond);
    AsUint32Printed(0, b.port);
    AsInt64Printed(0, b.checkIntervalSecond);
    var m := TargetMembers(b, f);
    var b3 := b.(checkIntervalSecond := 0);
    var b2 := b3.(port := 0);
    var b1 := b2.(address := "");
    TargetStep(ZERO_TARGET, f, m, 0, b1);
    TargetStep(b1, f, m, 1, b2);
    TargetStep(b2, f, m, 2, b3);
    TargetStep(b3, f, m, 3, b);
    NoTargetFields(b, f, m);
  }

  lemma {:induction false} TargetItemsRoundTrip(backends: seq<Target>)
    ensures
      var items := TargetItems(backends);
      && |items| == |backends| && (forall i :: 0 <= i < |items| ==> Printable(items[i]))
      && DecodeTargets(items) == Some(backends)
  {
    if backends != [] {
      TargetFieldsSeparate();
      TargetRoundTrip(backends[0], TARGET_FIELDS);
      TargetItemsRoundTrip(backends[1..]);
      assert TargetItems(backends)[1..] == TargetItems(backends[1..]);
      assert backends == [backends[0]] + backends[1..];
    }
  }

  lemma TargetsRoundTrip(backends: seq<Target>)
    ensures Printable(TargetsJson(backends)) && AsTargets(TargetsJson(backends)) == Some(backends)
  {
    TargetItemsRoundTrip(backends);
  }

  lemma TlsStep(t: Tls, f: seq<string>, m: seq<Member>, i: nat, next: Tls)
    requires Separate(f) && i < |m| && i < |f| && m[i].key == f[i] && SetTlsField(t, i, m[i].value) == Some(next)
    ensures SetTlsFields(t, f, m, i) == SetTlsFields(next, f, m, i + 1)
  {
    OwnNumber(f, i, 0);
  }

  lemma NoTlsFields(t: Tls, f: seq<string>, m: seq<Member>)
    ensures SetTlsFields(t, f, m, |m|) == Some(t)
  {
  }

  lemma TlsRoundTrip(t: Tls, f: seq<string>)
    requires |f| == 6 && Separate(f)
    ensures
      var m := TlsMembers(t, f);
      Printable(Object(m)) && SetTlsFields(ZERO_TLS, f, m, 0) == Some(t)
  {
    hide Separate, SetTlsFields;
    var m := TlsMembers(t, f);
    var t5 := t.(skipBackendTlsVerify := false);
    var t4 := t5.(privateKeyPem := "");
    var t3 := t4.(certificatePem := "");
    var t2 := t3.(privateKeyPath := "");
    var t1 := t2.(certificatePath := "");
    TlsStep(ZERO_TLS, f, m, 0, t1);
    TlsStep(t1, f, m, 1, t2);
    TlsStep(t2, f, m, 2, t3);
    TlsStep(t3, f, m, 3, t4);
    TlsStep(t4, f, m, 4, t5);
    TlsStep(t5, f, m, 5, t);
    NoTlsFields(t, f, m);
  }

  lemma AsTlsRoundTrip(t: Tls)
    ensures
      var v := Object(TlsMembers(t, TLS_FIELDS));
      Printable(v) && AsTls(None, v) == Some(Some(t))
  {
    TlsFieldsSeparate();
    TlsRoundTrip(t, TLS_FIELDS);
  }

  /** Reading every member in turn passes through the given configurations. */
  lemma {:induction false} Steps(cs: seq<Configuration>, f: seq<string>, m: seq<Member>, i: nat)
    requires Separate(f) && i <= |m| <= |f| && |cs| == |m| + 1
    requires forall n :: i <= n < |m| ==> m[n].key == f[n] && SetField(cs[n], n, m[n].value) == Some(cs[n + 1])
    ensures SetFields(cs[i], f, m, i) == Some(cs[|m|])
    decreases |m| - i
  {
    if i < |m| {
      OwnNumber(f, i, 0);
      Steps(cs, f, m, i + 1);
    }
  }

  /** The configuration of which the first n members have been read. */
  function Prefix(c: Configuration, n: nat): Configuration {
    Configuration(if n > 0 then c.name else "", if n > 1 then c.frontendName else "",
                  if n > 2 then c.frontendBindAddress else "", if n > 3 then c.frontendBindPort else 0,
                  if n > 4 then c.url else "", if n > 5 then c.loadBalancing else "",
                  if n > 6 then c.backendName else "", if n > 7 then c.backends else [],
                  if n > 8 then c.trafficMode else "", n > 9 && c.autoHttpsRedirect,
                  if n > 10 then c.tls else None)
  }

  lemma PrefixStep(c: Configuration, f: seq<string>, n: nat)
    requires |f| == 11 && n < |ConfigurationMembers(c, f)|
    ensures
      var m := ConfigurationMembers(c, f);
      m[n].key == f[n] && SetField(Prefix(c, n), n, m[n].value) == Some(Prefix(c, n + 1))
  {
    hide TargetsJson, AsTargets, TlsMembers, AsTls, PrintNat, AsUint32;
    if n == 3 {
      AsUint32Printed(0, c.frontendBindPort);
    } else if n == 7 {
      TargetsRoundTrip(c.backends);
    } else if n == 10 {
      AsTlsRoundTrip(c.tls.value);
    }
  }

  lemma MembersRoundTrip(c: Configuration, f: seq<string>)
    requires |f| == 11 && Separate(f)
    ensures SetFields(ZERO_CONFIGURATION, f, ConfigurationMembers(c, f), 0) == Some(c)
  {
    var m := ConfigurationMembers(c, f);
    var cs := seq(|m| + 1, n requires 0 <= n => Prefix(c, n));
    forall n | 0 <= n < |m| ensures m[n].key == f[n] && SetField(cs[n], n, m[n].value) == Some(cs[n + 1]) {
      PrefixStep(c, f, n);
    }
    Steps(cs, f, m, 0);
  }

  lemma MembersShape(c: Configuration, f: seq<string>)
    requires |f| == 11
    ensures
      var v := Object(ConfigurationMembers(c, f));
      var s := Print(v);
      Printable(v) && |s| >= 2 && s[0] == '{' && s[|s| - 1] == '}' && Free(s, '\n')
  {
    hide TargetsJson, TlsMembers, PrintNat, Print;
    PrintedInteger(c.frontendBindPort);
    TargetsRoundTrip(c.backends);
    if c.tls.Some? {
      AsTlsRoundTrip(c.tls.value);
    }
    ObjectShape(ConfigurationMembers(c, f));
  }

  /** Decoding an encoded configuration gives it back. */
  lemma RoundTrip(c: Configuration)
    ensures Decode(Encode(c)) == Some(c)
  {
    ConfigurationFieldsSeparate();
    MembersRoundTrip(c, CONFIGURATION_FIELDS);
    MembersShape(c, CONFIGURATION_FIELDS);
    JsonGrammar.DocumentRoundTrip(Object(ConfigurationMembers(c, CONFIGURATION_FIELDS)));
  }

  /** An encoded configuration is one line between braces. */
  lemma EncodedShape(c: Configuration)
    ensures
      var s := Encode(c);
      |s| >= 2 && s[0] == '{' && s[|s| - 1] == '}' && Free(s, '\n')
  {
    MembersShape(c, CONFIGURATION_FIELDS);
  }

  // ----- The document -----

  lemma {:induction false} TargetItemAt(backends: seq<Target>, i: nat)
    requires i < |backends|
    ensures
      && |TargetItems(backends)| == |backends|
      && TargetItems(backends)[i] ==
         Object([Member("name", String(backends[i].name)), Member("address", String(backends[i].address)),
                 Member("port", Integer(backends[i].port)),
                 Member("check_interval_seconds", Integer(backends[i].checkIntervalSecond))])
  {
    if |backends| > 1 {
      TargetItemAt(backends[1..], if i > 0 then i - 1 else 0);
    }
  }

  /** Any JSON reader finds every field under its own name in the text. */
  lemma EncodedMembers(c: Configuration)
    ensures
      var m := ConfigurationMembers(c, CONFIGURATION_FIELDS);
      && ParseDocument(Encode(c)) == Some(Object(m)) && |m| == (if c.tls.Some? then 11 else 10)
      && m[0] == Member("name", String(c.name)) && m[1] == Member("frontend_name", String(c.frontendName))
      && m[2] == Member("frontend_bind_address", String(c.frontendBindAddress))
      && m[3] == Member("frontend_bind_port", Integer(c.frontendBindPort)) && m[4] == Member("url", String(c.url))
      && m[5] == Member("load_balancing_strategy", String(c.loadBalancing))
      && m[6] == Member("backend_name", String(c.backendName))
      && m[7] == Member("backends", TargetsJson(c.backends)) && m[8] == Member("traffic_mode", String(c.trafficMode))
      && m[9] == Member("auto_https_redirect", Bool(c.autoHttpsRedirect))
      && (c.tls.Some? ==>
            var t := c.tls.value;
            m[10] == Member("tls", Object(
              [Member("enabled", Bool(t.enabled)), Member("certificate_path", String(t.certificatePath)),
               Member("private_key_path", String(t.privateKeyPath)), Member("certificate_pem", String(t.certificatePem)),
               Member("private_key_pem", String(t.privateKeyPem)),
               Member("skip_backend_tls_verify", Bool(t.skipBackendTlsVerify))])))
  {
    hide TargetsJson, ParseDocument, Print, Printable;
    assert Printable(Object(ConfigurationMembers(c, CONFIGURATION_FIELDS))) by {
      ConfigurationFieldsSeparate();
      MembersRoundTrip(c, CONFIGURATION_FIELDS);
      MembersShape(c, CONFIGURATION_FIELDS);
    }
    JsonGrammar.DocumentRoundTrip(Object(ConfigurationMembers(c, CONFIGURATION_FIELDS)));
  }

  // ----- Members in any order, with any keys -----

  /** The key is the name of the field, up to the case of its letters; two letters beyond ASCII count as S and K. */
  predicate NamesField(key: string, field: string) {
    && |key| == |field|
    && forall i :: 0 <= i < |key| ==>
      || key[i] == field[i] || ('A' <= key[i] <= 'Z' && key[i] as int + 32 == field[i] as int)
      || (key[i] == '\U{17F}' && field[i] == 's') || (key[i] == '\U{212A}' && field[i] == 'k')
  }

  predicate IsFieldName(s: string) {
    forall i :: 0 <= i < |s| ==> 'a' <= s[i] <= 'z' || s[i] == '_'
  }

  lemma FirstNames()
    ensures IsFieldName("name") && IsFieldName("frontend_name") && IsFieldName("frontend_bind_address")
    ensures IsFieldName("frontend_bind_port") && IsFieldName("url")
  {
  }

  lemma LastNames()
    ensures IsFieldName("load_balancing_strategy") && IsFieldName("backend_name") && IsFieldName("backends")
    ensures IsFieldName("traffic_mode") && IsFieldName("auto_https_redirect") && IsFieldName("tls")
  {
  }

  lemma NamesAreFieldNames()
    ensures forall n :: 0 <= n < 11 ==> IsFieldName(CONFIGURATION_FIELDS[n])
  {
    hide IsFieldName;
    FirstNames();
    LastNames();
  }

  lemma NamesFieldIff(key: string, field: string)
    requires IsFieldName(field)
    ensures NamesField(key, field) <==> Matches(key, field)
  {
  }

  lemma OneFieldOnly(key: string, a: string, b: string)
    requires IsFieldName(a) && IsFieldName(b) && Matches(key, a) && Matches(key, b)
    ensures a == b
  {
    forall i | 0 <= i < |key| ensures a[i] == b[i] {
      assert FoldChar(key[i]) == a[i] && FoldChar(key[i]) == b[i];
    }
  }

  lemma {:induction false} NumberOf(key: string, fields: seq<string>, i: nat)
    requires i <= |fields|
    ensures
      var n := FieldNumber(key, fields, i);
      i <= n <= |fields| && (n < |fields| ==> Matches(key, fields[n])) && forall k :: i <= k < n ==> !Matches(key, fields[k])
    decreases |fields| - i
  {
    hide Matches;
    if i < |fields| && !Matches(key, fields[i]) {
      NumberOf(key, fields, i + 1);
    }
  }

  lemma {:induction false} LastMember(c: Configuration, fields: seq<string>, members: seq<Member>, m: Member, i: nat)
    requires i <= |members|
    ensures
      var x, y := SetFields(c, fields, members, i), SetFields(c, fields, members + [m], i);
      if x.None? then y.None? else y == SetField(x.value, FieldNumber(m.key, fields), m.value)
    decreases |members| - i
  {
    hide SetField, FieldNumber;
    if i < |members| {
      var next := SetField(c, FieldNumber(members[i].key, fields), members[i].value);
      assert (members + [m])[i] == members[i];
      if next.Some? {
        LastMember(next.value, fields, members, m, i + 1);
      }
    } else {
      assert (members + [m])[i] == m;
    }
  }

  /** What one more member adds to an object: nothing for a key that names no field, and its value for the field it names,
      however that is spelled and whatever stands in front. */
  lemma OneMoreMember(members: seq<Member>, m: Member)
    ensures
      var x, y := DecodeConfiguration(Object(members)), DecodeConfiguration(Object(members + [m]));
      && (x.None? ==> y.None?)
      && (x.Some? ==>
            && ((forall n :: 0 <= n < 11 ==> !NamesField(m.key, CONFIGURATION_FIELDS[n])) ==> y == x)
            && forall n :: 0 <= n < 11 && NamesField(m.key, CONFIGURATION_FIELDS[n]) ==> y == SetField(x.value, n, m.value))
  {
    hide SetField, SetFields, FieldNumber, Matches, NamesField, IsFieldName;
    var f := CONFIGURATION_FIELDS;
    LastMember(ZERO_CONFIGURATION, f, members, m, 0);
    NamesAreFieldNames();
    ConfigurationFieldsSeparate();
    NumberOf(m.key, f, 0);
    forall n | 0 <= n < 11 ensures NamesField(m.key, f[n]) <==> Matches(m.key, f[n]) {
      NamesFieldIff(m.key, f[n]);
    }
    var number := FieldNumber(m.key, f, 0);
    forall n | 0 <= n < 11 && Matches(m.key, f[n]) ensures n == number {
      if number < n {
        OneFieldOnly(m.key, f[number], f[n]);
        Itself(f[n]);
      }
    }
    if number == 11 && DecodeConfiguration(Object(members)).Some? {
      NoField(DecodeConfiguration(Object(members)).value, m.value);
    }
  }

  lemma Itself(field: string)
    ensures Matches(field, field)
  {
  }

  lemma NoField(c: Configuration, v: Json)
    ensures SetField(c, 11, v) == Some(c)
  {
  }
}
