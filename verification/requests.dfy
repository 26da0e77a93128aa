/** What requests come to, field by field and character by character: which are accepted, what is answered, stored and
    written for them, in which order entries are listed, and that no key is kept. */
module Requests {
  import opened Text
  import opened Sorting
  import opened Keyed
  import opened Types
  import opened Meaning
  import opened Crud
  import opened CrudLaws
  import opened CrudRuns
  import opened Haproxy
  import ManagedBlock
  import BlockLaws

  // ----- Which requests are accepted -----

  /** The letter e is the lower case of c, given what becomes of letters beyond ASCII. */
  predicate Lowered(c: char, e: char, lower: char -> char) {
    if c < '\U{80}' || c == '\U{130}' || c == '\U{212A}' then Small(c, e) else e == lower(c)
  }

  ghost predicate SameLetter(c: char, d: char, lower: char -> char) {
    exists e :: Lowered(c, e, lower) && Lowered(d, e, lower)
  }

  ghost predicate SameLetters(t: string, u: string, lower: char -> char) {
    |t| == |u| && forall k :: 0 <= k < |t| ==> SameLetter(t[k], u[k], lower)
  }

  /** Two texts that differ in surrounding blanks and in case only. */
  ghost predicate SameName(a: string, b: string, lower: char -> char) {
    exists t, u :: Core(a, t) && Core(b, u) && SameLetters(t, u, lower)
  }

  ghost predicate AcceptableTls(t: Tls, v: Verdicts) {
    var path, key := Shows(t.certificatePath), Shows(t.privateKeyPath);
    var pem, keyPem := Shows(t.certificatePem), Shows(t.privateKeyPem);
    || (!t.enabled && !path && !key && !pem && !keyPem)
    || (t.enabled && path && key && !pem && !keyPem)
    || (t.enabled && !path && !key && pem && keyPem && v.certificatePem && v.privateKeyPem)
  }

  ghost predicate AcceptableTargets(backends: seq<Target>, lower: char -> char) {
    && (forall i :: 0 <= i < |backends| ==>
          && Shows(backends[i].name) && Shows(backends[i].address) && 1 <= backends[i].port <= 65535
          && backends[i].checkIntervalSecond >= 1)
    && forall i, j :: 0 <= i < j < |backends| ==> !SameName(backends[i].name, backends[j].name, lower)
  }

  ghost predicate Acceptable(c: Configuration, v: Verdicts) {
    var http := Says(c.trafficMode, "http");
    && Shows(c.name) && Shows(c.frontendName) && Shows(c.backendName) && Shows(c.frontendBindAddress)
    && (http || Says(c.trafficMode, "tcp"))
    && (http ==> Shows(c.url) && v.url.Url? && v.url.host != "" && (v.url.scheme == "http" || v.url.scheme == "https"))
    && (Says(c.loadBalancing, "roundrobin") || Says(c.loadBalancing, "leastconn") || Says(c.loadBalancing, "source"))
    && (c.autoHttpsRedirect ==> http && c.tls.Some? && c.tls.value.enabled)
    && (c.tls.Some? ==> AcceptableTls(c.tls.value, v))
    && 1 <= c.frontendBindPort <= 65535
    && |c.backends| >= 1 && AcceptableTargets(c.backends, v.lower)
  }

  lemma LoweredIff(c: char, e: char, lower: char -> char)
    ensures Lowered(c, e, lower) <==> e == LowerCharBy(c, lower)
  {
    SmallIff(c, e);
  }

  lemma SameLettersIff(t: string, u: string, lower: char -> char)
    ensures SameLetters(t, u, lower) <==> LowerBy(t, lower) == LowerBy(u, lower)
  {
    hide Lowered, LowerCharBy;
    forall c, d ensures SameLetter(c, d, lower) <==> LowerCharBy(c, lower) == LowerCharBy(d, lower) {
      LoweredIff(c, LowerCharBy(c, lower), lower);
      LoweredIff(d, LowerCharBy(c, lower), lower);
      if e :| Lowered(c, e, lower) && Lowered(d, e, lower) {
        LoweredIff(c, e, lower);
        LoweredIff(d, e, lower);
      }
    }
    var a, b := LowerBy(t, lower), LowerBy(u, lower);
    if a == b {
      forall k | 0 <= k < |t| ensures SameLetter(t[k], u[k], lower) {
        assert a[k] == b[k];
      }
    }
  }

  lemma SameNameIff(a: string, b: string, lower: char -> char)
    ensures SameName(a, b, lower) <==> LowerBy(Trim(a), lower) == LowerBy(Trim(b), lower)
  {
    hide Trim, Core, SameLetters, LowerBy;
    forall s, t ensures Core(s, t) <==> t == Trim(s) {
      TrimIff(s, t);
    }
    SameLettersIff(Trim(a), Trim(b), lower);
    assert Core(a, Trim(a)) && Core(b, Trim(b));
  }

  lemma AcceptableTargetsIff(backends: seq<Target>, lower: char -> char)
    ensures AcceptableTargets(backends, lower) <==> ValidTargets(backends, lower)
  {
    hide Trim, Shows, SameName, LowerBy;
    forall i | 0 <= i < |backends|
      ensures Shows(backends[i].name) <==> !Blank(backends[i].name)
      ensures Shows(backends[i].address) <==> !Blank(backends[i].address)
    {
      BlankIff(backends[i].name);
      BlankIff(backends[i].address);
    }
    var keys := TargetKeys(backends, lower);
    forall i, j | 0 <= i < j < |backends|
      ensures SameName(backends[i].name, backends[j].name, lower) <==> keys[i] == keys[j]
    {
      SameNameIff(backends[i].name, backends[j].name, lower);
    }
    assert (forall b :: b in backends ==> ValidTarget(b)) <==> forall i :: 0 <= i < |backends| ==> ValidTarget(backends[i]);
  }

  lemma AcceptableTlsIff(t: Tls, v: Verdicts)
    ensures AcceptableTls(t, v) <==> ValidTls(t, v)
  {
    hide Shows, Blank;
    BlankIff(t.certificatePath);
    BlankIff(t.privateKeyPath);
    BlankIff(t.certificatePem);
    BlankIff(t.privateKeyPem);
  }

  /** Validation accepts exactly the acceptable configurations; an error of its own tells that no name shows. */
  lemma AcceptedIff(c: Configuration, v: Verdicts)
    ensures ValidationErrorOf(c, v) == None <==> Acceptable(c, v)
    ensures ValidationErrorOf(c, v) == Some(InvalidKey) <==> !Shows(c.name)
  {
    hide Shows, Blank, Says, NormalizeWord, AcceptableTls, ValidTls, AcceptableTargets, ValidTargets;
    BlankIff(c.name);
    BlankIff(c.frontendName);
    BlankIff(c.backendName);
    BlankIff(c.frontendBindAddress);
    BlankIff(c.url);
    NormalizeWordIff(c.trafficMode, "http");
    NormalizeWordIff(c.trafficMode, "tcp");
    NormalizeWordIff(c.loadBalancing, "roundrobin");
    NormalizeWordIff(c.loadBalancing, "leastconn");
    NormalizeWordIff(c.loadBalancing, "source");
    AcceptableTargetsIff(c.backends, v.lower);
    if c.tls.Some? {
      AcceptableTlsIff(c.tls.value, v);
    }
  }

  // ----- What becomes of a request -----

  /** A certificate and its key as texts, and no path. */
  ghost predicate BringsPem(t: Tls) {
    t.enabled && !Shows(t.certificatePath) && Shows(t.certificatePem) && Shows(t.privateKeyPem)
  }

  ghost predicate AnswersTls(t: Tls, u: Tls, file: string) {
    && u.enabled == t.enabled && u.skipBackendTlsVerify == t.skipBackendTlsVerify && u.privateKeyPath == t.privateKeyPath
    && if BringsPem(t) then u.certificatePath == file && u.certificatePem == "" && u.privateKeyPem == ""
       else u.certificatePath == t.certificatePath && u.certificatePem == t.certificatePem && u.privateKeyPem == t.privateKeyPem
  }

  /** The entry d is what the request c asks for. */
  ghost predicate Answers(c: Configuration, d: Configuration, dir: string) {
    && Core(c.name, d.name) && Says(c.loadBalancing, d.loadBalancing) && Says(c.trafficMode, d.trafficMode)
    && d.frontendName == c.frontendName && d.frontendBindAddress == c.frontendBindAddress
    && d.frontendBindPort == c.frontendBindPort && d.url == c.url
    && d.backendName == c.backendName && d.backends == c.backends && d.autoHttpsRedirect == c.autoHttpsRedirect
    && (d.tls.Some? <==> c.tls.Some?)
    && (c.tls.Some? ==> AnswersTls(c.tls.value, d.tls.value, CertificateFile(dir, d.name)))
  }

  lemma BringsPemIff(c: Configuration)
    ensures NeedsCertificateFile(c) <==> c.tls.Some? && BringsPem(c.tls.value)
  {
    hide Shows, Blank;
    if c.tls.Some? {
      BlankIff(c.tls.value.certificatePath);
      BlankIff(c.tls.value.certificatePem);
      BlankIff(c.tls.value.privateKeyPem);
    }
  }

  /** The form of a request in the store. */
  lemma StoredAnswers(c: Configuration, dir: string)
    ensures Answers(c, Stored(RULES, c, dir), dir)
  {
    hide Core, Says, BringsPem, NormalizeWord, Trim, CertificateFile, Blank;
    TrimIff(c.name, Trim(c.name));
    NormalizeWordIff(c.loadBalancing, NormalizeWord(c.loadBalancing));
    NormalizeWordIff(c.trafficMode, NormalizeWord(c.trafficMode));
    BringsPemIff(c);
    BringsPemIff(Normalize(c));
  }

  lemma {:induction false} EnsuredEach<C>(r: Rules<C>, xs: seq<C>, dir: string, files: nat, j: nat)
    requires j < |xs| && EnsureAll(r, xs, dir, files).ok
    ensures EnsureAll(r, xs, dir, files).list[j] == Finish(r, xs[j], dir)
  {
    if j > 0 {
      EnsuredEach(r, xs[1..], dir, if r.needsFile(xs[0]) then files - 1 else files, j - 1);
    }
  }

  /** Persisting without a fault: the changed list, finished, is in store and file. */
  lemma PersistedEach<C>(r: Rules<C>, st: State<C>, change: Change<C>, o: Outcomes, j: nat)
    requires Applies(st.store, change) && j < |Apply(st.store, change)| && Persist(r, st, change, o, true).error == None
    ensures
      var p := Persist(r, st, change, o, true);
      && p.list[j] == Finish(r, Apply(st.store, change)[j], st.certificatesDir)
      && p.state.store == p.list && r.merge(st.file, p.list) == Some(p.state.file)
  {
    hide EnsureAll, Reflect, Apply;
    EnsuredEach(r, Apply(st.store, change), st.certificatesDir, o.certificates, j);
  }

  lemma LoadKeeps<C>(r: Rules<C>, st: State<C>, o: Outcomes)
    ensures Load(r, st, o).state.certificatesDir == st.certificatesDir && Load(r, st, o).state.file == st.file
  {
  }

  /** The reply to a Create or Update that succeeds is the finished request; it is in the store, and the store is what has
      been merged into the file. */
  ghost predicate Taken<C(!new)>(r: Rules<C>, st: State<C>, c: C, s: Step<C>) {
    s.reply.One? ==>
      && s.reply.c == Stored(r, c, st.certificatesDir) && s.reply.c in s.state.store
      && r.merge(st.file, s.state.store) == Some(s.state.file)
  }

  lemma CreateTakes<C(!new)>(r: Rules<C>, st: State<C>, c: C, o: Outcomes)
    ensures Taken(r, st, c, NextCreate(r, st, c, o))
  {
    hide Find, Load, Persist;
    var st1 := AfterClient(st, o);
    var l, change := Load(r, st1, o), Added(r.normalize(c));
    LoadKeeps(r, st1, o);
    if l.list.Ok? && Persist(r, l.state, change, o, true).error == None {
      PersistedEach(r, l.state, change, o, |l.state.store|);
    }
  }

  lemma UpdateTakes<C(!new)>(r: Rules<C>, st: State<C>, c: C, o: Outcomes)
    ensures Taken(r, st, c, NextUpdate(r, st, c, o))
  {
    hide Find, Load, Persist;
    var st1 := AfterClient(st, o);
    var l := Load(r, st1, o);
    LoadKeeps(r, st1, o);
    if l.list.Ok? && Find(l.list.value, r.key, r.key(c)) != -1 {
      var i := Find(l.list.value, r.key, r.key(c));
      if Persist(r, l.state, Replaced(i, r.normalize(c)), o, true).error == None {
        PersistedEach(r, l.state, Replaced(i, r.normalize(c)), o, i);
      }
    }
  }

  /** What a client gets for a Create or Update that succeeds is what it asked for, field by field, and so is what is stored. */
  lemma RequestIsAnswered(st: State<Configuration>, call: Call<Configuration>, o: Outcomes)
    requires call.Create? || call.Update?
    ensures
      var s := Next(RULES, st, call, o);
      s.reply.One? ==> Answers(call.c, s.reply.c, st.certificatesDir) && s.reply.c in s.state.store
  {
    hide RULES, NextCreate, NextUpdate, Answers, Stored;
    StoredAnswers(call.c, st.certificatesDir);
    CreateTakes(RULES, st, call.c, o);
    UpdateTakes(RULES, st, call.c, o);
  }

  /** From a healthy state it can be read back from the file, too. */
  lemma RequestIsWritten(st: State<Configuration>, dirty: bool, call: Call<Configuration>, o: Outcomes)
    requires (call.Create? || call.Update?) && Healthy(st, dirty) && SafeEvent(Event(call, o), st.certificatesDir)
    ensures
      var s := Next(RULES, st, call, o);
      s.reply.One? ==>
        && Answers(call.c, s.reply.c, st.certificatesDir)
        && ManagedBlock.Load(s.state.file).Some? && s.reply.c in ManagedBlock.Load(s.state.file).value
  {
    hide NextCreate, NextUpdate, Answers, Stored, ManagedBlock.Load, ManagedBlock.Merge, ManagedBlock.Canon, Good;
    var s := Next(RULES, st, call, o);
    RequestIsAnswered(st, call, o);
    if s.reply.One? {
      CreateTakes(RULES, st, call.c, o);
      UpdateTakes(RULES, st, call.c, o);
      ServiceStep(st, dirty, call, o);
      FileIsLawful(st.file, s.state.store);
      CanonHolds(s.state.store, s.reply.c);
      StoredNameIsTrimmed(call.c, st.certificatesDir);
    }
  }

  lemma StoredNameIsTrimmed(c: Configuration, dir: string)
    ensures ManagedBlock.NormalizeName(Stored(RULES, c, dir)) == Stored(RULES, c, dir)
  {
    TrimIdempotent(c.name);
  }

  lemma CanonHolds(xs: seq<Configuration>, d: Configuration)
    requires d in xs
    ensures ManagedBlock.NormalizeName(d) in ManagedBlock.Canon(xs)
  {
    hide ManagedBlock.Canon, ManagedBlock.NormalizeName;
    BlockLaws.CanonElements(xs);
    var i :| 0 <= i < |xs| && xs[i] == d;
    assert ManagedBlock.NormalizeNames(xs)[i] == ManagedBlock.NormalizeName(d);
  }

  // ----- No key is kept -----

  /** Nothing shows in the fields for certificate and key texts. */
  ghost predicate Sealed(c: Configuration) {
    c.tls.Some? ==> !Shows(c.tls.value.certificatePem) && !Shows(c.tls.value.privateKeyPem)
  }

  ghost predicate AllSealed(cs: seq<Configuration>) {
    forall i :: 0 <= i < |cs| ==> Sealed(cs[i])
  }

  ghost predicate ReplySealed(reply: Reply<Configuration>) {
    (reply.One? ==> Sealed(reply.c)) && (reply.Many? ==> AllSealed(reply.cs))
  }

  /** The same, for the laws of the service. */
  predicate NoPem(c: Configuration) {
    c.tls.Some? ==> Blank(c.tls.value.certificatePem) && Blank(c.tls.value.privateKeyPem)
  }

  predicate GoodNoPem(c: Configuration) {
    Good(c) && NoPem(c)
  }

  lemma NoPemIff(c: Configuration)
    ensures NoPem(c) <==> Sealed(c)
  {
    hide Blank, Shows;
    if c.tls.Some? {
      BlankIff(c.tls.value.certificatePem);
      BlankIff(c.tls.value.privateKeyPem);
    }
  }

  lemma AllNoPem(xs: seq<Configuration>)
    ensures All(xs, GoodNoPem) <==> All(xs, Good) && AllSealed(xs)
  {
    hide NoPem, Sealed, Good;
    forall c ensures NoPem(c) <==> Sealed(c) {
      NoPemIff(c);
    }
  }

  /** What is stored for an accepted request holds no key. */
  lemma StoredIsSealed(c: Configuration, v: Verdicts, dir: string)
    requires ValidationErrorOf(c, v) == None
    ensures NoPem(Stored(RULES, c, dir))
  {
    hide NormalizeWord, CertificateFile;
  }

  lemma SealedRules()
    ensures LawfulRules(RULES, GoodNoPem, Closed)
  {
    hide LawfulRules;
    RulesAreLawful();
    SealedCanon();
    NarrowerRules();
  }

  lemma SealedCanon()
    ensures forall xs {:trigger RULES.canon(xs)} :: All(xs, GoodNoPem) ==> All(RULES.canon(xs), GoodNoPem)
  {
    hide ManagedBlock.Canon, GoodNoPem;
    forall c ensures GoodNoPem(ManagedBlock.NormalizeName(c)) <==> GoodNoPem(c) {
      NameIsNoPem(c);
    }
    forall xs | All(xs, GoodNoPem) ensures All(ManagedBlock.Canon(xs), GoodNoPem) {
      BlockLaws.CanonKeeps(xs, GoodNoPem);
    }
  }

  lemma NameIsNoPem(c: Configuration)
    ensures GoodNoPem(ManagedBlock.NormalizeName(c)) <==> GoodNoPem(c)
  {
    BlockLaws.NameDoesNotShow(c);
  }

  /** Rules stay lawful for fewer entries, as long as the canonical form keeps to them. */
  lemma NarrowerRules()
    requires LawfulRules(RULES, Good, Closed)
    requires forall xs {:trigger RULES.canon(xs)} :: All(xs, GoodNoPem) ==> All(RULES.canon(xs), GoodNoPem)
    ensures LawfulRules(RULES, GoodNoPem, Closed)
  {
    hide RULES, Good, NoPem, Closed, WrittenLaw, DistinctKeys;
    forall xs: seq<Configuration> | All(xs, GoodNoPem) ensures All(xs, Good) {
      AllNoPem(xs);
    }
  }

  lemma SafeEventsAreSealed(events: seq<Event<Configuration>>, dir: string)
    requires SafeEvents(events, dir)
    ensures GoodEvents(RULES, GoodNoPem, dir, events)
  {
    hide SafeEvent, NoPem, Good, Stored, ValidationErrorOf;
    forall i | 0 <= i < |events| ensures GoodCall(RULES, GoodNoPem, dir, events[i].call, events[i].o.verdicts) {
      var v := events[i].o.verdicts;
      SafeEventIsGood(events[i], dir);
      match events[i].call
      case Create(c) => if ValidationErrorOf(c, v) == None { StoredIsSealed(c, v, dir); }
      case Update(c) => if ValidationErrorOf(c, v) == None { StoredIsSealed(c, v, dir); }
      case _ =>
    }
  }

  /** Every entry that is shown is a good one. */
  ghost predicate ShowsGood<C(!new)>(good: C -> bool, reply: Reply<C>) {
    (reply.One? ==> good(reply.c)) && (reply.Many? ==> All(reply.cs, good))
  }

  lemma ToMapHolds<T>(xs: seq<T>, key: T -> string, k: string)
    requires DistinctKeys(xs, key) && k in ToMap(xs, key)
    ensures ToMap(xs, key)[k] in xs
  {
    Lookup(xs, key, k);
  }

  lemma HeldIsGood<C(!new)>(r: Rules<C>, good: C -> bool, closed: string -> bool, st: State<C>, dirty: bool, k: string)
    requires Inv(r, good, closed, st, dirty) && k in Abs(r, st)
    ensures good(Abs(r, st)[k])
  {
    ToMapHolds(Held(r, st), r.key, k);
    var i :| 0 <= i < |Held(r, st)| && Held(r, st)[i] == Abs(r, st)[k];
  }

  lemma StepShowsGood<C(!new)>(r: Rules<C>, good: C -> bool, closed: string -> bool, st: State<C>, dirty: bool, call: Call<C>,
                               o: Outcomes, s: Step<C>)
    requires Inv(r, good, closed, st, dirty) && GoodCall(r, good, st.certificatesDir, call, o.verdicts)
    requires StepOk(r, good, closed, st, dirty, call, o, s)
    ensures ShowsGood(good, s.reply)
  {
    hide FaultOf, ViewAfter, Abs, Stored, FileStep, StrictlySorted, Inv;
    assert r.load(st.file).Some? by { InvLoads(r, good, closed, st, dirty); }
    var m := Abs(r, st);
    forall k | k in m ensures good(m[k]) {
      HeldIsGood(r, good, closed, st, dirty, k);
    }
    if s.reply.Many? {
      forall i | 0 <= i < |s.reply.cs| ensures good(s.reply.cs[i]) {
        assert s.reply.cs[i] in s.reply.cs;
      }
    }
  }

  lemma InvLoads<C(!new)>(r: Rules<C>, good: C -> bool, closed: string -> bool, st: State<C>, dirty: bool)
    requires Inv(r, good, closed, st, dirty)
    ensures r.load(st.file).Some?
  {
  }

  lemma {:induction false} RunShowsGood<C(!new)>(r: Rules<C>, good: C -> bool, closed: string -> bool, st: State<C>, dirty: bool,
                                                 events: seq<Event<C>>)
    requires LawfulRules(r, good, closed) && Inv(r, good, closed, st, dirty)
    requires GoodEvents(r, good, st.certificatesDir, events)
    ensures forall i :: 0 <= i < |events| ==> ShowsGood(good, Replies(r, st, events)[i])
    decreases |events|
  {
    hide Next, Spec, FaultOf, ViewAfter, ReplyIs, LawfulRules, ShowsGood, GoodCall;
    if events != [] {
      var e, rest := events[0], events[1..];
      GoodRest(r, good, st.certificatesDir, events);
      EveryStepOk(r, good, closed, st, dirty, e.call, e.o);
      var s := Next(r, st, e.call, e.o);
      StepShowsGood(r, good, closed, st, dirty, e.call, e.o, s);
      RunShowsGood(r, good, closed, s.state, DirtyAfter(st, dirty, e.call, s.reply), rest);
      assert forall i :: 0 < i < |events| ==> Replies(r, st, events)[i] == Replies(r, s.state, rest)[i - 1];
    }
  }

  /** Over every run, whatever fails: if nothing shows in the text fields for certificates and keys of the stored and the
      written entries, it stays so, and nothing shows there in any reply. A key is in its certificate file, and only there. */
  lemma NoKeyIsKept(st: State<Configuration>, dirty: bool, events: seq<Event<Configuration>>)
    requires Healthy(st, dirty) && SafeEvents(events, st.certificatesDir)
    requires AllSealed(st.store) && AllSealed(ManagedBlock.Load(st.file).value)
    ensures
      var after := Final(RULES, st, events);
      && AllSealed(after.store) && ManagedBlock.Load(after.file).Some? && AllSealed(ManagedBlock.Load(after.file).value)
      && forall i :: 0 <= i < |events| ==> ReplySealed(Replies(RULES, st, events)[i])
  {
    hide Good, NoPem, Sealed, AllSealed, Closed, ManagedBlock.Load, DistinctKeys, Final, Replies, DirtyAtEnd, LawfulRules,
         GoodEvents;
    AllNoPem(st.store);
    AllNoPem(ManagedBlock.Load(st.file).value);
    SealedRules();
    SafeEventsAreSealed(events, st.certificatesDir);
    RunKeepsAgreement(RULES, GoodNoPem, Closed, st, dirty, events);
    RunShowsGood(RULES, GoodNoPem, Closed, st, dirty, events);
    AllNoPem(Final(RULES, st, events).store);
    AllNoPem(ManagedBlock.Load(Final(RULES, st, events).file).value);
    forall i | 0 <= i < |events| ensures ReplySealed(Replies(RULES, st, events)[i]) {
      ShownIsSealed(Replies(RULES, st, events)[i]);
    }
  }

  lemma ShownIsSealed(reply: Reply<Configuration>)
    requires ShowsGood(GoodNoPem, reply)
    ensures ReplySealed(reply)
  {
    hide NoPem, Sealed, Good;
    match reply
    case One(c) => NoPemIff(c);
    case Many(cs) => AllNoPem(cs);
    case _ =>
  }

  // ----- Order -----

  ghost predicate InNameOrder(cs: seq<Configuration>) {
    forall i, j :: 0 <= i < j < |cs| ==> ComesBefore(cs[i].name, cs[j].name)
  }

  lemma StrictMeansOrder(cs: seq<Configuration>)
    ensures StrictlySorted(cs, NameOf) <==> InNameOrder(cs)
  {
    hide Less, ComesBefore;
    forall i, j | 0 <= i < j < |cs| ensures Less(cs[i].name, cs[j].name) <==> ComesBefore(cs[i].name, cs[j].name) {
      LessIff(cs[i].name, cs[j].name);
    }
  }

  /** A listing whose load succeeds shows every entry the service holds and no other, each in front of those whose name goes
      on where its own ends, or has a greater character at the first difference. */
  lemma ListingIsInOrder(st: State<Configuration>, dirty: bool, o: Outcomes)
    requires Healthy(st, dirty) && Crud.Load(RULES, st, o).list.Ok?
    ensures
      var s := Next(RULES, st, List, o);
      && s.reply.Many? && InNameOrder(s.reply.cs)
      && forall d :: d in s.reply.cs <==> d in Crud.Load(RULES, st, o).list.value
  {
    hide RULES, Good, Closed, ManagedBlock.Load, Crud.Load, InNameOrder;
    RulesAreLawful();
    LoadGood(RULES, Good, Closed, st, dirty, o);
    HeldListing(RULES, Good, Closed, st, dirty);
    NamesOfRules();
    StrictMeansOrder(SortBy(Held(RULES, st), NameOf));
    SortKeepsElements(Held(RULES, st), NameOf);
  }

  lemma NamesOfRules()
    ensures RULES.name == NameOf
  {
  }

  /** The entry lines of the block come in this order, too, provided trimmed names are distinct. */
  lemma EntriesAreInOrder(cs: seq<Configuration>)
    requires Distinct(KeysOf(ManagedBlock.NormalizeNames(cs), NameOf))
    ensures InNameOrder(ManagedBlock.Canon(cs)) && |ManagedBlock.Canon(cs)| == |cs|
  {
    hide ManagedBlock.Canon, InNameOrder;
    BlockLaws.CanonIsStrict(cs);
    StrictMeansOrder(ManagedBlock.Canon(cs));
  }

  // ----- Errors -----

  /** The two names are the same without the blanks around them. */
  ghost predicate SameKey(a: string, b: string) {
    exists k :: Core(a, k) && Core(b, k)
  }

  ghost predicate Holds(cs: seq<Configuration>, name: string) {
    exists i :: 0 <= i < |cs| && SameKey(cs[i].name, name)
  }

  lemma SameKeyIff(a: string, b: string)
    ensures SameKey(a, b) <==> Trim(a) == Trim(b)
  {
    hide Trim, Core;
    forall s, t ensures Core(s, t) <==> t == Trim(s) {
      TrimIff(s, t);
    }
    assert Core(a, Trim(a));
  }

  lemma HoldsIff(cs: seq<Configuration>, name: string)
    ensures Holds(cs, name) <==> Find(cs, RULES.key, Trim(name)) != -1
  {
    hide SameKey, Trim;
    forall i | 0 <= i < |cs| ensures SameKey(cs[i].name, name) <==> RULES.key(cs[i]) == Trim(name) {
      SameKeyIff(cs[i].name, name);
    }
  }

  lemma PersistErrors<C>(r: Rules<C>, st: State<C>, change: Change<C>, o: Outcomes)
    requires Applies(st.store, change)
    ensures
      var e := Persist(r, st, change, o, true).error;
      e != Some(Exists) && e != Some(NotFound) && (e.Some? ==> !e.value.Invalid?)
  {
    hide EnsureAll, Apply, Reflect;
  }

  lemma LoadErrors<C>(r: Rules<C>, st: State<C>, o: Outcomes)
    ensures
      var l := Load(r, st, o).list;
      l.Err? ==> l.error != Exists && l.error != NotFound && l.error != NoClient && !l.error.Invalid?
  {
  }

  /** The name in a call. */
  function NameIn(call: Call<Configuration>): string {
    match call
    case Create(c) => c.name
    case Update(c) => c.name
    case Delete(name) => name
    case Get(name) => name
    case _ => ""
  }

  /** Whether a call is refused for its arguments: before anything else for configurations that are not acceptable, and for a
      name in which nothing shows. */
  ghost predicate Refuses(call: Call<Configuration>, v: Verdicts) {
    match call
    case Create(c) => !Acceptable(c, v)
    case Update(c) => !Acceptable(c, v)
    case Delete(name) => !Shows(name)
    case Get(name) => !Shows(name)
    case _ => false
  }

  /** From any state with a client: a call is invalid exactly when it is refused for its arguments; otherwise, when the load
      succeeds, a Create fails with Exists exactly when the name is taken, and the other calls with NotFound exactly when it
      is not. */
  lemma ErrorsMean(st: State<Configuration>, call: Call<Configuration>, o: Outcomes)
    requires st.client && (call.Create? || call.Update? || call.Delete? || call.Get?)
    ensures
      var reply, list := Next(RULES, st, call, o).reply, Crud.Load(RULES, st, o).list;
      && (Refuses(call, o.verdicts) <==> reply.Failed? && reply.error.Invalid?)
      && (!Refuses(call, o.verdicts) && list.Ok? ==>
            && (reply == Failed(Exists) <==> call.Create? && Holds(list.value, NameIn(call)))
            && (reply == Failed(NotFound) <==> !call.Create? && !Holds(list.value, NameIn(call))))
  {
    hide Persist, Crud.Load, Find, Holds, Acceptable, Shows, Trim;
    var l := Crud.Load(RULES, st, o);
    LoadErrors(RULES, st, o);
    BlankIff(NameIn(call));
    if l.list.Ok? {
      HoldsIff(l.list.value, NameIn(call));
    }
    match call
    case Create(c) =>
      AcceptedIff(c, o.verdicts);
      if l.list.Ok? {
        PersistErrors(RULES, l.state, Added(RULES.normalize(c)), o);
      }
    case Update(c) =>
      AcceptedIff(c, o.verdicts);
      if l.list.Ok? && Find(l.list.value, RULES.key, RULES.key(c)) != -1 {
        PersistErrors(RULES, l.state, Replaced(Find(l.list.value, RULES.key, RULES.key(c)), RULES.normalize(c)), o);
      }
    case Delete(name) =>
      if l.list.Ok? && Find(l.list.value, RULES.key, RULES.trim(name)) != -1 {
        PersistErrors(RULES, l.state, Removed(Find(l.list.value, RULES.key, RULES.trim(name))), o);
      }
    case Get(_) =>
  }
  /** As long as there is no client and none can be made: deletions and starts are turned away whatever their arguments, new
      and changed configurations exactly if they are acceptable, lookups never. */
  lemma NoClientMeans(st: State<Configuration>, call: Call<Configuration>, o: Outcomes)
    requires !st.client && !o.client.Connected?
    ensures
      Next(RULES, st, call, o).reply == Failed(NoClient) <==>
      match call
      case Create(c) => Acceptable(c, o.verdicts)
      case Update(c) => Acceptable(c, o.verdicts)
      case Get(_) => false
      case List => false
      case _ => true
  {
    hide CreateLocked, UpdateLocked, DeleteLocked, Crud.Load, Persist, Find, Acceptable, SortBy;
    LoadErrors(RULES, st, o);
    if call.Create? || call.Update? {
      AcceptedIff(call.c, o.verdicts);
    }
  }
}
