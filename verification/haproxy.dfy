/** The service with the real rules: managed configurations in the managed block of an HAProxy file. */
module Haproxy {
  import opened Text
  import opened Sorting
  import opened Keyed
  import opened Types
  import opened StanzaRenderer
  import opened Scan
  import opened Entries
  import opened BlockFormat
  import opened ManagedBlock
  import opened BlockLaws
  import opened Crud
  import opened CrudLaws
  import opened CrudRuns
  import Connecting
  import FilePath
  import Linear
  import LinearLaws

  const RULES: Rules<Configuration> :=
    Rules(ValidationErrorOf, Key, NameOf, Trim, Normalize, NeedsCertificateFile, EnsurePath, Canon, NormalizeName, Merge,
          ManagedBlock.Load)

  /** Entries that can be rendered, and whose stanzas cannot be taken for markers or entries. */
  predicate Good(c: Configuration) {
    Renderable(c) && Harmless(c)
  }

  predicate Closed(file: string) {
    !Dangling(file, Mark)
  }

  // ----- The rules are lawful -----

  lemma AllGoodCanon(xs: seq<Configuration>)
    requires All(xs, Good)
    ensures All(Canon(xs), Good)
  {
    hide Canon, Harmless;
    AllGood(xs);
    AllGood(Canon(xs));
    RenderableCanon(xs);
    HarmlessCanon(xs);
  }

  lemma AllGood(xs: seq<Configuration>)
    ensures All(xs, Good) <==> AllRenderable(xs) && All(xs, Harmless)
  {
    hide Renderable, Harmless;
  }

  lemma NormalizedKey(c: Configuration)
    ensures Key(NormalizeName(c)) == Key(c) && NormalizeName(NormalizeName(c)) == NormalizeName(c)
  {
    TrimIdempotent(c.name);
  }

  lemma CanonKeys(xs: seq<Configuration>)
    ensures |Canon(xs)| == |xs| && Canon(Canon(xs)) == Canon(xs)
    ensures DistinctKeys(xs, Key) ==> DistinctKeys(Canon(xs), Key)
  {
    var ns, cs := NormalizeNames(xs), Canon(xs);
    SortKeepsElements(ns, NameOf);
    forall i | 0 <= i < |cs| ensures NormalizeName(cs[i]) == cs[i] {
      assert cs[i] in ns;
      var j :| 0 <= j < |ns| && ns[j] == cs[i];
      NormalizedKey(xs[j]);
    }
    assert NormalizeNames(cs) == cs;
    SortSorts(ns, NameOf);
    SortOfSorted(cs, NameOf);
    assert KeysOf(ns, NameOf) == KeysOf(xs, Key);
    assert KeysOf(cs, NameOf) == KeysOf(NormalizeNames(cs), NameOf) == KeysOf(cs, Key);
    if DistinctKeys(xs, Key) {
      SortDistinct(ns, NameOf);
    }
  }

  /** The canonical list stands for the map with every name trimmed. */
  lemma WrittenIsLawful()
    ensures WrittenLaw(RULES)
  {
    forall xs: seq<Configuration> | DistinctKeys(xs, Key)
      ensures ToMap(Canon(xs), Key) == Written(RULES, ToMap(xs, Key))
    {
      CanonKeys(xs);
      CanonElements(xs);
      NormalizeNamesMap(xs);
      NormalizedKeysDistinct(xs);
      SameElementsSameMap(Canon(xs), NormalizeNames(xs), Key);
    }
  }

  lemma NormalizedKeysDistinct(xs: seq<Configuration>)
    requires DistinctKeys(xs, Key)
    ensures DistinctKeys(NormalizeNames(xs), Key)
  {
    hide Key, NormalizeName;
    var ns := NormalizeNames(xs);
    forall i | 0 <= i < |xs| ensures Key(ns[i]) == Key(xs[i]) {
      NormalizedKey(xs[i]);
    }
    assert KeysOf(ns, Key) == KeysOf(xs, Key);
  }

  lemma {:induction false} NormalizeNamesMap(xs: seq<Configuration>)
    ensures ToMap(NormalizeNames(xs), Key) == map k | k in ToMap(xs, Key) :: NormalizeName(ToMap(xs, Key)[k])
  {
    hide Key, NormalizeName;
    if xs != [] {
      var front, last := xs[..|xs| - 1], xs[|xs| - 1];
      NormalizeNamesMap(front);
      NormalizedKey(last);
      assert NormalizeNames(xs)[..|xs| - 1] == NormalizeNames(front);
    }
  }

  lemma FileIsLawful(file: string, xs: seq<Configuration>)
    requires Closed(file) && All(xs, Good)
    ensures Merge(file, xs).Some? && Closed(Merge(file, xs).value)
    ensures ManagedBlock.Load(Merge(file, xs).value) == Some(Canon(xs))
  {
    hide Merge, ManagedBlock.Load, Canon, Harmless, Good;
    AllGood(xs);
    MergeCloses(file, xs);
    HarmlessRoundTripIff(file, xs);
  }

  lemma RulesAreLawful()
    ensures LawfulRules(RULES, Good, Closed)
  {
    forall file, xs | Closed(file) && All(xs, Good)
      ensures RULES.merge(file, xs).Some? && Closed(RULES.merge(file, xs).value)
      ensures RULES.load(RULES.merge(file, xs).value) == Some(RULES.canon(xs))
    {
      FileIsLawful(file, xs);
    }
    CanonIsLawful();
    WrittenIsLawful();
    EntriesAreLawful();
  }

  lemma CanonIsLawful()
    ensures CanonLaw(RULES, Good)
  {
    forall xs: seq<Configuration>
      ensures |Canon(xs)| == |xs| && Canon(Canon(xs)) == Canon(xs)
      ensures All(xs, Good) ==> All(Canon(xs), Good)
      ensures DistinctKeys(xs, Key) ==> DistinctKeys(Canon(xs), Key)
    {
      CanonKeys(xs);
      if All(xs, Good) {
        AllGoodCanon(xs);
      }
    }
  }

  lemma EntriesAreLawful()
    ensures forall c {:trigger RULES.needsFile(c)} :: Good(c) ==> !RULES.needsFile(c)
    ensures forall c, dir {:trigger RULES.withFile(c, dir)} :: RULES.key(RULES.withFile(c, dir)) == RULES.key(c)
    ensures forall c {:trigger RULES.normalize(c)} :: RULES.key(RULES.normalize(c)) == RULES.key(c)
    ensures forall c {:trigger RULES.name(c)} :: RULES.trim(RULES.name(c)) == RULES.key(c)
  {
    forall c: Configuration ensures Key(Normalize(c)) == Key(c) {
      TrimIdempotent(c.name);
    }
  }

  // ----- Requests -----

  /** The request becomes an entry whose stanzas cannot be taken for markers or entries. */
  predicate SafeRequest(c: Configuration, dir: string) {
    Harmless(Stored(RULES, c, dir))
  }

  lemma AcceptedIsRenderable(c: Configuration, v: Verdicts, dir: string)
    requires ValidConfiguration(c, v)
    ensures Renderable(Stored(RULES, c, dir))
  {
    hide ValidConfiguration, Renderable;
    NormalizeKeepsValid(c, v);
    ValidBecomesRenderable(Normalize(c), v, dir);
    assert Stored(RULES, c, dir) == EnsurePath(Normalize(c), dir);
  }

  /** The accepted requests that are found again and read back, in any file without a dangling BEGIN line, are exactly the
      safe ones. */
  lemma SafeRequestIff(base: string, c: Configuration, v: Verdicts, dir: string)
    requires ValidConfiguration(c, v) && Closed(base)
    ensures
      var cs := [Stored(RULES, c, dir)];
      && Merge(base, cs).Some?
      && (Framed(base, cs) && ManagedBlock.Load(Merge(base, cs).value) == Some(Canon(cs)) <==> SafeRequest(c, dir))
  {
    hide ValidConfiguration, Renderable, Merge, ManagedBlock.Load, Canon, Harmless, Framed, Stored;
    AcceptedIsRenderable(c, v, dir);
    var cs := [Stored(RULES, c, dir)];
    assert cs[0] == Stored(RULES, c, dir);
    HarmlessRoundTripIff(base, cs);
  }

  /** The certificate path an accepted request is stored with. */
  function CertificatePath(c: Configuration, dir: string): string
    requires TlsEnabled(c)
  {
    if NeedsCertificateFile(c) then CertificateFile(dir, Key(c)) else c.tls.value.certificatePath
  }

  /** No line break in the texts of a request that reach the file: enough for it to be safe. */
  predicate PlainRequest(c: Configuration, dir: string) {
    && Free(c.frontendName, '\n') && Free(c.backendName, '\n') && Free(Trim(c.frontendBindAddress), '\n')
    && (forall b :: b in c.backends ==> PlainTarget(b))
    && (TlsEnabled(c) ==> Free(Trim(CertificatePath(c, dir)), '\n'))
  }

  /** Names and directories without line breaks make certificate paths without line breaks. */
  lemma FileNameIsFree(dir: string, name: string)
    requires Free(dir, '\n') && Free(name, '\n')
    ensures Free(Trim(CertificateFile(dir, name)), '\n')
  {
    LowerKeepsFree(ReplaceSpaces(name));
    FilePath.JoinPathFree(dir, Lower(ReplaceSpaces(name)) + ".pem", '\n');
    TrimKeepsFree(CertificateFile(dir, name), '\n');
  }

  lemma WordsAreFree(c: Configuration, v: Verdicts)
    requires ValidConfiguration(c, v)
    ensures Free(NormalizeWord(c.trafficMode), '\n') && Free(NormalizeWord(c.loadBalancing), '\n')
  {
    hide Free, NormalizeWord;
    KnownWordsAreFree();
  }

  lemma KnownWordsAreFree()
    ensures forall s :: s in {"http", "tcp", "roundrobin", "leastconn", "source"} ==> Free(s, '\n')
  {
    assert Free("http", '\n') && Free("tcp", '\n');
    assert Free("roundrobin", '\n') && Free("leastconn", '\n') && Free("source", '\n');
  }

  /** Plain requests become plain entries, and those are safe. */
  lemma PlainRequestIsSafe(c: Configuration, v: Verdicts, dir: string)
    requires ValidConfiguration(c, v)
    ensures Plain(Stored(RULES, c, dir)) <==> PlainRequest(c, dir)
    ensures PlainRequest(c, dir) ==> SafeRequest(c, dir)
  {
    hide ValidConfiguration, NormalizeWord, Harmless;
    var n := Normalize(c);
    NormalizeKeepsValid(c, v);
    ValidBecomesRenderable(n, v, dir);
    WordsAreFree(n, v);
    assert Stored(RULES, c, dir) == EnsurePath(n, dir);
    assert TlsEnabled(c) ==> EnsurePath(n, dir).tls.value.certificatePath == CertificatePath(c, dir);
    if PlainRequest(c, dir) {
      PlainIsHarmless(Stored(RULES, c, dir));
    }
  }

  /** A Create or Update that is accepted carries a safe request. */
  predicate SafeEvent(e: Event<Configuration>, dir: string) {
    match e.call
    case Create(c) => ValidationErrorOf(c, e.o.verdicts) == None ==> SafeRequest(c, dir)
    case Update(c) => ValidationErrorOf(c, e.o.verdicts) == None ==> SafeRequest(c, dir)
    case _ => true
  }

  predicate SafeEvents(events: seq<Event<Configuration>>, dir: string) {
    forall i :: 0 <= i < |events| ==> SafeEvent(events[i], dir)
  }

  lemma SafeEventIsGood(e: Event<Configuration>, dir: string)
    requires SafeEvent(e, dir)
    ensures GoodCall(RULES, Good, dir, e.call, e.o.verdicts)
  {
    hide Harmless, Renderable, Stored, ValidConfiguration;
    match e.call
    case Create(c) => if ValidationErrorOf(c, e.o.verdicts) == None { AcceptedIsRenderable(c, e.o.verdicts, dir); }
    case Update(c) => if ValidationErrorOf(c, e.o.verdicts) == None { AcceptedIsRenderable(c, e.o.verdicts, dir); }
    case _ =>
  }

  lemma SafeEventsAreGood(events: seq<Event<Configuration>>, dir: string)
    requires SafeEvents(events, dir)
    ensures GoodEvents(RULES, Good, dir, events)
  {
    hide SafeEvent, GoodCall;
    forall i | 0 <= i < |events| ensures GoodCall(RULES, Good, dir, events[i].call, events[i].o.verdicts) {
      SafeEventIsGood(events[i], dir);
    }
  }

  // ----- The main theorems for the real rules -----

  /** The service is up, its store and its file are well formed, and they agree unless dirty. */
  ghost predicate Healthy(st: State<Configuration>, dirty: bool) {
    Inv(RULES, Good, Closed, st, dirty)
  }

  /** A file the service can start from: no dangling BEGIN line, readable entries with distinct trimmed names that can be
      rendered to harmless stanzas. */
  predicate WellFormedFile(file: string) {
    && Closed(file) && ManagedBlock.Load(file).Some?
    && All(ManagedBlock.Load(file).value, Good) && DistinctKeys(ManagedBlock.Load(file).value, Key)
  }

  /** Store and file agree after every run, whatever fails on the way. */
  lemma ServiceKeepsAgreement(st: State<Configuration>, dirty: bool, events: seq<Event<Configuration>>)
    requires Healthy(st, dirty) && SafeEvents(events, st.certificatesDir)
    ensures Healthy(Final(RULES, st, events), DirtyAtEnd(RULES, st, dirty, events))
  {
    RulesAreLawful();
    SafeEventsAreGood(events, st.certificatesDir);
    RunKeepsAgreement(RULES, Good, Closed, st, dirty, events);
  }

  /** Every run of the service, whatever fails, failed reloads included, is a run of a map from trimmed names to
      configurations beside the map in the file: replies and final maps are determined by the calls and their faults. */
  lemma ServiceRefinesMap(st: State<Configuration>, dirty: bool, events: seq<Event<Configuration>>)
    requires Healthy(st, dirty) && SafeEvents(events, st.certificatesDir)
    ensures
      var v, dir, after := ViewOf(RULES, st), st.certificatesDir, Final(RULES, st, events);
      && Conforms(RULES, dir, v, events, Replies(RULES, st, events))
      && Healthy(after, DirtyAtEnd(RULES, st, dirty, events))
      && ViewOf(RULES, after) == ViewAtEnd(RULES, dir, v, events)
  {
    hide Conforms, ViewAtEnd, Final, Replies, DirtyAtEnd;
    SafeEventsAreGood(events, st.certificatesDir);
    GoodRun(st, dirty, events);
  }

  lemma GoodRun(st: State<Configuration>, dirty: bool, events: seq<Event<Configuration>>)
    requires Healthy(st, dirty) && GoodEvents(RULES, Good, st.certificatesDir, events)
    ensures
      var v, dir, after := ViewOf(RULES, st), st.certificatesDir, Final(RULES, st, events);
      && Conforms(RULES, dir, v, events, Replies(RULES, st, events))
      && Healthy(after, DirtyAtEnd(RULES, st, dirty, events))
      && ViewOf(RULES, after) == ViewAtEnd(RULES, dir, v, events)
  {
    hide Conforms, ViewAtEnd, Final, Replies, DirtyAtEnd, GoodEvents;
    RulesAreLawful();
    RunKeepsAgreement(RULES, Good, Closed, st, dirty, events);
    RunRefinesMap(RULES, Good, Closed, st, dirty, events);
  }

  /** One call with any faults: see CrudLaws.ViewAfter and CrudLaws.FaultOf for its exact effect and answer. */
  lemma ServiceStep(st: State<Configuration>, dirty: bool, call: Call<Configuration>, o: Outcomes)
    requires Healthy(st, dirty) && SafeEvent(Event(call, o), st.certificatesDir)
    ensures StepOk(RULES, Good, Closed, st, dirty, call, o, Next(RULES, st, call, o))
  {
    hide StepOk, Next;
    RulesAreLawful();
    SafeEventIsGood(Event(call, o), st.certificatesDir);
    EveryStepOk(RULES, Good, Closed, st, dirty, call, o);
  }

  /** The text in front of the managed block and behind it is the same after every run. */
  lemma ServiceKeepsOutside(st: State<Configuration>, dirty: bool, events: seq<Event<Configuration>>)
    requires Healthy(st, dirty) && SafeEvents(events, st.certificatesDir)
    ensures
      var file := Final(RULES, st, events).file;
      Before(file, Mark) == Before(st.file, Mark) && After(file, Mark) == After(st.file, Mark)
  {
    hide Final, Before, After;
    RulesAreLawful();
    SafeEventsAreGood(events, st.certificatesDir);
    OutsideIsKept();
    RunKeeps(RULES, Good, Closed, Front, st, dirty, events);
    RunKeeps(RULES, Good, Closed, Back, st, dirty, events);
  }

  function Front(file: string): seq<string> {
    Before(file, Mark)
  }

  function Back(file: string): seq<string> {
    After(file, Mark)
  }

  lemma OutsideIsKept()
    ensures Kept(RULES, Good, Closed, Front) && Kept(RULES, Good, Closed, Back)
  {
    forall file, xs | Closed(file) && All(xs, Good)
      ensures var merged := Merge(file, xs);
              merged.Some? && Front(merged.value) == Front(file) && Back(merged.value) == Back(file)
    {
      AllGood(xs);
      HarmlessList(xs);
      MergeSucceedsIff(file, xs);
      OutsideStays(file, xs);
    }
  }

  // ----- Before there is a client -----

  /** What the service may find when the program comes up: a file it can start from, and a store of good entries or none. */
  predicate WellFormed(st: State<Configuration>) {
    WellFormedFile(st.file) && All(st.store, Good) && DistinctKeys(st.store, Key) && (st.client ==> st.configured)
  }

  /** An empty file, for instance. */
  lemma EmptyFileIsWellFormed(st: State<Configuration>)
    requires st.file == "" && st.store == [] && (st.client ==> st.configured)
    ensures WellFormed(st)
  {
    EmptyIsClosed();
    MarkersAreTrimmed();
    assert Lines("") == [""];
    assert ManagedBlock.Load("") == Some([]);
  }

  /** Every run from there, whatever there is of a client at first and whatever fails: a call that needs the client is turned
      away as long as there is none, and the others are a run of the map, in which lookups cannot read the file until it is
      known. All replies and the final maps are determined by the calls and their faults. */
  lemma ServiceComesUp(st: State<Configuration>, events: seq<Event<Configuration>>)
    requires WellFormed(st) && SafeEvents(events, st.certificatesDir)
    ensures
      var link, dir, first, after := Connecting.LinkOf(st), st.certificatesDir, Connecting.Online(st), Final(RULES, st, events);
      var admitted, last := Connecting.Admitted(RULES, link, events), Connecting.Online(after);
      var inner := Replies(RULES, first, admitted);
      && Healthy(first, st.store != []) && Replies(RULES, st, events) == Connecting.Woven(RULES, link, events, inner)
      && Conforms(RULES, dir, ViewOf(RULES, first), admitted, inner)
      && Healthy(last, DirtyAtEnd(RULES, first, st.store != [], admitted))
      && ViewOf(RULES, last) == ViewAtEnd(RULES, dir, ViewOf(RULES, first), admitted)
      && Connecting.LinkOf(after) == Connecting.LinkAtEnd(RULES, link, events)
  {
    hide *;
    var link, dir, first := Connecting.LinkOf(st), st.certificatesDir, Connecting.Online(st);
    var admitted := Connecting.Admitted(RULES, link, events);
    ComesUpHealthy(st);
    SafeEventsAreGood(events, dir);
    Connecting.AdmittedGood(RULES, Good, dir, link, events);
    Connecting.RunOnline(RULES, st, events);
    GoodRun(first, st.store != [], admitted);
  }

  lemma ComesUpHealthy(st: State<Configuration>)
    requires WellFormed(st)
    ensures Healthy(Connecting.Online(st), st.store != []) && (st.client ==> st.configured)
    ensures Connecting.Online(st).certificatesDir == st.certificatesDir
  {
    hide Good, ManagedBlock.Load, Closed;
  }

  // ----- Exact rollback -----

  /** Exact rollback, from any state: a write that failed leaves the file; unless it got as far as saving, it leaves the
      store if and only if no stored entry got its certificate file on the way through a TLS object it shares. */
  lemma ServiceFailureLeaves(st: State<Configuration>, change: Change<Configuration>, o: Outcomes, persistStore: bool)
    requires Applies(st.store, change)
    ensures
      var p := Persist(RULES, st, change, o, persistStore);
      && (p.error.Some? ==> p.state.file == st.file)
      && (p.error == Some(ReloadFailed) && persistStore ==> p.state.store == p.list)
      && (p.error.Some? && (p.error != Some(ReloadFailed) || !persistStore) ==>
            (p.state.store == st.store <==>
             st.backend.Redis? ||
             forall i :: 0 <= i < |st.store| ==> !Touched(RULES, st.store, change, o.certificates, i)))
  {
    hide Persist, Touched;
    FilesChangeEntries(st.certificatesDir);
    FailureLeaves(RULES, st, change, o, persistStore);
  }

  lemma FilesChangeEntries(dir: string)
    ensures forall c :: RULES.needsFile(c) ==> RULES.withFile(c, dir) != c
  {
    forall c: Configuration | NeedsCertificateFile(c) ensures EnsurePath(c, dir) != c {
      EnsurePathChanges(c, dir);
    }
  }

  /** A file with one entry and no stanzas, as someone may have written it by hand. */
  function FileWith(d: Configuration): string {
    Splice("", BlockText([d], [], FORMAT), Mark)
  }

  lemma FileWithHolds(d: Configuration)
    ensures ManagedBlock.Load(FileWith(d)) == Some([d])
  {
    FormatIsLawful();
    RoundTripIff("", [d], [], FORMAT);
    assert SplitEach([], '\n') == [];
    EmptyIsClosed();
    NothingDangles("");
  }

  lemma EmptyIsClosed()
    ensures Closed("")
  {
    MarkersAreTrimmed();
    assert Lines("") == [""];
  }

  /** Rollback does fail: take any entry d with a PEM pair, alone in the file, an unseeded in-memory store, and a request
      under another name. If its file cannot be read when it is to be written, the request fails before anything is
      written, and yet the store holds d with a certificate path. */
  lemma FailureShowsInStore(st: State<Configuration>, c: Configuration, d: Configuration, o: Outcomes)
    requires st.backend.Memory? && st.store == [] && st.configured && st.client && st.file == FileWith(d)
    requires ValidConfiguration(c, o.verdicts) && NeedsCertificateFile(d) && Key(d) != Key(c)
    requires o.list && o.seedRead && o.seedSave && o.certificates >= 2 && !o.read
    ensures
      var s := Next(RULES, st, Create(c), o);
      && s.reply == Failed(ReadFailed) && s.state == st.(store := [EnsurePath(d, st.certificatesDir)])
      && Crud.Load(RULES, st, o).state.store == [d] && EnsurePath(d, st.certificatesDir) != d
  {
    hide ManagedBlock.Load, FileWith, EnsurePath, NextCreate, Crud.Load, ValidConfiguration;
    FileWithHolds(d);
    EnsurePathChanges(d, st.certificatesDir);
    NameIsVisible(c, o.verdicts);
    FailureShows(RULES, st, c, d, o);
  }

  lemma NameIsVisible(c: Configuration, v: Verdicts)
    requires ValidConfiguration(c, v)
    ensures Key(c) != "" && ValidationErrorOf(c, v) == None
  {
  }

  /** After losing the in-memory store, the file gives the same configurations back. */
  lemma ServiceRecovers(st: State<Configuration>, o: Outcomes)
    requires Healthy(st, false)
    ensures
      var l := Crud.Load(RULES, st.(store := []), o);
      st.store != [] && o.list && o.seedRead && o.seedSave ==>
        l.list.Ok? && Canon(l.list.value) == Canon(st.store) && Healthy(l.state, false)
  {
    if st.store != [] && o.list && o.seedRead && o.seedSave {
      RulesAreLawful();
      RestartRecovers(RULES, Good, Closed, st, o);
      LoadGood(RULES, Good, Closed, st.(store := []), false, o);
    }
  }

  /** Starting from a durable store: the file ends up with exactly the stored list, the store is left alone, and every
      line of the file outside the managed block is kept. */
  lemma ServiceStartsFromStore(st: State<Configuration>, o: Outcomes)
    requires st.store != [] && All(st.store, Good) && DistinctKeys(st.store, Key) && (st.client ==> st.configured)
    ensures
      var s := Next(RULES, st, Start, o);
      Closed(st.file) && s.reply == Done ==>
        && s.state.store == st.store && ManagedBlock.Load(s.state.file) == Some(Canon(st.store))
        && Healthy(s.state, false) && Some(s.state.file) == Merge(st.file, st.store)
        && Before(s.state.file, Mark) == Before(st.file, Mark) && After(s.state.file, Mark) == After(st.file, Mark)
  {
    if Closed(st.file) && Next(RULES, st, Start, o).reply == Done {
      RulesAreLawful();
      StartupSync(RULES, Good, Closed, st, o);
      AllGood(st.store);
      HarmlessList(st.store);
      OutsideStays(st.file, st.store);
    }
  }

  /** Starting with an empty store changes nothing; the file is read when the first call needs it. */
  lemma ServiceStartsFromFile(st: State<Configuration>, o: Outcomes)
    requires st.store == [] && (st.client ==> st.configured)
    ensures
      var s := Next(RULES, st, Start, o);
      WellFormedFile(st.file) && s.reply == Done ==>
        s.state.store == [] && s.state.file == st.file && Healthy(s.state, false)
  {
    if WellFormedFile(st.file) && Next(RULES, st, Start, o).reply == Done {
      StartupEmpty(RULES, Good, Closed, st, o);
    }
  }

  // ----- Interleavings -----

  /** In every interleaving of calls, whatever fails, the service is at any moment where its map from trimmed names to
      configurations is after the calls one by one in an order without repetition; every call that has returned gave the
      map's answer at a place in that order that lies between its invocation and its return; and store and file agree. */
  lemma ServiceIsLinearizable(st: State<Configuration>, dirty: bool, threads: nat, turns: seq<Linear.Turn<Configuration>>)
    requires Healthy(st, dirty) && st.client
    requires forall k :: 0 <= k < |turns| ==> SafeEvent(turns[k].event, st.certificatesDir)
    ensures
      var m, v, dir := Linear.After(RULES, st, threads, turns), ViewOf(RULES, st), st.certificatesDir;
      var events := Linear.Events(RULES, st, threads, turns);
      && Linear.AllExplained(m, Replies(RULES, st, events)) && Conforms(RULES, dir, v, events, Replies(RULES, st, events))
      && Healthy(m.state, DirtyAtEnd(RULES, st, dirty, events))
      && ViewOf(RULES, m.state) == ViewAtEnd(RULES, dir, v, events)
  {
    hide *;
    var dir, events := st.certificatesDir, Linear.Events(RULES, st, threads, turns);
    LinearLaws.CallsAreTurns(RULES, st, threads, turns, (e: Event<Configuration>) => SafeEvent(e, dir));
    SafeThroughout(events, dir);
    ServiceRefinesMap(st, dirty, events);
    LinearLaws.Linearizable(RULES, st, threads, turns);
  }

  lemma SafeThroughout(events: seq<Event<Configuration>>, dir: string)
    requires All(events, (e: Event<Configuration>) => SafeEvent(e, dir))
    ensures SafeEvents(events, dir)
  {
    hide SafeEvent;
  }
}
