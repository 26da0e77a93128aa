/** The configuration service with its fields and its in-memory store; every method is proved to be a step of the
    state machine, and to keep stored objects apart from those of its callers. */
module Service {
  import opened Text
  import opened Sorting
  import opened Keyed
  import opened Types
  import opened Heap
  import opened Crud
  import opened CrudLaws
  import opened Haproxy
  import opened Certificates
  import ManagedBlock

  // ----- The in-memory store -----

  /** The in-memory store. The service calls it through an interface whose calls may fail; ok tells whether this one does
      not. Inside one process they never do. */
  class InMemoryStore {
    var configurations: seq<Record>

    constructor ()
      ensures configurations == []
    {
      configurations := [];
    }

    /** A copy of the list; the entries share their TLS objects with the stored ones. */
    method List(ok: bool) returns (result: Option<seq<Record>>)
      ensures result == if ok then Some(configurations) else None
    {
      result := if ok then Some(configurations) else None;
    }

    method Save(cs: seq<Record>, ok: bool) returns (saved: bool)
      modifies this
      ensures saved == ok && configurations == if ok then cs else old(configurations)
    {
      if ok {
        configurations := cs;
      }
      saved := ok;
    }
  }

  // ----- Changed lists on the heap -----

  function ValueOfChange(change: Change<Record>): Change<Configuration>
    reads set c, o | c in NewEntry(change) && o in Objects(c) :: o
  {
    match change
    case Added(c) => Added(ValueOf(c))
    case Replaced(i, c) => Replaced(i, ValueOf(c))
    case Removed(i) => Removed(i)
    case Unchanged => Unchanged
  }

  ghost function NewEntry(change: Change<Record>): seq<Record> {
    if change.Added? || change.Replaced? then [change.c] else []
  }

  /** The entry brought in shares nothing with a listed one. */
  ghost predicate BringsOwn(xs: seq<Record>, change: Change<Record>) {
    AllObjects(NewEntry(change)) !! AllObjects(xs)
  }

  /** A changed list holds no other objects than the list and the entry brought in. */
  lemma AppliedObjects(xs: seq<Record>, change: Change<Record>)
    requires Applies(xs, change)
    ensures AllObjects(Apply(xs, change)) <= AllObjects(xs) + AllObjects(NewEntry(change))
    ensures TlsObjects(Apply(xs, change)) <= TlsObjects(xs) + TlsObjects(NewEntry(change))
  {
    assert forall c :: c in Apply(xs, change) ==> c in xs || c in NewEntry(change);
  }

  lemma TlsIsObject(xs: seq<Record>)
    ensures TlsObjects(xs) <= AllObjects(xs)
  {
    forall t | t in TlsObjects(xs) ensures t in AllObjects(xs) {
      var c :| c in xs && c.tls == t;
      assert c.tls in Objects(c);
    }
  }

  lemma ValuesOfApplied(xs: seq<Record>, change: Change<Record>)
    requires Applies(xs, change)
    ensures Applies(Values(xs), ValueOfChange(change))
    ensures Values(Apply(xs, change)) == Apply(Values(xs), ValueOfChange(change))
  {
  }

  /** The entry brought in has a TLS object of its own. */
  lemma OwnTls(xs: seq<Record>, change: Change<Record>)
    requires BringsOwn(xs, change)
    ensures forall c, i :: c in NewEntry(change) && 0 <= i < |xs| && c.tls != null ==> xs[i].tls != c.tls
  {
    TlsIsObject(xs);
    TlsIsObject(NewEntry(change));
    assert forall i :: 0 <= i < |xs| && xs[i].tls != null ==> xs[i].tls in TlsObjects(xs);
    assert forall c :: c in NewEntry(change) && c.tls != null ==> c.tls in TlsObjects(NewEntry(change));
  }

  /** No TLS object occurs twice in the changed list, and an entry that left it shares none with it. */
  lemma AppliedTls(xs: seq<Record>, change: Change<Record>)
    requires TlsDistinct(xs) && Applies(xs, change) && BringsOwn(xs, change)
    ensures TlsDistinct(Apply(xs, change))
    ensures change.Replaced? || change.Removed? ==> TlsObject(xs[change.i]) !! TlsObjects(Apply(xs, change))
  {
    hide BringsOwn;
    OwnTls(xs, change);
    match change
    case Added(c) =>
    case Replaced(i, c) =>
    case Removed(i) =>
    case Unchanged =>
  }

  /** What the stored list shows after only TLS objects of the changed list were touched. */
  lemma ReflectedValues(xs: seq<Record>, change: Change<Record>, was: seq<Configuration>, wasChange: Change<Configuration>)
    requires Applies(xs, change) && SameShape(change, wasChange) && |was| == |xs|
    requires change.Replaced? || change.Removed? ==> ValueOf(xs[change.i]) == was[change.i]
    ensures Applies(was, wasChange) && |Apply(was, wasChange)| == |Apply(xs, change)|
    ensures Reflect(Memory, was, wasChange, Values(Apply(xs, change))) == Values(xs)
  {
    var vs := Values(Apply(xs, change));
    match change
    case Added(_) => assert vs[..|xs|] == Values(xs);
    case Replaced(i, _) => assert vs[i := was[i]] == Values(xs);
    case Removed(i) => assert vs[..i] + [was[i]] + vs[i..] == Values(xs);
    case Unchanged =>
  }

  function FromFile<C>(r: Rules<C>, st: State<C>, read: bool): Result<seq<C>> {
    if !st.configured || !read then Err(SeedReadFailed)
    else
      match r.load(st.file)
      case None => Err(Undecodable)
      case Some(xs) => Ok(xs)
  }

  lemma LoadStages<C>(r: Rules<C>, st: State<C>, o: Outcomes)
    ensures Crud.Load(r, st, o) ==
            if !o.list then Loaded(st, Err(ListFailed))
            else if st.store != [] then Loaded(st, Ok(st.store))
            else
              var fromFile := FromFile(r, st, o.seedRead);
              if fromFile.Err? || fromFile.value == [] then Loaded(st, fromFile)
              else if !o.seedSave then Loaded(st, Err(SeedFailed))
              else Loaded(st.(store := fromFile.value), fromFile)
  {
  }

  lemma PersistStages<C>(r: Rules<C>, st: State<C>, change: Change<C>, o: Outcomes, persistStore: bool, e: Ensured<C>,
                         st1: State<C>)
    requires Applies(st.store, change) && e == EnsureAll(r, Apply(st.store, change), st.certificatesDir, o.certificates)
    requires st1 == st.(store := Reflect(st.backend, st.store, change, e.list))
    ensures Crud.Persist(r, st, change, o, persistStore) ==
            if e.ok then Crud.Write(r, st1, e.list, o, persistStore) else Persisted(st1, e.list, Some(CertificateFailed))
  {
  }

  /** Persisting a new last entry, or one in place of the entry at index. */
  function PutStep<C>(r: Rules<C>, st: State<C>, index: int, c: C, o: Outcomes): Step<C>
    requires -1 <= index < |st.store|
  {
    var p := Crud.Persist(r, st, if index == -1 then Added(c) else Replaced(index, c), o, true);
    PersistStep(p, One(p.list[if index == -1 then |p.list| - 1 else index]))
  }

  // ----- The service -----

  function ListValues(list: Result<seq<Record>>): Result<seq<Configuration>>
    reads if list.Ok? then AllObjects(list.value) else {}
  {
    match list
    case Ok(cs) => Ok(Values(cs))
    case Err(e) => Err(e)
  }

  function ReplyOf(result: Result<Record>): Reply<Configuration>
    reads if result.Ok? then Objects(result.value) else {}
  {
    match result
    case Ok(c) => One(ValueOf(c))
    case Err(e) => Failed(e)
  }

  /** The service; settings is the path of the HAProxy file that the settings name, file is what that file holds, and running
      what HAProxy has loaded of it. */
  class HaproxyService {
    const store: InMemoryStore
    const settings: string
    var client: bool
    var configurationFile: string
    var certificatesDir: string
    var file: string
    var running: string

    constructor (store: InMemoryStore, settings: string, file: string, running: string)
      requires settings != "" && TlsDistinct(store.configurations)
      ensures Valid() && this.store == store && this.settings == settings && this.file == file && this.running == running
      ensures !client && configurationFile == "" && certificatesDir == ""
    {
      this.store, this.settings, this.file, this.running := store, settings, file, running;
      client, configurationFile, certificatesDir := false, "", "";
    }

    /** The state of the state machine the objects stand for. */
    ghost function Model(): State<Configuration>
      reads this, store, AllObjects(store.configurations)
    {
      State(Memory, Values(store.configurations), file, running, CertificatesDirectory(settings), configurationFile != "", client)
    }

    /** The objects with contents of their own reachable from the store. */
    ghost function Owned(): set<object>
      reads this, store
    {
      AllObjects(store.configurations)
    }

    /** Both paths are set before the client is, and they are those of the settings. */
    ghost predicate Valid()
      reads this, store
    {
      && TlsDistinct(store.configurations) && settings != "" && (client ==> configurationFile != "")
      && (configurationFile != "" ==> configurationFile == settings && certificatesDir == CertificatesDirectory(settings))
    }

    /** Neither the service nor its store is reachable from configurations. */
    lemma Apart(cs: seq<Record>)
      ensures this !in AllObjects(cs) && store !in AllObjects(cs)
    {
    }

    lemma Unreached(c: Record)
      ensures this !in Objects(c) && store !in Objects(c)
    {
    }

    method GetOrCreateClient(o: Outcomes) returns (ok: bool)
      requires Valid()
      modifies `client, `configurationFile, `certificatesDir
      ensures Valid() && Model() == AfterClient(old(Model()), o) && Owned() == old(Owned()) && ok == client
    {
      hide CertificatesDirectory;
      if client {
        return true;
      }
      if o.client.Unavailable? {
        return false;
      }
      configurationFile := settings;
      certificatesDir := CertificatesDirectory(configurationFile);
      if o.client.NoDirectory? {
        return false;
      }
      client := true;
      return true;
    }

    method LoadConfigurations(o: Outcomes) returns (list: Result<seq<Record>>)
      requires Valid()
      modifies store
      ensures Valid() && (fresh(Owned()) || store.configurations == old(store.configurations))
      ensures list.Ok? ==> list.value == store.configurations
      ensures Loaded(Model(), ListValues(list)) == Crud.Load(RULES, old(Model()), o)
    {
      hide RULES, Crud.Load, FromFile, Values, CertificatesDirectory;
      LoadStages(RULES, Model(), o);
      var configurations := store.List(o.list);
      assert Model() == old(Model());
      if configurations.None? {
        return Err(ListFailed);
      }
      if |configurations.value| > 0 {
        return Ok(configurations.value);
      }
      list := SeedFromFile(o);
    }

    /** The part of loading that an empty store needs. */
    method SeedFromFile(o: Outcomes) returns (list: Result<seq<Record>>)
      requires Valid() && store.configurations == [] && o.list
      modifies store
      ensures Valid() && (fresh(Owned()) || store.configurations == old(store.configurations))
      ensures list.Ok? ==> list.value == store.configurations
      ensures Loaded(Model(), ListValues(list)) == Crud.Load(RULES, old(Model()), o)
    {
      hide RULES, Crud.Load, FromFile, Values, CertificatesDirectory;
      LoadStages(RULES, Model(), o);
      assert Values([]) == [];
      var fileConfigurations := LoadConfigurationsFromFile(o.seedRead);
      if fileConfigurations.Err? {
        return fileConfigurations;
      }
      if |fileConfigurations.value| == 0 {
        return Ok([]);
      }
      var saved := SaveConfigurations(fileConfigurations.value, o.seedSave);
      if !saved {
        return Err(SeedFailed);
      }
      return fileConfigurations;
    }

    method SaveConfigurations(cs: seq<Record>, ok: bool) returns (saved: bool)
      modifies store
      ensures saved == ok && Values(cs) == old(Values(cs))
      ensures store.configurations == if ok then cs else old(store.configurations)
      ensures Model() == if ok then old(Model()).(store := Values(cs)) else old(Model())
    {
      hide CertificatesDirectory;
      Apart(cs);
      saved := store.Save(cs, ok);
    }

    method LoadConfigurationsFromFile(read: bool) returns (list: Result<seq<Record>>)
      ensures list.Ok? ==> fresh(AllObjects(list.value)) && TlsDistinct(list.value)
      ensures ListValues(list) == FromFile(RULES, Model(), read)
    {
      hide RULES, ManagedBlock.Load, CertificatesDirectory;
      RulesLoad(file);
      if configurationFile == "" || !read {
        return Err(SeedReadFailed);
      }
      var loaded := ManagedBlock.LoadConfigurations(file);
      if loaded.None? {
        return Err(Undecodable);
      }
      var configurations := AllocateAll(loaded.value);
      return Ok(configurations);
    }

    method PersistAndReload(cs: seq<Record>, ghost change: Change<Record>, o: Outcomes, persistStore: bool)
      returns (error: Option<Error>)
      requires Valid() && client
      requires Applies(store.configurations, change) && BringsOwn(store.configurations, change)
      requires cs == Apply(store.configurations, change)
      modifies `file, `running, store, TlsObjects(store.configurations), TlsObjects(NewEntry(change))
      ensures Valid() && Owned() <= old(Owned()) + AllObjects(NewEntry(change))
      ensures store.configurations == if persistStore && (error.None? || error == Some(ReloadFailed)) then cs
                                      else old(store.configurations)
      ensures Persisted(Model(), Values(cs), error) ==
              Crud.Persist(RULES, old(Model()), old(ValueOfChange(change)), o, persistStore)
    {
      hide RULES, EnsureAll, Reflect, Crud.Persist, Crud.Write, Values, CertificatesDirectory;
      ghost var xs := store.configurations;
      AppliedTls(xs, change);
      AppliedObjects(xs, change);
      ValuesOfApplied(xs, change);
      ghost var was, wasChange := Values(xs), ValueOfChange(change);
      var ok := EnsureCertificatePaths(cs, certificatesDir, o.certificates);
      ReflectedValues(xs, change, was, wasChange);
      PersistStages(RULES, old(Model()), wasChange, o, persistStore, Ensured(Values(cs), ok), Model());
      if !ok {
        return Some(CertificateFailed);
      }
      error := WriteAndReload(cs, o, persistStore);
    }

    method WriteAndReload(cs: seq<Record>, o: Outcomes, persistStore: bool) returns (error: Option<Error>)
      requires Valid() && client && TlsDistinct(cs)
      modifies `file, `running, store
      ensures Valid()
      ensures store.configurations == if persistStore && (error.None? || error == Some(ReloadFailed)) then cs
                                      else old(store.configurations)
      ensures Persisted(Model(), Values(cs), error) ==
              Crud.Write(RULES, old(Model()), old(Values(cs)), o, persistStore)
    {
      hide RULES, ManagedBlock.Merge, Crud.Install, Values, ValueOf, CertificatesDirectory, TlsDistinct;
      Apart(cs);
      Apart(store.configurations);
      if !o.read {
        return Some(ReadFailed);
      }
      var before := file;
      RulesMerge(before, Values(cs));
      var updated := ManagedBlock.MergeManagedBlock(before, Values(cs));
      if updated.None? {
        return Some(NotRenderable);
      }
      error := Install(cs, updated.value, o, persistStore);
    }

    method Install(cs: seq<Record>, updated: string, o: Outcomes, persistStore: bool) returns (error: Option<Error>)
      requires Valid() && client && TlsDistinct(cs)
      modifies `file, `running, store
      ensures Valid()
      ensures store.configurations == if persistStore && (error.None? || error == Some(ReloadFailed)) then cs
                                      else old(store.configurations)
      ensures Persisted(Model(), old(Values(cs)), error) ==
              Crud.Install(old(Model()), updated, old(Values(cs)), o, persistStore)
      ensures error != Some(NotRenderable) && Values(cs) == old(Values(cs))
    {
      hide Crud.Commit, Values, ValueOf, CertificatesDirectory, TlsDistinct, AllObjects;
      Apart(cs);
      if !o.stat {
        return Some(StatFailed);
      }
      if !o.write {
        return Some(WriteFailed);
      }
      error := SaveAndReload(cs, updated, o, persistStore);
    }

    /** When saving or reloading fails, the file is put back, and the store is not; behind a failed reload there is another. */
    method SaveAndReload(cs: seq<Record>, updated: string, o: Outcomes, persistStore: bool) returns (error: Option<Error>)
      modifies `file, `running, store
      ensures store.configurations == if persistStore && error != Some(SaveFailed) then cs else old(store.configurations)
      ensures Persisted(Model(), old(Values(cs)), error) ==
              Commit(old(Model()).(file := updated), old(file), old(Values(cs)), o, persistStore)
      ensures Values(cs) == old(Values(cs))
      ensures error.None? || error == Some(SaveFailed) || error == Some(ReloadFailed)
    {
      hide Values, ValueOf, CertificatesDirectory, AllObjects;
      var before := file;
      WriteFile(updated, cs);
      if persistStore {
        var saved := SaveConfigurations(cs, o.save);
        if !saved {
          WriteFile(before, cs);
          return Some(SaveFailed);
        }
      }
      Reload(o.reload || o.took, cs);
      if !o.reload {
        WriteFile(before, cs);
        Reload(o.rollback, cs);
        return Some(ReloadFailed);
      }
      return None;
    }

    /** HAProxy loads the file, if the reload takes effect. */
    method Reload(effect: bool, ghost cs: seq<Record>)
      modifies `running
      ensures Model() == Crud.Reload(old(Model()), effect) && Values(cs) == old(Values(cs))
    {
      hide CertificatesDirectory;
      Apart(cs);
      if effect {
        running := file;
      }
    }

    /** Writing the file; no configuration changes. */
    method WriteFile(text: string, ghost cs: seq<Record>)
      modifies `file
      ensures file == text && Model() == old(Model()).(file := text) && Values(cs) == old(Values(cs))
    {
      hide CertificatesDirectory;
      Apart(cs);
      file := text;
    }

    // ----- Calls -----

    method Validate(c: Record, v: Verdicts) returns (error: Option<ValidationError>)
      ensures error == ValidationErrorOf(old(ValueOf(c)), v)
      ensures Model() == old(Model()) && Owned() == old(Owned()) && ValueOf(c) == old(ValueOf(c))
    {
      hide ValidationErrorOf, ValidConfiguration;
      error := ValidateConfiguration(ValueOf(c), v);
    }

    /** The search loops of the calls: the first configuration with the key, or -1. */
    method IndexOf(cs: seq<Record>, key: string) returns (index: int)
      ensures Model() == old(Model()) && Owned() == old(Owned())
      ensures index == Find(old(Values(cs)), RULES.key, key)
    {
      RulesKeys(Values(cs));
      index := -1;
      for i := 0 to |cs|
        invariant index == -1 && forall j :: 0 <= j < i ==> Trim(cs[j].name) != key
      {
        if Trim(cs[i].name) == key {
          index := i;
          break;
        }
      }
      FirstFound(Values(cs), RULES.key, key, index);
    }

    /** What every call does under the lock first: load the list and search it. */
    method Locate(key: string, o: Outcomes) returns (list: Result<seq<Record>>, index: int)
      requires Valid()
      modifies store
      ensures Valid() && (fresh(Owned()) || store.configurations == old(store.configurations))
      ensures Loaded(Model(), ListValues(list)) == Crud.Load(RULES, old(Model()), o)
      ensures list.Ok? ==> list.value == store.configurations && index == Find(Values(list.value), RULES.key, key)
    {
      hide RULES, Crud.Load, Find, Values, AllObjects, CertificatesDirectory;
      index := -1;
      list := LoadConfigurations(o);
      if list.Ok? {
        index := IndexOf(list.value, key);
      }
    }

    /** A copy to hand out or to store: it shares nothing with the store. */
    method OwnCopy(c: Record) returns (copy: Record)
      ensures ValueOf(copy) == old(ValueOf(c)) && fresh(Objects(copy)) && Objects(copy) !! Owned()
      ensures copy == c.(backends := copy.backends, tls := copy.tls)
      ensures Model() == old(Model()) && Owned() == old(Owned())
    {
      ghost var present := Owned();
      copy := Clone(c);
      assert present !! Objects(copy);
    }

    method NormalizedCopy(c: Record, key: string) returns (stored: Record)
      requires key == Trim(c.name)
      ensures ValueOf(stored) == old(Normalize(ValueOf(c))) && fresh(Objects(stored)) && Objects(stored) !! Owned()
      ensures Model() == old(Model()) && Owned() == old(Owned())
    {
      stored := OwnCopy(c);
      stored := stored.(name := key, loadBalancing := NormalizeWord(stored.loadBalancing),
                        trafficMode := NormalizeWord(stored.trafficMode));
    }

    /** Storing a normalised copy of c, behind the list or in place of the entry at index. */
    method Put(c: Record, key: string, index: int, o: Outcomes) returns (result: Result<Record>)
      requires Valid() && client && key == Trim(c.name) && -1 <= index < |store.configurations|
      modifies `file, `running, store, TlsObjects(store.configurations)
      ensures Valid() && fresh(Owned() - old(Owned()))
      ensures result.Ok? ==> fresh(Objects(result.value)) && Objects(result.value) !! Owned()
      ensures Step(Model(), ReplyOf(result)) == PutStep(RULES, old(Model()), index, old(Normalize(ValueOf(c))), o)
    {
      hide RULES, Crud.Persist, Values, ValueOf, Normalize, AllObjects, CertificatesDirectory, Reflect, Model, TlsDistinct;
      var configurations := store.configurations;
      var stored := NormalizedCopy(c, key);
      ghost var change := if index == -1 then Added(stored) else Replaced(index, stored);
      ObjectsOfOne(stored);
      configurations := if index == -1 then configurations + [stored] else configurations[index := stored];
      var error := PersistAndReload(configurations, change, o, true);
      if error.Some? {
        return Err(error.value);
      }
      var copy := OwnCopy(stored);
      return Ok(copy);
    }

    method CreateConfiguration(c: Record, o: Outcomes) returns (result: Result<Record>)
      requires Valid()
      modifies this, store, TlsObjects(store.configurations)
      ensures Valid() && fresh(Owned() - old(Owned()))
      ensures result.Ok? ==> fresh(Objects(result.value)) && Objects(result.value) !! Owned()
      ensures Step(Model(), ReplyOf(result)) == NextCreate(RULES, old(Model()), old(ValueOf(c)), o)
    {
      hide RULES, AfterClient, Crud.CreateNamed, Values, ValueOf, ValidationErrorOf, AllObjects, CertificatesDirectory;
      RulesOf(ValueOf(c), o.verdicts);
      Unreached(c);
      var invalid := Validate(c, o.verdicts);
      if invalid.Some? {
        return Err(Invalid(invalid.value));
      }
      var connected := GetOrCreateClient(o);
      if !connected {
        return Err(NoClient);
      }
      ghost var present := Owned();
      result := CreateNamed(c, o);
      forall x | x in Owned() && x !in present ensures fresh(x) {
        assert x in Owned() - present && !old(allocated(x));
      }
    }

    method CreateNamed(c: Record, o: Outcomes) returns (result: Result<Record>)
      requires Valid() && client
      modifies `file, `running, store, TlsObjects(store.configurations)
      ensures Valid() && fresh(Owned() - old(Owned()))
      ensures result.Ok? ==> fresh(Objects(result.value)) && Objects(result.value) !! Owned()
      ensures Step(Model(), ReplyOf(result)) == Crud.CreateNamed(RULES, old(Model()), old(ValueOf(c)), o)
    {
      hide RULES, Crud.CreateLocked, Values, ValueOf, ValidationErrorOf, AllObjects, CertificatesDirectory, Model;
      RulesOf(ValueOf(c), o.verdicts);
      var key := Trim(c.name);
      if key == "" {
        return Err(Invalid(InvalidKey));
      }
      result := CreateLocked(c, key, o);
    }

    method CreateLocked(c: Record, key: string, o: Outcomes) returns (result: Result<Record>)
      requires Valid() && client && key == Trim(c.name)
      modifies `file, `running, store, TlsObjects(store.configurations)
      ensures Valid() && fresh(Owned() - old(Owned()))
      ensures result.Ok? ==> fresh(Objects(result.value)) && Objects(result.value) !! Owned()
      ensures Step(Model(), ReplyOf(result)) == Crud.CreateLocked(RULES, old(Model()), old(ValueOf(c)), o)
    {
      hide RULES, Crud.Load, Crud.Persist, Find, Values, ValueOf, Normalize, ValidationErrorOf, AllObjects,
           CertificatesDirectory, Model;
      RulesOf(ValueOf(c), o.verdicts);
      Unreached(c);
      var loaded, index := Locate(key, o);
      assert ValueOf(c) == old(ValueOf(c));
      TlsIsObject(store.configurations);
      ghost var present := Owned();
      if loaded.Err? {
        return Err(loaded.error);
      }
      if index != -1 {
        return Err(Exists);
      }
      result := Put(c, key, index, o);
      forall x | x in Owned() && x !in present ensures fresh(x) {
        assert x in Owned() - present && !old(allocated(x));
      }
    }

    method UpdateConfiguration(c: Record, o: Outcomes) returns (result: Result<Record>)
      requires Valid()
      modifies this, store, TlsObjects(store.configurations)
      ensures Valid() && fresh(Owned() - old(Owned()))
      ensures result.Ok? ==> fresh(Objects(result.value)) && Objects(result.value) !! Owned()
      ensures Step(Model(), ReplyOf(result)) == NextUpdate(RULES, old(Model()), old(ValueOf(c)), o)
    {
      hide RULES, AfterClient, Crud.UpdateLocked, Values, ValueOf, ValidationErrorOf, AllObjects, CertificatesDirectory;
      RulesOf(ValueOf(c), o.verdicts);
      Unreached(c);
      var invalid := Validate(c, o.verdicts);
      if invalid.Some? {
        return Err(Invalid(invalid.value));
      }
      var connected := GetOrCreateClient(o);
      if !connected {
        return Err(NoClient);
      }
      ghost var present := Owned();
      result := UpdateLocked(c, Trim(c.name), o);
      forall x | x in Owned() && x !in present ensures fresh(x) {
        assert x in Owned() - present && !old(allocated(x));
      }
    }

    method UpdateLocked(c: Record, key: string, o: Outcomes) returns (result: Result<Record>)
      requires Valid() && client && key == Trim(c.name)
      modifies `file, `running, store, TlsObjects(store.configurations)
      ensures Valid() && fresh(Owned() - old(Owned()))
      ensures result.Ok? ==> fresh(Objects(result.value)) && Objects(result.value) !! Owned()
      ensures Step(Model(), ReplyOf(result)) == Crud.UpdateLocked(RULES, old(Model()), old(ValueOf(c)), o)
    {
      hide RULES, Crud.Load, Crud.Persist, Find, Values, ValueOf, Normalize, ValidationErrorOf, AllObjects,
           CertificatesDirectory, Model;
      RulesOf(ValueOf(c), o.verdicts);
      Unreached(c);
      var loaded, index := Locate(key, o);
      assert ValueOf(c) == old(ValueOf(c));
      TlsIsObject(store.configurations);
      ghost var present := Owned();
      if loaded.Err? {
        return Err(loaded.error);
      }
      if index == -1 {
        return Err(NotFound);
      }
      result := Put(c, key, index, o);
      forall x | x in Owned() && x !in present ensures fresh(x) {
        assert x in Owned() - present && !old(allocated(x));
      }
    }

    method DeleteConfiguration(name: string, o: Outcomes) returns (error: Option<Error>)
      requires Valid()
      modifies this, store, TlsObjects(store.configurations)
      ensures Valid() && fresh(Owned() - old(Owned()))
      ensures Step(Model(), ReplyOfError(error)) == NextDelete(RULES, old(Model()), name, o)
    {
      hide RULES, AfterClient, Crud.DeleteLocked, Values, AllObjects, CertificatesDirectory;
      RulesTrim(name);
      var connected := GetOrCreateClient(o);
      if !connected {
        return Some(NoClient);
      }
      var key := Trim(name);
      if key == "" {
        return Some(Invalid(InvalidKey));
      }
      ghost var present := Owned();
      error := DeleteLocked(key, o);
      forall x | x in Owned() && x !in present ensures fresh(x) {
        assert x in Owned() - present && !old(allocated(x));
      }
    }

    method DeleteLocked(key: string, o: Outcomes) returns (error: Option<Error>)
      requires Valid() && client
      modifies `file, `running, store, TlsObjects(store.configurations)
      ensures Valid() && fresh(Owned() - old(Owned()))
      ensures Step(Model(), ReplyOfError(error)) == Crud.DeleteLocked(RULES, old(Model()), key, o)
    {
      hide RULES, Crud.Load, Crud.Persist, Find, Values, AllObjects, CertificatesDirectory, Model;
      var loaded, index := Locate(key, o);
      TlsIsObject(store.configurations);
      if loaded.Err? {
        return Some(loaded.error);
      }
      if index == -1 {
        return Some(NotFound);
      }
      var configurations := loaded.value;
      configurations := configurations[..index] + configurations[index + 1..];
      NoObjects();
      error := PersistAndReload(configurations, Removed(index), o, true);
    }

    method GetConfiguration(name: string, o: Outcomes) returns (result: Result<Record>)
      requires Valid()
      modifies store
      ensures Valid() && fresh(Owned() - old(Owned()))
      ensures result.Ok? ==> fresh(Objects(result.value)) && Objects(result.value) !! Owned()
      ensures Step(Model(), ReplyOf(result)) == NextGet(RULES, old(Model()), name, o)
    {
      hide RULES, Crud.Load, Find, Values, ValueOf, AllObjects, CertificatesDirectory, Model;
      RulesTrim(name);
      var key := Trim(name);
      if key == "" {
        return Err(Invalid(InvalidKey));
      }
      var loaded, index := Locate(key, o);
      if loaded.Err? {
        return Err(loaded.error);
      }
      if index == -1 {
        return Err(NotFound);
      }
      var copy := OwnCopy(loaded.value[index]);
      return Ok(copy);
    }

    /** A list that cannot be loaded is shown as an empty one. */
    method ListConfigurations(o: Outcomes) returns (result: seq<Record>)
      requires Valid()
      modifies store
      ensures Valid() && fresh(Owned() - old(Owned()))
      ensures fresh(AllObjects(result)) && AllObjects(result) !! Owned()
      ensures Step(Model(), Many(Values(result))) == NextList(RULES, old(Model()), o)
    {
      hide RULES, Crud.Load, SortBy, Values, AllObjects, CertificatesDirectory, Model;
      var loaded := LoadConfigurations(o);
      NoObjects();
      if loaded.Err? {
        return [];
      }
      RulesName();
      result := Shown(loaded.value);
    }

    method Shown(cs: seq<Record>) returns (result: seq<Record>)
      ensures Values(result) == SortBy(old(Values(cs)), NameOf)
      ensures fresh(AllObjects(result)) && AllObjects(result) !! Owned()
      ensures Model() == old(Model()) && Owned() == old(Owned())
    {
      hide SortBy, Values;
      ghost var present := Owned();
      result := SortedCopies(cs);
      assert present !! AllObjects(result);
    }

    /** onStart: connect, then write the stored list into the file. */
    method Start(o: Outcomes) returns (error: Option<Error>)
      requires Valid()
      modifies this, store, TlsObjects(store.configurations)
      ensures Valid() && fresh(Owned() - old(Owned()))
      ensures Step(Model(), ReplyOfError(error)) == NextStart(RULES, old(Model()), o)
    {
      hide RULES, Crud.Persist, Values, AllObjects, CertificatesDirectory;
      var connected := GetOrCreateClient(o);
      if !connected {
        return Some(NoClient);
      }
      var configurations := store.List(o.list);
      assert Model() == AfterClient(old(Model()), o);
      if configurations.None? {
        return Some(ListFailed);
      }
      if |configurations.value| == 0 {
        return None;
      }
      NoObjects();
      error := PersistAndReload(configurations.value, Unchanged, o, false);
    }
  }

  lemma NoObjects()
    ensures AllObjects([]) == {} && TlsObjects([]) == {}
  {
  }

  function ReplyOfError(error: Option<Error>): Reply<Configuration> {
    if error.Some? then Failed(error.value) else Done
  }
}
