/** The configuration service as a state machine over values: one step per call, with every failure point.
    What a configuration is, and how a list of them gets into a file and out again, is left to the rules. */
module Crud {
  import opened Text
  import opened Sorting
  import opened Keyed
  import opened Types

  /** The part of package haproxycfg the service uses. */
  datatype Rules<!C> = Rules(
    validate: (C, Verdicts) -> Option<ValidationError>,
    key: C -> string,
    name: C -> string,
    trim: string -> string,
    normalize: C -> C,
    needsFile: C -> bool,
    withFile: (C, string) -> C,
    canon: seq<C> -> seq<C>,
    written: C -> C,
    merge: (string, seq<C>) -> Option<string>,
    load: string -> Option<seq<C>>)

  /** The in-memory store hands out the stored TLS objects themselves; Redis hands out decoded copies. */
  datatype Backend = Memory | Redis

  /** running is the text of the configuration file that HAProxy has loaded last. */
  datatype State<C> = State(
    backend: Backend,
    store: seq<C>,
    file: string,
    running: string,
    certificatesDir: string,
    configured: bool,
    client: bool)

  datatype ClientOutcome = Unavailable | NoDirectory | Connected

  /** What the outside world does during one call. A reload that is reported to have failed may have taken effect all the
      same (took); rollback tells whether the reload behind it does. */
  datatype Outcomes = Outcomes(
    verdicts: Verdicts,
    client: ClientOutcome,
    list: bool,
    seedRead: bool,
    seedSave: bool,
    certificates: nat,
    read: bool,
    stat: bool,
    write: bool,
    save: bool,
    reload: bool,
    took: bool,
    rollback: bool)

  datatype Error =
    | Invalid(cause: ValidationError)
    | Exists
    | NotFound
    | NoClient
    | ListFailed
    | SeedReadFailed
    | Undecodable
    | SeedFailed
    | CertificateFailed
    | ReadFailed
    | NotRenderable
    | StatFailed
    | WriteFailed
    | SaveFailed
    | ReloadFailed

  datatype Result<+T> = Ok(value: T) | Err(error: Error)

  datatype Reply<+C> = Failed(error: Error) | Done | One(c: C) | Many(cs: seq<C>)

  datatype Step<C> = Step(state: State<C>, reply: Reply<C>)

  // ----- getOrCreateClient -----

  /** The configuration file is known from the first attempt on that gets as far as creating the directory. */
  function AfterClient<C>(st: State<C>, o: Outcomes): State<C> {
    if st.client then st
    else
      match o.client
      case Unavailable => st
      case NoDirectory => st.(configured := true)
      case Connected => st.(configured := true, client := true)
  }

  // ----- loadConfigurationsLocked -----

  datatype Loaded<C> = Loaded(state: State<C>, list: Result<seq<C>>)

  function Load<C>(r: Rules<C>, st: State<C>, o: Outcomes): (l: Loaded<C>)
    ensures l.list.Ok? ==> l.state.store == l.list.value
    ensures l.list.Err? ==> l.list.error != ReloadFailed
  {
    if !o.list then Loaded(st, Err(ListFailed))
    else if st.store != [] then Loaded(st, Ok(st.store))
    else if !st.configured || !o.seedRead then Loaded(st, Err(SeedReadFailed))
    else
      match r.load(st.file)
      case None => Loaded(st, Err(Undecodable))
      case Some(xs) =>
        if xs == [] then Loaded(st, Ok([]))
        else if !o.seedSave then Loaded(st, Err(SeedFailed))
        else Loaded(st.(store := xs), Ok(xs))
  }

  // ----- persistAndReloadLockedWithStorePolicy -----

  datatype Ensured<C> = Ensured(list: seq<C>, ok: bool)

  /** EnsureCertificatePath along the list; the given number of certificate files can be written before one fails. */
  function EnsureAll<C>(r: Rules<C>, xs: seq<C>, dir: string, files: nat): (e: Ensured<C>)
    ensures |e.list| == |xs|
  {
    if xs == [] then Ensured([], true)
    else if !r.needsFile(xs[0]) then
      var rest := EnsureAll(r, xs[1..], dir, files);
      Ensured([xs[0]] + rest.list, rest.ok)
    else if files == 0 then Ensured(xs, false)
    else
      var rest := EnsureAll(r, xs[1..], dir, files - 1);
      Ensured([r.withFile(xs[0], dir)] + rest.list, rest.ok)
  }

  /** How a call changes the loaded list. */
  datatype Change<C> = Added(c: C) | Replaced(i: nat, c: C) | Removed(i: nat) | Unchanged

  predicate Applies<C>(xs: seq<C>, change: Change<C>) {
    (change.Replaced? ==> change.i < |xs|) && (change.Removed? ==> change.i < |xs|)
  }

  function Apply<C>(xs: seq<C>, change: Change<C>): seq<C>
    requires Applies(xs, change)
  {
    match change
    case Added(c) => xs + [c]
    case Replaced(i, c) => xs[i := c]
    case Removed(i) => xs[..i] + xs[i + 1..]
    case Unchanged => xs
  }

  /** The stored list after the certificate paths of the changed list ys were set through shared TLS objects. */
  function Reflect<C>(backend: Backend, xs: seq<C>, change: Change<C>, ys: seq<C>): (zs: seq<C>)
    requires Applies(xs, change) && |ys| == |Apply(xs, change)|
    ensures |zs| == |xs| && (backend.Redis? ==> zs == xs)
  {
    if backend.Redis? then xs
    else
      match change
      case Added(c) => ys[..|xs|]
      case Replaced(i, c) => ys[i := xs[i]]
      case Removed(i) => ys[..i] + [xs[i]] + ys[i..]
      case Unchanged => ys
  }

  datatype Persisted<C> = Persisted(state: State<C>, list: seq<C>, error: Option<Error>)

  function Persist<C>(r: Rules<C>, st: State<C>, change: Change<C>, o: Outcomes, persistStore: bool): (p: Persisted<C>)
    requires Applies(st.store, change)
    ensures |p.list| == |Apply(st.store, change)| && p.state.certificatesDir == st.certificatesDir
    ensures p.error == Some(ReloadFailed) ==> !o.reload
  {
    var e := EnsureAll(r, Apply(st.store, change), st.certificatesDir, o.certificates);
    var st1 := st.(store := Reflect(st.backend, st.store, change, e.list));
    if !e.ok then Persisted(st1, e.list, Some(CertificateFailed)) else Write(r, st1, e.list, o, persistStore)
  }

  /** Writing the list into the file and the store and reloading. */
  function Write<C>(r: Rules<C>, st: State<C>, list: seq<C>, o: Outcomes, persistStore: bool): (p: Persisted<C>)
    ensures p.list == list && p.state.certificatesDir == st.certificatesDir
    ensures p.error == Some(ReloadFailed) ==> !o.reload
  {
    if !st.configured || !o.read then Persisted(st, list, Some(ReadFailed))
    else
      match r.merge(st.file, list)
      case None => Persisted(st, list, Some(NotRenderable))
      case Some(updated) => Install(st, updated, list, o, persistStore)
  }

  function Install<C>(st: State<C>, updated: string, list: seq<C>, o: Outcomes, persistStore: bool): Persisted<C> {
    if !o.stat then Persisted(st, list, Some(StatFailed))
    else if !o.write then Persisted(st, list, Some(WriteFailed))
    else Commit(st.(file := updated), st.file, list, o, persistStore)
  }

  /** HAProxy loads the file, if the reload takes effect. */
  function Reload<C>(st: State<C>, effect: bool): State<C> {
    if effect then st.(running := st.file) else st
  }

  /** The stages behind the write: when one of them fails, the bytes read before are written back, and only those. Behind a
      failed reload there is another one. */
  function Commit<C>(st: State<C>, before: string, list: seq<C>, o: Outcomes, persistStore: bool): Persisted<C> {
    if persistStore && !o.save then Persisted(st.(file := before), list, Some(SaveFailed))
    else
      var saved := if persistStore then st.(store := list) else st;
      var loaded := Reload(saved, o.reload || o.took);
      if o.reload then Persisted(loaded, list, None)
      else Persisted(Reload(loaded.(file := before), o.rollback), list, Some(ReloadFailed))
  }

  // ----- Calls -----

  datatype Call<C> = Create(c: C) | Update(c: C) | Delete(name: string) | Get(name: string) | List | Start

  function Next<C(==)>(r: Rules<C>, st: State<C>, call: Call<C>, o: Outcomes): Step<C> {
    match call
    case Create(c) => NextCreate(r, st, c, o)
    case Update(c) => NextUpdate(r, st, c, o)
    case Delete(name) => NextDelete(r, st, name, o)
    case Get(name) => NextGet(r, st, name, o)
    case List => NextList(r, st, o)
    case Start => NextStart(r, st, o)
  }

  function NextCreate<C>(r: Rules<C>, st: State<C>, c: C, o: Outcomes): Step<C> {
    var invalid := r.validate(c, o.verdicts);
    var st1 := AfterClient(st, o);
    if invalid.Some? then Step(st, Failed(Invalid(invalid.value)))
    else if !st1.client then Step(st1, Failed(NoClient))
    else CreateNamed(r, st1, c, o)
  }

  function CreateNamed<C>(r: Rules<C>, st: State<C>, c: C, o: Outcomes): Step<C> {
    if r.key(c) == "" then Step(st, Failed(Invalid(InvalidKey))) else CreateLocked(r, st, c, o)
  }

  /** The part of a call that holds the lock. */
  function CreateLocked<C>(r: Rules<C>, st: State<C>, c: C, o: Outcomes): Step<C> {
    var l := Load(r, st, o);
    if l.list.Err? then Step(l.state, Failed(l.list.error))
    else if Find(l.list.value, r.key, r.key(c)) != -1 then Step(l.state, Failed(Exists))
    else
      var p := Persist(r, l.state, Added(r.normalize(c)), o, true);
      Step(p.state, if p.error.Some? then Failed(p.error.value) else One(p.list[|p.list| - 1]))
  }

  function NextUpdate<C>(r: Rules<C>, st: State<C>, c: C, o: Outcomes): Step<C> {
    var invalid := r.validate(c, o.verdicts);
    var st1 := AfterClient(st, o);
    if invalid.Some? then Step(st, Failed(Invalid(invalid.value)))
    else if !st1.client then Step(st1, Failed(NoClient))
    else UpdateLocked(r, st1, c, o)
  }

  function UpdateLocked<C>(r: Rules<C>, st: State<C>, c: C, o: Outcomes): Step<C> {
    var l := Load(r, st, o);
    if l.list.Err? then Step(l.state, Failed(l.list.error))
    else
      var i := Find(l.list.value, r.key, r.key(c));
      if i == -1 then Step(l.state, Failed(NotFound))
      else
        var p := Persist(r, l.state, Replaced(i, r.normalize(c)), o, true);
        Step(p.state, if p.error.Some? then Failed(p.error.value) else One(p.list[i]))
  }

  function NextDelete<C>(r: Rules<C>, st: State<C>, name: string, o: Outcomes): Step<C> {
    var st1 := AfterClient(st, o);
    if !st1.client then Step(st1, Failed(NoClient))
    else if r.trim(name) == "" then Step(st1, Failed(Invalid(InvalidKey)))
    else DeleteLocked(r, st1, r.trim(name), o)
  }

  function DeleteLocked<C>(r: Rules<C>, st: State<C>, key: string, o: Outcomes): Step<C> {
    var l := Load(r, st, o);
    if l.list.Err? then Step(l.state, Failed(l.list.error))
    else
      var i := Find(l.list.value, r.key, key);
      if i == -1 then Step(l.state, Failed(NotFound))
      else
        var p := Persist(r, l.state, Removed(i), o, true);
        Step(p.state, if p.error.Some? then Failed(p.error.value) else Done)
  }

  function NextGet<C>(r: Rules<C>, st: State<C>, name: string, o: Outcomes): Step<C> {
    if r.trim(name) == "" then Step(st, Failed(Invalid(InvalidKey)))
    else
      var l := Load(r, st, o);
      if l.list.Err? then Step(l.state, Failed(l.list.error))
      else
        var i := Find(l.list.value, r.key, r.trim(name));
        Step(l.state, if i == -1 then Failed(NotFound) else One(l.list.value[i]))
  }

  /** A list that cannot be loaded is shown as an empty one. */
  function NextList<C>(r: Rules<C>, st: State<C>, o: Outcomes): Step<C> {
    var l := Load(r, st, o);
    Step(l.state, if l.list.Err? then Many([]) else Many(SortBy(l.list.value, r.name)))
  }

  /** onStart: connect, then write the stored list into the file; an empty store is left alone. */
  function NextStart<C>(r: Rules<C>, st: State<C>, o: Outcomes): Step<C> {
    var st1 := AfterClient(st, o);
    if !st1.client then Step(st1, Failed(NoClient))
    else if !o.list then Step(st1, Failed(ListFailed))
    else if st1.store == [] then Step(st1, Done)
    else
      var p := Persist(r, st1, Unchanged, o, false);
      Step(p.state, if p.error.Some? then Failed(p.error.value) else Done)
  }
}
