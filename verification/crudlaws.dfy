/** Laws of the configuration service that hold for all lawful rules. */
module CrudLaws {
  import opened Text
  import opened Sorting
  import opened Keyed
  import opened Types
  import opened Crud

  /** What the service needs to know about configurations and files.
      good: a stored entry can be rendered, and rendering it cannot disturb the block.
      closed: the file has no BEGIN line without an END line. */
  ghost predicate LawfulRules<C(!new)>(r: Rules<C>, good: C -> bool, closed: string -> bool) {
    && FileLaw(r, good, closed)
    && CanonLaw(r, good)
    && WrittenLaw(r)
    && (forall c {:trigger r.needsFile(c)} :: good(c) ==> !r.needsFile(c))
    && (forall c, dir {:trigger r.withFile(c, dir)} :: r.key(r.withFile(c, dir)) == r.key(c))
    && (forall c {:trigger r.normalize(c)} :: r.key(r.normalize(c)) == r.key(c))
    && (forall c {:trigger r.name(c)} :: r.trim(r.name(c)) == r.key(c))
  }

  /** Merging a good list succeeds, and the merged file holds exactly that list in canonical form. */
  ghost predicate FileLaw<C(!new)>(r: Rules<C>, good: C -> bool, closed: string -> bool) {
    forall file, xs {:trigger r.merge(file, xs)} :: closed(file) && All(xs, good) ==>
      r.merge(file, xs).Some? && closed(r.merge(file, xs).value) && r.load(r.merge(file, xs).value) == Some(r.canon(xs))
  }

  ghost predicate CanonLaw<C(!new)>(r: Rules<C>, good: C -> bool) {
    forall xs {:trigger r.canon(xs)} :: |r.canon(xs)| == |xs| && r.canon(r.canon(xs)) == r.canon(xs)
      && (All(xs, good) ==> All(r.canon(xs), good))
      && (DistinctKeys(xs, r.key) ==> DistinctKeys(r.canon(xs), r.key))
  }

  /** The map of what a file holds, given the map of what was written into it. */
  function Written<C>(r: Rules<C>, m: map<string, C>): map<string, C> {
    map k | k in m :: r.written(m[k])
  }

  /** Entry by entry, the canonical form is what is read back. */
  ghost predicate WrittenLaw<C(!new)>(r: Rules<C>) {
    forall xs {:trigger r.canon(xs)} ::
      DistinctKeys(xs, r.key) ==> ToMap(r.canon(xs), r.key) == Written(r, ToMap(xs, r.key))
  }

  // ----- Lists -----

  ghost predicate GoodList<C(!new)>(r: Rules<C>, good: C -> bool, xs: seq<C>) {
    All(xs, good) && DistinctKeys(xs, r.key)
  }

  /** The form in which an accepted configuration ends up in the store. */
  function Stored<C>(r: Rules<C>, c: C, dir: string): C {
    Finish(r, r.normalize(c), dir)
  }

  lemma {:induction false} EnsureQuiet<C>(r: Rules<C>, xs: seq<C>, dir: string, files: nat)
    requires forall i :: 0 <= i < |xs| ==> !r.needsFile(xs[i])
    ensures EnsureAll(r, xs, dir, files) == Ensured(xs, true)
  {
    if xs != [] {
      EnsureQuiet(r, xs[1..], dir, files);
      assert xs == [xs[0]] + xs[1..];
    }
  }

  /** When only one entry may need a certificate file, at most that entry changes. */
  lemma {:induction false} EnsureOne<C>(r: Rules<C>, xs: seq<C>, n: nat, dir: string, files: nat)
    requires n < |xs| && forall i :: 0 <= i < |xs| && i != n ==> !r.needsFile(xs[i])
    ensures
      EnsureAll(r, xs, dir, files) ==
      if !r.needsFile(xs[n]) then Ensured(xs, true)
      else if files == 0 then Ensured(xs, false)
      else Ensured(xs[n := r.withFile(xs[n], dir)], true)
  {
    assert xs == [xs[0]] + xs[1..];
    if n == 0 {
      if !r.needsFile(xs[0]) {
        EnsureQuiet(r, xs, dir, files);
      } else if files > 0 {
        EnsureQuiet(r, xs[1..], dir, files - 1);
      }
    } else {
      EnsureOne(r, xs[1..], n - 1, dir, files);
      if r.needsFile(xs[n]) && files > 0 {
        var y := r.withFile(xs[n], dir);
        assert [xs[0]] + xs[1..][n - 1 := y] == xs[n := y];
      }
    }
  }

  // ----- One change, persisted -----

  function Finish<C>(r: Rules<C>, c: C, dir: string): C {
    if r.needsFile(c) then r.withFile(c, dir) else c
  }

  /** The change with the certificate of its new entry in place. */
  function Finished<C>(r: Rules<C>, change: Change<C>, dir: string): Change<C> {
    match change
    case Added(c) => Added(Finish(r, c, dir))
    case Replaced(i, c) => Replaced(i, Finish(r, c, dir))
    case Removed(i) => change
    case Unchanged => change
  }

  /** The entry a change brings in, if any, needs a certificate file. */
  predicate NeedsNew<C>(r: Rules<C>, change: Change<C>) {
    (change.Added? || change.Replaced?) && r.needsFile(change.c)
  }

  /** The same change up to the entry brought in. */
  predicate SameShape<A, B>(a: Change<A>, b: Change<B>) {
    || (a.Added? && b.Added?) || (a.Replaced? && b.Replaced? && a.i == b.i)
    || (a.Removed? && b.Removed? && a.i == b.i) || (a.Unchanged? && b.Unchanged?)
  }

  /** In front of good entries, EnsureCertificatePath can only touch the new entry. */
  lemma EnsureChange<C(!new)>(r: Rules<C>, good: C -> bool, xs: seq<C>, change: Change<C>, dir: string, files: nat)
    requires (forall c {:trigger r.needsFile(c)} :: good(c) ==> !r.needsFile(c)) && All(xs, good) && Applies(xs, change)
    ensures
      var e := EnsureAll(r, Apply(xs, change), dir, files);
      && (e.ok <==> !(NeedsNew(r, change) && files == 0))
      && e.list == Apply(xs, if e.ok then Finished(r, change, dir) else change)
  {
    var ys := Apply(xs, change);
    match change
    case Added(c) =>
      EnsureOne(r, ys, |xs|, dir, files);
      var d := Finish(r, c, dir);
      assert ys[|xs| := d] == xs + [d];
    case Replaced(i, c) =>
      EnsureOne(r, ys, i, dir, files);
      var d := Finish(r, c, dir);
      assert ys[i := d] == xs[i := d];
    case Removed(i) => EnsureQuiet(r, ys, dir, files);
    case Unchanged => EnsureQuiet(r, ys, dir, files);
  }

  /** So the stored list is not touched through shared TLS objects. */
  lemma ReflectGood<C>(backend: Backend, xs: seq<C>, change: Change<C>, change': Change<C>)
    requires Applies(xs, change) && SameShape(change, change')
    ensures Reflect(backend, xs, change, Apply(xs, change')) == xs
  {
    match change
    case Added(_) =>
    case Replaced(i, _) =>
    case Removed(i) => assert xs == xs[..i] + [xs[i]] + xs[i + 1..];
    case Unchanged =>
  }

  /** What EnsureCertificatePath leaves of a good list, and what shows of it in the store: nothing. */
  lemma EnsureGood<C(!new)>(r: Rules<C>, good: C -> bool, st: State<C>, change: Change<C>, files: nat)
    requires (forall c {:trigger r.needsFile(c)} :: good(c) ==> !r.needsFile(c))
    requires All(st.store, good) && Applies(st.store, change)
    ensures
      var e := EnsureAll(r, Apply(st.store, change), st.certificatesDir, files);
      && (e.ok <==> !(NeedsNew(r, change) && files == 0))
      && (e.ok ==> e.list == Apply(st.store, Finished(r, change, st.certificatesDir)))
      && st.(store := Reflect(st.backend, st.store, change, e.list)) == st
  {
    EnsureChange(r, good, st.store, change, st.certificatesDir, files);
    ReflectGood(st.backend, st.store, change, change);
    ReflectGood(st.backend, st.store, change, Finished(r, change, st.certificatesDir));
  }

  // ----- Faults -----

  /** The first stage of persisting that fails, in the order in which they are reached. */
  function WriteFault(needsFile: bool, o: Outcomes, saves: bool): Option<Error> {
    if needsFile && o.certificates == 0 then Some(CertificateFailed)
    else if !o.read then Some(ReadFailed)
    else if !o.stat then Some(StatFailed)
    else if !o.write then Some(WriteFailed)
    else if saves && !o.save then Some(SaveFailed)
    else if !o.reload then Some(ReloadFailed)
    else None
  }

  /** The first stage of loading that fails: the file is read only for an unseeded store, and saved only if it holds entries. */
  function LoadFault(seeded: bool, nothing: bool, o: Outcomes): Option<Error> {
    if !o.list then Some(ListFailed)
    else if seeded then None
    else if !o.seedRead then Some(SeedReadFailed)
    else if !nothing && !o.seedSave then Some(SeedFailed)
    else None
  }

  /** The stages behind the certificates, when the list can be merged. */
  lemma WriteGood<C>(r: Rules<C>, st: State<C>, list: seq<C>, o: Outcomes, persistStore: bool)
    requires st.configured && r.merge(st.file, list).Some?
    ensures
      var p, updated := Write(r, st, list, o, persistStore), r.merge(st.file, list).value;
      var store := if persistStore then list else st.store;
      && p.error == WriteFault(false, o, persistStore) && p.list == list
      && (p.error == None ==> p.state == st.(file := updated, store := store, running := updated))
      && (p.error == Some(ReloadFailed) ==> p.state == st.(store := store, running := p.state.running))
      && (p.error.Some? && p.error.value != ReloadFailed ==> p.state == st)
  {
  }

  /** Persisting a change to a good list: the whole effect, case by case. */
  lemma PersistGood<C(!new)>(r: Rules<C>, good: C -> bool, closed: string -> bool, st: State<C>, change: Change<C>,
                             o: Outcomes, persistStore: bool)
    requires LawfulRules(r, good, closed) && closed(st.file) && All(st.store, good) && Applies(st.store, change)
    requires st.configured && All(Apply(st.store, Finished(r, change, st.certificatesDir)), good)
    ensures
      var p, list := Persist(r, st, change, o, persistStore), Apply(st.store, Finished(r, change, st.certificatesDir));
      && p.error == WriteFault(NeedsNew(r, change), o, persistStore)
      && (p.error == None ==> p.list == list && p.state.store == (if persistStore then list else st.store)
                              && r.merge(st.file, list) == Some(p.state.file)
                              && closed(p.state.file) && r.load(p.state.file) == Some(r.canon(list))
                              && p.state == st.(file := p.state.file, store := p.state.store, running := p.state.file))
      && (p.error == Some(ReloadFailed) ==>
            p.state == st.(store := if persistStore then list else st.store, running := p.state.running))
      && (p.error.Some? && p.error.value != ReloadFailed ==> p.state == st)
  {
    hide EnsureAll, Apply, Reflect, Finish, NeedsNew, Write, CanonLaw, WrittenLaw;
    var list := Apply(st.store, Finished(r, change, st.certificatesDir));
    EnsureGood(r, good, st, change, o.certificates);
    MergesGood(r, good, closed, st.file, list);
    WriteGood(r, st, list, o, persistStore);
  }

  lemma MergesGood<C(!new)>(r: Rules<C>, good: C -> bool, closed: string -> bool, file: string, list: seq<C>)
    requires FileLaw(r, good, closed) && closed(file) && All(list, good)
    ensures
      && r.merge(file, list).Some? && closed(r.merge(file, list).value)
      && r.load(r.merge(file, list).value) == Some(r.canon(list))
  {
  }

  // ----- The invariant -----

  /** Store and file are both well formed. They hold the same configurations, unless the store is empty (not seeded yet)
      or dirty: a reload has failed since the last successful write. */
  ghost predicate Inv<C(!new)>(r: Rules<C>, good: C -> bool, closed: string -> bool, st: State<C>, dirty: bool) {
    && st.client && st.configured && closed(st.file)
    && GoodList(r, good, st.store)
    && r.load(st.file).Some? && GoodList(r, good, r.load(st.file).value)
    && (st.store != [] && !dirty ==> r.canon(r.load(st.file).value) == r.canon(st.store))
  }

  /** The list the next load will see. */
  function Held<C>(r: Rules<C>, st: State<C>): seq<C>
    requires r.load(st.file).Some?
  {
    if st.store != [] then st.store else r.load(st.file).value
  }

  /** The map the service stands for. */
  function Abs<C>(r: Rules<C>, st: State<C>): map<string, C>
    requires r.load(st.file).Some?
  {
    ToMap(Held(r, st), r.key)
  }

  /** The service as its callers see it: the map it stands for, the map in the file, and whether the store holds the former. */
  datatype View<C> = View(held: map<string, C>, inFile: map<string, C>, seeded: bool)

  function ViewOf<C>(r: Rules<C>, st: State<C>): View<C>
    requires r.load(st.file).Some?
  {
    View(Abs(r, st), ToMap(r.load(st.file).value, r.key), st.store != [])
  }

  /** Loading seeds an empty store from the file and otherwise changes nothing; it fails exactly by its own faults. */
  lemma LoadGood<C(!new)>(r: Rules<C>, good: C -> bool, closed: string -> bool, st: State<C>, dirty: bool, o: Outcomes)
    requires Inv(r, good, closed, st, dirty)
    ensures
      var l, fault := Load(r, st, o), LoadFault(st.store != [], Held(r, st) == [], o);
      && (l.list.Ok? <==> fault == None)
      && (l.list.Ok? ==> l.list.value == Held(r, st) && l.state == st.(store := Held(r, st)))
      && (l.list.Err? ==> l.state == st && Some(l.list.error) == fault)
      && Inv(r, good, closed, l.state, dirty && st.store != []) && Held(r, l.state) == Held(r, st)
      && DistinctKeys(Held(r, st), r.key)
  {
  }

  ghost predicate ChangeFits<C(!new)>(r: Rules<C>, good: C -> bool, st: State<C>, change: Change<C>) {
    Applies(st.store, change) && GoodList(r, good, Apply(st.store, Finished(r, change, st.certificatesDir)))
  }

  /** A mutation of a loaded list. */
  lemma Mutation<C(!new)>(r: Rules<C>, good: C -> bool, closed: string -> bool, st: State<C>, dirty: bool,
                          change: Change<C>, o: Outcomes)
    requires LawfulRules(r, good, closed) && Inv(r, good, closed, st, dirty) && st.store == Held(r, st)
    requires ChangeFits(r, good, st, change)
    ensures
      var p, list := Persist(r, st, change, o, true), Apply(st.store, Finished(r, change, st.certificatesDir));
      && p.error == WriteFault(NeedsNew(r, change), o, true)
      && (p.error == None ==> p.list == list && Inv(r, good, closed, p.state, false) && Held(r, p.state) == list
                              && p.state.store == list && r.load(p.state.file) == Some(r.canon(list))
                              && r.merge(st.file, list) == Some(p.state.file))
      && (p.error == Some(ReloadFailed) ==>
            && Inv(r, good, closed, p.state, true) && p.state.store == list
            && Held(r, p.state) == (if list == [] then r.load(st.file).value else list))
      && (p.error.Some? && p.error.value != ReloadFailed ==> p.state == st)
      && (p.error.Some? ==> p.state.file == st.file)
  {
    var list := Apply(st.store, Finished(r, change, st.certificatesDir));
    PersistGood(r, good, closed, st, change, o, true);
    CanonGood(r, good, list);
  }

  lemma CanonGood<C(!new)>(r: Rules<C>, good: C -> bool, xs: seq<C>)
    requires CanonLaw(r, good) && GoodList(r, good, xs)
    ensures GoodList(r, good, r.canon(xs)) && r.canon(r.canon(xs)) == r.canon(xs) && (xs == [] ==> r.canon(xs) == [])
  {
  }

  // ----- The map the service implements -----

  /** What each call does to the map and what it answers; listing is specified by IsListing. */
  function Spec<C>(r: Rules<C>, dir: string, m: map<string, C>, call: Call<C>, v: Verdicts): (map<string, C>, Reply<C>) {
    match call
    case Create(c) =>
      if r.validate(c, v).Some? then (m, Failed(Invalid(r.validate(c, v).value)))
      else if r.key(c) == "" then (m, Failed(Invalid(InvalidKey)))
      else if r.key(c) in m then (m, Failed(Exists))
      else (m[r.key(c) := Stored(r, c, dir)], One(Stored(r, c, dir)))
    case Update(c) =>
      if r.validate(c, v).Some? then (m, Failed(Invalid(r.validate(c, v).value)))
      else if r.key(c) !in m then (m, Failed(NotFound))
      else (m[r.key(c) := Stored(r, c, dir)], One(Stored(r, c, dir)))
    case Delete(name) =>
      if r.trim(name) == "" then (m, Failed(Invalid(InvalidKey)))
      else if r.trim(name) !in m then (m, Failed(NotFound))
      else (m - {r.trim(name)}, Done)
    case Get(name) =>
      if r.trim(name) == "" then (m, Failed(Invalid(InvalidKey)))
      else if r.trim(name) !in m then (m, Failed(NotFound))
      else (m, One(m[r.trim(name)]))
    case List => (m, Done)
    case Start => (m, Done)
  }

  /** Accepted configurations have to become good entries. */
  ghost predicate GoodCall<C(!new)>(r: Rules<C>, good: C -> bool, dir: string, call: Call<C>, v: Verdicts) {
    match call
    case Create(c) => r.validate(c, v) == None ==> good(Stored(r, c, dir))
    case Update(c) => r.validate(c, v) == None ==> good(Stored(r, c, dir))
    case _ => true
  }

  predicate Mutates<C>(call: Call<C>) {
    call.Create? || call.Update? || call.Delete?
  }

  /** Whether the store may differ from the file after a call. */
  predicate DirtyAfter<C>(st: State<C>, dirty: bool, call: Call<C>, reply: Reply<C>) {
    if reply == Failed(ReloadFailed) && Mutates(call) then true
    else if (Mutates(call) || call.Start?) && !reply.Failed? then false
    else dirty && st.store != []
  }

  /** The call answers before it loads anything. */
  predicate Early<C>(reply: Reply<C>) {
    reply.Failed? && reply.error.Invalid?
  }

  /** The entry of the call needs a certificate file. */
  predicate BringsNeed<C>(r: Rules<C>, call: Call<C>) {
    match call
    case Create(c) => r.needsFile(r.normalize(c))
    case Update(c) => r.needsFile(r.normalize(c))
    case _ => false
  }

  /** The fault that hits the call: the first failure among the stages it gets to. */
  function FaultOf<C>(r: Rules<C>, dir: string, v: View<C>, call: Call<C>, o: Outcomes): Option<Error> {
    var reply, load := Spec(r, dir, v.held, call, o.verdicts).1, LoadFault(v.seeded, v.held == map[], o);
    if call.Start? then
      if !o.list then Some(ListFailed) else if v.seeded then WriteFault(false, o, false) else None
    else if Early(reply) then None
    else if load.Some? || !Mutates(call) || reply.Failed? then load
    else WriteFault(BringsNeed(r, call), o, true)
  }

  /** The view after a load that succeeded. */
  function Seeded<C>(v: View<C>): View<C> {
    v.(seeded := v.held != map[])
  }

  /** The view after a mutation that should have produced m'. A fault changes nothing, with one exception: a mutation whose
      reload failed is in effect all the same, unless it deleted the last configuration; then what the file holds is back. */
  function Mutated<C>(r: Rules<C>, v: View<C>, m': map<string, C>, fault: Option<Error>): View<C> {
    if fault == None then View(m', Written(r, m'), m' != map[])
    else if fault == Some(ReloadFailed) then
      if m' == map[] then View(v.inFile, v.inFile, false) else View(m', v.inFile, true)
    else Seeded(v)
  }

  /** The view after a call. */
  function ViewAfter<C>(r: Rules<C>, dir: string, v: View<C>, call: Call<C>, o: Outcomes): View<C> {
    var spec, fault := Spec(r, dir, v.held, call, o.verdicts), FaultOf(r, dir, v, call, o);
    if call.Start? then if v.seeded && fault == None then v.(inFile := Written(r, v.held)) else v
    else if Early(spec.1) || LoadFault(v.seeded, v.held == map[], o).Some? then v
    else if Mutates(call) && !spec.1.Failed? then Mutated(r, v, spec.0, fault)
    else Seeded(v)
  }

  /** The answer: that of the fault if there is one, and otherwise that of the map. A listing hit by a fault is empty. */
  ghost predicate ReplyIs<C(!new)>(r: Rules<C>, m: map<string, C>, call: Call<C>, fault: Option<Error>, expected: Reply<C>,
                                   reply: Reply<C>) {
    if fault.Some? then reply == if call.List? then Many([]) else Failed(fault.value)
    else if call.List? then reply.Many? && IsListing(m, reply.cs, r.key, r.name)
    else reply == expected
  }

  /** The file stays, or a good list has been merged into it. */
  ghost predicate FileStep<C(!new)>(r: Rules<C>, good: C -> bool, before: string, after: string) {
    after == before || exists xs :: All(xs, good) && r.merge(before, xs) == Some(after)
  }

  /** One step: the invariant is kept, view and answer are what they should be, and a call that fails leaves the file. */
  ghost predicate StepFits<C(!new)>(r: Rules<C>, good: C -> bool, closed: string -> bool, st: State<C>, dirty: bool,
                                    call: Call<C>, s: Step<C>, fault: Option<Error>, v': View<C>, expected: Reply<C>)
    requires r.load(st.file).Some?
  {
    && Inv(r, good, closed, s.state, DirtyAfter(st, dirty, call, s.reply))
    && s.state.certificatesDir == st.certificatesDir
    && ReplyIs(r, Abs(r, st), call, fault, expected, s.reply)
    && ViewOf(r, s.state) == v'
    && (s.reply.Failed? ==> s.state.file == st.file) && FileStep(r, good, st.file, s.state.file)
  }

  ghost predicate StepOk<C(!new)>(r: Rules<C>, good: C -> bool, closed: string -> bool, st: State<C>, dirty: bool,
                                  call: Call<C>, o: Outcomes, s: Step<C>)
    requires r.load(st.file).Some?
  {
    var dir, v := st.certificatesDir, ViewOf(r, st);
    StepFits(r, good, closed, st, dirty, call, s, FaultOf(r, dir, v, call, o), ViewAfter(r, dir, v, call, o),
             Spec(r, dir, v.held, call, o.verdicts).1)
  }

  lemma EmptyMap<T>(xs: seq<T>, key: T -> string)
    ensures ToMap(xs, key) == map[] <==> xs == []
  {
    if xs != [] {
      assert key(xs[|xs| - 1]) in ToMap(xs, key);
    }
  }

  /** A call that answers before it loads. */
  lemma EarlyStep<C(!new)>(r: Rules<C>, good: C -> bool, closed: string -> bool, st: State<C>, dirty: bool, call: Call<C>,
                           e: Error)
    requires Inv(r, good, closed, st, dirty) && !call.List? && e != ReloadFailed
    ensures StepFits(r, good, closed, st, dirty, call, Step(st, Failed(e)), None, ViewOf(r, st), Failed(e))
  {
    hide GoodList, ToMap, DistinctKeys;
  }

  /** A call that loads and answers without changing the list. */
  lemma LoadedStep<C(!new)>(r: Rules<C>, good: C -> bool, closed: string -> bool, st: State<C>, dirty: bool, call: Call<C>,
                            o: Outcomes, reply: Reply<C>, expected: Reply<C>)
    requires Inv(r, good, closed, st, dirty) && Load(r, st, o).list.Ok? && !call.Start?
    requires (Mutates(call) ==> reply.Failed?) && reply != Failed(ReloadFailed)
    requires ReplyIs(r, Abs(r, st), call, None, expected, reply)
    ensures
      StepFits(r, good, closed, st, dirty, call, Step(Load(r, st, o).state, reply), None, Seeded(ViewOf(r, st)), expected)
  {
    hide GoodList, ToMap, DistinctKeys, IsListing;
    LoadGood(r, good, closed, st, dirty, o);
    EmptyMap(Held(r, st), r.key);
  }

  /** A call whose load fails. */
  lemma UnloadedStep<C(!new)>(r: Rules<C>, good: C -> bool, closed: string -> bool, st: State<C>, dirty: bool, call: Call<C>,
                              o: Outcomes, expected: Reply<C>)
    requires Inv(r, good, closed, st, dirty) && Load(r, st, o).list.Err?
    ensures
      var l := Load(r, st, o);
      StepFits(r, good, closed, st, dirty, call, Step(l.state, if call.List? then Many([]) else Failed(l.list.error)),
               LoadFault(st.store != [], Abs(r, st) == map[], o), ViewOf(r, st), expected)
  {
    hide GoodList, ToMap, DistinctKeys;
    LoadGood(r, good, closed, st, dirty, o);
    EmptyMap(Held(r, st), r.key);
  }

  function PersistStep<C>(p: Persisted<C>, reply: Reply<C>): Step<C> {
    Step(p.state, if p.error.Some? then Failed(p.error.value) else reply)
  }

  /** A call that loads and persists a change. */
  lemma MutationStep<C(!new)>(r: Rules<C>, good: C -> bool, closed: string -> bool, st: State<C>, dirty: bool, call: Call<C>,
                              o: Outcomes, change: Change<C>, reply: Reply<C>)
    requires LawfulRules(r, good, closed) && Inv(r, good, closed, st, dirty) && Mutates(call) && !reply.Failed?
    requires Load(r, st, o).list.Ok? && ChangeFits(r, good, Load(r, st, o).state, change)
    ensures
      var l := Load(r, st, o);
      var list := Apply(l.list.value, Finished(r, change, st.certificatesDir));
      var p, fault := Persist(r, l.state, change, o, true), WriteFault(NeedsNew(r, change), o, true);
      && p.error == fault && (fault == None ==> p.list == list)
      && StepFits(r, good, closed, st, dirty, call, PersistStep(p, reply), fault,
                  Mutated(r, ViewOf(r, st), ToMap(list, r.key), fault), reply)
  {
    hide StepFits, Persist, GoodList, FileLaw, CanonLaw, Mutated, ToMap, DistinctKeys;
    var l := Load(r, st, o);
    var list := Apply(l.list.value, Finished(r, change, st.certificatesDir));
    LoadGood(r, good, closed, st, dirty, o);
    Mutation(r, good, closed, l.state, dirty && st.store != [], change, o);
    var p, fault := Persist(r, l.state, change, o, true), WriteFault(NeedsNew(r, change), o, true);
    WrittenList(r, good, list);
    if fault == None {
      DoneFits(r, good, closed, st, dirty, call, p.state, list, reply);
    } else if fault == Some(ReloadFailed) {
      ReloadFailedFits(r, good, closed, st, dirty, call, p.state, list, reply);
    } else {
      FaultFits(r, good, closed, st, dirty, call, p.state, fault.value, ToMap(list, r.key), reply);
    }
  }

  lemma WrittenList<C(!new)>(r: Rules<C>, good: C -> bool, list: seq<C>)
    requires WrittenLaw(r) && GoodList(r, good, list)
    ensures All(list, good) && ToMap(r.canon(list), r.key) == Written(r, ToMap(list, r.key))
  {
  }

  lemma DoneFits<C(!new)>(r: Rules<C>, good: C -> bool, closed: string -> bool, st: State<C>, dirty: bool, call: Call<C>,
                          s: State<C>, list: seq<C>, reply: Reply<C>)
    requires r.load(st.file).Some? && Mutates(call) && !reply.Failed? && s.certificatesDir == st.certificatesDir
    requires Inv(r, good, closed, s, false) && Held(r, s) == list && s.store == list && All(list, good)
    requires r.load(s.file) == Some(r.canon(list)) && r.merge(st.file, list) == Some(s.file)
    requires ToMap(r.canon(list), r.key) == Written(r, ToMap(list, r.key))
    ensures
      StepFits(r, good, closed, st, dirty, call, Step(s, reply), None,
               Mutated(r, ViewOf(r, st), ToMap(list, r.key), None), reply)
  {
    hide GoodList, ToMap, DistinctKeys, Written;
    EmptyMap(list, r.key);
  }

  lemma ReloadFailedFits<C(!new)>(r: Rules<C>, good: C -> bool, closed: string -> bool, st: State<C>, dirty: bool,
                                  call: Call<C>, s: State<C>, list: seq<C>, reply: Reply<C>)
    requires r.load(st.file).Some? && Mutates(call) && s.certificatesDir == st.certificatesDir
    requires Inv(r, good, closed, s, true) && s.file == st.file && s.store == list
    ensures
      StepFits(r, good, closed, st, dirty, call, Step(s, Failed(ReloadFailed)), Some(ReloadFailed),
               Mutated(r, ViewOf(r, st), ToMap(list, r.key), Some(ReloadFailed)), reply)
  {
    hide GoodList, ToMap, DistinctKeys;
    EmptyMap(list, r.key);
  }

  lemma FaultFits<C(!new)>(r: Rules<C>, good: C -> bool, closed: string -> bool, st: State<C>, dirty: bool,
                           call: Call<C>, s: State<C>, e: Error, m': map<string, C>, reply: Reply<C>)
    requires r.load(st.file).Some? && e != ReloadFailed && !call.List?
    requires s.certificatesDir == st.certificatesDir && s.file == st.file && s.store == Held(r, st)
    requires Inv(r, good, closed, s, dirty && st.store != []) && Held(r, s) == Held(r, st)
    ensures
      StepFits(r, good, closed, st, dirty, call, Step(s, Failed(e)), Some(e), Mutated(r, ViewOf(r, st), m', Some(e)), reply)
  {
    hide GoodList, ToMap, DistinctKeys;
    EmptyMap(Held(r, st), r.key);
  }

  // ----- Every call -----

  lemma CreateOk<C(!new)>(r: Rules<C>, good: C -> bool, closed: string -> bool, st: State<C>, dirty: bool, c: C, o: Outcomes)
    requires LawfulRules(r, good, closed) && Inv(r, good, closed, st, dirty)
    requires GoodCall(r, good, st.certificatesDir, Create(c), o.verdicts)
    ensures StepOk(r, good, closed, st, dirty, Create(c), o, NextCreate(r, st, c, o))
  {
    hide LoadFault, WriteFault, GoodList, WrittenLaw, StepFits, Persist, Load, FileLaw, CanonLaw, Find, DistinctKeys,
         ToMap, Mutated;
    LoadGood(r, good, closed, st, dirty, o);
    EmptyMap(Held(r, st), r.key);
    var l, call := Load(r, st, o), Create(c);
    var expected := Spec(r, st.certificatesDir, Abs(r, st), call, o.verdicts).1;
    if r.validate(c, o.verdicts).Some? {
      EarlyStep(r, good, closed, st, dirty, call, Invalid(r.validate(c, o.verdicts).value));
    } else if r.key(c) == "" {
      EarlyStep(r, good, closed, st, dirty, call, Invalid(InvalidKey));
    } else if l.list.Err? {
      UnloadedStep(r, good, closed, st, dirty, call, o, expected);
    } else {
      LoadedCreate(r, good, closed, st, dirty, c, o);
    }
  }

  lemma LoadedCreate<C(!new)>(r: Rules<C>, good: C -> bool, closed: string -> bool, st: State<C>, dirty: bool, c: C,
                              o: Outcomes)
    requires LawfulRules(r, good, closed) && Inv(r, good, closed, st, dirty) && Load(r, st, o).list.Ok?
    requires r.validate(c, o.verdicts) == None && r.key(c) != "" && good(Stored(r, c, st.certificatesDir))
    ensures StepOk(r, good, closed, st, dirty, Create(c), o, NextCreate(r, st, c, o))
  {
    hide LawfulRules, Inv, StepOk, Load, Find;
    if Find(Load(r, st, o).list.value, r.key, r.key(c)) != -1 {
      CreateTaken(r, good, closed, st, dirty, c, o);
    } else {
      CreateFree(r, good, closed, st, dirty, c, o);
    }
  }

  lemma CreateTaken<C(!new)>(r: Rules<C>, good: C -> bool, closed: string -> bool, st: State<C>, dirty: bool, c: C,
                             o: Outcomes)
    requires LawfulRules(r, good, closed) && Inv(r, good, closed, st, dirty) && Load(r, st, o).list.Ok?
    requires r.validate(c, o.verdicts) == None && r.key(c) != ""
    requires Find(Load(r, st, o).list.value, r.key, r.key(c)) != -1
    ensures StepOk(r, good, closed, st, dirty, Create(c), o, NextCreate(r, st, c, o))
  {
    hide LoadFault, WriteFault, GoodList, WrittenLaw, StepFits, Persist, Load, FileLaw, CanonLaw, Find, DistinctKeys,
         ToMap, Mutated;
    LoadGood(r, good, closed, st, dirty, o);
    EmptyMap(Held(r, st), r.key);
    Lookup(Load(r, st, o).list.value, r.key, r.key(c));
    LoadedStep(r, good, closed, st, dirty, Create(c), o, Failed(Exists), Failed(Exists));
  }

  lemma CreateFree<C(!new)>(r: Rules<C>, good: C -> bool, closed: string -> bool, st: State<C>, dirty: bool, c: C,
                            o: Outcomes)
    requires LawfulRules(r, good, closed) && Inv(r, good, closed, st, dirty) && Load(r, st, o).list.Ok?
    requires r.validate(c, o.verdicts) == None && r.key(c) != "" && good(Stored(r, c, st.certificatesDir))
    requires Find(Load(r, st, o).list.value, r.key, r.key(c)) == -1
    ensures StepOk(r, good, closed, st, dirty, Create(c), o, NextCreate(r, st, c, o))
  {
    hide LoadFault, WriteFault, GoodList, WrittenLaw, StepFits, Persist, Load, FileLaw, CanonLaw, Find, DistinctKeys,
         ToMap, Mutated, Stored, ReplyIs, IsListing, DirtyAfter;
    LoadGood(r, good, closed, st, dirty, o);
    EmptyMap(Held(r, st), r.key);
    Lookup(Load(r, st, o).list.value, r.key, r.key(c));
    CreateNew(r, good, closed, st, dirty, c, o);
  }

  lemma CreateNew<C(!new)>(r: Rules<C>, good: C -> bool, closed: string -> bool, st: State<C>, dirty: bool, c: C, o: Outcomes)
    requires LawfulRules(r, good, closed) && Inv(r, good, closed, st, dirty) && good(Stored(r, c, st.certificatesDir))
    requires Load(r, st, o).list.Ok? && Find(Load(r, st, o).list.value, r.key, r.key(c)) == -1
    ensures
      var l, y := Load(r, st, o), Stored(r, c, st.certificatesDir);
      var p, fault := Persist(r, l.state, Added(r.normalize(c)), o, true), WriteFault(r.needsFile(r.normalize(c)), o, true);
      && p.error == fault && (fault == None ==> p.list[|p.list| - 1] == y)
      && StepFits(r, good, closed, st, dirty, Create(c), PersistStep(p, One(y)), fault,
                  Mutated(r, ViewOf(r, st), Abs(r, st)[r.key(c) := y], fault), One(y))
  {
    hide StepFits, Persist, Load, FileLaw, CanonLaw, DistinctKeys, ToMap, Mutated;
    var l, y := Load(r, st, o), Stored(r, c, st.certificatesDir);
    LoadGood(r, good, closed, st, dirty, o);
    AppendMap(l.list.value, r.key, y);
    AllLast(l.list.value, y, good);
    MutationStep(r, good, closed, st, dirty, Create(c), o, Added(r.normalize(c)), One(y));
  }

  lemma UpdateOk<C(!new)>(r: Rules<C>, good: C -> bool, closed: string -> bool, st: State<C>, dirty: bool, c: C, o: Outcomes)
    requires LawfulRules(r, good, closed) && Inv(r, good, closed, st, dirty)
    requires GoodCall(r, good, st.certificatesDir, Update(c), o.verdicts)
    ensures StepOk(r, good, closed, st, dirty, Update(c), o, NextUpdate(r, st, c, o))
  {
    hide LoadFault, WriteFault, GoodList, WrittenLaw, StepFits, Persist, Load, FileLaw, CanonLaw, Find, DistinctKeys,
         ToMap, Mutated;
    LoadGood(r, good, closed, st, dirty, o);
    EmptyMap(Held(r, st), r.key);
    var l, call := Load(r, st, o), Update(c);
    var expected := Spec(r, st.certificatesDir, Abs(r, st), call, o.verdicts).1;
    if r.validate(c, o.verdicts).Some? {
      EarlyStep(r, good, closed, st, dirty, call, Invalid(r.validate(c, o.verdicts).value));
    } else if l.list.Err? {
      UnloadedStep(r, good, closed, st, dirty, call, o, expected);
    } else {
      Lookup(l.list.value, r.key, r.key(c));
      if Find(l.list.value, r.key, r.key(c)) == -1 {
        LoadedStep(r, good, closed, st, dirty, call, o, Failed(NotFound), Failed(NotFound));
      } else {
        UpdateExisting(r, good, closed, st, dirty, c, o);
      }
    }
  }

  lemma UpdateExisting<C(!new)>(r: Rules<C>, good: C -> bool, closed: string -> bool, st: State<C>, dirty: bool, c: C,
                                o: Outcomes)
    requires LawfulRules(r, good, closed) && Inv(r, good, closed, st, dirty) && good(Stored(r, c, st.certificatesDir))
    requires Load(r, st, o).list.Ok? && Find(Load(r, st, o).list.value, r.key, r.key(c)) != -1
    ensures
      var l, y := Load(r, st, o), Stored(r, c, st.certificatesDir);
      var i, fault := Find(l.list.value, r.key, r.key(c)), WriteFault(r.needsFile(r.normalize(c)), o, true);
      var p := Persist(r, l.state, Replaced(i, r.normalize(c)), o, true);
      && p.error == fault && (fault == None ==> p.list[i] == y)
      && StepFits(r, good, closed, st, dirty, Update(c), PersistStep(p, One(y)), fault,
                  Mutated(r, ViewOf(r, st), Abs(r, st)[r.key(c) := y], fault), One(y))
  {
    hide StepFits, Persist, Load, FileLaw, CanonLaw, Find, DistinctKeys, ToMap, Mutated;
    var l, y := Load(r, st, o), Stored(r, c, st.certificatesDir);
    var i := Find(l.list.value, r.key, r.key(c));
    LoadGood(r, good, closed, st, dirty, o);
    ReplaceMap(l.list.value, r.key, i, y);
    MutationStep(r, good, closed, st, dirty, Update(c), o, Replaced(i, r.normalize(c)), One(y));
  }

  lemma DeleteOk<C(!new)>(r: Rules<C>, good: C -> bool, closed: string -> bool, st: State<C>, dirty: bool, name: string,
                          o: Outcomes)
    requires LawfulRules(r, good, closed) && Inv(r, good, closed, st, dirty)
    ensures StepOk(r, good, closed, st, dirty, Delete(name), o, NextDelete(r, st, name, o))
  {
    hide LoadFault, WriteFault, GoodList, WrittenLaw, StepFits, Persist, Load, FileLaw, CanonLaw, Find, DistinctKeys,
         ToMap, Mutated;
    LoadGood(r, good, closed, st, dirty, o);
    EmptyMap(Held(r, st), r.key);
    var l, call, k := Load(r, st, o), Delete(name), r.trim(name);
    var expected := Spec(r, st.certificatesDir, Abs(r, st), call, o.verdicts).1;
    if k == "" {
      EarlyStep(r, good, closed, st, dirty, call, Invalid(InvalidKey));
    } else if l.list.Err? {
      UnloadedStep(r, good, closed, st, dirty, call, o, expected);
    } else {
      Lookup(l.list.value, r.key, k);
      if Find(l.list.value, r.key, k) == -1 {
        LoadedStep(r, good, closed, st, dirty, call, o, Failed(NotFound), Failed(NotFound));
      } else {
        DeleteExisting(r, good, closed, st, dirty, name, o);
      }
    }
  }

  lemma DeleteExisting<C(!new)>(r: Rules<C>, good: C -> bool, closed: string -> bool, st: State<C>, dirty: bool, name: string,
                                o: Outcomes)
    requires LawfulRules(r, good, closed) && Inv(r, good, closed, st, dirty)
    requires Load(r, st, o).list.Ok? && Find(Load(r, st, o).list.value, r.key, r.trim(name)) != -1
    ensures
      var l, fault := Load(r, st, o), WriteFault(false, o, true);
      var i := Find(l.list.value, r.key, r.trim(name));
      var p := Persist(r, l.state, Removed(i), o, true);
      && p.error == fault
      && StepFits(r, good, closed, st, dirty, Delete(name), PersistStep(p, Done), fault,
                  Mutated(r, ViewOf(r, st), Abs(r, st) - {r.trim(name)}, fault), Done)
  {
    hide StepFits, Persist, Load, FileLaw, CanonLaw, Find, DistinctKeys, ToMap, Mutated;
    var l := Load(r, st, o);
    var i := Find(l.list.value, r.key, r.trim(name));
    LoadGood(r, good, closed, st, dirty, o);
    RemoveMap(l.list.value, r.key, i);
    MutationStep(r, good, closed, st, dirty, Delete(name), o, Removed(i), Done);
  }

  lemma GetOk<C(!new)>(r: Rules<C>, good: C -> bool, closed: string -> bool, st: State<C>, dirty: bool, name: string,
                       o: Outcomes)
    requires LawfulRules(r, good, closed) && Inv(r, good, closed, st, dirty)
    ensures StepOk(r, good, closed, st, dirty, Get(name), o, NextGet(r, st, name, o))
  {
    hide LoadFault, WriteFault, GoodList, WrittenLaw, StepFits, Load, FileLaw, CanonLaw, Find, DistinctKeys, ToMap;
    LoadGood(r, good, closed, st, dirty, o);
    EmptyMap(Held(r, st), r.key);
    var l, call, k := Load(r, st, o), Get(name), r.trim(name);
    var expected := Spec(r, st.certificatesDir, Abs(r, st), call, o.verdicts).1;
    if k == "" {
      EarlyStep(r, good, closed, st, dirty, call, Invalid(InvalidKey));
    } else if l.list.Err? {
      UnloadedStep(r, good, closed, st, dirty, call, o, expected);
    } else {
      Lookup(l.list.value, r.key, k);
      LoadedStep(r, good, closed, st, dirty, call, o, expected, expected);
    }
  }

  lemma DistinctNames<C(!new)>(r: Rules<C>, xs: seq<C>)
    requires (forall c {:trigger r.name(c)} :: r.trim(r.name(c)) == r.key(c)) && DistinctKeys(xs, r.key)
    ensures Distinct(KeysOf(xs, r.name))
  {
    DistinctKeysAt(xs, r.key);
    forall i, j | 0 <= i < j < |xs| ensures r.name(xs[i]) != r.name(xs[j]) {
      assert r.trim(r.name(xs[i])) == r.key(xs[i]) && r.trim(r.name(xs[j])) == r.key(xs[j]);
    }
  }

  lemma ListOk<C(!new)>(r: Rules<C>, good: C -> bool, closed: string -> bool, st: State<C>, dirty: bool, o: Outcomes)
    requires LawfulRules(r, good, closed) && Inv(r, good, closed, st, dirty)
    ensures StepOk(r, good, closed, st, dirty, List, o, NextList(r, st, o))
  {
    hide LoadFault, WriteFault, GoodList, WrittenLaw, StepFits, Load, FileLaw, CanonLaw, DistinctKeys, ToMap,
         IsListing, SortBy;
    LoadGood(r, good, closed, st, dirty, o);
    EmptyMap(Held(r, st), r.key);
    var l := Load(r, st, o);
    if l.list.Err? {
      UnloadedStep(r, good, closed, st, dirty, List, o, Done);
    } else {
      HeldListing(r, good, closed, st, dirty);
      LoadedStep(r, good, closed, st, dirty, List, o, Many(SortBy(Held(r, st), r.name)), Done);
    }
  }

  lemma HeldListing<C(!new)>(r: Rules<C>, good: C -> bool, closed: string -> bool, st: State<C>, dirty: bool)
    requires LawfulRules(r, good, closed) && Inv(r, good, closed, st, dirty)
    ensures IsListing(Abs(r, st), SortBy(Held(r, st), r.name), r.key, r.name)
  {
    DistinctNames(r, Held(r, st));
    SortedListing(Held(r, st), r.key, r.name);
  }

  lemma StartOk<C(!new)>(r: Rules<C>, good: C -> bool, closed: string -> bool, st: State<C>, dirty: bool, o: Outcomes)
    requires LawfulRules(r, good, closed) && Inv(r, good, closed, st, dirty)
    ensures StepOk(r, good, closed, st, dirty, Start, o, NextStart(r, st, o))
  {
    hide Persist, FileLaw, ToMap, DistinctKeys, Written;
    if o.list && st.store != [] {
      PersistGood(r, good, closed, st, Unchanged, o, false);
      CanonGood(r, good, st.store);
      WrittenList(r, good, st.store);
    }
  }

  /** Every call from a state that satisfies the invariant: view and answer are determined by view, call and faults. */
  lemma EveryStepOk<C(!new)>(r: Rules<C>, good: C -> bool, closed: string -> bool, st: State<C>, dirty: bool, call: Call<C>,
                             o: Outcomes)
    requires LawfulRules(r, good, closed) && Inv(r, good, closed, st, dirty)
    requires GoodCall(r, good, st.certificatesDir, call, o.verdicts)
    ensures StepOk(r, good, closed, st, dirty, call, o, Next(r, st, call, o))
  {
    hide StepOk;
    match call
    case Create(c) => CreateOk(r, good, closed, st, dirty, c, o);
    case Update(c) => UpdateOk(r, good, closed, st, dirty, c, o);
    case Delete(name) => DeleteOk(r, good, closed, st, dirty, name, o);
    case Get(name) => GetOk(r, good, closed, st, dirty, name, o);
    case List => ListOk(r, good, closed, st, dirty, o);
    case Start => StartOk(r, good, closed, st, dirty, o);
  }

  lemma SpecKeepsMap<C>(r: Rules<C>, dir: string, m: map<string, C>, call: Call<C>, v: Verdicts)
    ensures Spec(r, dir, m, call, v).1.Failed? || !Mutates(call) ==> Spec(r, dir, m, call, v).0 == m
  {
  }

  /** As long as the reload succeeds, a call that is hit by a fault changes nothing, and every other one does to the map what
      it does to a map. */
  lemma FaultKeepsMap<C>(r: Rules<C>, dir: string, v: View<C>, call: Call<C>, o: Outcomes)
    requires o.reload
    ensures ViewAfter(r, dir, v, call, o).held ==
            if FaultOf(r, dir, v, call, o).Some? then v.held else Spec(r, dir, v.held, call, o.verdicts).0
  {
    hide Spec, LoadFault, BringsNeed, Written;
    SpecKeepsMap(r, dir, v.held, call, o.verdicts);
  }
}
