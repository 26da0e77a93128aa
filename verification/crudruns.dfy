/** Whole runs of the configuration service: agreement, refinement of a map, rollback, restart. */
module CrudRuns {
  import opened Text
  import opened Keyed
  import opened Crud
  import opened CrudLaws

  datatype Event<C> = Event(call: Call<C>, o: Outcomes)

  // ----- Runs -----

  function Final<C(==)>(r: Rules<C>, st: State<C>, events: seq<Event<C>>): State<C>
    decreases |events|
  {
    if events == [] then st else Final(r, Next(r, st, events[0].call, events[0].o).state, events[1..])
  }

  function Replies<C(==)>(r: Rules<C>, st: State<C>, events: seq<Event<C>>): (replies: seq<Reply<C>>)
    ensures |replies| == |events|
    decreases |events|
  {
    if events == [] then []
    else
      var s := Next(r, st, events[0].call, events[0].o);
      [s.reply] + Replies(r, s.state, events[1..])
  }

  /** Whether, at the end of the run, a reload has failed since the last successful write. */
  predicate DirtyAtEnd<C(==)>(r: Rules<C>, st: State<C>, dirty: bool, events: seq<Event<C>>)
    decreases |events|
  {
    if events == [] then dirty
    else
      var s := Next(r, st, events[0].call, events[0].o);
      DirtyAtEnd(r, s.state, DirtyAfter(st, dirty, events[0].call, s.reply), events[1..])
  }

  ghost predicate GoodEvents<C(!new)>(r: Rules<C>, good: C -> bool, dir: string, events: seq<Event<C>>) {
    forall i :: 0 <= i < |events| ==> GoodCall(r, good, dir, events[i].call, events[i].o.verdicts)
  }

  lemma GoodRest<C(!new)>(r: Rules<C>, good: C -> bool, dir: string, events: seq<Event<C>>)
    requires events != [] && GoodEvents(r, good, dir, events)
    ensures GoodCall(r, good, dir, events[0].call, events[0].o.verdicts) && GoodEvents(r, good, dir, events[1..])
  {
  }

  /** Agreement in every reachable state, whatever fails: store and file are well formed and hold the same configurations,
      unless the store is empty or a reload has failed since the last successful write. */
  lemma {:induction false} RunKeepsAgreement<C(!new)>(r: Rules<C>, good: C -> bool, closed: string -> bool, st: State<C>,
                                                      dirty: bool, events: seq<Event<C>>)
    requires LawfulRules(r, good, closed) && Inv(r, good, closed, st, dirty)
    requires GoodEvents(r, good, st.certificatesDir, events)
    ensures Inv(r, good, closed, Final(r, st, events), DirtyAtEnd(r, st, dirty, events))
    decreases |events|
  {
    if events != [] {
      GoodRest(r, good, st.certificatesDir, events);
      EveryStepOk(r, good, closed, st, dirty, events[0].call, events[0].o);
      var s := Next(r, st, events[0].call, events[0].o);
      RunKeepsAgreement(r, good, closed, s.state, DirtyAfter(st, dirty, events[0].call, s.reply), events[1..]);
    }
  }

  /** A run is clean at its end if no reload has failed in it, and after every call that writes. */
  lemma {:induction false} RunIsClean<C>(r: Rules<C>, st: State<C>, events: seq<Event<C>>)
    requires forall i :: 0 <= i < |events| ==> Replies(r, st, events)[i] != Failed(ReloadFailed)
    ensures !DirtyAtEnd(r, st, false, events)
    decreases |events|
  {
    hide Next;
    if events != [] {
      var s := Next(r, st, events[0].call, events[0].o);
      var rest := events[1..];
      assert Replies(r, st, events)[0] == s.reply;
      assert forall i :: 0 <= i < |rest| ==> Replies(r, s.state, rest)[i] == Replies(r, st, events)[i + 1];
      RunIsClean(r, s.state, rest);
    }
  }

  lemma {:induction false} WritingCleans<C>(r: Rules<C>, st: State<C>, dirty: bool, events: seq<Event<C>>, e: Event<C>)
    requires Mutates(e.call) && !Next(r, Final(r, st, events), e.call, e.o).reply.Failed?
    ensures !DirtyAtEnd(r, st, dirty, events + [e])
    decreases |events|
  {
    hide Next;
    if events == [] {
      assert [] + [e] == [e];
    } else {
      var s := Next(r, st, events[0].call, events[0].o);
      WritingCleans(r, s.state, DirtyAfter(st, dirty, events[0].call, s.reply), events[1..], e);
      assert (events + [e])[1..] == events[1..] + [e] && (events + [e])[0] == events[0];
    }
  }

  // ----- Refinement -----

  /** The view after the calls: a function of the first view, the calls and their faults. */
  function ViewAtEnd<C>(r: Rules<C>, dir: string, v: View<C>, events: seq<Event<C>>): View<C>
    decreases |events|
  {
    if events == [] then v else ViewAtEnd(r, dir, ViewAfter(r, dir, v, events[0].call, events[0].o), events[1..])
  }

  /** Every reply is that of the fault that hits its call, and that of the map where none does. */
  ghost predicate Conforms<C(!new)>(r: Rules<C>, dir: string, v: View<C>, events: seq<Event<C>>, replies: seq<Reply<C>>)
    requires |replies| == |events|
    decreases |events|
  {
    events != [] ==>
      var e := events[0];
      && ReplyIs(r, v.held, e.call, FaultOf(r, dir, v, e.call, e.o), Spec(r, dir, v.held, e.call, e.o.verdicts).1, replies[0])
      && Conforms(r, dir, ViewAfter(r, dir, v, e.call, e.o), events[1..], replies[1..])
  }

  /** Every run, failed reloads included, is a run of the view: replies and final view are exactly determined. */
  lemma {:induction false} RunRefinesMap<C(!new)>(r: Rules<C>, good: C -> bool, closed: string -> bool, st: State<C>,
                                                  dirty: bool, events: seq<Event<C>>)
    requires LawfulRules(r, good, closed) && Inv(r, good, closed, st, dirty)
    requires GoodEvents(r, good, st.certificatesDir, events)
    ensures
      && Conforms(r, st.certificatesDir, ViewOf(r, st), events, Replies(r, st, events))
      && r.load(Final(r, st, events).file).Some?
      && ViewOf(r, Final(r, st, events)) == ViewAtEnd(r, st.certificatesDir, ViewOf(r, st), events)
    decreases |events|
  {
    hide Next, Spec, FaultOf, ViewAfter, ReplyIs, LawfulRules;
    if events != [] {
      var e, rest := events[0], events[1..];
      GoodRest(r, good, st.certificatesDir, events);
      EveryStepOk(r, good, closed, st, dirty, e.call, e.o);
      var s := Next(r, st, e.call, e.o);
      RunRefinesMap(r, good, closed, s.state, DirtyAfter(st, dirty, e.call, s.reply), rest);
      assert Replies(r, st, events)[1..] == Replies(r, s.state, rest);
    }
  }

  // ----- Text outside -----

  /** A part of the file that merging leaves alone. */
  ghost predicate Kept<C(!new)>(r: Rules<C>, good: C -> bool, closed: string -> bool, part: string -> seq<string>) {
    forall file, xs {:trigger r.merge(file, xs)} ::
      closed(file) && All(xs, good) && r.merge(file, xs).Some? ==> part(r.merge(file, xs).value) == part(file)
  }

  /** What merging leaves alone, no run touches. */
  lemma {:induction false} RunKeeps<C(!new)>(r: Rules<C>, good: C -> bool, closed: string -> bool, part: string -> seq<string>,
                                             st: State<C>, dirty: bool, events: seq<Event<C>>)
    requires LawfulRules(r, good, closed) && Kept(r, good, closed, part) && Inv(r, good, closed, st, dirty)
    requires GoodEvents(r, good, st.certificatesDir, events)
    ensures part(Final(r, st, events).file) == part(st.file)
    decreases |events|
  {
    hide Next, Spec, FaultOf, ViewAfter, ViewOf, ReplyIs, LawfulRules;
    if events != [] {
      GoodRest(r, good, st.certificatesDir, events);
      EveryStepOk(r, good, closed, st, dirty, events[0].call, events[0].o);
      var s := Next(r, st, events[0].call, events[0].o);
      RunKeeps(r, good, closed, part, s.state, DirtyAfter(st, dirty, events[0].call, s.reply), events[1..]);
    }
  }

  // ----- Rollback, without any assumption about the state -----

  /** The entries of the stored list that a change keeps. */
  predicate Keeps<C>(change: Change<C>, i: nat) {
    !((change.Replaced? || change.Removed?) && change.i == i)
  }

  /** The number of entries before j that need a certificate file. */
  function Needs<C>(r: Rules<C>, xs: seq<C>, j: nat): nat
    requires j <= |xs|
  {
    if j == 0 then 0 else Needs(r, xs[1..], j - 1) + if r.needsFile(xs[0]) then 1 else 0
  }

  /** Files are written in list order until one fails: an entry gets its file if those before it leave one to write. */
  predicate GetsFile<C>(r: Rules<C>, xs: seq<C>, files: nat, j: nat)
    requires j < |xs|
  {
    r.needsFile(xs[j]) && Needs(r, xs, j) < files
  }

  lemma {:induction false} EnsureAt<C>(r: Rules<C>, xs: seq<C>, dir: string, files: nat, j: nat)
    requires j < |xs|
    ensures EnsureAll(r, xs, dir, files).list[j] == if GetsFile(r, xs, files, j) then r.withFile(xs[j], dir) else xs[j]
    decreases |xs|
  {
    if j > 0 && !(r.needsFile(xs[0]) && files == 0) {
      EnsureAt(r, xs[1..], dir, if r.needsFile(xs[0]) then files - 1 else files, j - 1);
    }
  }

  /** Where a kept entry of the stored list stands in the changed list. */
  function Place<C>(xs: seq<C>, change: Change<C>, i: nat): (j: nat)
    requires Applies(xs, change) && i < |xs| && Keeps(change, i)
    ensures j < |Apply(xs, change)| && Apply(xs, change)[j] == xs[i]
  {
    if change.Removed? && i > change.i then i - 1 else i
  }

  lemma ReflectAt<C>(r: Rules<C>, xs: seq<C>, change: Change<C>, dir: string, files: nat, i: nat)
    requires Applies(xs, change) && i < |xs|
    ensures
      Reflect(Memory, xs, change, EnsureAll(r, Apply(xs, change), dir, files).list)[i] ==
      if Touched(r, xs, change, files, i) then r.withFile(xs[i], dir) else xs[i]
  {
    if Keeps(change, i) {
      EnsureAt(r, Apply(xs, change), dir, files, Place(xs, change, i));
    }
  }

  /** A stored entry that stays in the list gets its certificate file, which shows in the store at once. */
  predicate Touched<C>(r: Rules<C>, xs: seq<C>, change: Change<C>, files: nat, i: nat)
    requires Applies(xs, change) && i < |xs|
  {
    Keeps(change, i) && GetsFile(r, Apply(xs, change), files, Place(xs, change, i))
  }

  /** A failed write leaves the file as it was. Unless it got as far as saving, it leaves the stored list as it was if and
      only if the store shares no TLS objects or no stored entry got a certificate file on the way; a failed reload behind
      a save keeps the attempted list. */
  lemma FailureLeaves<C>(r: Rules<C>, st: State<C>, change: Change<C>, o: Outcomes, persistStore: bool)
    requires Applies(st.store, change)
    requires forall c :: r.needsFile(c) ==> r.withFile(c, st.certificatesDir) != c
    ensures
      var p := Persist(r, st, change, o, persistStore);
      && (p.error.Some? ==> p.state.file == st.file)
      && (p.error == Some(ReloadFailed) && persistStore ==> p.state.store == p.list)
      && (p.error.Some? && (p.error != Some(ReloadFailed) || !persistStore) ==>
            (p.state.store == st.store <==>
             st.backend.Redis? || forall i :: 0 <= i < |st.store| ==> !Touched(r, st.store, change, o.certificates, i)))
  {
    hide EnsureAll, Reflect, Touched;
    ReflectSameIff(r, st.store, change, st.certificatesDir, o.certificates);
    var e := EnsureAll(r, Apply(st.store, change), st.certificatesDir, o.certificates);
    WriteLeaves(r, st.(store := Reflect(st.backend, st.store, change, e.list)), e.list, o, persistStore);
  }

  lemma WriteLeaves<C>(r: Rules<C>, st: State<C>, list: seq<C>, o: Outcomes, persistStore: bool)
    ensures
      var p := Write(r, st, list, o, persistStore);
      && (p.error.Some? ==> p.state.file == st.file)
      && (p.error == Some(ReloadFailed) && persistStore ==> p.state.store == list)
      && (p.error.Some? && (p.error != Some(ReloadFailed) || !persistStore) ==> p.state.store == st.store)
  {
  }

  lemma ReflectSameIff<C>(r: Rules<C>, xs: seq<C>, change: Change<C>, dir: string, files: nat)
    requires Applies(xs, change) && forall c :: r.needsFile(c) ==> r.withFile(c, dir) != c
    ensures
      Reflect(Memory, xs, change, EnsureAll(r, Apply(xs, change), dir, files).list) == xs <==>
      forall i :: 0 <= i < |xs| ==> !Touched(r, xs, change, files, i)
  {
    hide Reflect, EnsureAll, Needs;
    var zs := Reflect(Memory, xs, change, EnsureAll(r, Apply(xs, change), dir, files).list);
    forall i | 0 <= i < |xs| ensures zs[i] == xs[i] <==> !Touched(r, xs, change, files, i) {
      ReflectAt(r, xs, change, dir, files, i);
    }
  }

  /** The rollback does fail for stores that share: a stored entry d waits for its certificate file, another entry is created,
      and the file cannot be read when it is to be written. Nothing is written, and yet the store has changed. */
  lemma FailureShows<C>(r: Rules<C>, st: State<C>, c: C, d: C, o: Outcomes)
    requires st.backend.Memory? && st.store == [] && st.configured && st.client && r.load(st.file) == Some([d])
    requires r.validate(c, o.verdicts) == None && r.key(c) != "" && r.needsFile(d) && r.key(d) != r.key(c)
    requires o.list && o.seedRead && o.seedSave && o.certificates >= 2 && !o.read
    ensures
      && Load(r, st, o) == Loaded(st.(store := [d]), Ok([d]))
      && NextCreate(r, st, c, o) == Step(st.(store := [r.withFile(d, st.certificatesDir)]), Failed(ReadFailed))
  {
    var n := r.normalize(c);
    EnsureTwo(r, d, n, st.certificatesDir, o.certificates);
    assert [d] + [n] == [d, n];
    assert Find([d], r.key, r.key(c)) == -1;
  }

  lemma EnsureTwo<C>(r: Rules<C>, d: C, n: C, dir: string, files: nat)
    requires r.needsFile(d) && files >= 2
    ensures EnsureAll(r, [d, n], dir, files) == Ensured([r.withFile(d, dir), Finish(r, n, dir)], true)
  {
    assert [d, n][1..] == [n] && [n][1..] == [];
    assert EnsureAll(r, [n], dir, files - 1) == Ensured([Finish(r, n, dir)], true);
  }

  predicate Untouched<C>(st: State<C>, s: Step<C>) {
    s.reply.Failed? ==> s.state.file == st.file
  }

  lemma PersistUntouched<C>(r: Rules<C>, st: State<C>, change: Change<C>, o: Outcomes, persistStore: bool, reply: Reply<C>)
    requires Applies(st.store, change) && !reply.Failed?
    ensures Untouched(st, PersistStep(Persist(r, st, change, o, persistStore), reply))
  {
  }

  lemma CreateUntouched<C>(r: Rules<C>, st: State<C>, c: C, o: Outcomes)
    ensures Untouched(st, NextCreate(r, st, c, o))
  {
    var l := Load(r, AfterClient(st, o), o);
    if l.list.Ok? {
      var p := Persist(r, l.state, Added(r.normalize(c)), o, true);
      PersistUntouched(r, l.state, Added(r.normalize(c)), o, true, One(p.list[|p.list| - 1]));
    }
  }

  lemma UpdateUntouched<C>(r: Rules<C>, st: State<C>, c: C, o: Outcomes)
    ensures Untouched(st, NextUpdate(r, st, c, o))
  {
    var l := Load(r, AfterClient(st, o), o);
    if l.list.Ok? && Find(l.list.value, r.key, r.key(c)) != -1 {
      PersistUntouched(r, l.state, Replaced(Find(l.list.value, r.key, r.key(c)), r.normalize(c)), o, true, Done);
    }
  }

  lemma DeleteUntouched<C>(r: Rules<C>, st: State<C>, name: string, o: Outcomes)
    ensures Untouched(st, NextDelete(r, st, name, o))
  {
    var l := Load(r, AfterClient(st, o), o);
    if l.list.Ok? && Find(l.list.value, r.key, r.trim(name)) != -1 {
      PersistUntouched(r, l.state, Removed(Find(l.list.value, r.key, r.trim(name))), o, true, Done);
    }
  }

  lemma StartUntouched<C>(r: Rules<C>, st: State<C>, o: Outcomes)
    ensures Untouched(st, NextStart(r, st, o))
  {
    PersistUntouched(r, AfterClient(st, o), Unchanged, o, false, Done);
  }

  /** In every state: a call that fails leaves the file as it was, and so does every read. */
  lemma FileUntouched<C(!new)>(r: Rules<C>, st: State<C>, call: Call<C>, o: Outcomes)
    ensures
      var s := Next(r, st, call, o);
      s.reply.Failed? || call.Get? || call.List? ==> s.state.file == st.file
  {
    match call
    case Create(c) => CreateUntouched(r, st, c, o);
    case Update(c) => UpdateUntouched(r, st, c, o);
    case Delete(name) => DeleteUntouched(r, st, name, o);
    case Get(_) =>
    case List =>
    case Start => StartUntouched(r, st, o);
  }

  // ----- Restart -----

  /** Losing the store loses nothing: loading again gives the same configurations, up to the order and the trimming of
      names that writing them to the file brings about. */
  lemma RestartRecovers<C(!new)>(r: Rules<C>, good: C -> bool, closed: string -> bool, st: State<C>, o: Outcomes)
    requires LawfulRules(r, good, closed) && Inv(r, good, closed, st, false) && st.store != []
    requires o.list && o.seedRead && o.seedSave
    ensures
      var l := Load(r, st.(store := []), o);
      && l.list.Ok? && l.list.value == r.load(st.file).value && l.list.value != []
      && r.canon(l.list.value) == r.canon(st.store)
  {
    assert |r.canon(st.store)| == |st.store| && |r.canon(r.load(st.file).value)| == |r.load(st.file).value|;
  }

  /** A successful start from a durable store writes it into any file without a dangling BEGIN line,
      leaves the store alone and establishes the agreement. */
  lemma StartupSync<C(!new)>(r: Rules<C>, good: C -> bool, closed: string -> bool, st: State<C>, o: Outcomes)
    requires LawfulRules(r, good, closed) && closed(st.file) && GoodList(r, good, st.store) && st.store != []
    requires st.client ==> st.configured
    requires Next(r, st, Start, o).reply == Done
    ensures
      var after := Next(r, st, Start, o).state;
      && after.store == st.store && r.load(after.file) == Some(r.canon(st.store))
      && r.merge(st.file, st.store) == Some(after.file) && Inv(r, good, closed, after, false)
  {
    hide Persist, FileLaw, WrittenLaw, DistinctKeys;
    PersistGood(r, good, closed, AfterClient(st, o), Unchanged, o, false);
    CanonGood(r, good, st.store);
  }

  /** A successful start with an empty store changes neither store nor file and establishes the invariant
      for any well formed file. */
  lemma StartupEmpty<C(!new)>(r: Rules<C>, good: C -> bool, closed: string -> bool, st: State<C>, o: Outcomes)
    requires closed(st.file) && r.load(st.file).Some? && GoodList(r, good, r.load(st.file).value)
    requires st.store == [] && (st.client ==> st.configured) && Next(r, st, Start, o).reply == Done
    ensures
      var after := Next(r, st, Start, o).state;
      after.store == [] && after.file == st.file && Inv(r, good, closed, after, false)
  {
  }
}
