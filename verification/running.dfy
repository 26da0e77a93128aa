/** What HAProxy runs: the file, unless both a reload and the one behind the rollback have gone wrong. */
module Running {
  import opened Text
  import opened Sorting
  import opened Keyed
  import opened Crud
  import opened CrudLaws
  import opened CrudRuns

  /** Whether HAProxy may run something else than the file after a call: a reload that was reported to have failed took
      effect, and the one behind the rollback did not. Any later reload that takes effect makes up for it. */
  predicate OffAfter<C>(st: State<C>, off: bool, e: Event<C>, reply: Reply<C>) {
    if reply == Failed(ReloadFailed) then !e.o.rollback && (off || e.o.took)
    else if (Mutates(e.call) || (e.call.Start? && st.store != [])) && !reply.Failed? then false
    else off
  }

  predicate OffAtEnd<C(==)>(r: Rules<C>, st: State<C>, off: bool, events: seq<Event<C>>)
    decreases |events|
  {
    if events == [] then off
    else
      var s := Next(r, st, events[0].call, events[0].o);
      OffAtEnd(r, s.state, OffAfter(st, off, events[0], s.reply), events[1..])
  }

  // ----- One call -----

  /** Persisting from a state in which HAProxy runs the file, unless off. */
  lemma PersistRuns<C>(r: Rules<C>, st: State<C>, off: bool, change: Change<C>, o: Outcomes, persistStore: bool)
    requires Applies(st.store, change) && (off || st.running == st.file)
    ensures
      var p := Persist(r, st, change, o, persistStore);
      && (p.error == None ==> p.state.running == p.state.file)
      && (p.error == Some(ReloadFailed) ==> (!o.rollback && (off || o.took)) || p.state.running == p.state.file)
      && (p.error.Some? && p.error != Some(ReloadFailed) ==> p.state.running == st.running && p.state.file == st.file)
  {
    hide EnsureAll, Apply, Reflect;
  }

  lemma LoadRuns<C>(r: Rules<C>, st: State<C>, o: Outcomes)
    ensures Load(r, st, o).state.running == st.running && Load(r, st, o).state.file == st.file
  {
  }

  predicate StillRuns<C>(st: State<C>, off: bool, e: Event<C>, s: Step<C>) {
    OffAfter(st, off, e, s.reply) || s.state.running == s.state.file
  }

  lemma LockedRuns<C>(r: Rules<C>, st: State<C>, off: bool, e: Event<C>)
    requires off || st.running == st.file
    ensures
      match e.call
      case Create(c) => StillRuns(st, off, e, CreateLocked(r, st, c, e.o))
      case Update(c) => StillRuns(st, off, e, UpdateLocked(r, st, c, e.o))
      case Delete(name) => StillRuns(st, off, e, DeleteLocked(r, st, name, e.o))
      case _ => true
  {
    hide Find, Load, Persist;
    LoadRuns(r, st, e.o);
    var l := Load(r, st, e.o);
    match e.call
    case Create(c) => PersistRuns(r, l.state, off, Added(r.normalize(c)), e.o, true);
    case Update(c) =>
      if l.list.Ok? && Find(l.list.value, r.key, r.key(c)) != -1 {
        PersistRuns(r, l.state, off, Replaced(Find(l.list.value, r.key, r.key(c)), r.normalize(c)), e.o, true);
      }
    case Delete(name) =>
      if l.list.Ok? && Find(l.list.value, r.key, name) != -1 {
        PersistRuns(r, l.state, off, Removed(Find(l.list.value, r.key, name)), e.o, true);
      }
    case _ =>
  }

  lemma CallRuns<C>(r: Rules<C>, st: State<C>, off: bool, e: Event<C>)
    requires off || st.running == st.file
    ensures StillRuns(st, off, e, Next(r, st, e.call, e.o))
  {
    hide Find, SortBy, Load, Persist, CreateLocked, UpdateLocked, DeleteLocked;
    var st1 := AfterClient(st, e.o);
    match e.call
    case Create(_) => LockedRuns(r, st1, off, e);
    case Update(_) => LockedRuns(r, st1, off, e);
    case Delete(name) => LockedRuns(r, st1, off, Event(Delete(r.trim(name)), e.o));
    case Start => PersistRuns(r, st1, off, Unchanged, e.o, false);
    case _ => LoadRuns(r, st, e.o);
  }

  // ----- Whole runs -----

  /** From any state and over every run: HAProxy runs what the file holds, unless both a reload and the reload behind its
      rollback have gone wrong since the last reload that took effect. */
  lemma {:induction false} RunsTheFile<C>(r: Rules<C>, st: State<C>, off: bool, events: seq<Event<C>>)
    requires off || st.running == st.file
    ensures OffAtEnd(r, st, off, events) || Final(r, st, events).running == Final(r, st, events).file
    decreases |events|
  {
    hide Next, OffAfter;
    if events != [] {
      var s := Next(r, st, events[0].call, events[0].o);
      CallRuns(r, st, off, events[0]);
      RunsTheFile(r, s.state, OffAfter(st, off, events[0], s.reply), events[1..]);
    }
  }

  /** Where failed reloads leave HAProxy alone, or the reloads behind them take effect, it always runs what the file holds. */
  lemma {:induction false} RollbacksSuffice<C>(r: Rules<C>, st: State<C>, events: seq<Event<C>>)
    requires st.running == st.file && forall i :: 0 <= i < |events| ==> events[i].o.rollback || !events[i].o.took
    ensures Final(r, st, events).running == Final(r, st, events).file
    decreases |events|
  {
    hide Next;
    if events != [] {
      CallRuns(r, st, false, events[0]);
      RollbacksSuffice(r, Next(r, st, events[0].call, events[0].o).state, events[1..]);
    }
  }

  /** Where they do not, HAProxy runs the file that was rolled back. */
  lemma RunsTheAttempt<C>(r: Rules<C>, st: State<C>, change: Change<C>, o: Outcomes, persistStore: bool)
    requires Applies(st.store, change) && o.took && !o.rollback
    ensures
      var p := Persist(r, st, change, o, persistStore);
      p.error == Some(ReloadFailed) ==> r.merge(st.file, p.list) == Some(p.state.running) && p.state.file == st.file
  {
    hide EnsureAll, Apply, Reflect;
  }
}
