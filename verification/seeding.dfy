/** Readers that may write: GetConfiguration and ListConfigurations seed an empty store while they hold only the read
    lock. Any number of threads take single steps in any order. Module Linear has the same readers inside whole calls, with
    writers in one piece; here a writer may write store and file any number of times, with any contents, before it lets go
    of the lock, and the laws hold without knowing what a write is. */
module Seeding {
  import opened Text
  import opened Crud

  /** Where a thread stands. A reader goes through List, ReadFile and Save, and ends with what it will return. */
  datatype Thread<C> =
    | Idle
    | Entered
    | FoundEmpty
    | Parsed(list: seq<C>)
    | Finished(result: Option<seq<C>>)
    | Writing

  /** What a writer has left behind when it released the lock. */
  datatype Snapshot<C> = Snapshot(store: seq<C>, file: string)

  datatype Entry<C> = Saved(epoch: nat, before: seq<C>, list: seq<C>) | Returned(epoch: nat, list: seq<C>)

  /** An epoch lasts from one release of the write lock to the next; epochs holds the snapshots they began with. */
  datatype Machine<C> = Machine(
    store: seq<C>,
    file: string,
    threads: seq<Thread<C>>,
    epochs: seq<Snapshot<C>>,
    log: seq<Entry<C>>)

  datatype Move<C> =
    | RLock
    | List(ok: bool)
    | ReadFile(ok: bool)
    | Save(ok: bool)
    | RUnlock
    | Lock
    | Write(store: seq<C>, file: string)
    | Unlock

  /** One thread takes one step. */
  datatype Turn<C> = Turn(t: nat, move: Move<C>)

  predicate Enabled<C(==)>(m: Machine<C>, turn: Turn<C>) {
    && turn.t < |m.threads|
    && var thread := m.threads[turn.t];
       match turn.move
       case RLock => thread == Idle && forall u :: 0 <= u < |m.threads| ==> m.threads[u] != Writing
       case List(_) => thread == Entered
       case ReadFile(_) => thread == FoundEmpty
       case Save(_) => thread.Parsed?
       case RUnlock => thread.Finished?
       case Lock => forall u :: 0 <= u < |m.threads| ==> m.threads[u] == Idle
       case Write(_, _) => thread == Writing
       case Unlock => thread == Writing
  }

  function Epoch<C>(m: Machine<C>): nat
    requires m.epochs != []
  {
    |m.epochs| - 1
  }

  /** A turn of a thread that has to wait changes nothing. */
  function Took<C(==)>(load: string -> Option<seq<C>>, m: Machine<C>, turn: Turn<C>): Machine<C>
    requires m.epochs != []
  {
    if !Enabled(m, turn) then m else Moved(load, m, turn)
  }

  function Moved<C(==)>(load: string -> Option<seq<C>>, m: Machine<C>, turn: Turn<C>): Machine<C>
    requires m.epochs != [] && Enabled(m, turn)
  {
    var t, thread := turn.t, m.threads[turn.t];
    match turn.move
    case RLock => m.(threads := m.threads[t := Entered])
    case List(ok) =>
      m.(threads := m.threads[t := if !ok then Finished(None)
                                   else if m.store != [] then Finished(Some(m.store)) else FoundEmpty])
    case ReadFile(ok) =>
      m.(threads := m.threads[t := if !ok || load(m.file).None? then Finished(None)
                                   else if load(m.file).value == [] then Finished(Some([]))
                                   else Parsed(load(m.file).value)])
    case Save(ok) =>
      if ok then
        m.(store := thread.list, threads := m.threads[t := Finished(Some(thread.list))],
           log := m.log + [Saved(Epoch(m), m.store, thread.list)])
      else m.(threads := m.threads[t := Finished(None)])
    case RUnlock =>
      m.(threads := m.threads[t := Idle],
         log := m.log + if thread.result.Some? then [Returned(Epoch(m), thread.result.value)] else [])
    case Lock => m.(threads := m.threads[t := Writing])
    case Write(store, file) => m.(store := store, file := file)
    case Unlock => m.(threads := m.threads[t := Idle], epochs := m.epochs + [Snapshot(m.store, m.file)])
  }

  function Started<C>(store: seq<C>, file: string, threads: nat): Machine<C> {
    Machine(store, file, seq(threads, _ => Idle), [Snapshot(store, file)], [])
  }

  /** Any interleaving: the turns in the order in which they are taken. */
  function After<C(==)>(load: string -> Option<seq<C>>, start: Machine<C>, turns: seq<Turn<C>>): (m: Machine<C>)
    requires start.epochs != []
    ensures m.epochs != []
  {
    if turns == [] then start else Took(load, After(load, start, turns[..|turns| - 1]), turns[|turns| - 1])
  }

  // ----- The invariant -----

  /** The list a reader gets in an epoch that began with the snapshot; None when it cannot be had. */
  function Seen<C>(load: string -> Option<seq<C>>, s: Snapshot<C>): Option<seq<C>> {
    if s.store != [] then Some(s.store) else load(s.file)
  }

  predicate ThreadOk<C(==)>(load: string -> Option<seq<C>>, s: Snapshot<C>, thread: Thread<C>) {
    match thread
    case FoundEmpty => s.store == []
    case Parsed(list) => s.store == [] && list != [] && load(s.file) == Some(list)
    case Finished(Some(list)) => Seen(load, s) == Some(list)
    case _ => true
  }

  predicate EntryOk<C(==)>(load: string -> Option<seq<C>>, epochs: seq<Snapshot<C>>, entry: Entry<C>) {
    && entry.epoch < |epochs| && Seen(load, epochs[entry.epoch]) == Some(entry.list)
    && (entry.Saved? ==> epochs[entry.epoch].store == [] && (entry.before == [] || entry.before == entry.list))
  }

  /** While nobody writes, the file is what the last writer left, and so is the store, unless it was empty and is seeded. */
  predicate Quiet<C(==)>(load: string -> Option<seq<C>>, m: Machine<C>)
    requires m.epochs != []
  {
    var s := m.epochs[Epoch(m)];
    m.file == s.file && (m.store == s.store || (s.store == [] && load(s.file) == Some(m.store)))
  }

  ghost predicate Inv<C>(load: string -> Option<seq<C>>, m: Machine<C>) {
    && m.epochs != []
    && (forall t, u :: 0 <= t < |m.threads| && 0 <= u < |m.threads| && t != u && m.threads[t] == Writing ==>
          m.threads[u] == Idle)
    && (Quiet(load, m) || exists t :: 0 <= t < |m.threads| && m.threads[t] == Writing)
    && (forall t :: 0 <= t < |m.threads| ==> ThreadOk(load, m.epochs[Epoch(m)], m.threads[t]))
    && forall i :: 0 <= i < |m.log| ==> EntryOk(load, m.epochs, m.log[i])
  }

  lemma StartInv<C>(load: string -> Option<seq<C>>, store: seq<C>, file: string, threads: nat)
    ensures Inv(load, Started(store, file, threads))
  {
  }

  /** Locking, reading and returning. */
  lemma ReaderInv<C>(load: string -> Option<seq<C>>, m: Machine<C>, turn: Turn<C>)
    requires Inv(load, m) && Enabled(m, turn)
    requires turn.move.RLock? || turn.move.List? || turn.move.ReadFile? || turn.move.RUnlock?
    ensures Inv(load, Moved(load, m, turn))
  {
  }

  lemma SaveInv<C>(load: string -> Option<seq<C>>, m: Machine<C>, turn: Turn<C>)
    requires Inv(load, m) && Enabled(m, turn) && turn.move.Save?
    ensures Inv(load, Moved(load, m, turn))
  {
  }

  lemma WriterInv<C>(load: string -> Option<seq<C>>, m: Machine<C>, turn: Turn<C>)
    requires Inv(load, m) && Enabled(m, turn) && (turn.move.Lock? || turn.move.Write?)
    ensures Inv(load, Moved(load, m, turn))
  {
    assert Moved(load, m, turn).threads[turn.t] == Writing;
  }

  /** A new epoch begins when no other thread is inside. */
  lemma UnlockInv<C>(load: string -> Option<seq<C>>, m: Machine<C>, turn: Turn<C>)
    requires Inv(load, m) && Enabled(m, turn) && turn.move.Unlock?
    ensures Inv(load, Moved(load, m, turn))
  {
    var next := Moved(load, m, turn);
    assert forall t :: 0 <= t < |m.threads| ==> next.threads[t] == Idle;
    assert forall i :: 0 <= i < |m.log| ==> next.epochs[m.log[i].epoch] == m.epochs[m.log[i].epoch];
  }

  lemma {:induction false} AfterInv<C>(load: string -> Option<seq<C>>, store: seq<C>, file: string, threads: nat,
                                       turns: seq<Turn<C>>)
    ensures Inv(load, After(load, Started(store, file, threads), turns))
  {
    var start := Started(store, file, threads);
    if turns == [] {
      StartInv(load, store, file, threads);
    } else {
      var before, turn := After(load, start, turns[..|turns| - 1]), turns[|turns| - 1];
      AfterInv(load, store, file, threads, turns[..|turns| - 1]);
      if Enabled(before, turn) {
        match turn.move
        case Save(_) => SaveInv(load, before, turn);
        case Lock => WriterInv(load, before, turn);
        case Write(_, _) => WriterInv(load, before, turn);
        case Unlock => UnlockInv(load, before, turn);
        case _ => ReaderInv(load, before, turn);
      }
    }
  }

  // ----- What holds in every interleaving -----

  /** Between two writers everything agrees: every list that is saved or returned is the one the last writer left in the
      store, or in the file if it left an empty store. */
  lemma ReadersAgree<C>(load: string -> Option<seq<C>>, store: seq<C>, file: string, threads: nat, turns: seq<Turn<C>>,
                        i: nat, j: nat)
    requires i < |After(load, Started(store, file, threads), turns).log|
    requires j < |After(load, Started(store, file, threads), turns).log|
    ensures
      var m := After(load, Started(store, file, threads), turns);
      && m.log[i].epoch < |m.epochs| && Seen(load, m.epochs[m.log[i].epoch]) == Some(m.log[i].list)
      && (m.log[i].epoch == m.log[j].epoch ==> m.log[i].list == m.log[j].list)
  {
    AfterInv(load, store, file, threads, turns);
  }

  /** Seeding overwrites nothing: it writes into a store that is empty or already holds the same list, and only in an epoch
      that began with an empty store. */
  lemma SeedsOverwriteNothing<C>(load: string -> Option<seq<C>>, store: seq<C>, file: string, threads: nat,
                                 turns: seq<Turn<C>>, i: nat)
    requires i < |After(load, Started(store, file, threads), turns).log|
    ensures
      var m := After(load, Started(store, file, threads), turns);
      m.log[i].Saved? ==>
        && (m.log[i].before == [] || m.log[i].before == m.log[i].list)
        && m.log[i].epoch < |m.epochs| && m.epochs[m.log[i].epoch].store == []
  {
    AfterInv(load, store, file, threads, turns);
  }

  /** A writer that gets the lock finds what the last one left, give or take the seeding of an empty store; so do readers. */
  lemma UpdatesSurvive<C>(load: string -> Option<seq<C>>, store: seq<C>, file: string, threads: nat, turns: seq<Turn<C>>)
    ensures
      var m := After(load, Started(store, file, threads), turns);
      (forall t :: 0 <= t < |m.threads| ==> m.threads[t] != Writing) ==>
        && Quiet(load, m) && Seen(load, Snapshot(m.store, m.file)) == Seen(load, m.epochs[Epoch(m)])
  {
    AfterInv(load, store, file, threads, turns);
  }

  // ----- Turns are taken -----

  function Reading<C>(t: nat): seq<Turn<C>> {
    [Turn(t, RLock), Turn(t, Move.List(true)), Turn(t, ReadFile(true)), Turn(t, Save(true)), Turn(t, RUnlock)]
  }

  lemma AfterFive<C>(load: string -> Option<seq<C>>, m: Machine<C>, a: Turn<C>, b: Turn<C>, c: Turn<C>, d: Turn<C>, e: Turn<C>)
    requires m.epochs != []
    ensures
      var m1 := Took(load, m, a);
      && m1.epochs != []
      && var m2 := Took(load, m1, b);
         && m2.epochs != []
         && var m3 := Took(load, m2, c);
            && m3.epochs != []
            && var m4 := Took(load, m3, d);
               m4.epochs != [] && After(load, m, [a, b, c, d, e]) == Took(load, m4, e)
  {
    hide Took;
    assert [a, b, c, d, e][..4] == [a, b, c, d] && [a, b, c, d][..3] == [a, b, c];
    assert [a, b, c][..2] == [a, b] && [a, b][..1] == [a] && [a][..0] == [];
    assert After(load, m, [a]) == Took(load, After(load, m, []), a);
    assert After(load, m, [a, b]) == Took(load, After(load, m, [a]), b);
    assert After(load, m, [a, b, c]) == Took(load, After(load, m, [a, b]), c);
    assert After(load, m, [a, b, c, d]) == Took(load, After(load, m, [a, b, c]), d);
  }

  /** The thread stands at the given place. */
  function At<C>(m: Machine<C>, t: nat, thread: Thread<C>): Machine<C>
    requires t < |m.threads|
  {
    m.(threads := m.threads[t := thread])
  }

  lemma EnterTaken<C>(load: string -> Option<seq<C>>, m: Machine<C>, t: nat)
    requires m.epochs != [] && t < |m.threads| && m.threads[t] == Idle
    requires forall u :: 0 <= u < |m.threads| ==> m.threads[u] != Writing
    ensures Took(load, m, Turn(t, RLock)) == At(m, t, Entered)
  {
  }

  lemma ListTaken<C>(load: string -> Option<seq<C>>, m: Machine<C>, t: nat)
    requires m.epochs != [] && t < |m.threads|
    ensures Took(load, At(m, t, Entered), Turn(t, Move.List(true)))
            == At(m, t, if m.store != [] then Finished(Some(m.store)) else FoundEmpty)
  {
  }

  lemma FileTaken<C>(load: string -> Option<seq<C>>, m: Machine<C>, t: nat)
    requires m.epochs != [] && t < |m.threads|
    ensures
      var parsed := load(m.file);
      Took(load, At(m, t, FoundEmpty), Turn(t, ReadFile(true)))
      == At(m, t, if parsed.Some? && parsed.value != [] then Parsed(parsed.value) else Finished(parsed))
  {
  }

  /** Save and RUnlock of a reader that has something to seed. */
  lemma SaveTaken<C>(load: string -> Option<seq<C>>, m: Machine<C>, t: nat, list: seq<C>)
    requires m.epochs != [] && t < |m.threads| && m.threads[t] == Idle
    ensures
      var saved := Took(load, At(m, t, Parsed(list)), Turn(t, Save(true)));
      Took(load, saved, Turn(t, RUnlock))
      == m.(store := list, log := m.log + [Saved(Epoch(m), m.store, list), Returned(Epoch(m), list)])
  {
    var before := At(m, t, Parsed(list));
    var saved := Took(load, before, Turn(t, Save(true)));
    assert saved == At(m, t, Finished(Some(list))).(store := list, log := m.log + [Saved(Epoch(m), m.store, list)]);
    assert m.threads[t := Finished(Some(list))][t := Idle] == m.threads;
    assert (m.log + [Saved(Epoch(m), m.store, list)]) + [Returned(Epoch(m), list)]
           == m.log + [Saved(Epoch(m), m.store, list), Returned(Epoch(m), list)];
  }

  /** A reader that has finished passes over what it does not need, and leaves. */
  lemma Waits<C>(load: string -> Option<seq<C>>, m: Machine<C>, t: nat, thread: Thread<C>)
    requires m.epochs != [] && t < |m.threads| && m.threads[t] == Idle && thread.Finished?
    ensures Took(load, At(m, t, thread), Turn(t, ReadFile(true))) == At(m, t, thread)
    ensures Took(load, At(m, t, thread), Turn(t, Save(true))) == At(m, t, thread)
    ensures
      Took(load, At(m, t, thread), Turn(t, RUnlock))
      == m.(log := m.log + if thread.result.Some? then [Returned(Epoch(m), thread.result.value)] else [])
  {
    assert m.threads[t := thread][t := Idle] == m.threads;
  }

  /** A reader that nothing fails, and that meets no writer, returns what there is to see whatever other readers are about, and
      leaves it in the store; where nothing can be read, it returns nothing and changes nothing. */
  lemma ReaderReturns<C>(load: string -> Option<seq<C>>, m: Machine<C>, t: nat)
    requires m.epochs != [] && t < |m.threads| && m.threads[t] == Idle
    requires forall u :: 0 <= u < |m.threads| ==> m.threads[u] != Writing
    ensures
      var seen, next := Seen(load, Snapshot(m.store, m.file)), After(load, m, Reading(t));
      && next.threads == m.threads && next.file == m.file
      && next.store == (if seen.Some? then seen.value else m.store)
      && |next.log| >= |m.log| && next.log[..|m.log|] == m.log
      && (seen.Some? ==> |next.log| > |m.log| && next.log[|next.log| - 1] == Returned(Epoch(m), seen.value))
      && (seen.None? ==> next.log == m.log)
  {
    hide Took, Moved, Enabled, After;
    AfterFive(load, m, Turn(t, RLock), Turn(t, Move.List(true)), Turn(t, ReadFile(true)), Turn(t, Save(true)), Turn(t, RUnlock));
    var parsed := load(m.file);
    EnterTaken(load, m, t);
    ListTaken(load, m, t);
    if m.store != [] {
      Waits(load, m, t, Finished(Some(m.store)));
    } else {
      FileTaken(load, m, t);
      if parsed.Some? && parsed.value != [] {
        SaveTaken(load, m, t, parsed.value);
      } else {
        Waits(load, m, t, Finished(parsed));
      }
    }
  }

  /** A load in one piece, as the state machine of the service has it, sees exactly what interleaved readers see. */
  lemma LoadSeesTheSame<C>(r: Rules<C>, st: State<C>, o: Outcomes)
    ensures
      var l, seen := Load(r, st, o), Seen(r.load, Snapshot(st.store, st.file));
      && (l.list.Ok? ==> Some(l.list.value) == seen)
      && (l.state.store == st.store || (st.store == [] && Some(l.state.store) == seen))
      && (o.list && o.seedRead && o.seedSave && st.configured ==> (l.list.Ok? <==> seen.Some?))
  {
  }
}
