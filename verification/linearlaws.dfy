/** Linearizability of the service: in every interleaving of calls every call takes effect at one moment between its
    invocation and its return. */
module LinearLaws {
  import opened Text
  import opened Sorting
  import opened Keyed
  import opened Crud
  import opened CrudRuns
  import opened Linear

  // ----- Sequential runs that grow at the end -----

  lemma {:induction false} RunGrows<C(!new)>(r: Rules<C>, st: State<C>, events: seq<Event<C>>, e: Event<C>)
    ensures
      var s := Next(r, Final(r, st, events), e.call, e.o);
      && Final(r, st, events + [e]) == s.state
      && Replies(r, st, events + [e]) == Replies(r, st, events) + [s.reply]
    decreases |events|
  {
    hide Next;
    if events == [] {
      assert [] + [e] == [e];
    } else {
      var first, rest := events[0], events[1..];
      RunGrows(r, Next(r, st, first.call, first.o).state, rest, e);
      assert (events + [e])[1..] == rest + [e] && (events + [e])[0] == first;
    }
  }

  lemma SequenceGrows<C>(h: Past<C>, id: nat)
    requires ValidPast(h) && id < |h.calls|
    ensures ValidPast(Placed(h, id)) && Sequence(Placed(h, id)) == Sequence(h) + [h.calls[id].event]
  {
  }

  lemma SequenceStays<C>(h: Past<C>, e: Event<C>)
    requires ValidPast(h)
    ensures ValidPast(WithCall(h, e)) && Sequence(WithCall(h, e)) == Sequence(h)
  {
  }

  // ----- The invariant -----

  /** The call has had its place since it was invoked, and this is the sequential run's reply to it. */
  ghost predicate At<C(!new)>(r: Rules<C>, st: State<C>, h: Past<C>, id: nat, at: Option<nat>, reply: Reply<C>)
    requires ValidPast(h)
  {
    && at.Some? && at.value < |h.order| && h.order[at.value] == id && id < |h.calls| && h.calls[id].since <= at.value
    && Replies(r, st, Sequence(h))[at.value] == reply
  }

  /** The store is still empty, or another reader has seeded it meanwhile. */
  predicate Unwritten<C(==)>(r: Rules<C>, now: State<C>) {
    now.store == [] || r.load(now.file) == Some(now.store)
  }

  /** A reader that is going to seed has no place yet; any other has the place and the reply it is going to return. */
  ghost predicate Promised<C(!new)>(r: Rules<C>, st: State<C>, h: Past<C>, now: State<C>, id: nat, at: Option<nat>)
    requires ValidPast(h) && id < |h.calls|
  {
    var e := h.calls[id].event;
    && Loads(r, e) && e.o.list && Unwritten(r, now)
    && if WillSeed(r, now, e.o) then id !in h.order else At(r, st, h, id, at, Answer(r, e.call, FromFile(r, now, e.o)))
  }

  ghost predicate ThreadOk<C(!new)>(r: Rules<C>, st: State<C>, h: Past<C>, now: State<C>, thread: Thread<C>)
    requires ValidPast(h) && (thread.Idle? || thread.id < |h.calls|)
  {
    match thread
    case Idle => true
    case Called(id) => id !in h.order
    case Listing(id) => id !in h.order && Loads(r, h.calls[id].event)
    case Reading(id, at) => Promised(r, st, h, now, id, at)
    case Saving(id, list, at) =>
      && Promised(r, st, h, now, id, at)
      && now.configured && h.calls[id].event.o.seedRead && list != [] && r.load(now.file) == Some(list)
    case Writing(id) => id !in h.order
    case Leaving(id, reply, at, _) => At(r, st, h, id, at, reply)
  }

  /** A thread that holds the write lock is alone. */
  ghost predicate Excluded<C>(threads: seq<Thread<C>>) {
    forall t, u :: 0 <= t < |threads| && 0 <= u < |threads| && t != u && LockOf(threads[t]) == Exclusive ==>
      LockOf(threads[u]) == Unlocked
  }

  ghost predicate OneCallEach<C>(threads: seq<Thread<C>>) {
    forall t, u :: 0 <= t < |threads| && 0 <= u < |threads| && t != u && !threads[t].Idle? && !threads[u].Idle? ==>
      threads[t].id != threads[u].id
  }

  ghost predicate ResultOk<C(!new)>(r: Rules<C>, st: State<C>, h: Past<C>, result: Returned<C>)
    requires ValidPast(h)
  {
    At(r, st, h, result.id, result.at, result.reply) && result.at.value < result.end <= |h.order|
  }

  /** The order is that of a sequential run from the first state to the present one. */
  ghost predicate Sequential<C(!new)>(r: Rules<C>, st: State<C>, h: Past<C>, now: State<C>)
    requires ValidPast(h)
  {
    && Distinct(h.order) && now == Final(r, st, Sequence(h)) && now.client
    && forall id :: 0 <= id < |h.calls| ==> h.calls[id].since <= |h.order|
  }

  ghost predicate Inv<C(!new)>(r: Rules<C>, st: State<C>, m: Machine<C>) {
    && Known(m) && Sequential(r, st, m.past, m.state) && Excluded(m.threads) && OneCallEach(m.threads)
    && (forall t :: 0 <= t < |m.threads| ==> ThreadOk(r, st, m.past, m.state, m.threads[t]))
    && forall i :: 0 <= i < |m.results| ==> ResultOk(r, st, m.past, m.results[i])
  }

  // ----- The past grows -----

  lemma AtStays<C(!new)>(r: Rules<C>, st: State<C>, h: Past<C>, e: Event<C>, id: nat, at: Option<nat>, reply: Reply<C>)
    requires ValidPast(h) && At(r, st, h, id, at, reply)
    ensures ValidPast(WithCall(h, e)) && At(r, st, WithCall(h, e), id, at, reply)
  {
    hide Replies, Sequence;
    SequenceStays(h, e);
  }

  lemma AtGrows<C(!new)>(r: Rules<C>, st: State<C>, h: Past<C>, next: nat, id: nat, at: Option<nat>, reply: Reply<C>)
    requires ValidPast(h) && next < |h.calls| && At(r, st, h, id, at, reply)
    ensures ValidPast(Placed(h, next)) && At(r, st, Placed(h, next), id, at, reply)
  {
    hide Replies, Sequence, Next, Final;
    SequenceGrows(h, next);
    RunGrows(r, st, Sequence(h), h.calls[next].event);
  }

  /** A call that takes its place gets the reply of the sequential run there. */
  lemma AtEnd<C(!new)>(r: Rules<C>, st: State<C>, h: Past<C>, now: State<C>, id: nat)
    requires ValidPast(h) && Sequential(r, st, h, now) && id < |h.calls| && id !in h.order
    ensures
      var e := h.calls[id].event;
      var s := Next(r, now, e.call, e.o);
      && ValidPast(Placed(h, id)) && At(r, st, Placed(h, id), id, Some(|h.order|), s.reply)
      && (s.state.client ==> Sequential(r, st, Placed(h, id), s.state))
  {
    hide Replies, Sequence, Next, Final;
    SequenceGrows(h, id);
    RunGrows(r, st, Sequence(h), h.calls[id].event);
  }

  /** Other threads do not notice an invocation. */
  lemma InvocationKeeps<C(!new)>(r: Rules<C>, st: State<C>, h: Past<C>, now: State<C>, e: Event<C>, thread: Thread<C>)
    requires ValidPast(h) && (thread.Idle? || thread.id < |h.calls|) && ThreadOk(r, st, h, now, thread)
    ensures ValidPast(WithCall(h, e)) && ThreadOk(r, st, WithCall(h, e), now, thread)
  {
    hide At, Answer, FromFile, WillSeed, Sequence;
    SequenceStays(h, e);
    match thread
    case Reading(id, at) =>
      if !WillSeed(r, now, h.calls[id].event.o) {
        AtStays(r, st, h, e, id, at, Answer(r, h.calls[id].event.call, FromFile(r, now, h.calls[id].event.o)));
      }
    case Saving(id, _, at) =>
      if !WillSeed(r, now, h.calls[id].event.o) {
        AtStays(r, st, h, e, id, at, Answer(r, h.calls[id].event.call, FromFile(r, now, h.calls[id].event.o)));
      }
    case Leaving(id, reply, at, _) => AtStays(r, st, h, e, id, at, reply);
    case _ =>
  }

  /** What readers may do to the state while other readers are inside. */
  predicate Gentle<C(==)>(r: Rules<C>, now: State<C>, next: State<C>) {
    && next.file == now.file && next.configured == now.configured && (Unwritten(r, now) ==> Unwritten(r, next))
  }

  lemma GentleFile<C>(r: Rules<C>, now: State<C>, next: State<C>, o: Outcomes)
    requires Gentle(r, now, next)
    ensures FromFile(r, next, o) == FromFile(r, now, o)
  {
  }

  /** Nor do they notice that another call takes its place, as long as the state changes gently while they hold a lock. */
  lemma PlacingKeeps<C(!new)>(r: Rules<C>, st: State<C>, h: Past<C>, now: State<C>, placed: nat, next: State<C>,
                              thread: Thread<C>)
    requires ValidPast(h) && placed < |h.calls| && (thread.Idle? || (thread.id < |h.calls| && thread.id != placed))
    requires ThreadOk(r, st, h, now, thread) && (LockOf(thread) == Unlocked || Gentle(r, now, next))
    ensures ValidPast(Placed(h, placed)) && ThreadOk(r, st, Placed(h, placed), next, thread)
  {
    hide At, Answer, FromFile, Sequence;
    SequenceGrows(h, placed);
    match thread
    case Reading(id, at) => PromiseKept(r, st, h, now, placed, next, id, at);
    case Saving(id, _, at) => PromiseKept(r, st, h, now, placed, next, id, at);
    case Leaving(id, reply, at, _) => AtGrows(r, st, h, placed, id, at, reply);
    case _ =>
  }

  lemma PromiseKept<C(!new)>(r: Rules<C>, st: State<C>, h: Past<C>, now: State<C>, placed: nat, next: State<C>, id: nat,
                             at: Option<nat>)
    requires ValidPast(h) && placed < |h.calls| && id < |h.calls| && id != placed
    requires Promised(r, st, h, now, id, at) && Gentle(r, now, next)
    ensures ValidPast(Placed(h, placed)) && Promised(r, st, Placed(h, placed), next, id, at)
  {
    hide At, Answer, FromFile, Sequence;
    var e := h.calls[id].event;
    GentleFile(r, now, next, e.o);
    if !WillSeed(r, now, e.o) {
      AtGrows(r, st, h, placed, id, at, Answer(r, e.call, FromFile(r, now, e.o)));
    }
  }

  // ----- The steps of one thread -----

  /** A read in one piece. */
  lemma ReadInOnePiece<C>(r: Rules<C>, now: State<C>, e: Event<C>)
    requires Loads(r, e)
    ensures
      var l := Load(r, now, e.o);
      Next(r, now, e.call, e.o) == Step(l.state, Answer(r, e.call, l.list))
    ensures
      e.o.list && now.store == [] ==>
        var l, list := Load(r, now, e.o), FromFile(r, now, e.o);
        l.list == list && l.state == if WillSeed(r, now, e.o) then now.(store := list.value) else now
    ensures !e.o.list ==> Load(r, now, e.o) == Loaded(now, Err(ListFailed))
    ensures e.o.list && now.store != [] ==> Load(r, now, e.o) == Loaded(now, Ok(now.store))
  {
    hide Find, SortBy;
  }

  /** The step of a thread fits: if the call takes its place, the state is that after the call in one piece; the thread is
      where it should be. */
  ghost predicate Fits<C(!new)>(r: Rules<C>, st: State<C>, h: Past<C>, now: State<C>, id: nat, f: Effect<C>)
    requires ValidPast(h) && id < |h.calls| && !f.thread.Idle? && f.thread.id == id
  {
    var e := h.calls[id].event;
    && (f.placed ==> id !in h.order && f.state == Next(r, now, e.call, e.o).state)
    && (!f.placed ==> f.state == now)
    && ValidPast(Placed(h, id)) && ThreadOk(r, st, if f.placed then Placed(h, id) else h, f.state, f.thread)
  }

  /** With the client in place, what is answered early is answered the same in one piece. */
  lemma RefusedInOnePiece<C>(r: Rules<C>, now: State<C>, e: Event<C>)
    requires now.client && Refused(r, e).Some?
    ensures Next(r, now, e.call, e.o) == Step(now, Failed(Invalid(Refused(r, e).value)))
  {
  }

  lemma LockFits<C(!new)>(r: Rules<C>, st: State<C>, h: Past<C>, now: State<C>, id: nat)
    requires ValidPast(h) && Sequential(r, st, h, now) && id < |h.calls| && ThreadOk(r, st, h, now, Called(id))
    ensures Fits(r, st, h, now, id, LockStep(r, now, h.calls[id].event, id, |h.order|))
  {
    hide At, Next, Refused, Final, Sequence, Distinct;
    AtEnd(r, st, h, now, id);
    if Refused(r, h.calls[id].event).Some? {
      RefusedInOnePiece(r, now, h.calls[id].event);
    }
  }

  lemma ListFits<C(!new)>(r: Rules<C>, st: State<C>, h: Past<C>, now: State<C>, id: nat)
    requires ValidPast(h) && Sequential(r, st, h, now) && id < |h.calls| && ThreadOk(r, st, h, now, Listing(id))
    ensures Fits(r, st, h, now, id, ListStep(r, now, h.calls[id].event, id, |h.order|))
    ensures Gentle(r, now, ListStep(r, now, h.calls[id].event, id, |h.order|).state)
  {
    hide Sequential, At, Next, Load, Answer, FromFile;
    AtEnd(r, st, h, now, id);
    ReadInOnePiece(r, now, h.calls[id].event);
  }

  lemma ReadFits<C(!new)>(r: Rules<C>, st: State<C>, h: Past<C>, now: State<C>, id: nat, at: Option<nat>)
    requires ValidPast(h) && id < |h.calls| && ThreadOk(r, st, h, now, Reading(id, at))
    ensures Fits(r, st, h, now, id, ReadStep(r, now, h.calls[id].event, id, at))
  {
    hide At, Next, Answer;
    SequenceGrows(h, id);
  }

  lemma SaveFits<C(!new)>(r: Rules<C>, st: State<C>, h: Past<C>, now: State<C>, id: nat, list: seq<C>, at: Option<nat>)
    requires ValidPast(h) && Sequential(r, st, h, now) && id < |h.calls| && ThreadOk(r, st, h, now, Saving(id, list, at))
    ensures Fits(r, st, h, now, id, SaveStep(r, now, h.calls[id].event, id, list, at, |h.order|))
    ensures Gentle(r, now, SaveStep(r, now, h.calls[id].event, id, list, at, |h.order|).state)
  {
    hide Sequential, At, Next, Load, Answer;
    SequenceGrows(h, id);
    if h.calls[id].event.o.seedSave {
      AtEnd(r, st, h, now, id);
      ReadInOnePiece(r, now, h.calls[id].event);
    }
  }

  lemma WriteFits<C(!new)>(r: Rules<C>, st: State<C>, h: Past<C>, now: State<C>, id: nat)
    requires ValidPast(h) && Sequential(r, st, h, now) && id < |h.calls| && ThreadOk(r, st, h, now, Writing(id))
    ensures Fits(r, st, h, now, id, WriteStep(r, now, h.calls[id].event, id, |h.order|))
  {
    hide Sequential, At, Next;
    AtEnd(r, st, h, now, id);
  }

  // ----- Every turn keeps the invariant -----

  lemma PersistKeepsClient<C>(r: Rules<C>, st: State<C>, change: Change<C>, o: Outcomes, persistStore: bool)
    requires Applies(st.store, change)
    ensures Persist(r, st, change, o, persistStore).state.client == st.client
  {
    hide EnsureAll, Apply, Reflect;
  }

  lemma LoadKeepsClient<C>(r: Rules<C>, st: State<C>, o: Outcomes)
    ensures Load(r, st, o).state.client == st.client
  {
  }

  lemma ClientStays<C>(r: Rules<C>, st: State<C>, call: Call<C>, o: Outcomes)
    requires st.client
    ensures Next(r, st, call, o).state.client
  {
    hide SortBy, Load, Persist;
    LoadKeepsClient(r, st, o);
    var l := Load(r, st, o);
    match call
    case Create(c) => PersistKeepsClient(r, l.state, Added(r.normalize(c)), o, true);
    case Update(c) =>
      if l.list.Ok? && Find(l.list.value, r.key, r.key(c)) != -1 {
        PersistKeepsClient(r, l.state, Replaced(Find(l.list.value, r.key, r.key(c)), r.normalize(c)), o, true);
      }
    case Delete(name) =>
      if l.list.Ok? && Find(l.list.value, r.key, r.trim(name)) != -1 {
        PersistKeepsClient(r, l.state, Removed(Find(l.list.value, r.key, r.trim(name))), o, true);
      }
    case Start => PersistKeepsClient(r, st, Unchanged, o, false);
    case _ =>
  }

  /** What a step of a thread does to its lock and to the state. */
  lemma StepLocks<C>(r: Rules<C>, st: State<C>, e: Event<C>, thread: Thread<C>, here: nat)
    requires !thread.Idle? && !thread.Leaving?
    requires (thread.Listing? || thread.Reading? || thread.Saving?) ==> Loads(r, e)
    ensures
      LockOf(StepOf(r, st, e, thread, here).thread) ==
      if !thread.Called? then LockOf(thread)
      else if Loads(r, e) then Shared
      else if Writes(r, e) then Exclusive
      else Unlocked
  {
    hide Next, Answer, WillSeed, Refused;
  }

  lemma StepFits<C(!new)>(r: Rules<C>, st: State<C>, h: Past<C>, now: State<C>, thread: Thread<C>)
    requires ValidPast(h) && Sequential(r, st, h, now) && !thread.Idle? && !thread.Leaving? && thread.id < |h.calls|
    requires ThreadOk(r, st, h, now, thread)
    ensures
      var f := StepOf(r, now, h.calls[thread.id].event, thread, |h.order|);
      && !f.thread.Idle? && f.thread.id == thread.id && Fits(r, st, h, now, thread.id, f)
      && (LockOf(thread) != Exclusive ==> Gentle(r, now, f.state))
  {
    hide Sequential, Fits, ThreadOk, Sequence, Final, Next, At, Refused, WillSeed, Answer;
    StepKeepsId(r, now, h.calls[thread.id].event, thread, |h.order|);
    match thread
    case Called(id) => LockFits(r, st, h, now, id);
    case Listing(id) => ListFits(r, st, h, now, id);
    case Reading(id, at) => ReadFits(r, st, h, now, id, at);
    case Saving(id, list, at) => SaveFits(r, st, h, now, id, list, at);
    case Writing(id) => WriteFits(r, st, h, now, id);
  }

  lemma StepKeeps<C(!new)>(r: Rules<C>, st: State<C>, m: Machine<C>, turn: Turn<C>)
    requires Inv(r, st, m) && Enabled(r, m, turn.t) && !m.threads[turn.t].Idle? && !m.threads[turn.t].Leaving?
    ensures Inv(r, st, Moved(r, m, turn))
  {
    hide Sequential, ThreadOk, Fits, StepOf, Sequence, Final, Next, At, ResultOk, Gentle;
    var t, h := turn.t, m.past;
    var thread := m.threads[t];
    var id := thread.id;
    var e := h.calls[id].event;
    var f := StepOf(r, m.state, e, thread, |h.order|);
    StepFits(r, st, h, m.state, thread);
    StepExcludes(r, st, m, t);
    StaysKnown(r, m, turn);
    StepFollows(r, st, h, m.state, id, f);
    forall u | 0 <= u < |m.threads| && u != t
      ensures ThreadOk(r, st, Moved(r, m, turn).past, f.state, m.threads[u])
    {
      assert LockOf(thread) == Exclusive ==> LockOf(m.threads[u]) == Unlocked;
      OtherKeeps(r, st, h, m.state, id, f, m.threads[u]);
    }
    forall i | 0 <= i < |m.results| ensures ResultOk(r, st, Moved(r, m, turn).past, m.results[i]) {
      if f.placed {
        ResultStays(r, st, h, id, m.results[i]);
      }
    }
  }

  lemma StepExcludes<C(!new)>(r: Rules<C>, st: State<C>, m: Machine<C>, t: nat)
    requires Inv(r, st, m) && Enabled(r, m, t) && !m.threads[t].Idle? && !m.threads[t].Leaving?
    ensures
      var thread := m.threads[t];
      var f := StepOf(r, m.state, m.past.calls[thread.id].event, thread, |m.past.order|);
      Excluded(m.threads[t := f.thread])
  {
    hide Sequential, StepOf, Sequence, Final, Next, At, ResultOk, Refused, FromFile, WillSeed, Unwritten;
    var thread := m.threads[t];
    StepLocks(r, m.state, m.past.calls[thread.id].event, thread, |m.past.order|);
  }

  lemma StepFollows<C(!new)>(r: Rules<C>, st: State<C>, h: Past<C>, now: State<C>, id: nat, f: Effect<C>)
    requires ValidPast(h) && Sequential(r, st, h, now) && id < |h.calls| && !f.thread.Idle? && f.thread.id == id
    requires Fits(r, st, h, now, id, f)
    ensures
      var h' := if f.placed then Placed(h, id) else h;
      ValidPast(h') && Sequential(r, st, h', f.state) && ThreadOk(r, st, h', f.state, f.thread)
  {
    hide Sequence, Final, Next, At, ThreadOk, Distinct;
    if f.placed {
      AtEnd(r, st, h, now, id);
      ClientStays(r, now, h.calls[id].event.call, h.calls[id].event.o);
    }
  }

  lemma OtherKeeps<C(!new)>(r: Rules<C>, st: State<C>, h: Past<C>, now: State<C>, id: nat, f: Effect<C>, other: Thread<C>)
    requires ValidPast(h) && id < |h.calls| && !f.thread.Idle? && f.thread.id == id && Fits(r, st, h, now, id, f)
    requires other.Idle? || (other.id < |h.calls| && other.id != id)
    requires ThreadOk(r, st, h, now, other) && (LockOf(other) == Unlocked || Gentle(r, now, f.state))
    ensures
      var h' := if f.placed then Placed(h, id) else h;
      ValidPast(h') && ThreadOk(r, st, h', f.state, other)
  {
    hide Sequence, Next, At, ThreadOk, Gentle;
    if f.placed {
      PlacingKeeps(r, st, h, now, id, f.state, other);
    }
  }

  lemma ResultStays<C(!new)>(r: Rules<C>, st: State<C>, h: Past<C>, id: nat, result: Returned<C>)
    requires ValidPast(h) && id < |h.calls| && ResultOk(r, st, h, result)
    ensures ValidPast(Placed(h, id)) && ResultOk(r, st, Placed(h, id), result)
  {
    hide At, Sequence;
    AtGrows(r, st, h, id, result.id, result.at, result.reply);
  }

  lemma CallKeeps<C(!new)>(r: Rules<C>, st: State<C>, m: Machine<C>, turn: Turn<C>)
    requires Inv(r, st, m) && turn.t < |m.threads| && m.threads[turn.t].Idle?
    ensures Inv(r, st, Moved(r, m, turn))
  {
    hide ThreadOk, Sequence, Final, At, Distinct;
    var h, e := m.past, turn.event;
    SequenceStays(h, e);
    forall u | 0 <= u < |m.threads| ensures ThreadOk(r, st, WithCall(h, e), m.state, m.threads[u]) {
      InvocationKeeps(r, st, h, m.state, e, m.threads[u]);
    }
    NewCallOk(r, st, h, m.state, e);
    forall i | 0 <= i < |m.results| ensures ResultOk(r, st, WithCall(h, e), m.results[i]) {
      AtStays(r, st, h, e, m.results[i].id, m.results[i].at, m.results[i].reply);
    }
  }

  lemma NewCallOk<C(!new)>(r: Rules<C>, st: State<C>, h: Past<C>, now: State<C>, e: Event<C>)
    requires ValidPast(h)
    ensures ValidPast(WithCall(h, e)) && ThreadOk(r, st, WithCall(h, e), now, Called(|h.calls|))
  {
  }

  lemma ReturnKeeps<C(!new)>(r: Rules<C>, st: State<C>, m: Machine<C>, turn: Turn<C>)
    requires Inv(r, st, m) && turn.t < |m.threads| && m.threads[turn.t].Leaving?
    ensures Inv(r, st, Moved(r, m, turn))
  {
    hide Sequence, Sequential, FromFile, WillSeed, Unwritten;
  }

  lemma {:induction false} AfterInv<C(!new)>(r: Rules<C>, st: State<C>, threads: nat, turns: seq<Turn<C>>)
    requires st.client
    ensures Inv(r, st, After(r, st, threads, turns))
    decreases |turns|
  {
    hide Enabled, Moved;
    if turns == [] {
      StartedInv(r, st, threads);
    } else {
      var m, turn := After(r, st, threads, turns[..|turns| - 1]), turns[|turns| - 1];
      AfterInv(r, st, threads, turns[..|turns| - 1]);
      TurnKeeps(r, st, m, turn);
    }
  }

  lemma StartedInv<C(!new)>(r: Rules<C>, st: State<C>, threads: nat)
    requires st.client
    ensures Inv(r, st, Started(st, threads))
  {
  }

  lemma TurnKeeps<C(!new)>(r: Rules<C>, st: State<C>, m: Machine<C>, turn: Turn<C>)
    requires Inv(r, st, m)
    ensures Inv(r, st, Took(r, m, turn))
  {
    hide Inv, Moved;
    assert Known(m) by { InvKnown(r, st, m); }
    if Enabled(r, m, turn.t) {
      if m.threads[turn.t].Idle? {
        CallKeeps(r, st, m, turn);
      } else if m.threads[turn.t].Leaving? {
        ReturnKeeps(r, st, m, turn);
      } else {
        StepKeeps(r, st, m, turn);
      }
    }
  }

  lemma InvKnown<C(!new)>(r: Rules<C>, st: State<C>, m: Machine<C>)
    requires Inv(r, st, m)
    ensures Known(m)
  {
  }

  ghost predicate AllCalls<C>(h: Past<C>, p: Event<C> -> bool) {
    forall i :: 0 <= i < |h.calls| ==> p(h.calls[i].event)
  }

  /** The calls are those of the turns. */
  lemma {:induction false} CallsAreTurns<C(!new)>(r: Rules<C>, st: State<C>, threads: nat, turns: seq<Turn<C>>,
                                                  p: Event<C> -> bool)
    requires forall k :: 0 <= k < |turns| ==> p(turns[k].event)
    ensures AllCalls(After(r, st, threads, turns).past, p)
    ensures All(Events(r, st, threads, turns), p)
    decreases |turns|
  {
    hide Enabled, StepOf;
    if turns != [] {
      var front, turn := turns[..|turns| - 1], turns[|turns| - 1];
      CallsAreTurns(r, st, threads, front, p);
      assert p(turn.event);
    }
  }

  // ----- The theorem -----

  /** Linearizability: whatever the interleaving, the state is that after the calls one by one in a certain order without
      repetition, and every call that has returned is explained by that order. */
  lemma Linearizable<C(!new)>(r: Rules<C>, st: State<C>, threads: nat, turns: seq<Turn<C>>)
    requires st.client
    ensures
      var m, events := After(r, st, threads, turns), Events(r, st, threads, turns);
      m.state == Final(r, st, events) && AllExplained(m, Replies(r, st, events))
  {
    hide After, Sequence, Final, Replies, ThreadOk, Distinct;
    AfterInv(r, st, threads, turns);
  }

  /** Calls keep their order in time: one that returns before another is invoked takes effect before it. */
  lemma OrderInTime<C(!new)>(r: Rules<C>, st: State<C>, threads: nat, turns: seq<Turn<C>>, i: nat, j: nat)
    requires st.client
    requires
      var m := After(r, st, threads, turns);
      && i < |m.results| && j < |m.results| && m.results[j].id < |m.past.calls|
      && m.results[i].end <= m.past.calls[m.results[j].id].since
    ensures
      var m := After(r, st, threads, turns);
      exists a: nat, b: nat ::
        a < b < |m.past.order| && m.past.order[a] == m.results[i].id && m.past.order[b] == m.results[j].id
  {
    hide After, Events, Final, Replies, Distinct;
    Linearizable(r, st, threads, turns);
    var m, replies := After(r, st, threads, turns), Replies(r, st, Events(r, st, threads, turns));
    assert Explained(m.past, m.results[i], replies) && Explained(m.past, m.results[j], replies);
  }

  // ----- Calls do return -----

  /** The same thread takes n turns. */
  function Alone<C(==)>(r: Rules<C>, m: Machine<C>, turn: Turn<C>, n: nat): (next: Machine<C>)
    requires Known(m)
    ensures Known(next)
  {
    if n == 0 then m else Took(r, Alone(r, m, turn, n - 1), turn)
  }

  lemma {:induction false} AloneFirst<C>(r: Rules<C>, m: Machine<C>, turn: Turn<C>, n: nat)
    requires Known(m)
    ensures Alone(r, m, turn, n + 1) == Alone(r, Took(r, m, turn), turn, n)
  {
    hide Took;
    if n == 0 {
      assert Alone(r, m, turn, 1) == Took(r, Alone(r, m, turn, 0), turn);
    } else {
      AloneFirst(r, m, turn, n - 1);
    }
  }

  /** The thread is idle again, the state is that after the call in one piece, and so is the reply it has returned. */
  ghost predicate HasReturned<C(!new)>(r: Rules<C>, m: Machine<C>, t: nat, id: nat, e: Event<C>, next: Machine<C>)
    requires t < |m.threads|
  {
    var s, n := Next(r, m.state, e.call, e.o), |m.results|;
    && next.threads == m.threads[t := Idle] && next.state == s.state
    && |next.results| == n + 1 && next.results[..n] == m.results && next.results[n].id == id
    && next.results[n].reply == s.reply
  }

  /** A thread inside a call that is not waiting for its lock. */
  predicate Inside<C(==)>(m: Machine<C>, t: nat, thread: Thread<C>)
    requires Known(m)
  {
    t < |m.threads| && m.threads[t] == thread && !thread.Idle? && !thread.Called?
  }

  lemma StepTaken<C>(r: Rules<C>, m: Machine<C>, turn: Turn<C>, thread: Thread<C>)
    requires Known(m) && Inside(m, turn.t, thread) && !thread.Leaving?
    ensures
      var f, next := StepOf(r, m.state, m.past.calls[thread.id].event, thread, |m.past.order|), Took(r, m, turn);
      && next.threads == m.threads[turn.t := f.thread] && next.state == f.state
      && next.past.calls == m.past.calls && next.results == m.results
  {
    hide StepOf;
  }

  lemma LeaveTaken<C>(r: Rules<C>, m: Machine<C>, turn: Turn<C>, thread: Thread<C>)
    requires Known(m) && Inside(m, turn.t, thread) && thread.Leaving?
    ensures
      var next := Took(r, m, turn);
      && next.threads == m.threads[turn.t := Idle] && next.state == m.state
      && next.results == m.results + [Returned(thread.id, thread.reply, thread.at, |m.past.order|)]
  {
  }

  /** No other thread is in the way of the call: none may be inside for a call that writes, none but readers for a lookup, and
      any may be for a call that is refused for its arguments. */
  predicate IsFree<C>(r: Rules<C>, m: Machine<C>, t: nat, e: Event<C>) {
    match e.call
    case Create(c) => r.validate(c, e.o.verdicts).Some? || NobodyElse(m, t)
    case Update(c) => r.validate(c, e.o.verdicts).Some? || NobodyElse(m, t)
    case Delete(name) => r.trim(name) == "" || NobodyElse(m, t)
    case Get(name) => r.trim(name) == "" || NoWriterElse(m, t)
    case List => NoWriterElse(m, t)
    case Start => NobodyElse(m, t)
  }

  predicate NobodyElse<C>(m: Machine<C>, t: nat) {
    forall u :: 0 <= u < |m.threads| && u != t ==> LockOf(m.threads[u]) == Unlocked
  }

  predicate NoWriterElse<C>(m: Machine<C>, t: nat) {
    forall u :: 0 <= u < |m.threads| && u != t ==> LockOf(m.threads[u]) != Exclusive
  }

  lemma LockTaken<C>(r: Rules<C>, m: Machine<C>, turn: Turn<C>, id: nat)
    requires Known(m) && turn.t < |m.threads| && m.threads[turn.t] == Called(id)
    requires IsFree(r, m, turn.t, m.past.calls[id].event)
    ensures
      var f, next := LockStep(r, m.state, m.past.calls[id].event, id, |m.past.order|), Took(r, m, turn);
      && next.threads == m.threads[turn.t := f.thread] && next.state == m.state
      && next.past.calls == m.past.calls && next.results == m.results
  {
    FreeIsEnabled(r, m, turn.t, id);
    hide Refused, Enabled, IsFree;
  }

  lemma FreeIsEnabled<C>(r: Rules<C>, m: Machine<C>, t: nat, id: nat)
    requires Known(m) && t < |m.threads| && m.threads[t] == Called(id) && IsFree(r, m, t, m.past.calls[id].event)
    ensures Enabled(r, m, t)
  {
  }

  /** From Leaving: one turn. */
  lemma Leaves<C(!new)>(r: Rules<C>, m: Machine<C>, turn: Turn<C>, before: State<C>, thread: Thread<C>, e: Event<C>)
    requires Known(m) && Inside(m, turn.t, thread) && thread.Leaving?
    requires thread.reply == Next(r, before, e.call, e.o).reply && m.state == Next(r, before, e.call, e.o).state
    ensures HasReturned(r, m.(state := before), turn.t, thread.id, e, Alone(r, m, turn, 1))
  {
    hide Next;
    LeaveTaken(r, m, turn, thread);
    assert Alone(r, m, turn, 1) == Took(r, Alone(r, m, turn, 0), turn);
  }

  lemma AlsoReturned<C(!new)>(r: Rules<C>, m: Machine<C>, later: Machine<C>, before: State<C>, t: nat, id: nat, e: Event<C>,
                              next: Machine<C>)
    requires t < |m.threads| && t < |later.threads| && later.threads[t := Idle] == m.threads[t := Idle]
    requires later.results == m.results
    requires HasReturned(r, later.(state := before), t, id, e, next)
    ensures HasReturned(r, m.(state := before), t, id, e, next)
  {
    hide Next;
  }

  /** From Saving: two turns. */
  lemma SavesOn<C(!new)>(r: Rules<C>, m: Machine<C>, turn: Turn<C>, before: State<C>, id: nat, list: seq<C>, at: Option<nat>,
                       e: Event<C>)
    requires Known(m) && Inside(m, turn.t, Saving(id, list, at)) && m.past.calls[id].event == e && m.state == before
    requires Loads(r, e) && e.o.list && before.store == [] && list != []
    requires before.configured && e.o.seedRead && r.load(before.file) == Some(list)
    ensures HasReturned(r, m.(state := before), turn.t, id, e, Alone(r, m, turn, 2))
  {
    hide Next, Load, Answer, HasReturned, Moved;
    StepTaken(r, m, turn, Saving(id, list, at));
    var later := Took(r, m, turn);
    ReadInOnePiece(r, before, e);
    Leaves(r, later, turn, before, later.threads[turn.t], e);
    AlsoReturned(r, m, later, before, turn.t, id, e, Alone(r, later, turn, 1));
    AloneFirst(r, m, turn, 1);
  }

  /** From Reading: two or three turns. */
  lemma ReadsOn<C(!new)>(r: Rules<C>, m: Machine<C>, turn: Turn<C>, before: State<C>, id: nat, at: Option<nat>, e: Event<C>)
    returns (n: nat)
    requires Known(m) && Inside(m, turn.t, Reading(id, at)) && m.past.calls[id].event == e && m.state == before
    requires Loads(r, e) && e.o.list && before.store == []
    ensures n <= 3 && HasReturned(r, m.(state := before), turn.t, id, e, Alone(r, m, turn, n))
  {
    hide Next, Load, Answer, HasReturned, Moved;
    StepTaken(r, m, turn, Reading(id, at));
    var later := Took(r, m, turn);
    var thread := later.threads[turn.t];
    ReadInOnePiece(r, before, e);
    if thread.Leaving? {
      n := 1;
      Leaves(r, later, turn, before, thread, e);
    } else {
      n := 2;
      SavesOn(r, later, turn, before, id, thread.list, at, e);
    }
    AlsoReturned(r, m, later, before, turn.t, id, e, Alone(r, later, turn, n));
    AloneFirst(r, m, turn, n);
    n := n + 1;
  }

  /** From Listing: two to four turns. */
  lemma ListsOn<C(!new)>(r: Rules<C>, m: Machine<C>, turn: Turn<C>, id: nat, e: Event<C>)
    returns (n: nat)
    requires Known(m) && Inside(m, turn.t, Listing(id)) && m.past.calls[id].event == e && Loads(r, e)
    ensures n <= 4 && HasReturned(r, m, turn.t, id, e, Alone(r, m, turn, n))
  {
    hide Next, Load, Answer, HasReturned, Moved, WillSeed, FromFile;
    StepTaken(r, m, turn, Listing(id));
    var later := Took(r, m, turn);
    var thread := later.threads[turn.t];
    ReadInOnePiece(r, m.state, e);
    if thread.Leaving? {
      n := 1;
      Leaves(r, later, turn, m.state, thread, e);
    } else {
      n := ReadsOn(r, later, turn, m.state, id, thread.at, e);
    }
    AlsoReturned(r, m, later, m.state, turn.t, id, e, Alone(r, later, turn, n));
    AloneFirst(r, m, turn, n);
    n := n + 1;
  }

  /** From Writing: two turns. */
  lemma WritesOn<C(!new)>(r: Rules<C>, m: Machine<C>, turn: Turn<C>, id: nat, e: Event<C>)
    requires Known(m) && Inside(m, turn.t, Writing(id)) && m.past.calls[id].event == e
    ensures HasReturned(r, m, turn.t, id, e, Alone(r, m, turn, 2))
  {
    hide Next, HasReturned, Moved;
    StepTaken(r, m, turn, Writing(id));
    var later := Took(r, m, turn);
    Leaves(r, later, turn, m.state, later.threads[turn.t], e);
    AlsoReturned(r, m, later, m.state, turn.t, id, e, Alone(r, later, turn, 1));
    AloneFirst(r, m, turn, 1);
  }

  /** From Called, while no other thread is in the way: two to five turns. */
  lemma Enters<C(!new)>(r: Rules<C>, m: Machine<C>, turn: Turn<C>, id: nat, e: Event<C>)
    returns (n: nat)
    requires Known(m) && turn.t < |m.threads| && m.threads[turn.t] == Called(id) && m.past.calls[id].event == e
    requires m.state.client
    requires IsFree(r, m, turn.t, e)
    ensures n <= 5 && HasReturned(r, m, turn.t, id, e, Alone(r, m, turn, n))
  {
    hide Next, HasReturned, Moved, Refused;
    LockTaken(r, m, turn, id);
    var later := Took(r, m, turn);
    var thread := later.threads[turn.t];
    if Refused(r, e).Some? {
      n := 1;
      RefusedInOnePiece(r, m.state, e);
      Leaves(r, later, turn, m.state, thread, e);
    } else if Reads(e.call) {
      n := ListsOn(r, later, turn, id, e);
    } else {
      n := 2;
      WritesOn(r, later, turn, id, e);
    }
    AlsoReturned(r, m, later, m.state, turn.t, id, e, Alone(r, later, turn, n));
    AloneFirst(r, m, turn, n);
    n := n + 1;
  }

  /** A call that finds no other thread in its way returns after at most six turns of its thread, with the effect and the reply
      it has in one piece: interleavings do happen, and the sequential runs are among them. */
  lemma CallReturns<C(!new)>(r: Rules<C>, m: Machine<C>, turn: Turn<C>)
    returns (n: nat)
    requires Known(m) && turn.t < |m.threads| && m.threads[turn.t] == Idle && m.state.client
    requires IsFree(r, m, turn.t, turn.event)
    ensures n <= 6 && HasReturned(r, m, turn.t, |m.past.calls|, turn.event, Alone(r, m, turn, n))
  {
    hide Next, HasReturned, Refused, StepOf;
    var later := Took(r, m, turn);
    n := Enters(r, later, turn, |m.past.calls|, turn.event);
    AlsoReturned(r, m, later, m.state, turn.t, |m.past.calls|, turn.event, Alone(r, later, turn, n));
    AloneFirst(r, m, turn, n);
    n := n + 1;
  }
}
