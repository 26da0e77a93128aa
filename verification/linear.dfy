/** Whole calls of the service in any interleaving. Readers, which may seed under the read lock, go step by step; a writer,
    which is alone behind its lock, works in one piece. */
module Linear {
  import opened Text
  import opened Sorting
  import opened Keyed
  import opened Types
  import opened Crud
  import opened CrudRuns

  datatype Lock = Unlocked | Shared | Exclusive

  /** Where a thread stands in the call with number id. Readers go through List, ReadFile and Save; at is the place of the
      call in the linear order, once it has one. */
  datatype Thread<C> =
    | Idle
    | Called(id: nat)
    | Listing(id: nat)
    | Reading(id: nat, at: Option<nat>)
    | Saving(id: nat, list: seq<C>, at: Option<nat>)
    | Writing(id: nat)
    | Leaving(id: nat, reply: Reply<C>, at: Option<nat>, lock: Lock)

  /** A call, and how long the linear order was when it was invoked. */
  datatype Invoked<C> = Invoked(event: Event<C>, since: nat)

  /** The reply to a call, and how long the linear order was when it returned. */
  datatype Returned<C> = Returned(id: nat, reply: Reply<C>, at: Option<nat>, end: nat)

  /** All calls invoked so far, and those that have taken effect, in their order. */
  datatype Past<C> = Past(calls: seq<Invoked<C>>, order: seq<nat>)

  /** State and threads are the program's; past and results record what happens, and the program never looks at them. */
  datatype Machine<C> = Machine(state: State<C>, threads: seq<Thread<C>>, past: Past<C>, results: seq<Returned<C>>)

  /** Thread t takes a step; an idle one makes the call. */
  datatype Turn<C> = Turn(t: nat, event: Event<C>)

  function LockOf<C>(thread: Thread<C>): Lock {
    match thread
    case Idle => Unlocked
    case Called(_) => Unlocked
    case Writing(_) => Exclusive
    case Leaving(_, _, _, lock) => lock
    case _ => Shared
  }

  predicate Reads<C>(call: Call<C>) {
    call.Get? || call.List?
  }

  /** What is answered before any lock is taken. */
  function Refused<C>(r: Rules<C>, e: Event<C>): Option<ValidationError> {
    match e.call
    case Create(c) =>
      var invalid := r.validate(c, e.o.verdicts);
      if invalid.None? && r.key(c) == "" then Some(InvalidKey) else invalid
    case Update(c) => r.validate(c, e.o.verdicts)
    case Delete(name) => if r.trim(name) == "" then Some(InvalidKey) else None
    case Get(name) => if r.trim(name) == "" then Some(InvalidKey) else None
    case _ => None
  }

  predicate Loads<C>(r: Rules<C>, e: Event<C>) {
    Reads(e.call) && Refused(r, e).None?
  }

  predicate Writes<C>(r: Rules<C>, e: Event<C>) {
    !Reads(e.call) && Refused(r, e).None?
  }

  /** The answer of a reader, given what loading gave it. */
  function Answer<C>(r: Rules<C>, call: Call<C>, list: Result<seq<C>>): Reply<C> {
    match call
    case Get(name) =>
      if list.Err? then Failed(list.error)
      else
        var i := Find(list.value, r.key, r.trim(name));
        if i == -1 then Failed(NotFound) else One(list.value[i])
    case _ => Many(if list.Err? then [] else SortBy(list.value, r.name))
  }

  /** What a reader makes of an unseeded store. */
  function FromFile<C>(r: Rules<C>, st: State<C>, o: Outcomes): Result<seq<C>> {
    if !st.configured || !o.seedRead then Err(SeedReadFailed)
    else if r.load(st.file).None? then Err(Undecodable)
    else if r.load(st.file).value == [] then Ok([])
    else if !o.seedSave then Err(SeedFailed)
    else Ok(r.load(st.file).value)
  }

  /** The reader is going to seed: its place in the order is where it saves. Every other one has its place where it lists. */
  predicate WillSeed<C>(r: Rules<C>, st: State<C>, o: Outcomes) {
    FromFile(r, st, o).Ok? && FromFile(r, st, o).value != []
  }

  // ----- Steps -----

  /** What a step does: the thread and the state after it, and whether the call takes its place in the order. */
  datatype Effect<C> = Effect(thread: Thread<C>, state: State<C>, placed: bool)

  function ListStep<C(==)>(r: Rules<C>, st: State<C>, e: Event<C>, id: nat, here: nat): Effect<C> {
    if !e.o.list then Effect(Leaving(id, Answer(r, e.call, Err(ListFailed)), Some(here), Shared), st, true)
    else if st.store != [] then Effect(Leaving(id, Answer(r, e.call, Ok(st.store)), Some(here), Shared), st, true)
    else if WillSeed(r, st, e.o) then Effect(Reading(id, None), st, false)
    else Effect(Reading(id, Some(here)), st, true)
  }

  function ReadStep<C(==)>(r: Rules<C>, st: State<C>, e: Event<C>, id: nat, at: Option<nat>): Effect<C> {
    var next :=
      if !st.configured || !e.o.seedRead then Leaving(id, Answer(r, e.call, Err(SeedReadFailed)), at, Shared)
      else if r.load(st.file).None? then Leaving(id, Answer(r, e.call, Err(Undecodable)), at, Shared)
      else if r.load(st.file).value == [] then Leaving(id, Answer(r, e.call, Ok([])), at, Shared)
      else Saving(id, r.load(st.file).value, at);
    Effect(next, st, false)
  }

  function SaveStep<C>(r: Rules<C>, st: State<C>, e: Event<C>, id: nat, list: seq<C>, at: Option<nat>, here: nat): Effect<C> {
    if e.o.seedSave then
      Effect(Leaving(id, Answer(r, e.call, Ok(list)), Some(here), Shared), st.(store := list), true)
    else Effect(Leaving(id, Answer(r, e.call, Err(SeedFailed)), at, Shared), st, false)
  }

  function WriteStep<C(==)>(r: Rules<C>, st: State<C>, e: Event<C>, id: nat, here: nat): Effect<C> {
    var s := Next(r, st, e.call, e.o);
    Effect(Leaving(id, s.reply, Some(here), Exclusive), s.state, true)
  }

  /** Taking the lock; what is answered early returns without it. */
  function LockStep<C>(r: Rules<C>, st: State<C>, e: Event<C>, id: nat, here: nat): Effect<C> {
    if Refused(r, e).Some? then Effect(Leaving(id, Failed(Invalid(Refused(r, e).value)), Some(here), Unlocked), st, true)
    else Effect(if Reads(e.call) then Listing(id) else Writing(id), st, false)
  }

  function StepOf<C(==)>(r: Rules<C>, st: State<C>, e: Event<C>, thread: Thread<C>, here: nat): Effect<C>
    requires !thread.Idle? && !thread.Leaving?
  {
    match thread
    case Called(id) => LockStep(r, st, e, id, here)
    case Listing(id) => ListStep(r, st, e, id, here)
    case Reading(id, at) => ReadStep(r, st, e, id, at)
    case Saving(id, list, at) => SaveStep(r, st, e, id, list, at, here)
    case Writing(id) => WriteStep(r, st, e, id, here)
  }

  predicate Known<C>(m: Machine<C>) {
    && ValidPast(m.past)
    && forall t :: 0 <= t < |m.threads| && !m.threads[t].Idle? ==> m.threads[t].id < |m.past.calls|
  }

  predicate ValidPast<C>(h: Past<C>) {
    forall i :: 0 <= i < |h.order| ==> h.order[i] < |h.calls|
  }

  /** A thread waits for its lock while others hold it: a reader for a writer, a writer for everybody. */
  predicate Enabled<C>(r: Rules<C>, m: Machine<C>, t: nat)
    requires Known(m)
  {
    && t < |m.threads|
    && (m.threads[t].Called? ==>
          var e := m.past.calls[m.threads[t].id].event;
          forall u :: 0 <= u < |m.threads| ==>
            (Loads(r, e) ==> LockOf(m.threads[u]) != Exclusive) && (Writes(r, e) ==> LockOf(m.threads[u]) == Unlocked))
  }

  function Placed<C>(h: Past<C>, id: nat): Past<C> {
    h.(order := h.order + [id])
  }

  function WithCall<C>(h: Past<C>, e: Event<C>): Past<C> {
    h.(calls := h.calls + [Invoked(e, |h.order|)])
  }

  function Moved<C(==)>(r: Rules<C>, m: Machine<C>, turn: Turn<C>): Machine<C>
    requires Known(m) && turn.t < |m.threads|
  {
    var t, thread, h := turn.t, m.threads[turn.t], m.past;
    if thread.Idle? then
      m.(threads := m.threads[t := Called(|h.calls|)], past := WithCall(h, turn.event))
    else if thread.Leaving? then
      m.(threads := m.threads[t := Idle],
         results := m.results + [Returned(thread.id, thread.reply, thread.at, |h.order|)])
    else
      var f := StepOf(r, m.state, h.calls[thread.id].event, thread, |h.order|);
      m.(threads := m.threads[t := f.thread], state := f.state, past := if f.placed then Placed(h, thread.id) else h)
  }

  /** A turn of a thread that has to wait changes nothing. */
  function Took<C(==)>(r: Rules<C>, m: Machine<C>, turn: Turn<C>): (next: Machine<C>)
    requires Known(m)
    ensures Known(next)
  {
    if Enabled(r, m, turn.t) then
      StaysKnown(r, m, turn);
      Moved(r, m, turn)
    else m
  }

  lemma StepKeepsId<C>(r: Rules<C>, st: State<C>, e: Event<C>, thread: Thread<C>, here: nat)
    requires !thread.Idle? && !thread.Leaving?
    ensures !StepOf(r, st, e, thread, here).thread.Idle? && StepOf(r, st, e, thread, here).thread.id == thread.id
  {
    hide Next, Answer, WillSeed;
  }

  lemma StaysKnown<C>(r: Rules<C>, m: Machine<C>, turn: Turn<C>)
    requires Known(m) && turn.t < |m.threads|
    ensures Known(Moved(r, m, turn))
  {
    hide StepOf;
    var thread := m.threads[turn.t];
    if !thread.Idle? && !thread.Leaving? {
      StepKeepsId(r, m.state, m.past.calls[thread.id].event, thread, |m.past.order|);
    }
  }

  function Started<C>(st: State<C>, threads: nat): Machine<C> {
    Machine(st, seq(threads, _ => Idle), Past([], []), [])
  }

  /** Any interleaving: the turns in the order in which they are taken. */
  function After<C(==)>(r: Rules<C>, st: State<C>, threads: nat, turns: seq<Turn<C>>): (m: Machine<C>)
    ensures Known(m)
  {
    if turns == [] then Started(st, threads)
    else Took(r, After(r, st, threads, turns[..|turns| - 1]), turns[|turns| - 1])
  }

  // ----- What has happened -----

  /** The calls in their order. */
  function Sequence<C>(h: Past<C>): (events: seq<Event<C>>)
    requires ValidPast(h)
    ensures |events| == |h.order| && forall i :: 0 <= i < |h.order| ==> events[i] == h.calls[h.order[i]].event
  {
    seq(|h.order|, i requires 0 <= i < |h.order| => h.calls[h.order[i]].event)
  }

  /** The sequential run behind an interleaving. */
  function Events<C(==)>(r: Rules<C>, st: State<C>, threads: nat, turns: seq<Turn<C>>): seq<Event<C>> {
    Sequence(After(r, st, threads, turns).past)
  }

  /** The call has returned what the sequential run replies at its place, and the place lies between invocation and return. */
  ghost predicate Explained<C(!new)>(h: Past<C>, result: Returned<C>, replies: seq<Reply<C>>)
    requires |replies| == |h.order|
  {
    exists at: nat ::
      && at < |h.order| && h.order[at] == result.id && result.id < |h.calls| && replies[at] == result.reply
      && h.calls[result.id].since <= at < result.end <= |h.order|
  }

  /** No call takes effect twice, and every call that has returned is explained. */
  ghost predicate AllExplained<C(!new)>(m: Machine<C>, replies: seq<Reply<C>>) {
    Distinct(m.past.order) && |replies| == |m.past.order| &&
    forall i :: 0 <= i < |m.results| ==> Explained(m.past, m.results[i], replies)
  }
}
