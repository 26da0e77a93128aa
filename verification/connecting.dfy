/** Runs that begin before the runtime client is there: what is turned away, and what the rest amounts to. */
module Connecting {
  import opened Text
  import opened Sorting
  import opened Keyed
  import opened Crud
  import opened CrudLaws
  import opened CrudRuns

  /** How far connecting has got: the configuration file is known before the client is there. */
  datatype Link = Nothing | FileKnown | Up

  function LinkOf<C>(st: State<C>): Link {
    if st.client then Up else if st.configured then FileKnown else Nothing
  }

  /** The same state with the client in place. */
  function Online<C>(st: State<C>): State<C> {
    st.(configured := true, client := true)
  }

  function Dial(link: Link, outcome: ClientOutcome): Link {
    if link.Up? then Up
    else
      match outcome
      case Unavailable => link
      case NoDirectory => FileKnown
      case Connected => Up
  }

  /** Every call but the lookups needs the client; requests are validated before. */
  predicate Dials<C>(r: Rules<C>, e: Event<C>) {
    match e.call
    case Create(c) => r.validate(c, e.o.verdicts).None?
    case Update(c) => r.validate(c, e.o.verdicts).None?
    case Delete(_) => true
    case Start => true
    case _ => false
  }

  function LinkAfter<C>(r: Rules<C>, link: Link, e: Event<C>): Link {
    if Dials(r, e) then Dial(link, e.o.client) else link
  }

  predicate TurnedAway<C>(r: Rules<C>, link: Link, e: Event<C>) {
    Dials(r, e) && !Dial(link, e.o.client).Up?
  }

  /** Before the file is known, it cannot be read. */
  function Unread(link: Link, o: Outcomes): Outcomes {
    if link.Nothing? then o.(seedRead := false) else o
  }

  /** The call as it appears to a service with a client. */
  function Met<C>(link: Link, e: Event<C>): Event<C> {
    if e.call.Get? || e.call.List? then Event(e.call, Unread(link, e.o)) else e
  }

  function LinkAtEnd<C>(r: Rules<C>, link: Link, events: seq<Event<C>>): Link
    decreases |events|
  {
    if events == [] then link else LinkAtEnd(r, LinkAfter(r, link, events[0]), events[1..])
  }

  /** The calls that are not turned away. */
  function Admitted<C>(r: Rules<C>, link: Link, events: seq<Event<C>>): seq<Event<C>>
    decreases |events|
  {
    if events == [] then []
    else
      var rest := Admitted(r, LinkAfter(r, link, events[0]), events[1..]);
      if TurnedAway(r, link, events[0]) then rest else [Met(link, events[0])] + rest
  }

  /** Their replies, with those to the calls turned away in between. */
  function Woven<C>(r: Rules<C>, link: Link, events: seq<Event<C>>, replies: seq<Reply<C>>): (all: seq<Reply<C>>)
    requires |replies| == |Admitted(r, link, events)|
    ensures |all| == |events|
    decreases |events|
  {
    if events == [] then []
    else
      var next := LinkAfter(r, link, events[0]);
      if TurnedAway(r, link, events[0]) then [Failed(NoClient)] + Woven(r, next, events[1..], replies)
      else [replies[0]] + Woven(r, next, events[1..], replies[1..])
  }

  // ----- One call -----

  /** Loading takes the client for granted; it only needs to know the file. */
  lemma LoadOnline<C>(r: Rules<C>, st: State<C>, o: Outcomes)
    requires st.client ==> st.configured
    ensures
      var l, m := Load(r, st, o), Load(r, Online(st), Unread(LinkOf(st), o));
      l.list == m.list && Online(l.state) == m.state && LinkOf(l.state) == LinkOf(st)
  {
  }

  lemma PersistKeepsLink<C>(r: Rules<C>, st: State<C>, change: Change<C>, o: Outcomes, persistStore: bool)
    requires Applies(st.store, change)
    ensures
      var p := Persist(r, st, change, o, persistStore);
      p.state.client == st.client && p.state.configured == st.configured
  {
    hide EnsureAll, Apply, Reflect;
  }

  lemma LoadKeepsLink<C>(r: Rules<C>, st: State<C>, o: Outcomes)
    ensures Load(r, st, o).state.client == st.client && Load(r, st, o).state.configured == st.configured
  {
  }

  /** With the client in place it stays there. */
  lemma OnlineStays<C>(r: Rules<C>, st: State<C>, e: Event<C>)
    requires st.client && st.configured
    ensures var s := Next(r, st, e.call, e.o); s.state.client && s.state.configured
  {
    hide SortBy, Load, Persist;
    LoadKeepsLink(r, st, e.o);
    var l := Load(r, st, e.o);
    match e.call
    case Create(c) => PersistKeepsLink(r, l.state, Added(r.normalize(c)), e.o, true);
    case Update(c) =>
      if l.list.Ok? && Find(l.list.value, r.key, r.key(c)) != -1 {
        PersistKeepsLink(r, l.state, Replaced(Find(l.list.value, r.key, r.key(c)), r.normalize(c)), e.o, true);
      }
    case Delete(name) =>
      if l.list.Ok? && Find(l.list.value, r.key, r.trim(name)) != -1 {
        PersistKeepsLink(r, l.state, Removed(Find(l.list.value, r.key, r.trim(name))), e.o, true);
      }
    case Start => PersistKeepsLink(r, st, Unchanged, e.o, false);
    case _ =>
  }

  /** What CallOnline says of one call. */
  ghost predicate SameOnline<C(!new)>(r: Rules<C>, st: State<C>, e: Event<C>, s: Step<C>) {
    var link := LinkOf(st);
    && (s.state.client ==> s.state.configured) && LinkOf(s.state) == LinkAfter(r, link, e)
    && if TurnedAway(r, link, e) then s.reply == Failed(NoClient) && Online(s.state) == Online(st)
       else
         var m := Met(link, e);
         s.reply == Next(r, Online(st), m.call, m.o).reply && Online(s.state) == Next(r, Online(st), m.call, m.o).state
  }

  lemma GetOnline<C>(r: Rules<C>, st: State<C>, name: string, o: Outcomes)
    requires st.client ==> st.configured
    ensures
      var s, t := NextGet(r, st, name, o), NextGet(r, Online(st), name, Unread(LinkOf(st), o));
      && s.reply == t.reply && Online(s.state) == t.state
      && s.state.client == st.client && s.state.configured == st.configured
  {
    hide Find, Load, Unread;
    LoadOnline(r, st, o);
    LoadKeepsLink(r, st, o);
  }

  lemma ListOnline<C>(r: Rules<C>, st: State<C>, o: Outcomes)
    requires st.client ==> st.configured
    ensures
      var s, t := NextList(r, st, o), NextList(r, Online(st), Unread(LinkOf(st), o));
      && s.reply == t.reply && Online(s.state) == t.state
      && s.state.client == st.client && s.state.configured == st.configured
  {
    hide SortBy, Load, Unread;
    LoadOnline(r, st, o);
    LoadKeepsLink(r, st, o);
  }

  lemma LookupSame<C>(r: Rules<C>, st: State<C>, call: Call<C>, o: Outcomes)
    requires (st.client ==> st.configured) && (call.Get? || call.List?)
    ensures
      var s, t := Next(r, st, call, o), Next(r, Online(st), call, Unread(LinkOf(st), o));
      && s.reply == t.reply && Online(s.state) == t.state
      && s.state.client == st.client && s.state.configured == st.configured
  {
    hide NextGet, NextList, Online, Unread;
    match call
    case Get(name) => GetOnline(r, st, name, o);
    case List => ListOnline(r, st, o);
  }

  lemma LookupOnline<C(!new)>(r: Rules<C>, st: State<C>, e: Event<C>)
    requires (st.client ==> st.configured) && (e.call.Get? || e.call.List?)
    ensures SameOnline(r, st, e, Next(r, st, e.call, e.o))
  {
    hide Next, Online, Unread;
    LookupSame(r, st, e.call, e.o);
  }

  lemma RefusedOnline<C(!new)>(r: Rules<C>, st: State<C>, e: Event<C>)
    requires (st.client ==> st.configured) && !Dials(r, e) && !e.call.Get? && !e.call.List?
    ensures SameOnline(r, st, e, Next(r, st, e.call, e.o))
  {
    hide CreateLocked, UpdateLocked;
  }

  lemma TurnedAwayOnline<C(!new)>(r: Rules<C>, st: State<C>, e: Event<C>)
    requires (st.client ==> st.configured) && TurnedAway(r, LinkOf(st), e)
    ensures SameOnline(r, st, e, Next(r, st, e.call, e.o))
  {
    hide CreateLocked, UpdateLocked, DeleteLocked, Persist;
  }

  /** Once the client is there, nothing is left of how it came. */
  lemma DialedOnline<C(!new)>(r: Rules<C>, st: State<C>, e: Event<C>)
    requires (st.client ==> st.configured) && Dials(r, e) && AfterClient(st, e.o) == Online(st)
    ensures Next(r, st, e.call, e.o) == Next(r, Online(st), e.call, e.o)
  {
    hide CreateLocked, UpdateLocked, DeleteLocked, Persist;
  }

  /** A call is turned away and changes nothing but the link, or it does what it does with the client in place. */
  lemma CallOnline<C(!new)>(r: Rules<C>, st: State<C>, e: Event<C>)
    requires st.client ==> st.configured
    ensures SameOnline(r, st, e, Next(r, st, e.call, e.o))
  {
    hide Next;
    if e.call.Get? || e.call.List? {
      LookupOnline(r, st, e);
    } else if !Dials(r, e) {
      RefusedOnline(r, st, e);
    } else if TurnedAway(r, LinkOf(st), e) {
      TurnedAwayOnline(r, st, e);
    } else {
      DialedOnline(r, st, e);
      OnlineStays(r, Online(st), e);
    }
  }

  // ----- Whole runs -----

  /** Every run, whatever there is of a client when it begins, is the run of the calls that were not turned away on a service
      that has its client; so everything proved of such runs holds of it. */
  lemma {:induction false} RunOnline<C(!new)>(r: Rules<C>, st: State<C>, events: seq<Event<C>>)
    requires st.client ==> st.configured
    ensures
      var link, after := LinkOf(st), Final(r, st, events);
      var admitted := Admitted(r, link, events);
      && Online(after) == Final(r, Online(st), admitted)
      && (after.client ==> after.configured) && LinkOf(after) == LinkAtEnd(r, link, events)
      && Replies(r, st, events) == Woven(r, link, events, Replies(r, Online(st), admitted))
    decreases |events|
  {
    hide Next, Online, LinkOf, LinkAfter, TurnedAway, Met;
    if events != [] {
      var e, rest, link := events[0], events[1..], LinkOf(st);
      CallOnline(r, st, e);
      var next := Next(r, st, e.call, e.o).state;
      RunOnline(r, next, rest);
      var inner := Admitted(r, LinkOf(next), rest);
      if !TurnedAway(r, link, e) {
        FirstAdmitted(r, Online(st), Met(link, e), inner);
      }
    }
  }

  lemma FirstAdmitted<C>(r: Rules<C>, st: State<C>, e: Event<C>, rest: seq<Event<C>>)
    ensures
      var s := Next(r, st, e.call, e.o);
      && Final(r, st, [e] + rest) == Final(r, s.state, rest)
      && Replies(r, st, [e] + rest) == [s.reply] + Replies(r, s.state, rest)
  {
    hide Next;
    assert ([e] + rest)[0] == e && ([e] + rest)[1..] == rest;
  }

  lemma {:induction false} AdmittedGood<C(!new)>(r: Rules<C>, good: C -> bool, dir: string, link: Link, events: seq<Event<C>>)
    requires GoodEvents(r, good, dir, events)
    ensures GoodEvents(r, good, dir, Admitted(r, link, events))
    decreases |events|
  {
    hide GoodCall, TurnedAway, LinkAfter;
    if events != [] {
      var e, next := events[0], LinkAfter(r, link, events[0]);
      GoodRest(r, good, dir, events);
      AdmittedGood(r, good, dir, next, events[1..]);
      var rest := Admitted(r, next, events[1..]);
      assert Met(link, e).call == e.call && Met(link, e).o.verdicts == e.o.verdicts;
      assert forall i :: 0 <= i < |rest| ==> ([Met(link, e)] + rest)[i + 1] == rest[i];
    }
  }

  // ----- The link over a run -----

  /** The client is there at the end if and only if it was there at first, or a call that needs it has connected; the file stays
      unknown if and only if no such call has got as far as the directory. Calls are turned away while neither holds. */
  lemma {:induction false} LinkMeans<C>(r: Rules<C>, link: Link, events: seq<Event<C>>)
    ensures LinkAtEnd(r, link, events).Up? <==>
            link.Up? || exists i :: 0 <= i < |events| && Dials(r, events[i]) && events[i].o.client.Connected?
    ensures LinkAtEnd(r, link, events).Nothing? <==>
            link.Nothing? && forall i :: 0 <= i < |events| && Dials(r, events[i]) ==> events[i].o.client.Unavailable?
    ensures forall e :: TurnedAway(r, link, e) <==> Dials(r, e) && !link.Up? && !e.o.client.Connected?
    decreases |events|
  {
    hide Dials;
    if events != [] {
      var rest := events[1..];
      LinkMeans(r, LinkAfter(r, link, events[0]), rest);
      assert forall i :: 0 <= i < |rest| ==> rest[i] == events[i + 1];
      assert forall i :: 0 < i < |events| ==> events[i] == rest[i - 1];
    }
  }
}
