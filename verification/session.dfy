/** A caller that keeps every configuration it has ever passed in or been handed, and scribbles on them between calls. */
module Session {
  import opened Types
  import opened Heap
  import opened Crud
  import opened CrudRuns
  import opened Haproxy
  import opened Certificates
  import opened Service

  datatype Action =
    | Do(call: Call<Configuration>, o: Outcomes)
    | Scribble(k: nat, tls: Tls, backends: seq<Target>)

  /** The calls of a script. */
  function Calls(script: seq<Action>): seq<Event<Configuration>> {
    if script == [] then []
    else (if script[0].Do? then [Event(script[0].call, script[0].o)] else []) + Calls(script[1..])
  }

  /** Overwrites everything reachable from a configuration. */
  method ScribbleOn(c: Record, tls: Tls, backends: seq<Target>)
    modifies Objects(c)
  {
    if c.tls != null {
      c.tls.enabled, c.tls.skipBackendTlsVerify := tls.enabled, tls.skipBackendTlsVerify;
      c.tls.certificatePath, c.tls.privateKeyPath := tls.certificatePath, tls.privateKeyPath;
      c.tls.certificatePem, c.tls.privateKeyPem := tls.certificatePem, tls.privateKeyPem;
    }
    for i := 0 to c.backends.Length {
      if i < |backends| {
        c.backends[i] := backends[i];
      }
    }
  }

  function Handed(result: Result<Record>): seq<Record> {
    if result.Ok? then [result.value] else []
  }

  lemma HandedObjects(c: Record, result: Result<Record>)
    ensures AllObjects(Handed(result)) == if result.Ok? then Objects(result.value) else {}
    ensures AllObjects([c] + Handed(result)) == Objects(c) + AllObjects(Handed(result))
  {
    ObjectsOfOne(c);
    ObjectsOfConcat([c], Handed(result));
    if result.Ok? {
      ObjectsOfOne(result.value);
    }
  }

  /** Creating or updating with a freshly made argument; handed holds the argument and the result. */
  method PerformPut(s: HaproxyService, v: Configuration, o: Outcomes, create: bool)
    returns (reply: Reply<Configuration>, handed: seq<Record>)
    requires s.Valid()
    modifies s, s.store, TlsObjects(s.store.configurations)
    ensures s.Valid() && fresh(s.Owned() - old(s.Owned()))
    ensures fresh(AllObjects(handed)) && AllObjects(handed) !! s.Owned()
    ensures Step(s.Model(), reply) == Next(RULES, old(s.Model()), if create then Create(v) else Update(v), o)
  {
    hide RULES, NextCreate, NextUpdate, Values, ValueOf, Handed, CertificatesDirectory, TlsDistinct, HaproxyService.Model;
    ghost var present := s.Owned();
    var c := Allocate(v);
    assert s.Model() == old(s.Model()) && Objects(c) !! present;
    var result;
    if create {
      result := s.CreateConfiguration(c, o);
    } else {
      result := s.UpdateConfiguration(c, o);
    }
    forall x | x in s.Owned() && x !in present ensures fresh(x) {
      assert x in s.Owned() - present && !old(allocated(x));
    }
    reply := ReplyOf(result);
    handed := [c] + Handed(result);
    HandedObjects(c, result);
  }

  method PerformGet(s: HaproxyService, name: string, o: Outcomes)
    returns (reply: Reply<Configuration>, handed: seq<Record>)
    requires s.Valid()
    modifies s.store
    ensures s.Valid() && fresh(s.Owned() - old(s.Owned()))
    ensures fresh(AllObjects(handed)) && AllObjects(handed) !! s.Owned()
    ensures Step(s.Model(), reply) == Next(RULES, old(s.Model()), Get(name), o)
  {
    hide RULES, NextGet, Values, ValueOf;
    var result := s.GetConfiguration(name, o);
    reply, handed := ReplyOf(result), Handed(result);
    if result.Ok? {
      HandedObjects(result.value, result);
    }
  }

  /** One call; handed holds what the caller can reach of its arguments and results. */
  method Perform(s: HaproxyService, call: Call<Configuration>, o: Outcomes)
    returns (reply: Reply<Configuration>, handed: seq<Record>)
    requires s.Valid()
    modifies s, s.store, TlsObjects(s.store.configurations)
    ensures s.Valid() && fresh(s.Owned() - old(s.Owned()))
    ensures fresh(AllObjects(handed)) && AllObjects(handed) !! s.Owned()
    ensures Step(s.Model(), reply) == Next(RULES, old(s.Model()), call, o)
  {
    hide RULES, NextCreate, NextUpdate, NextDelete, NextGet, NextList, NextStart, Values, ValueOf, TlsDistinct;
    match call {
      case Create(v) =>
        reply, handed := PerformPut(s, v, o, true);
      case Update(v) =>
        reply, handed := PerformPut(s, v, o, false);
      case Delete(name) =>
        var error := s.DeleteConfiguration(name, o);
        reply, handed := ReplyOfError(error), [];
      case Get(name) =>
        reply, handed := PerformGet(s, name, o);
      case List =>
        handed := s.ListConfigurations(o);
        reply := Many(Values(handed));
      case Start =>
        var error := s.Start(o);
        reply, handed := ReplyOfError(error), [];
    }
  }

  // ----- Whole sessions -----

  /** What the caller holds is its own: made during the session and not reachable from the store. */
  ghost predicate Apart(s: HaproxyService, held: seq<Record>)
    reads s, s.store
  {
    AllObjects(held) !! s.Owned()
  }

  /** What an action does to the state and adds to the replies. */
  function Act(r: Rules<Configuration>, st: State<Configuration>, action: Action):
    (State<Configuration>, seq<Reply<Configuration>>)
  {
    match action
    case Do(call, o) =>
      var s := Next(r, st, call, o);
      (s.state, [s.reply])
    case Scribble(_, _, _) => (st, [])
  }

  lemma FirstAction(r: Rules<Configuration>, st: State<Configuration>, script: seq<Action>)
    requires script != []
    ensures
      var (next, added) := Act(r, st, script[0]);
      && Final(r, st, Calls(script)) == Final(r, next, Calls(script[1..]))
      && Replies(r, st, Calls(script)) == added + Replies(r, next, Calls(script[1..]))
  {
    hide Next;
    var rest := Calls(script[1..]);
    if script[0].Do? {
      var e := Event(script[0].call, script[0].o);
      assert ([e] + rest)[0] == e && ([e] + rest)[1..] == rest;
    } else {
      assert [] + rest == rest && [] + Replies(r, st, rest) == Replies(r, st, rest);
    }
  }

  method Take(s: HaproxyService, action: Action, held: seq<Record>)
    returns (added: seq<Reply<Configuration>>, holds: seq<Record>)
    requires s.Valid() && Apart(s, held)
    modifies s, s.store, s.Owned(), AllObjects(held)
    ensures s.Valid() && fresh(s.Owned() - old(s.Owned()))
    ensures fresh(AllObjects(holds) - AllObjects(held)) && Apart(s, holds)
    ensures (s.Model(), added) == Act(RULES, old(s.Model()), action)
  {
    hide RULES, Next, Values, ValueOf, CertificatesDirectory;
    match action {
      case Do(call, o) =>
        TlsIsObject(s.store.configurations);
        var reply, handed := Perform(s, call, o);
        ObjectsOfConcat(held, handed);
        added, holds := [reply], held + handed;
      case Scribble(k, tls, backends) =>
        added, holds := [], held;
        if k < |held| {
          ObjectsOfMember(held, k);
          s.Unreached(held[k]);
          ScribbleOn(held[k], tls, backends);
        }
    }
  }

  /** Whatever a caller does with the arguments and results of its calls, those it already holds included, the service
      behaves like the state machine over values: no scribbling shows in any reply or in the final state. */
  method Run(s: HaproxyService, script: seq<Action>, held: seq<Record>) returns (replies: seq<Reply<Configuration>>)
    requires s.Valid() && Apart(s, held)
    modifies s, s.store, s.Owned(), AllObjects(held)
    ensures s.Valid() && s.Model() == Final(RULES, old(s.Model()), Calls(script))
    ensures replies == Replies(RULES, old(s.Model()), Calls(script))
    decreases |script|
  {
    hide RULES, Act, Values, ValueOf, Final, Replies, Calls, CertificatesDirectory;
    if script == [] {
      NoActions(RULES, s.Model());
      return [];
    }
    FirstAction(RULES, s.Model(), script);
    var added, holds := Take(s, script[0], held);
    var rest := Run(s, script[1..], holds);
    replies := added + rest;
  }

  lemma NoActions(r: Rules<Configuration>, st: State<Configuration>)
    ensures Final(r, st, Calls([])) == st && Replies(r, st, Calls([])) == []
  {
  }
}
