/** The sockets of the service, read from the lines of /proc/net/tcp and /proc/net/tcp6 and grouped by state. */
module Sockets {
  import opened Text
  import opened Words
  import opened Types
  import opened Numbers
  import opened Addresses

  type int32 = n: int | -0x8000_0000 <= n < 0x8000_0000

  datatype SocketState =
    | Unspecified
    | Established
    | SynSent
    | SynRecv
    | FinWait1
    | FinWait2
    | TimeWait
    | Closed
    | CloseWait
    | LastAck
    | Listen
    | Closing

  datatype Connection = Connection(
    localAddress: string,
    localPort: uint32,
    remoteAddress: string,
    remotePort: uint32,
    state: SocketState,
    uid: uint32,
    inode: uint32)

  /** Conversions of int to narrower types wrap around. */
  function ToUint32(n: int): uint32 {
    n % 0x1_0000_0000
  }

  function ToInt32(n: int): int32 {
    (n + 0x8000_0000) % 0x1_0000_0000 - 0x8000_0000
  }

  /** The states of /proc/net/tcp by number. */
  function StateOf(n: int): SocketState {
    match n
    case 1 => Established
    case 2 => SynSent
    case 3 => SynRecv
    case 4 => FinWait1
    case 5 => FinWait2
    case 6 => TimeWait
    case 7 => Closed
    case 8 => CloseWait
    case 9 => LastAck
    case 10 => Listen
    case 11 => Closing
    case _ => Unspecified
  }

  // ----- Lines -----

  /** The connection a line describes; None when a field that matters cannot be read. */
  function LineConnection(line: string, protocol: string): Option<Connection> {
    var fields := Fields(line);
    if |fields| < 10 then None
    else
      var uid, inode, state := ParseUint(fields[7], 10), ParseUint(fields[9], 10), ParseInt(fields[3], 16);
      var here, there := ParseAddress(fields[1], protocol), ParseAddress(fields[2], protocol);
      if uid.error.Some? || inode.error.Some? || state.error.Some? || here.None? || there.None? then None
      else
        Some(Connection(here.value.ip, ToUint32(here.value.port), there.value.ip, ToUint32(there.value.port),
                        StateOf(state.value), uid.value, inode.value))
  }

  /** Without any known inode nothing is filtered out. */
  predicate Wanted(c: Connection, inodes: set<uint32>) {
    inodes == {} || c.inode in inodes
  }

  function Selected(lines: seq<string>, protocol: string, inodes: set<uint32>): seq<Connection> {
    if lines == [] then []
    else
      var c := LineConnection(lines[|lines| - 1], protocol);
      Selected(lines[..|lines| - 1], protocol, inodes) + if c.Some? && Wanted(c.value, inodes) then [c.value] else []
  }

  /** What can be read of a file: None when it cannot be opened; complete tells whether the scanner got to its end. */
  datatype File = NoFile | File(lines: seq<string>, complete: bool)

  function SocketsIn(file: File, protocol: string, inodes: set<uint32>): Option<seq<Connection>> {
    match file
    case NoFile => None
    case File(lines, complete) =>
      if lines == [] then Some([])
      else if !complete then None
      else Some(Selected(lines[1..], protocol, inodes))
  }

  lemma NoneSelected(protocol: string, inodes: set<uint32>)
    ensures Selected([], protocol, inodes) == []
  {
  }

  lemma SelectedLast(lines: seq<string>, line: string, protocol: string, inodes: set<uint32>)
    ensures
      var c := LineConnection(line, protocol);
      Selected(lines + [line], protocol, inodes) ==
      Selected(lines, protocol, inodes) + if c.Some? && Wanted(c.value, inodes) then [c.value] else []
  {
    hide LineConnection;
    assert (lines + [line])[..|lines|] == lines;
  }

  method ReadSockets(file: File, protocol: string, inodes: set<uint32>) returns (sockets: Option<seq<Connection>>)
    ensures sockets == SocketsIn(file, protocol, inodes)
  {
    hide LineConnection, Selected, Wanted;
    NoneSelected(protocol, inodes);
    if file == NoFile {
      return None;
    }
    var connections := [];
    if |file.lines| == 0 {
      return Some(connections);
    }
    assert file.lines[1..1] == [];
    for i := 1 to |file.lines|
      invariant connections == Selected(file.lines[1..i], protocol, inodes)
    {
      assert file.lines[1..i + 1] == file.lines[1..i] + [file.lines[i]];
      SelectedLast(file.lines[1..i], file.lines[i], protocol, inodes);
      var selected := ReadLine(file.lines[i], protocol, inodes);
      if selected.Some? {
        connections := connections + [selected.value];
      }
    }
    assert file.lines[1..|file.lines|] == file.lines[1..];
    return if file.complete then Some(connections) else None;
  }

  /** The body of the loop: every None is a continue. */
  method ReadLine(line: string, protocol: string, inodes: set<uint32>) returns (selected: Option<Connection>)
    ensures
      var c := LineConnection(line, protocol);
      selected == if c.Some? && Wanted(c.value, inodes) then c else None
  {
    hide Fields, ParseUint, ParseInt, ParseAddress;
    var fields := Fields(line);
    if |fields| < 10 {
      return None;
    }
    var uid := ParseUint(fields[7], 10);
    if uid.error.Some? {
      return None;
    }
    var inode := ParseUint(fields[9], 10);
    if inode.error.Some? {
      return None;
    }
    if inodes != {} && inode.value !in inodes {
      return None;
    }
    var here := ParseAddress(fields[1], protocol);
    if here.None? {
      return None;
    }
    var there := ParseAddress(fields[2], protocol);
    if there.None? {
      return None;
    }
    var state := ParseInt(fields[3], 16);
    if state.error.Some? {
      return None;
    }
    return Some(Connection(here.value.ip, ToUint32(here.value.port), there.value.ip, ToUint32(there.value.port),
                           StateOf(state.value), uid.value, inode.value));
  }

  // ----- Groups -----

  datatype Group = Group(state: SocketState, connections: seq<Connection>, count: int32)

  datatype Response = Response(
    groups: seq<Group>,
    total: int32,
    established: int32,
    listen: int32,
    timeWait: int32)

  /** The connections in one of the states, in their order. */
  function InStates(conns: seq<Connection>, states: set<SocketState>): (cs: seq<Connection>)
    ensures forall c :: c in cs <==> c in conns && c.state in states
  {
    if conns == [] then []
    else
      var last := conns[|conns| - 1];
      InStates(conns[..|conns| - 1], states) + if last.state in states then [last] else []
  }

  function OfState(conns: seq<Connection>, state: SocketState): seq<Connection> {
    InStates(conns, {state})
  }

  /** One group for every state that occurs, with exactly the connections in that state, in their order. */
  ghost predicate Groups(m: map<SocketState, seq<Connection>>, conns: seq<Connection>) {
    forall s :: (s in m <==> OfState(conns, s) != []) && (s in m ==> m[s] == OfState(conns, s))
  }

  /** The response describes the connections; the order of its groups is not specified. */
  ghost predicate Describes(r: Response, conns: seq<Connection>) {
    && (forall i, j :: 0 <= i < j < |r.groups| ==> r.groups[i].state != r.groups[j].state)
    && (forall i :: 0 <= i < |r.groups| ==>
          && r.groups[i].connections == OfState(conns, r.groups[i].state) != []
          && r.groups[i].count == ToInt32(|r.groups[i].connections|))
    && (forall s :: OfState(conns, s) != [] ==> exists i :: 0 <= i < |r.groups| && r.groups[i].state == s)
    && r.total == ToInt32(|conns|)
    && r.established == ToInt32(|OfState(conns, Established)|)
    && r.listen == ToInt32(|OfState(conns, Listen)|)
    && r.timeWait == ToInt32(|OfState(conns, TimeWait)|)
  }

  lemma OfStateLast(conns: seq<Connection>, c: Connection, s: SocketState)
    ensures OfState(conns + [c], s) == OfState(conns, s) + if c.state == s then [c] else []
  {
    assert (conns + [c])[..|conns|] == conns;
  }

  lemma NoneInState(conns: seq<Connection>)
    requires conns == []
    ensures forall s :: OfState(conns, s) == []
  {
  }

  lemma GroupsNext(m: map<SocketState, seq<Connection>>, conns: seq<Connection>, c: Connection)
    requires Groups(m, conns)
    ensures Groups(m[c.state := (if c.state in m then m[c.state] else []) + [c]], conns + [c])
  {
    hide OfState;
    forall s ensures OfState(conns + [c], s) == OfState(conns, s) + if c.state == s then [c] else [] {
      OfStateLast(conns, c, s);
    }
  }

  /** The loop that groups and counts. */
  method GroupByState(conns: seq<Connection>)
    returns (groups: map<SocketState, seq<Connection>>, established: nat, listen: nat, timeWait: nat)
    ensures Groups(groups, conns)
    ensures established == |OfState(conns, Established)| && listen == |OfState(conns, Listen)|
    ensures timeWait == |OfState(conns, TimeWait)|
  {
    groups, established, listen, timeWait := map[], 0, 0, 0;
    assert Groups(groups, conns[..0]);
    hide OfState, Groups;
    NoneInState(conns[..0]);
    for i := 0 to |conns|
      invariant Groups(groups, conns[..i])
      invariant established == |OfState(conns[..i], Established)| && listen == |OfState(conns[..i], Listen)|
      invariant timeWait == |OfState(conns[..i], TimeWait)|
    {
      var conn := conns[i];
      assert conns[..i + 1] == conns[..i] + [conn];
      GroupsNext(groups, conns[..i], conn);
      OfStateLast(conns[..i], conn, Established);
      OfStateLast(conns[..i], conn, Listen);
      OfStateLast(conns[..i], conn, TimeWait);
      groups := groups[conn.state := (if conn.state in groups then groups[conn.state] else []) + [conn]];
      match conn.state {
        case Established => established := established + 1;
        case Listen => listen := listen + 1;
        case TimeWait => timeWait := timeWait + 1;
        case _ =>
      }
    }
    assert conns[..|conns|] == conns;
  }

  /** One list entry for each of the states, with its connections from the map. */
  ghost predicate Lists(groups: seq<Group>, m: map<SocketState, seq<Connection>>, states: set<SocketState>) {
    && (forall i, j :: 0 <= i < j < |groups| ==> groups[i].state != groups[j].state)
    && (forall i :: 0 <= i < |groups| ==>
          && groups[i].state in states && groups[i].state in m
          && groups[i].connections == m[groups[i].state] && groups[i].count == ToInt32(|groups[i].connections|))
    && forall s :: s in states ==> exists i :: 0 <= i < |groups| && groups[i].state == s
  }

  lemma ListsNext(groups: seq<Group>, m: map<SocketState, seq<Connection>>, states: set<SocketState>, s: SocketState)
    requires Lists(groups, m, states) && s in m && s !in states
    ensures Lists(groups + [Group(s, m[s], ToInt32(|m[s]|))], m, states + {s})
  {
    hide ToInt32;
    var next := groups + [Group(s, m[s], ToInt32(|m[s]|))];
    forall t | t in states + {s} ensures exists i :: 0 <= i < |next| && next[i].state == t {
      if t == s {
        assert next[|groups|].state == t;
      } else {
        var i :| 0 <= i < |groups| && groups[i].state == t;
        assert next[i].state == t;
      }
    }
  }

  /** The map of groups as a list, in any order. */
  method ListGroups(m: map<SocketState, seq<Connection>>) returns (groups: seq<Group>)
    ensures Lists(groups, m, m.Keys)
  {
    groups := [];
    assert Lists(groups, m, {});
    hide Lists, ToInt32;
    var left := m.Keys;
    while left != {}
      invariant left <= m.Keys && Lists(groups, m, m.Keys - left)
    {
      var state :| state in left;
      ListsNext(groups, m, m.Keys - left, state);
      assert m.Keys - (left - {state}) == m.Keys - left + {state};
      groups := groups + [Group(state, m[state], ToInt32(|m[state]|))];
      left := left - {state};
    }
    assert m.Keys - left == m.Keys;
  }

  /** The connections of both files; a file that cannot be read contributes nothing, and unknown inodes filter nothing. */
  function AllSockets(inodes: Option<set<uint32>>, tcp: File, tcp6: File): seq<Connection> {
    var known := if inodes.Some? then inodes.value else {};
    var v4, v6 := SocketsIn(tcp, "IPv4", known), SocketsIn(tcp6, "IPv6", known);
    (if v4.Some? then v4.value else []) + if v6.Some? then v6.value else []
  }

  lemma GroupsDescribe(r: Response, m: map<SocketState, seq<Connection>>, conns: seq<Connection>)
    requires Groups(m, conns) && Lists(r.groups, m, m.Keys)
    requires r.total == ToInt32(|conns|) && r.established == ToInt32(|OfState(conns, Established)|)
    requires r.listen == ToInt32(|OfState(conns, Listen)|) && r.timeWait == ToInt32(|OfState(conns, TimeWait)|)
    ensures Describes(r, conns)
  {
    hide OfState, ToInt32;
  }

  method GetNetworkSockets(cancelled: bool, inodes: Option<set<uint32>>, tcp: File, tcp6: File)
    returns (response: Option<Response>)
    ensures response.None? <==> cancelled
    ensures !cancelled ==> Describes(response.value, AllSockets(inodes, tcp, tcp6))
  {
    hide SocketsIn, OfState, ToInt32, Groups, Lists, Describes;
    if cancelled {
      return None;
    }
    var known: set<uint32> := if inodes.Some? then inodes.value else {};
    var connections := [];
    var ipv4 := ReadSockets(tcp, "IPv4", known);
    if ipv4.Some? {
      connections := connections + ipv4.value;
    }
    var ipv6 := ReadSockets(tcp6, "IPv6", known);
    if ipv6.Some? {
      connections := connections + ipv6.value;
    }
    var byState, established, listen, timeWait := GroupByState(connections);
    var groups := ListGroups(byState);
    response := Some(Response(groups, ToInt32(|connections|), ToInt32(established), ToInt32(listen), ToInt32(timeWait)));
    GroupsDescribe(response.value, byState, connections);
    assert connections == AllSockets(inodes, tcp, tcp6);
  }

  // ----- Selecting -----

  function OnlyWanted(conns: seq<Connection>, inodes: set<uint32>): (cs: seq<Connection>)
    ensures forall c :: c in cs <==> c in conns && Wanted(c, inodes)
  {
    if conns == [] then []
    else
      var last := conns[|conns| - 1];
      OnlyWanted(conns[..|conns| - 1], inodes) + if Wanted(last, inodes) then [last] else []
  }

  /** Restricting to the inodes of the service while reading is restricting what was read without restriction. */
  lemma {:induction false} RestrictionCommutes(lines: seq<string>, protocol: string, inodes: set<uint32>)
    ensures Selected(lines, protocol, inodes) == OnlyWanted(Selected(lines, protocol, {}), inodes)
  {
    hide LineConnection;
    if lines != [] {
      var front := lines[..|lines| - 1];
      RestrictionCommutes(front, protocol, inodes);
      var before, c := Selected(front, protocol, {}), LineConnection(lines[|lines| - 1], protocol);
      if c.Some? {
        assert (before + [c.value])[..|before|] == before;
      } else {
        assert before + [] == before;
      }
    }
  }

  // ----- Conservation -----

  /** The connections of all groups, one group after the other. */
  function Grouped(groups: seq<Group>): seq<Connection> {
    if groups == [] then [] else Grouped(groups[..|groups| - 1]) + groups[|groups| - 1].connections
  }

  function SumOfCounts(groups: seq<Group>): int {
    if groups == [] then 0 else SumOfCounts(groups[..|groups| - 1]) + groups[|groups| - 1].count
  }

  lemma {:induction false} OneMoreState(conns: seq<Connection>, states: set<SocketState>, s: SocketState)
    requires s !in states
    ensures multiset(InStates(conns, states + {s})) == multiset(InStates(conns, states)) + multiset(OfState(conns, s))
  {
    if conns != [] {
      OneMoreState(conns[..|conns| - 1], states, s);
    }
  }

  lemma {:induction false} EveryState(conns: seq<Connection>, states: set<SocketState>)
    requires forall c :: c in conns ==> c.state in states
    ensures InStates(conns, states) == conns
  {
    if conns != [] {
      var front, last := conns[..|conns| - 1], conns[|conns| - 1];
      EveryState(front, states);
      assert conns == front + [last];
    }
  }

  function StatesOf(groups: seq<Group>): set<SocketState> {
    set i | 0 <= i < |groups| :: groups[i].state
  }

  /** Lists of groups with different states that hold the connections of their states. */
  predicate Sound(groups: seq<Group>, conns: seq<Connection>) {
    && (forall i, j :: 0 <= i < j < |groups| ==> groups[i].state != groups[j].state)
    && (forall i :: 0 <= i < |groups| ==> groups[i].connections == OfState(conns, groups[i].state))
  }

  lemma {:induction false} GroupedStates(groups: seq<Group>, conns: seq<Connection>)
    requires Sound(groups, conns)
    ensures multiset(Grouped(groups)) == multiset(InStates(conns, StatesOf(groups)))
  {
    hide OfState;
    if groups == [] {
      NoStates(conns);
      assert StatesOf(groups) == {};
    } else {
      var front, last := groups[..|groups| - 1], groups[|groups| - 1];
      GroupedStates(front, conns);
      assert last.state !in StatesOf(front);
      assert StatesOf(groups) == StatesOf(front) + {last.state} by {
        assert forall i :: 0 <= i < |front| ==> front[i] == groups[i];
        assert groups[|front|] == last;
      }
      OneMoreState(conns, StatesOf(front), last.state);
    }
  }

  lemma {:induction false} NoStates(conns: seq<Connection>)
    ensures InStates(conns, {}) == []
  {
    if conns != [] {
      NoStates(conns[..|conns| - 1]);
    }
  }

  lemma {:induction false} InStatesShorter(conns: seq<Connection>, states: set<SocketState>)
    ensures |InStates(conns, states)| <= |conns|
  {
    if conns != [] {
      InStatesShorter(conns[..|conns| - 1], states);
    }
  }

  lemma {:induction false} CountsAreLengths(groups: seq<Group>)
    requires forall i :: 0 <= i < |groups| ==> groups[i].count == |groups[i].connections|
    ensures SumOfCounts(groups) == |Grouped(groups)|
  {
    if groups != [] {
      CountsAreLengths(groups[..|groups| - 1]);
    }
  }

  /** Every connection is in exactly one group, that of its state, and nothing else is in any group. */
  lemma GroupsPartition(r: Response, conns: seq<Connection>)
    requires Describes(r, conns)
    ensures multiset(Grouped(r.groups)) == multiset(conns)
    ensures forall c :: c in conns ==>
              exists i :: 0 <= i < |r.groups| && r.groups[i].state == c.state && c in r.groups[i].connections
    ensures forall i :: 0 <= i < |r.groups| ==>
              forall c :: c in r.groups[i].connections ==> c.state == r.groups[i].state
  {
    hide ToInt32;
    GroupedStates(r.groups, conns);
    forall c | c in conns
      ensures c.state in StatesOf(r.groups)
      ensures exists i :: 0 <= i < |r.groups| && r.groups[i].state == c.state && c in r.groups[i].connections
    {
      assert c in OfState(conns, c.state);
      var i :| 0 <= i < |r.groups| && r.groups[i].state == c.state;
    }
    EveryState(conns, StatesOf(r.groups));
  }

  /** The size of a group, 0 when there is none. */
  ghost predicate CountOf(r: Response, s: SocketState, n: int) {
    if exists i :: 0 <= i < |r.groups| && r.groups[i].state == s
    then exists i :: 0 <= i < |r.groups| && r.groups[i].state == s && r.groups[i].count == n
    else n == 0
  }

  /** Beyond its range a count wraps around. */
  lemma WrapsAround(n: int)
    ensures (ToInt32(n) - n) % 0x1_0000_0000 == 0 && (ToUint32(n) - n) % 0x1_0000_0000 == 0
  {
    var m := n + 0x8000_0000;
    assert m % 0x1_0000_0000 - m == -(m / 0x1_0000_0000) * 0x1_0000_0000;
    assert n % 0x1_0000_0000 - n == -(n / 0x1_0000_0000) * 0x1_0000_0000;
  }

  lemma SmallIsExact(n: nat)
    requires n < 0x8000_0000
    ensures ToInt32(n) == n
  {
  }

  lemma CountOfState(r: Response, conns: seq<Connection>, s: SocketState)
    requires Describes(r, conns)
    ensures CountOf(r, s, ToInt32(|OfState(conns, s)|))
  {
    SmallIsExact(0);
    if i :| 0 <= i < |r.groups| && r.groups[i].state == s {
      assert r.groups[i].count == ToInt32(|OfState(conns, s)|);
    } else {
      assert OfState(conns, s) == [];
    }
  }

  /** Below two to the power of 31 connections: the counts sum up to the total, which is the number of connections, and the
      three dedicated counters are the counts of their groups. */
  lemma CountsAddUp(r: Response, conns: seq<Connection>)
    requires Describes(r, conns) && |conns| < 0x8000_0000
    ensures r.total == |conns| == SumOfCounts(r.groups)
    ensures CountOf(r, Established, r.established) && CountOf(r, Listen, r.listen) && CountOf(r, TimeWait, r.timeWait)
  {
    hide ToInt32;
    SmallIsExact(|conns|);
    forall i | 0 <= i < |r.groups| ensures r.groups[i].count == |r.groups[i].connections| {
      InStatesShorter(conns, {r.groups[i].state});
      SmallIsExact(|r.groups[i].connections|);
    }
    GroupsPartition(r, conns);
    CountsAreLengths(r.groups);
    assert |multiset(Grouped(r.groups))| == |multiset(conns)|;
    CountOfState(r, conns, Established);
    CountOfState(r, conns, Listen);
    CountOfState(r, conns, TimeWait);
  }

  /** Groups keep the order: what comes first in the list comes first in its group. */
  lemma {:induction false} GroupsKeepOrder(a: seq<Connection>, b: seq<Connection>, s: SocketState)
    ensures OfState(a + b, s) == OfState(a, s) + OfState(b, s)
  {
    hide OfState;
    if b == [] {
      assert a + b == a;
      NoneInState(b);
    } else {
      var front, last := b[..|b| - 1], b[|b| - 1];
      GroupsKeepOrder(a, front, s);
      assert a + b == (a + front) + [last] && b == front + [last];
      OfStateLast(a + front, last, s);
      OfStateLast(front, last, s);
    }
  }
}
