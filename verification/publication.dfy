/** Double-checked creation of the runtime client: getOrCreateClient in any number of threads, step by step. */
module Publication {
  import opened Text
  import opened Types

  /** Where a thread stands in getOrCreateClient. */
  datatype Thread =
    | Idle
    | Checking
    | SeenNone
    | Locked
    | Created(client: nat, file: string)
    | FileSet(client: nat)
    | DirectorySet(client: nat)
    | DirectoryMade(client: nat)
    | Leaving(result: Option<nat>, exclusive: bool)

  datatype Entry = Published(client: nat) | Got(client: nat, file: string, directory: string)

  /** The fields the lock protects, the threads, the clients made so far and what has happened. */
  datatype Machine = Machine(
    client: Option<nat>,
    configurationFile: string,
    certificatesDir: string,
    threads: seq<Thread>,
    made: nat,
    log: seq<Entry>)

  /** One step of one thread: ok tells whether the settings, the runtime library or the file system let it succeed; file is
      the path found in the settings. */
  datatype Turn = Turn(t: nat, ok: bool, file: string)

  predicate Reading(thread: Thread) {
    thread == Checking || (thread.Leaving? && !thread.exclusive)
  }

  /** The thread holds the write lock. */
  predicate Exclusive(thread: Thread) {
    !thread.Idle? && !thread.SeenNone? && !Reading(thread)
  }

  predicate Enabled(m: Machine, turn: Turn) {
    && turn.t < |m.threads|
    && (m.threads[turn.t] == Idle ==> forall u :: 0 <= u < |m.threads| ==> !Exclusive(m.threads[u]))
    && (m.threads[turn.t] == SeenNone ==>
          forall u :: 0 <= u < |m.threads| ==> !Exclusive(m.threads[u]) && !Reading(m.threads[u]))
  }

  function Moved(m: Machine, turn: Turn): Machine
    requires Enabled(m, turn)
  {
    var t := turn.t;
    match m.threads[t]
    case Idle => m.(threads := m.threads[t := Checking])
    case Checking => m.(threads := m.threads[t := if m.client.Some? then Leaving(m.client, false) else SeenNone])
    case SeenNone => m.(threads := m.threads[t := Locked])
    case Locked =>
      if m.client.Some? then m.(threads := m.threads[t := Leaving(m.client, true)])
      else if !turn.ok || Blank(turn.file) then m.(threads := m.threads[t := Leaving(None, true)])
      else m.(threads := m.threads[t := Created(m.made, turn.file)], made := m.made + 1)
    case Created(c, file) => m.(threads := m.threads[t := FileSet(c)], configurationFile := file)
    case FileSet(c) =>
      m.(threads := m.threads[t := DirectorySet(c)], certificatesDir := CertificatesDirectory(m.configurationFile))
    case DirectorySet(c) => m.(threads := m.threads[t := if turn.ok then DirectoryMade(c) else Leaving(None, true)])
    case DirectoryMade(c) =>
      m.(threads := m.threads[t := Leaving(Some(c), true)], client := Some(c), log := m.log + [Published(c)])
    case Leaving(result, _) =>
      m.(threads := m.threads[t := Idle],
         log := m.log + if result.Some? then [Got(result.value, m.configurationFile, m.certificatesDir)] else [])
  }

  function Took(m: Machine, turn: Turn): Machine {
    if Enabled(m, turn) then Moved(m, turn) else m
  }

  function Started(threads: nat): Machine {
    Machine(None, "", "", seq(threads, _ => Idle), 0, [])
  }

  /** Any interleaving: the turns in the order in which they are taken. */
  function After(threads: nat, turns: seq<Turn>): Machine {
    if turns == [] then Started(threads) else Took(After(threads, turns[..|turns| - 1]), turns[|turns| - 1])
  }

  // ----- The invariant -----

  /** The path is known, and the directory belongs to it. */
  predicate FilesKnown(m: Machine) {
    !Blank(m.configurationFile) && m.certificatesDir == CertificatesDirectory(m.configurationFile)
  }

  predicate ThreadOk(m: Machine, thread: Thread) {
    match thread
    case Created(_, file) => m.client == None && !Blank(file)
    case FileSet(_) => m.client == None && !Blank(m.configurationFile)
    case DirectorySet(_) => m.client == None && FilesKnown(m)
    case DirectoryMade(_) => m.client == None && FilesKnown(m)
    case Leaving(result, _) => result.Some? ==> result == m.client
    case _ => true
  }

  predicate EntryOk(m: Machine, entry: Entry) {
    match entry
    case Published(c) => m.client == Some(c)
    case Got(c, file, directory) => m.client == Some(c) && file == m.configurationFile && directory == m.certificatesDir
  }

  /** No two threads are inside when one of them holds the write lock. */
  ghost predicate Excluded(threads: seq<Thread>) {
    forall t, u :: 0 <= t < |threads| && 0 <= u < |threads| && t != u && Exclusive(threads[t]) ==>
      !Exclusive(threads[u]) && !Reading(threads[u])
  }

  /** Nothing is logged before a client is published; its publication comes first and only once. */
  ghost predicate LogOk(m: Machine) {
    && (forall i :: 0 <= i < |m.log| ==> EntryOk(m, m.log[i]))
    && (forall i :: 0 <= i < |m.log| ==> (m.log[i].Published? <==> i == 0))
    && (m.client == None <==> m.log == [])
  }

  ghost predicate Inv(m: Machine) {
    && Excluded(m.threads)
    && (forall t :: 0 <= t < |m.threads| ==> ThreadOk(m, m.threads[t]))
    && (m.client.Some? ==> FilesKnown(m))
    && LogOk(m)
  }

  /** Taking the read lock, the first check, taking the write lock. */
  lemma CheckInv(m: Machine, turn: Turn)
    requires Inv(m) && Enabled(m, turn)
    requires var thread := m.threads[turn.t]; thread == Idle || thread == Checking || thread == SeenNone
    ensures Inv(Moved(m, turn))
  {
    hide Blank, CertificatesDirectory;
  }

  /** The second check and the attempt to make a client. */
  lemma AttemptInv(m: Machine, turn: Turn)
    requires Inv(m) && Enabled(m, turn)
    requires var thread := m.threads[turn.t]; thread.Locked? || thread.Created? || thread.FileSet? || thread.DirectorySet?
    ensures Inv(Moved(m, turn))
  {
    hide Blank, CertificatesDirectory;
  }

  lemma PublishInv(m: Machine, turn: Turn)
    requires Inv(m) && Enabled(m, turn) && m.threads[turn.t].DirectoryMade?
    ensures Inv(Moved(m, turn))
  {
    hide Blank, CertificatesDirectory;
  }

  lemma LeaveInv(m: Machine, turn: Turn)
    requires Inv(m) && Enabled(m, turn) && m.threads[turn.t].Leaving?
    ensures Inv(Moved(m, turn))
  {
    hide Blank, CertificatesDirectory;
  }

  lemma TookInv(m: Machine, turn: Turn)
    requires Inv(m)
    ensures Inv(Took(m, turn))
  {
    hide Moved;
    if Enabled(m, turn) {
      match m.threads[turn.t]
      case DirectoryMade(_) => PublishInv(m, turn);
      case Leaving(_, _) => LeaveInv(m, turn);
      case Idle => CheckInv(m, turn);
      case Checking => CheckInv(m, turn);
      case SeenNone => CheckInv(m, turn);
      case _ => AttemptInv(m, turn);
    }
  }

  lemma {:induction false} AfterInv(threads: nat, turns: seq<Turn>)
    ensures Inv(After(threads, turns))
  {
    if turns != [] {
      AfterInv(threads, turns[..|turns| - 1]);
      TookInv(After(threads, turns[..|turns| - 1]), turns[|turns| - 1]);
    }
  }

  // ----- What holds in every interleaving -----

  /** One client is published at most, and every caller that gets a client gets that one, together with the same
      configuration file and the certificates directory that belongs to it. */
  lemma OneClientForAll(threads: nat, turns: seq<Turn>, i: nat, j: nat)
    requires i < j < |After(threads, turns).log|
    ensures
      var log := After(threads, turns).log;
      && log[i].client == log[j].client && log[j].Got?
      && log[j].directory == CertificatesDirectory(log[j].file) && !Blank(log[j].file)
      && (log[i].Got? ==> log[i] == log[j])
  {
    AfterInv(threads, turns);
    var m := After(threads, turns);
    assert EntryOk(m, m.log[i]) && EntryOk(m, m.log[j]);
  }

  /** Whoever can see the client can see where its files are. */
  lemma FilesBeforeClient(threads: nat, turns: seq<Turn>)
    ensures After(threads, turns).client.Some? ==> FilesKnown(After(threads, turns))
  {
    AfterInv(threads, turns);
  }

  /** Once a client is published, no step of any thread touches the client or the files again. */
  lemma PublishedForGood(threads: nat, turns: seq<Turn>, n: nat)
    requires n <= |turns| && After(threads, turns[..n]).client.Some?
    ensures
      var first, last := After(threads, turns[..n]), After(threads, turns);
      && last.client == first.client && last.configurationFile == first.configurationFile
      && last.certificatesDir == first.certificatesDir
    decreases |turns|
  {
    if n == |turns| {
      assert turns[..n] == turns;
    } else {
      var front := turns[..|turns| - 1];
      assert front[..n] == turns[..n];
      PublishedForGood(threads, front, n);
      AfterInv(threads, front);
    }
  }

  /** Thread t taking the same turn over and over. */
  function Alone(m: Machine, turn: Turn, times: nat): Machine {
    if times == 0 then m else Took(Alone(m, turn, times - 1), turn)
  }

  /** Where a client is published, a caller gets it in three turns, whatever other callers read at the same time. */
  lemma PublishedIsGot(m: Machine, turn: Turn)
    requires Inv(m) && turn.t < |m.threads| && m.threads[turn.t] == Idle && m.client.Some?
    requires forall u :: 0 <= u < |m.threads| ==> !Exclusive(m.threads[u])
    ensures
      var last := Alone(m, turn, 3);
      && last.threads == m.threads && last.client == m.client
      && last.log == m.log + [Got(m.client.value, m.configurationFile, m.certificatesDir)]
  {
    hide Blank, CertificatesDirectory;
    assert Alone(m, turn, 1) == m.(threads := m.threads[turn.t := Checking]);
    assert Alone(m, turn, 2) == m.(threads := m.threads[turn.t := Leaving(m.client, false)]);
  }

  /** Failed attempts are not final: while no client is published and nobody else is inside, a caller whose steps succeed
      publishes the client it makes, whatever files earlier attempts have left behind. */
  lemma RetrySucceeds(m: Machine, turn: Turn)
    requires Inv(m) && turn.t < |m.threads| && turn.ok && !Blank(turn.file) && m.client == None
    requires forall t :: 0 <= t < |m.threads| ==> m.threads[t] == Idle
    ensures
      var last := Alone(m, turn, 9);
      && last.client == Some(m.made) && last.configurationFile == turn.file && last.threads == m.threads
      && last.log == m.log + [Published(m.made), Got(m.made, turn.file, CertificatesDirectory(turn.file))]
  {
    hide Blank, CertificatesDirectory;
    assert Alone(m, turn, 1) == m.(threads := m.threads[turn.t := Checking]);
    assert Alone(m, turn, 2) == m.(threads := m.threads[turn.t := SeenNone]);
    assert Alone(m, turn, 3) == m.(threads := m.threads[turn.t := Locked]);
    assert Alone(m, turn, 4) == m.(threads := m.threads[turn.t := Created(m.made, turn.file)], made := m.made + 1);
    assert Alone(m, turn, 6).threads == m.threads[turn.t := DirectorySet(m.made)];
    assert Alone(m, turn, 8).threads == m.threads[turn.t := Leaving(Some(m.made), true)];
  }
}
