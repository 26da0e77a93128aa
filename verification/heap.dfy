/** Configurations as they live in memory: structs that share backend arrays and TLS objects when copied. */
module Heap {
  import opened Text
  import opened Sorting
  import opened Types

  class TlsConfiguration {
    var enabled: bool
    var certificatePath: string
    var privateKeyPath: string
    var certificatePem: string
    var privateKeyPem: string
    var skipBackendTlsVerify: bool

    constructor (t: Tls)
      ensures Value() == t
    {
      enabled, certificatePath, privateKeyPath := t.enabled, t.certificatePath, t.privateKeyPath;
      certificatePem, privateKeyPem := t.certificatePem, t.privateKeyPem;
      skipBackendTlsVerify := t.skipBackendTlsVerify;
    }

    function Value(): Tls
      reads this
    {
      Tls(enabled, certificatePath, privateKeyPath, certificatePem, privateKeyPem, skipBackendTlsVerify)
    }
  }

  /** HaproxyConfiguration: a struct, copied by value, whose backends and TLS options are references. */
  datatype Record = Record(
    name: string,
    frontendName: string,
    frontendBindAddress: string,
    frontendBindPort: uint32,
    url: string,
    loadBalancing: string,
    backendName: string,
    backends: array<Target>,
    trafficMode: string,
    autoHttpsRedirect: bool,
    tls: TlsConfiguration?)

  /** The objects with contents of its own that a struct refers to; an empty array has none. */
  ghost function Objects(c: Record): set<object> {
    (if c.backends.Length > 0 then {c.backends} else {}) + (if c.tls != null then {c.tls} else {})
  }

  ghost function AllObjects(cs: seq<Record>): set<object> {
    set c, o | c in cs && o in Objects(c) :: o
  }

  function ValueOf(c: Record): (v: Configuration)
    reads Objects(c)
    ensures v.name == c.name
  {
    Configuration(c.name, c.frontendName, c.frontendBindAddress, c.frontendBindPort, c.url, c.loadBalancing,
                  c.backendName, if c.backends.Length > 0 then c.backends[..] else [], c.trafficMode,
                  c.autoHttpsRedirect, if c.tls != null then Some(c.tls.Value()) else None)
  }

  function Values(cs: seq<Record>): (vs: seq<Configuration>)
    reads AllObjects(cs)
    ensures |vs| == |cs| && forall i :: 0 <= i < |cs| ==> vs[i] == ValueOf(cs[i])
  {
    seq(|cs|, i requires 0 <= i < |cs| reads AllObjects(cs) => ValueOf(cs[i]))
  }

  /** No TLS object belongs to two entries. */
  ghost predicate TlsDistinct(cs: seq<Record>) {
    forall i, j :: 0 <= i < j < |cs| && cs[i].tls != null ==> cs[i].tls != cs[j].tls
  }

  /** CloneConfiguration. */
  method Clone(c: Record) returns (d: Record)
    ensures ValueOf(d) == ValueOf(c) && fresh(Objects(d))
    ensures d == c.(backends := d.backends, tls := d.tls)
    ensures d.tls != null <==> c.tls != null
  {
    d := c;
    if c.backends.Length > 0 {
      var copy := new Target[c.backends.Length](i requires 0 <= i < c.backends.Length reads c.backends => c.backends[i]);
      assert copy[..] == c.backends[..];
      d := d.(backends := copy);
    }
    if c.tls != null {
      var tls := new TlsConfiguration(c.tls.Value());
      d := d.(tls := tls);
    }
  }

  /** Allocates a decoded configuration. */
  method Allocate(v: Configuration) returns (c: Record)
    ensures ValueOf(c) == v && fresh(Objects(c))
  {
    var backends := new Target[|v.backends|](i requires 0 <= i < |v.backends| => v.backends[i]);
    assert backends[..] == v.backends;
    var tls: TlsConfiguration? := null;
    if v.tls.Some? {
      tls := new TlsConfiguration(v.tls.value);
    }
    c := Record(v.name, v.frontendName, v.frontendBindAddress, v.frontendBindPort, v.url, v.loadBalancing,
                v.backendName, backends, v.trafficMode, v.autoHttpsRedirect, tls);
  }

  lemma ObjectsOfMember(cs: seq<Record>, i: nat)
    requires i < |cs|
    ensures Objects(cs[i]) <= AllObjects(cs)
  {
    assert cs[i] in cs;
  }

  lemma ObjectsOfConcat(a: seq<Record>, b: seq<Record>)
    ensures AllObjects(a + b) == AllObjects(a) + AllObjects(b)
  {
    assert forall c :: c in a + b <==> c in a || c in b;
  }

  lemma ObjectsOfOne(c: Record)
    ensures AllObjects([c]) == Objects(c)
  {
    assert c in [c];
  }

  lemma ObjectsOfLast(cs: seq<Record>, c: Record)
    ensures AllObjects(cs + [c]) == AllObjects(cs) + Objects(c)
  {
    ObjectsOfConcat(cs, [c]);
    ObjectsOfOne(c);
  }

  /** Adding an entry whose TLS object is not among those present. */
  lemma TlsDistinctLast(cs: seq<Record>, c: Record)
    requires TlsDistinct(cs) && (c.tls != null ==> c.tls !in AllObjects(cs))
    ensures TlsDistinct(cs + [c])
  {
    var all := cs + [c];
    forall i, j | 0 <= i < j < |all| && all[i].tls != null ensures all[i].tls != all[j].tls {
      ObjectsOfMember(cs, i);
    }
  }

  method AllocateAll(vs: seq<Configuration>) returns (cs: seq<Record>)
    ensures Values(cs) == vs && fresh(AllObjects(cs)) && TlsDistinct(cs)
  {
    hide Values;
    cs := [];
    assert Values(cs) == vs[..0];
    for i := 0 to |vs|
      invariant Values(cs) == vs[..i] && fresh(AllObjects(cs)) && TlsDistinct(cs)
    {
      assert vs[..i + 1] == vs[..i] + [vs[i]];
      cs := AllocateNext(cs, vs[i]);
    }
  }

  method AllocateNext(cs: seq<Record>, v: Configuration) returns (ds: seq<Record>)
    requires TlsDistinct(cs)
    ensures Values(ds) == Values(cs) + [v] && fresh(AllObjects(ds) - AllObjects(cs)) && TlsDistinct(ds)
  {
    ghost var present := AllObjects(cs);
    var c := Allocate(v);
    assert present !! Objects(c);
    ObjectsOfLast(cs, c);
    TlsDistinctLast(cs, c);
    ValuesOfLast(cs, c);
    ds := cs + [c];
  }

  lemma ValuesOfLast(cs: seq<Record>, c: Record)
    ensures Values(cs + [c]) == Values(cs) + [ValueOf(c)]
  {
  }

  // ----- Sorting live entries -----

  function RecordName(c: Record): string {
    c.name
  }

  lemma ValuesOfFirst(c: Record, cs: seq<Record>)
    ensures Values([c] + cs) == [ValueOf(c)] + Values(cs)
  {
  }

  lemma {:induction false} InsertValues(x: Record, xs: seq<Record>)
    ensures Values(Insert(x, xs, RecordName)) == Insert(ValueOf(x), Values(xs), NameOf)
  {
    ValuesOfFirst(x, xs);
    if xs != [] && !Less(x.name, xs[0].name) {
      InsertValues(x, xs[1..]);
      ValuesOfFirst(xs[0], Insert(x, xs[1..], RecordName));
      assert Values(xs)[1..] == Values(xs[1..]);
    }
  }

  /** Sorting structs by name sorts the configurations they hold. */
  lemma {:induction false} SortValues(cs: seq<Record>)
    ensures Values(SortBy(cs, RecordName)) == SortBy(Values(cs), NameOf)
  {
    if cs != [] {
      var n := |cs| - 1;
      SortValues(cs[..n]);
      InsertValues(cs[n], SortBy(cs[..n], RecordName));
      assert Values(cs)[..n] == Values(cs[..n]);
    }
  }

  /** A copy of the list, sorted in place by name. */
  method SortedSlice(cs: seq<Record>) returns (a: array<Record>)
    ensures fresh(a) && a[..] == SortBy(cs, RecordName)
  {
    a := new Record[|cs|](i requires 0 <= i < |cs| => cs[i]);
    assert a[..] == cs;
    SortSlice(a, RecordName);
  }

  /** The loop of ListConfigurations: every entry of the slice is overwritten with a copy of its own. */
  method CloneEntries(a: array<Record>)
    modifies a
    ensures Values(a[..]) == old(Values(a[..])) && fresh(AllObjects(a[..]))
  {
    for i := 0 to a.Length
      invariant Values(a[..]) == old(Values(a[..])) && fresh(AllObjects(a[..i]))
    {
      CloneEntry(a, i);
    }
    assert a[..a.Length] == a[..];
  }

  method CloneEntry(a: array<Record>, i: nat)
    requires i < a.Length
    modifies a
    ensures Values(a[..]) == old(Values(a[..]))
    ensures fresh(AllObjects(a[..i + 1]) - old(AllObjects(a[..i])))
  {
    hide AllObjects;
    ghost var before, values := a[..], Values(a[..]);
    var copy := Clone(a[i]);
    assert Values(before) == values;
    a[i] := copy;
    ObjectsOfLast(before[..i], copy);
    assert a[..i + 1] == before[..i] + [copy];
    ValuesOfReplaced(before, i, copy);
    assert a[..] == before[i := copy];
    ghost var left := old(AllObjects(a[..i]));
    assert left == AllObjects(before[..i]) && AllObjects(a[..i + 1]) == left + Objects(copy);
  }

  lemma ValuesOfReplaced(cs: seq<Record>, i: nat, c: Record)
    requires i < |cs| && ValueOf(c) == ValueOf(cs[i])
    ensures Values(cs[i := c]) == Values(cs)
  {
  }

  /** What ListConfigurations shows: the entries in the order of their names, copied. */
  method SortedCopies(cs: seq<Record>) returns (result: seq<Record>)
    ensures Values(result) == SortBy(old(Values(cs)), NameOf) && fresh(AllObjects(result))
  {
    hide SortBy, Values;
    var a := SortedSlice(cs);
    assert Values(cs) == old(Values(cs));
    SortValues(cs);
    CloneEntries(a);
    result := a[..];
  }
}
