/** EnsureCertificatePath on live objects: paths are set through pointers that lists and stores share. */
module Certificates {
  import opened Text
  import opened Types
  import opened Heap
  import opened Crud
  import opened Haproxy
  import ManagedBlock

  ghost function TlsObject(c: Record): set<TlsConfiguration> {
    if c.tls != null then {c.tls} else {}
  }

  ghost function TlsObjects(cs: seq<Record>): set<TlsConfiguration> {
    set c | c in cs && c.tls != null :: c.tls
  }

  /** Sets the certificate path through the pointer; files is the number of certificate files that can still be written. */
  method EnsureCertificatePath(c: Record, dir: string, files: nat) returns (ok: bool, left: nat)
    modifies TlsObject(c)
    ensures ok == (old(NeedsCertificateFile(ValueOf(c))) ==> files > 0)
    ensures left == if old(NeedsCertificateFile(ValueOf(c))) && files > 0 then files - 1 else files
    ensures ValueOf(c) == if ok then EnsurePath(old(ValueOf(c)), dir) else old(ValueOf(c))
    ensures ok && old(NeedsCertificateFile(ValueOf(c))) ==>
              && c.tls != null && c.tls.certificatePath == CertificateFile(dir, c.name)
              && c.tls.certificatePem == "" && c.tls.privateKeyPem == "" && c.tls.privateKeyPath == old(c.tls.privateKeyPath)
              && c.tls.enabled && c.tls.skipBackendTlsVerify == old(c.tls.skipBackendTlsVerify)
  {
    ok, left := true, files;
    if c.tls == null || !c.tls.enabled {
      return;
    }
    if Trim(c.tls.certificatePath) != "" {
      return;
    }
    if Trim(c.tls.certificatePem) != "" && Trim(c.tls.privateKeyPem) != "" {
      if files == 0 {
        return false, 0;
      }
      left := files - 1;
      c.tls.certificatePath := CertificateFile(dir, c.name);
      c.tls.certificatePem := "";
      c.tls.privateKeyPem := "";
    }
  }

  /** The same on one entry of a list: no other entry changes. */
  method EnsureEntry(cs: seq<Record>, i: nat, dir: string, files: nat) returns (ok: bool, left: nat)
    requires TlsDistinct(cs) && i < |cs|
    modifies TlsObject(cs[i])
    ensures ok == (RULES.needsFile(old(Values(cs))[i]) ==> files > 0)
    ensures left == if RULES.needsFile(old(Values(cs))[i]) && files > 0 then files - 1 else files
    ensures Values(cs) == if ok then old(Values(cs))[i := RULES.withFile(old(Values(cs))[i], dir)] else old(Values(cs))
  {
    hide RULES, NeedsCertificateFile, EnsurePath, TlsWithFile;
    RulesEnsure(ValueOf(cs[i]), dir);
    ghost var before := Values(cs);
    forall j | 0 <= j < |cs| && j != i && cs[i].tls != null ensures cs[i].tls !in Objects(cs[j]) {
      assert cs[i].tls != cs[j].tls;
    }
    ok, left := EnsureCertificatePath(cs[i], dir, files);
    assert forall j :: 0 <= j < |cs| && j != i ==> Values(cs)[j] == before[j];
  }

  /** The loop at the start of persistAndReloadLockedWithStorePolicy. */
  method EnsureCertificatePaths(cs: seq<Record>, dir: string, files: nat) returns (ok: bool)
    requires TlsDistinct(cs)
    modifies TlsObjects(cs)
    ensures Ensured(Values(cs), ok) == EnsureAll(RULES, old(Values(cs)), dir, files)
  {
    hide EnsureAll, EnsuredUpTo, RULES, Values;
    var left := files;
    EnsuredAtStart(RULES, Values(cs), dir, files);
    RulesLeave(dir);
    for i := 0 to |cs|
      invariant EnsuredUpTo(RULES, old(Values(cs)), dir, files, i, left, Values(cs))
    {
      ghost var current, budget := Values(cs), left;
      ok, left := EnsureEntry(cs, i, dir, left);
      EnsuredNext(RULES, old(Values(cs)), dir, files, i, budget, current);
      if !ok {
        return;
      }
    }
    EnsuredAtEnd(RULES, old(Values(cs)), dir, files, left, Values(cs));
    ok := true;
  }

  /** The entries before i are done, with left files still to write; the others are as they were. */
  ghost predicate EnsuredUpTo<C>(r: Rules<C>, xs: seq<C>, dir: string, files: nat, i: nat, left: nat, ys: seq<C>) {
    && i <= |xs| == |ys| && ys[i..] == xs[i..]
    && EnsureAll(r, xs, dir, files) ==
       Ensured(ys[..i] + EnsureAll(r, xs[i..], dir, left).list, EnsureAll(r, xs[i..], dir, left).ok)
  }

  lemma EnsuredAtStart<C>(r: Rules<C>, xs: seq<C>, dir: string, files: nat)
    ensures EnsuredUpTo(r, xs, dir, files, 0, files, xs)
  {
    assert xs[0..] == xs;
  }

  lemma EnsuredNext<C>(r: Rules<C>, xs: seq<C>, dir: string, files: nat, i: nat, left: nat, ys: seq<C>)
    requires i < |xs| && EnsuredUpTo(r, xs, dir, files, i, left, ys)
    requires forall c :: !r.needsFile(c) ==> r.withFile(c, dir) == c
    ensures
      var needs := r.needsFile(ys[i]);
      && (needs && left == 0 ==> EnsureAll(r, xs, dir, files) == Ensured(ys, false))
      && (!(needs && left == 0) ==>
            EnsuredUpTo(r, xs, dir, files, i + 1, if needs then left - 1 else left, ys[i := r.withFile(ys[i], dir)]))
  {
    var y, rest := ys[i], xs[i..];
    assert rest[0] == xs[i] == ys[i..][0] == y && rest[1..] == xs[i + 1..];
    if r.needsFile(y) && left == 0 {
      assert ys[..i] + ys[i..] == ys;
    } else {
      var zs := ys[i := r.withFile(y, dir)];
      var tail := EnsureAll(r, xs[i + 1..], dir, if r.needsFile(y) then left - 1 else left).list;
      assert ys[..i] + ([r.withFile(y, dir)] + tail) == zs[..i + 1] + tail;
      assert zs[i + 1..] == ys[i..][1..] == xs[i + 1..];
    }
  }

  lemma EnsuredAtEnd<C>(r: Rules<C>, xs: seq<C>, dir: string, files: nat, left: nat, ys: seq<C>)
    requires EnsuredUpTo(r, xs, dir, files, |xs|, left, ys)
    ensures EnsureAll(r, xs, dir, files) == Ensured(ys, true)
  {
    assert xs[|xs|..] == [] && ys[..|xs|] + [] == ys;
  }

  // ----- What the rules are -----

  lemma RulesLoad(file: string)
    ensures RULES.load(file) == ManagedBlock.Load(file)
  {
  }

  lemma RulesLeave(dir: string)
    ensures forall c :: !RULES.needsFile(c) ==> RULES.withFile(c, dir) == c
  {
  }

  lemma RulesEnsure(c: Configuration, dir: string)
    ensures RULES.needsFile(c) == NeedsCertificateFile(c) && RULES.withFile(c, dir) == EnsurePath(c, dir)
  {
  }

  lemma RulesOf(c: Configuration, v: Verdicts)
    ensures RULES.validate(c, v) == ValidationErrorOf(c, v)
    ensures RULES.key(c) == Key(c) && RULES.normalize(c) == Normalize(c)
  {
  }

  lemma RulesKeys(cs: seq<Configuration>)
    ensures forall i :: 0 <= i < |cs| ==> RULES.key(cs[i]) == Trim(cs[i].name)
  {
  }

  lemma RulesTrim(name: string)
    ensures RULES.trim(name) == Trim(name)
  {
  }

  lemma RulesName()
    ensures RULES.name == NameOf
  {
  }

  lemma RulesMerge(base: string, cs: seq<Configuration>)
    ensures RULES.merge(base, cs) == ManagedBlock.Merge(base, cs)
  {
  }
}
