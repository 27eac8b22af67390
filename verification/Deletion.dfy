/** What passes over a DNSRecord marked for deletion achieve, and when the object goes away. */
module Deletion {
  import opened Text
  import opened Suffixes
  import opened Provider
  import opened Controller
  import opened Convergence

  /** An object marked for deletion under the controller's finalizer. */
  ghost predicate Doomed(s: Setting, c: Config) {
    WellFormed(s.ext.rules) && c.obj.deleting && RECORD_FINALIZER in c.obj.finalizers && "" !in c.remote
  }

  /** One whose spec the provider can work with: it converts, its name has a registrable
      domain, and no other provider owns it. */
  ghost predicate Deleting(s: Setting, c: Config) {
    Doomed(s, c) && GoalAt(s, c.obj).Some?
  }

  /** The remote zones without the object's own entry. */
  function WithoutOwn(s: Setting, c: Config): Remote {
    var id := c.obj.status.id;
    if id in c.remote && c.remote[id].zone == GoalZone(s.ext, s.me, Snapshot(s.ext, c.obj)) then c.remote - {id}
    else c.remote
  }

  /** A pass over an object marked for deletion removes the object's own entry and no other;
      only when the status is clear does it touch the finalizers. */
  lemma DeletionPass(s: Setting, c: Config, calls: Calls, version: nat)
    requires Deleting(s, c) && Faultless(s, c, calls)
    ensures var r, o := PassAt(s, c, calls, version), c.obj;
      && r.remote == WithoutOwn(s, c)
      && (o.status != Cleared(o.status) ==>
            r.obj == Some(o.(status := Cleared(o.status), version := version)))
      && (o.status == Cleared(o.status) ==>
            r.obj == Stored(o, WriteMeta(Snapshot(s.ext, o).spec, Removed(o.finalizers)), version))
  {
    FindTruthful(calls.listing.records, c.remote, GoalAt(s, c.obj).value.zone, c.obj.status.id);
    var rec := Snapshot(s.ext, c.obj);
    var p := ProviderPass(s.ext, s.me, rec, c.remote, calls);
    assert p == Outcome(true, Cleared(c.obj.status), WithoutOwn(s, c));
  }

  lemma StillDeleting(s: Setting, c: Config, version: nat)
    requires Deleting(s, c) && Removed(c.obj.finalizers) != []
    ensures var o' := c.obj.(spec := Snapshot(s.ext, c.obj).spec, finalizers := Removed(c.obj.finalizers), version := version);
      Deleting(s, Config(o', c.remote))
  {
    var o' := c.obj.(spec := Snapshot(s.ext, c.obj).spec, finalizers := Removed(c.obj.finalizers), version := version);
    RemovalIsExact(c.obj.finalizers);
    SnapshotStable(s, c.obj);
    SameGoal(s, c.obj, o');
  }

  /** With a clear status, a pass that leaves the object in place has only repeated the
      finalizer removal. */
  lemma DeletionStep(s: Setting, c: Config, calls: Calls, version: nat, c': Config)
    requires Deleting(s, c) && c.obj.status == Cleared(c.obj.status) && PassTo(s, c, calls, version, c')
    ensures Deleting(s, c') && c'.obj.status == Cleared(c'.obj.status)
    ensures c'.remote == c.remote && c'.obj.finalizers == Removed(c.obj.finalizers)
  {
    DeletionPass(s, c, calls, version);
    var stored := Stored(c.obj, WriteMeta(Snapshot(s.ext, c.obj).spec, Removed(c.obj.finalizers)), version);
    assert stored == Some(c'.obj);
    StillDeleting(s, c, version);
  }

  ghost predicate OwnPass(s: Setting, c: Config, c': Config) {
    exists calls, version :: PassTo(s, c, calls, version, c')
  }

  lemma DeletionStays(s: Setting, c: Config, c': Config)
    requires Deleting(s, c) && c.obj.status == Cleared(c.obj.status) && OwnPass(s, c, c')
    ensures Deleting(s, c') && c'.obj.status == Cleared(c'.obj.status)
    ensures c'.remote == c.remote && c'.obj.finalizers == Removed(c.obj.finalizers)
  {
    var calls, version :| PassTo(s, c, calls, version, c');
    DeletionStep(s, c, calls, version, c');
  }

  /** Steps that keep the zones and repeat the finalizer removal, any number of times. */
  lemma {:induction false} RemovalsAddUp(ready: Config -> bool, step: (Config, Config) -> bool, cs: seq<Config>)
    requires cs != [] && ready(cs[0]) && forall i :: 0 < i < |cs| ==> step(cs[i - 1], cs[i])
    requires forall c, c' :: ready(c) && step(c, c') ==>
      ready(c') && c'.remote == c.remote && c'.obj.finalizers == Next(c.obj.finalizers)
    ensures var c := cs[|cs| - 1];
      ready(c) && c.remote == cs[0].remote && c.obj.finalizers == Repeated(cs[0].obj.finalizers, |cs| - 1)
    decreases |cs|
  {
    if |cs| > 1 {
      var init := cs[..|cs| - 1];
      RemovalsAddUp(ready, step, init);
      assert step(init[|init| - 1], cs[|cs| - 1]);
    }
  }

  ghost predicate Cleaned(s: Setting, c: Config) {
    Deleting(s, c) && c.obj.status == Cleared(c.obj.status)
  }

  /** Faultless passes, each of which leaves the object in place. */
  ghost predicate Chain(s: Setting, cs: seq<Config>) {
    cs != [] && forall i :: 0 < i < |cs| ==> OwnPass(s, cs[i - 1], cs[i])
  }

  /** Deletion passes over an object with a clear status leave the zones alone and only
      repeat the finalizer removal. */
  lemma DeletionRun(s: Setting, cs: seq<Config>)
    requires Chain(s, cs) && Cleaned(s, cs[0])
    ensures var c := cs[|cs| - 1];
      Cleaned(s, c) && c.remote == cs[0].remote && c.obj.finalizers == Repeated(cs[0].obj.finalizers, |cs| - 1)
  {
    forall c, c' | Cleaned(s, c) && OwnPass(s, c, c')
      ensures Cleaned(s, c') && c'.remote == c.remote && c'.obj.finalizers == Next(c.obj.finalizers)
    {
      DeletionStays(s, c, c');
    }
    RemovalsAddUp(c => Cleaned(s, c), (c, c') => OwnPass(s, c, c'), cs);
  }

  /** The object disappears exactly when the controller's finalizer is the only one left. */
  lemma DeletionEnds(s: Setting, c: Config, calls: Calls, version: nat)
    requires Cleaned(s, c) && Faultless(s, c, calls)
    ensures PassAt(s, c, calls, version).obj.None? <==> c.obj.finalizers == [RECORD_FINALIZER]
  {
    DeletionPass(s, c, calls, version);
    RemovalOfOnlyOne(c.obj.finalizers);
  }

  // ---- whole deletions ----

  /** A faultless pass removes the object. */
  ghost predicate Removes(s: Setting, c: Config, calls: Calls, version: nat) {
    Faultless(s, c, calls) && PassAt(s, c, calls, version).obj.None?
  }

  ghost predicate CanGo(s: Setting, c: Config) {
    exists calls, version :: Removes(s, c, calls, version)
  }

  predicate FinalizerLast(fs: seq<string>) {
    RECORD_FINALIZER in fs && IndexOf(fs, RECORD_FINALIZER) == |fs| - 1
  }

  /** The first pass clears the status, and leaves the object in place and its finalizers alone. */
  lemma FirstPassClears(s: Setting, c: Config, calls: Calls, version: nat)
    requires Deleting(s, c) && !Cleaned(s, c) && Faultless(s, c, calls)
    ensures var r := PassAt(s, c, calls, version);
      && r.obj == Some(c.obj.(status := Cleared(c.obj.status), version := version))
      && Cleaned(s, Config(r.obj.value, r.remote))
  {
    DeletionPass(s, c, calls, version);
    SnapshotStable(s, c.obj);
    SameGoal(s, c.obj, c.obj.(status := Cleared(c.obj.status), version := version));
  }

  lemma CleanedGoes(s: Setting, c: Config)
    requires Cleaned(s, c)
    ensures CanGo(s, c) <==> c.obj.finalizers == [RECORD_FINALIZER]
  {
    if calls, version :| Removes(s, c, calls, version) {
      DeletionEnds(s, c, calls, version);
    }
    if c.obj.finalizers == [RECORD_FINALIZER] {
      var calls := FaultlessExists(s, c);
      DeletionEnds(s, c, calls, 0);
      assert Removes(s, c, calls, 0);
    }
  }

  /** Removals from a list that ends with the finalizer: one or two empty it. */
  lemma LastIsEmptied(fs: seq<string>)
    requires FinalizerLast(fs)
    ensures Removed(fs) == if |fs| == 1 then [] else [RECORD_FINALIZER]
  {
    IndexOfFirst(fs, RECORD_FINALIZER);
  }

  /** A chain of passes from the object after which a pass removes it. */
  ghost predicate Ends(s: Setting, c: Config, cs: seq<Config>) {
    Chain(s, cs) && cs[0] == c && CanGo(s, cs[|cs| - 1])
  }

  lemma CleanedEnds(s: Setting, c: Config, cs: seq<Config>)
    requires Cleaned(s, c) && Ends(s, c, cs)
    ensures FinalizerLast(c.obj.finalizers)
  {
    var n: nat, fs := |cs| - 1, c.obj.finalizers;
    DeletionRun(s, cs);
    CleanedGoes(s, cs[n]);
    EmptiedNext(fs, n);
    IndexOfFirst(fs, RECORD_FINALIZER);
  }

  lemma EmptiedNext(fs: seq<string>, n: nat)
    requires RECORD_FINALIZER in fs && Repeated(fs, n) == [RECORD_FINALIZER]
    ensures IndexOf(fs, RECORD_FINALIZER) == |fs| - 1
  {
    RemovalOfOnlyOne([RECORD_FINALIZER]);
    assert Repeated(fs, n + 1) == [];
    RemovalEmpties(fs);
  }

  /** A faultless pass that leaves the object in place is a link of a chain. */
  lemma LinkOf(s: Setting, c: Config, calls: Calls, r: Result) returns (c': Config)
    requires Faultless(s, c, calls) && r == PassAt(s, c, calls, 0) && r.obj.Some?
    ensures OwnPass(s, c, c')
  {
    c' := Config(r.obj.value, r.remote);
    assert PassTo(s, c, calls, 0, c');
  }

  lemma NextOf(s: Setting, c: Config) returns (c': Config)
    requires Deleting(s, c) && (Cleaned(s, c) ==> Removed(c.obj.finalizers) != [])
    ensures OwnPass(s, c, c')
  {
    var calls := FaultlessExists(s, c);
    DeletionPass(s, c, calls, 0);
    c' := LinkOf(s, c, calls, PassAt(s, c, calls, 0));
  }

  lemma LinkInFront(step: (Config, Config) -> bool, c: Config, rest: seq<Config>, cs: seq<Config>)
    requires rest != [] && step(c, rest[0]) && cs == [c] + rest
    requires forall i :: 0 < i < |rest| ==> step(rest[i - 1], rest[i])
    ensures forall i :: 0 < i < |cs| ==> step(cs[i - 1], cs[i])
  {
    forall i | 0 < i < |cs| ensures step(cs[i - 1], cs[i]) {
      assert i > 1 ==> step(rest[i - 2], rest[i - 1]);
    }
  }

  lemma ChainInFront(s: Setting, c: Config, rest: seq<Config>, cs: seq<Config>)
    requires Chain(s, rest) && OwnPass(s, c, rest[0]) && cs == [c] + rest
    ensures Chain(s, cs)
  {
    LinkInFront((c, c') => OwnPass(s, c, c'), c, rest, cs);
  }

  lemma EndsInFront(s: Setting, c: Config, rest: seq<Config>)
    requires rest != [] && OwnPass(s, c, rest[0]) && Ends(s, rest[0], rest)
    ensures Ends(s, c, [c] + rest)
  {
    var cs := [c] + rest;
    ChainInFront(s, c, rest, cs);
    assert cs[|cs| - 1] == rest[|rest| - 1];
  }

  lemma CleanedHasEnd(s: Setting, c: Config) returns (cs: seq<Config>)
    requires Cleaned(s, c) && FinalizerLast(c.obj.finalizers)
    ensures Ends(s, c, cs)
  {
    LastIsEmptied(c.obj.finalizers);
    if |c.obj.finalizers| == 1 {
      CleanedGoes(s, c);
      cs := [c];
    } else {
      var c' := NextOf(s, c);
      DeletionStays(s, c, c');
      CleanedGoes(s, c');
      EndsInFront(s, c, [c']);
      cs := [c] + [c'];
    }
  }

  lemma FirstOfChain(s: Setting, c: Config, c': Config)
    requires Deleting(s, c) && !Cleaned(s, c) && OwnPass(s, c, c')
    ensures Cleaned(s, c') && c'.obj.finalizers == c.obj.finalizers
  {
    var calls, version :| PassTo(s, c, calls, version, c');
    FirstPassClears(s, c, calls, version);
  }

  /** Without a goal, a deletion pass fails before it has changed anything, whatever the
      provider would answer. */
  lemma GoallessIsStuck(s: Setting, c: Config, calls: Calls, version: nat)
    requires c.obj.deleting && GoalAt(s, c.obj).None?
    ensures PassAt(s, c, calls, version).obj == Some(c.obj) && PassAt(s, c, calls, version).remote == c.remote
  {
  }

  lemma StuckStays(s: Setting, c: Config, c': Config)
    requires c.obj.deleting && GoalAt(s, c.obj).None? && OwnPass(s, c, c')
    ensures c' == c
  {
    var calls, version :| PassTo(s, c, calls, version, c');
    GoallessIsStuck(s, c, calls, version);
  }

  lemma {:induction false} StuckForever(s: Setting, cs: seq<Config>)
    requires Chain(s, cs) && cs[0].obj.deleting && GoalAt(s, cs[0].obj).None?
    ensures cs[|cs| - 1] == cs[0] && !CanGo(s, cs[0])
    decreases |cs|
  {
    if |cs| > 1 {
      var init := cs[..|cs| - 1];
      StuckForever(s, init);
      StuckStays(s, init[|init| - 1], cs[|cs| - 1]);
    } else if calls, version :| Removes(s, cs[0], calls, version) {
      GoallessIsStuck(s, cs[0], calls, version);
    }
  }

  /** Some run of faultless passes ends with the object gone exactly when the provider can
      work with its spec and the controller's finalizer is the last one in the list. */
  lemma ObjectGoes(s: Setting, c: Config)
    requires Doomed(s, c)
    ensures (exists cs :: Ends(s, c, cs)) <==> GoalAt(s, c.obj).Some? && FinalizerLast(c.obj.finalizers)
  {
    if cs :| Ends(s, c, cs) {
      if GoalAt(s, c.obj).None? {
        StuckForever(s, cs);
      } else {
        EndsOnlyIfLast(s, c, cs);
      }
    }
    if GoalAt(s, c.obj).Some? && FinalizerLast(c.obj.finalizers) {
      var cs := HasEnd(s, c);
    }
  }

  lemma EndsOnlyIfLast(s: Setting, c: Config, cs: seq<Config>)
    requires Deleting(s, c) && Ends(s, c, cs)
    ensures FinalizerLast(c.obj.finalizers)
  {
    if Cleaned(s, c) {
      CleanedEnds(s, c, cs);
    } else {
      if |cs| == 1 {
        var calls, version :| Removes(s, c, calls, version);
        FirstPassClears(s, c, calls, version);
      }
      FirstOfChain(s, c, cs[1]);
      assert Ends(s, cs[1], cs[1..]);
      CleanedEnds(s, cs[1], cs[1..]);
    }
  }

  lemma HasEnd(s: Setting, c: Config) returns (cs: seq<Config>)
    requires Deleting(s, c) && FinalizerLast(c.obj.finalizers)
    ensures Ends(s, c, cs)
  {
    if Cleaned(s, c) {
      cs := CleanedHasEnd(s, c);
    } else {
      var c' := NextOf(s, c);
      FirstOfChain(s, c, c');
      var rest := CleanedHasEnd(s, c');
      EndsInFront(s, c, rest);
      cs := [c] + rest;
    }
  }

  /** Then every run is short: at the latest the third faultless pass removes the object. */
  lemma GoneInThree(s: Setting, cs: seq<Config>)
    requires Chain(s, cs) && Deleting(s, cs[0]) && FinalizerLast(cs[0].obj.finalizers)
    ensures |cs| <= 3
  {
    if |cs| > 3 {
      if !Cleaned(s, cs[0]) {
        FirstOfChain(s, cs[0], cs[1]);
      } else {
        DeletionStays(s, cs[0], cs[1]);
        LastIsEmptied(cs[0].obj.finalizers);
      }
      GoneInTwo(s, cs[1..]);
    }
  }

  lemma GoneInTwo(s: Setting, cs: seq<Config>)
    requires Chain(s, cs) && Cleaned(s, cs[0]) && FinalizerLast(cs[0].obj.finalizers)
    ensures |cs| <= 2
  {
    if |cs| > 2 {
      LastIsEmptied(cs[0].obj.finalizers);
      DeletionStays(s, cs[0], cs[1]);
      DeletionStays(s, cs[1], cs[2]);
      RemovalOfOnlyOne(cs[1].obj.finalizers);
    }
  }
}
