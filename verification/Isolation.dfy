/** What holds over every interleaving: objects do not disturb one another or foreign
    entries, and an entry is orphaned by exactly the steps named here. */
module Isolation {
  import opened Text
  import opened Records
  import opened Normaliser
  import opened Provider
  import opened Controller
  import opened Protocol

  ghost predicate Possible(e: Env, s: State, steps: seq<Step>)
    decreases |steps|
  {
    steps != [] ==> Enabled(e, s, steps[0]) && Possible(e, Apply(e, s, steps[0]), steps[1..])
  }

  ghost function Final(e: Env, s: State, steps: seq<Step>): State
    requires Possible(e, s, steps)
    decreases |steps|
  {
    if steps == [] then s else Final(e, Apply(e, s, steps[0]), steps[1..])
  }

  lemma {:induction false} RunKeepsInv(e: Env, s: State, steps: seq<Step>)
    requires Inv(s) && Possible(e, s, steps)
    ensures Inv(Final(e, s, steps))
    decreases |steps|
  {
    if steps != [] {
      StepKeepsInv(e, s, steps[0]);
      RunKeepsInv(e, Apply(e, s, steps[0]), steps[1..]);
    }
  }

  predicate ByController(step: Step) {
    step.Fetch? || step.List? || step.Delete? || step.Append? || step.Conclusion? || step.Crash?
  }

  lemma DistinctIds(s: State, j: Key, k: Key)
    requires Inv(s) && j in s.store && k in s.store && s.store[j].status.id == s.store[k].status.id != ""
    ensures j == k
  {
  }

  /** The only entry a controller step removes or changes is the one at the identifier of
      the pass that deletes it, which was issued to its own object. */
  predicate Spares(s: State, s': State, step: Step, id: string)
    requires id in s.remote
  {
    (id in s'.remote && s'.remote[id] == s.remote[id]) ||
    (step.Delete? && step.key in s.passes && id == s.passes[step.key].rec.status.id
     && id in s.issued && s.issued[id] == Some(step.key))
  }

  lemma ControllerSpares(e: Env, s: State, step: Step, id: string)
    requires Inv(s) && ByController(step) && Enabled(e, s, step) && id in s.remote
    ensures Spares(s, Apply(e, s, step), step, id)
  {
    if step.Delete? {
      assert PassOk(s, step.key);
    } else if step.Append? {
      assert step.reply.AppendFailed? || step.reply.id != id;
    } else if step.Fetch? {
      FetchOnlyReads(e, s, step.key);
    } else if step.List? {
      ListOnlyReads(s, step.key, s.passes[step.key].rec, Decide(e.ext, e.me, s.passes[step.key].rec, step.listing));
    }
  }

  lemma FetchOnlyReads(e: Env, s: State, k: Key)
    ensures Fetched(e, s, k).remote == s.remote
  {
  }

  lemma ListOnlyReads(s: State, k: Key, rec: Record, plan: Plan)
    ensures AfterListing(s, k, rec, plan).remote == s.remote
  {
  }

  /** Isolation over whole runs: no two objects ever hold the same identifier, and whatever
      a pass does next spares every entry but its own; foreign entries are never touched. */
  lemma ObjectsAreIsolated(e: Env, s0: State, steps: seq<Step>, step: Step, id: string)
    requires Init(s0) && Possible(e, s0, steps)
    requires ByController(step) && Enabled(e, Final(e, s0, steps), step)
    ensures var s := Final(e, s0, steps);
      forall j, k :: j in s.store && k in s.store && s.store[j].status.id == s.store[k].status.id != "" ==> j == k
    ensures var s := Final(e, s0, steps);
      id in s.remote ==> Spares(s, Apply(e, s, step), step, id)
  {
    RunKeepsInv(e, s0, steps);
    var s := Final(e, s0, steps);
    forall j, k | j in s.store && k in s.store && s.store[j].status.id == s.store[k].status.id != "" ensures j == k {
      DistinctIds(s, j, k);
    }
    if id in s.remote {
      ControllerSpares(e, s, step, id);
    }
  }

  // ---- orphans ----

  /** The object an entry was appended for still knows it, or a pass of it is about to record it. */
  predicate Held(s: State, id: string)
    requires id in s.issued && s.issued[id].Some?
  {
    var k := s.issued[id].value;
    (k in s.store && s.store[k].status.id == id) || (k in s.passes && Claim(s.passes[k]) == id)
  }

  predicate Orphan(s: State, id: string) {
    id != "" && id in s.remote && id in s.issued && s.issued[id].Some? && !Held(s, id)
  }

  /** Under the invariant, being held by its own object is being held by any object. */
  lemma HeldByAny(s: State, id: string)
    requires Inv(s) && id != "" && id in s.issued && s.issued[id].Some?
    ensures Held(s, id) <==>
      (exists k :: k in s.store && s.store[k].status.id == id) || (exists k :: k in s.passes && Claim(s.passes[k]) == id)
  {
  }

  /** The entry at the object's identifier is still in the zones. */
  predicate Live(s: State, id: string) {
    id != "" && id in s.remote
  }

  /** The object is replaced by o, which no longer knows the entry it knew. */
  predicate Drops(s: State, k: Key, o: Option<Record>)
    requires k in s.store
  {
    Live(s, s.store[k].status.id) && (o.None? || o.value.status.id != s.store[k].status.id)
  }

  /** The pass moves its object to another identifier, or takes the last finalizer off an
      object marked for deletion. */
  predicate LetsGo(ph: Phase) {
    && ph.Settled?
    && (ph.status.id != ph.rec.status.id ||
        (ph.rec.deleting && ph.status.provider == ph.rec.status.provider && ph.rec.finalizers == [RECORD_FINALIZER]))
  }

  /** The steps that orphan an entry: an append answered with a wrong number of records; a
      crash or a lost write after an append; and, while the entry at the object's identifier is
      still there, a pass that moves on to another identifier or removes the last finalizer,
      an edit that empties the finalizers of an object marked for deletion, and the deletion
      of an object without finalizers. */
  predicate Leaks(s: State, step: Step) {
    match step
    case Append(k, r) => r.AppendOdd?
    case Crash(k) => k in s.passes && Live(s, Claim(s.passes[k]))
    case Conclusion(k, look, accepted) =>
      k in s.passes &&
      if Accepted(s, k, s.passes[k], accepted)
      then Live(s, s.store[k].status.id) && LetsGo(s.passes[k])
      else Live(s, Claim(s.passes[k]))
    case Edit(k, spec, fs) => k in s.store && Live(s, s.store[k].status.id) && s.store[k].deleting && fs == []
    case Mark(k) => k in s.store && Live(s, s.store[k].status.id) && s.store[k].finalizers == []
    case _ => false
  }

  /** A pass moves on from a live entry, or finds its place taken, exactly when the listing
      says "not found" or the entry lies in another zone than the goal: in no other case does
      it miss its own entry. */
  lemma MissesOwnEntry(e: Env, s: State, rec: Record, l: Listing)
    requires Live(s, rec.status.id) && GoalOf(e.ext, e.me, rec).Some? && (l.Failed? ==> l.notFound)
    requires l.Listed? ==> Truthful(l.records, s.remote, GoalZone(e.ext, e.me, rec))
    ensures var plan := Decide(e.ext, e.me, rec, l);
      plan.Create? || plan.Forget? || plan.Refuse? <==>
        l.Failed? || s.remote[rec.status.id].zone != GoalOf(e.ext, e.me, rec).value.zone
  {
    if l.Listed? {
      FindTruthful(l.records, s.remote, GoalZone(e.ext, e.me, rec), rec.status.id);
    }
  }

  ghost predicate NewOrphan(s: State, s': State) {
    exists id :: Orphan(s', id) && !Orphan(s, id)
  }

  // Each step lemma has two halves: no orphan appears unless the step leaks, and a leaking
  // step does produce one.

  /** A step that keeps zones and history orphans exactly what its object stops holding. */
  lemma EndOrphans(s: State, k: Key)
    requires Inv(s) && k in s.passes
    ensures NewOrphan(s, Ended(s, k)) <==> Live(s, Claim(s.passes[k]))
  {
    var s', c := Ended(s, k), Claim(s.passes[k]);
    assert PassOk(s, k);
    forall id | Orphan(s', id) && !Orphan(s, id) ensures id == c {
      assert Held(s, id);
    }
    if Live(s, c) {
      assert Orphan(s', c) && !Orphan(s, c);
    }
  }

  lemma ConclusionDrops(e: Env, s: State, k: Key, look: Option<bool>, accepted: bool)
    requires Inv(s) && k in s.passes && Accepted(s, k, s.passes[k], accepted)
    ensures Drops(s, k, Stored(s.store[k], LastWrite(e, s.passes[k], look), s.clock)) <==>
      Live(s, s.store[k].status.id) && LetsGo(s.passes[k])
  {
    var ph := s.passes[k];
    assert PassOk(s, k);
    if RECORD_FINALIZER in ph.rec.finalizers {
      RemovalOfOnlyOne(ph.rec.finalizers);
    }
  }

  lemma PutOrphans(s: State, k: Key, o: Option<Record>)
    requires Inv(s) && k in s.store && (o.Some? ==> o.value.status.id == s.store[k].status.id)
    ensures NewOrphan(s, Put(s, k, o)) <==> Drops(s, k, o)
  {
    var s', x := Put(s, k, o), s.store[k].status.id;
    assert ObjectOk(s, k);
    forall id | Orphan(s', id) && !Orphan(s, id) ensures id == x && o.None? {
      assert Held(s, id);
    }
    if Drops(s, k, o) {
      if k in s.passes { assert PassOk(s, k); }
      assert Orphan(s', x) && !Orphan(s, x);
    }
  }

  /** A pass that ends with an accepted write records its claim, so only the identifier it
      replaces can be orphaned. */
  lemma ConclusionOrphans(e: Env, s: State, k: Key, look: Option<bool>, accepted: bool)
    requires Inv(s) && k in s.passes && Accepted(s, k, s.passes[k], accepted)
    ensures var o := Stored(s.store[k], LastWrite(e, s.passes[k], look), s.clock);
      NewOrphan(s, Put(Ended(s, k), k, o)) <==> Drops(s, k, o)
  {
    var ph := s.passes[k];
    var o := Stored(s.store[k], LastWrite(e, ph, look), s.clock);
    var s', x := Put(Ended(s, k), k, o), s.store[k].status.id;
    assert ObjectOk(s, k) && PassOk(s, k);
    LastWriteStatus(e, ph, look);
    forall id | Orphan(s', id) && !Orphan(s, id) ensures id == x && Drops(s, k, o) {
      assert Held(s, id);
    }
    if Drops(s, k, o) {
      assert Orphan(s', x) && !Orphan(s, x);
    }
  }

  lemma ListOrphans(e: Env, s: State, k: Key, plan: Plan)
    requires Inv(s) && k in s.passes && s.passes[k].Asking?
    ensures !NewOrphan(s, AfterListing(s, k, s.passes[k].rec, plan))
  {
    assert PassOk(s, k);
    forall id | Orphan(AfterListing(s, k, s.passes[k].rec, plan), id) ensures Orphan(s, id) {
    }
  }

  lemma DeleteOrphans(s: State, k: Key)
    requires Inv(s) && k in s.passes && s.passes[k].Planned? && (s.passes[k].plan.Drop? || s.passes[k].plan.Replace?)
    ensures !NewOrphan(s, AfterDelete(s, k, s.passes[k]))
  {
  }

  lemma AppendOrphans(e: Env, s: State, k: Key, want: Data, r: Reply)
    requires Inv(s) && k in s.passes && !s.passes[k].Settled? && (r.AppendFailed? || Fresh(s, r.id))
    ensures NewOrphan(s, AfterAppending(e, s, k, s.passes[k].rec, want, r)) <==> r.AppendOdd?
  {
    var s' := AfterAppending(e, s, k, s.passes[k].rec, want, r);
    assert PassOk(s, k) && (k in s.store ==> ObjectOk(s, k));
    forall id | Orphan(s', id) && !Orphan(s, id) ensures r.AppendOdd? {
    }
    if r.AppendOdd? {
      assert Orphan(s', r.id) && !Orphan(s, r.id);
    }
  }

  lemma QuietOrphans(e: Env, s: State, step: Step)
    requires Inv(s) && Enabled(e, s, step) && (step.Fetch? || step.Make? || step.Foreign?)
    ensures !NewOrphan(s, Apply(e, s, step))
  {
    forall id | Orphan(Apply(e, s, step), id) ensures Orphan(s, id) {
    }
  }

  /** A step creates an orphan exactly when it leaks. */
  lemma OrphansByLeaksOnly(e: Env, s: State, step: Step)
    requires Inv(s) && Enabled(e, s, step)
    ensures NewOrphan(s, Apply(e, s, step)) <==> Leaks(s, step)
  {
    match step
    case Fetch(k) => QuietOrphans(e, s, step);
    case Make(k, spec, fs) => QuietOrphans(e, s, step);
    case Foreign(id, entry) => QuietOrphans(e, s, step);
    case List(k, l) => ListOrphans(e, s, k, Decide(e.ext, e.me, s.passes[k].rec, l));
    case Delete(k, fails) => if fails { EndOrphans(s, k); } else { DeleteOrphans(s, k); }
    case Append(k, r) =>
      var ph := s.passes[k];
      AppendOrphans(e, s, k, if ph.Appending? then ph.want else ph.plan.want, r);
    case Conclusion(k, look, accepted) =>
      if Accepted(s, k, s.passes[k], accepted) {
        ConclusionOrphans(e, s, k, look, accepted);
        ConclusionDrops(e, s, k, look, accepted);
      } else {
        EndOrphans(s, k);
      }
    case Crash(k) => EndOrphans(s, k);
    case Edit(k, spec, fs) => PutOrphans(s, k, Edited(s, k, spec, fs));
    case Mark(k) => PutOrphans(s, k, Marked(s, k));
  }

  /** No step of a run leaks. */
  ghost predicate LeakFree(e: Env, s: State, steps: seq<Step>)
    requires Possible(e, s, steps)
    decreases |steps|
  {
    steps != [] ==> !Leaks(s, steps[0]) && LeakFree(e, Apply(e, s, steps[0]), steps[1..])
  }

  /** A run without leaking steps has no orphans: whatever the operator put into a zone is
      known to its object or about to be, and nothing is left once the object is gone. */
  lemma {:induction false} LeakFreeRunsHaveNoOrphans(e: Env, s: State, steps: seq<Step>, id: string)
    requires Inv(s) && Possible(e, s, steps) && LeakFree(e, s, steps)
    ensures Orphan(Final(e, s, steps), id) ==> Orphan(s, id)
    decreases |steps|
  {
    if steps != [] {
      var s' := Apply(e, s, steps[0]);
      StepKeepsInv(e, s, steps[0]);
      OrphansByLeaksOnly(e, s, steps[0]);
      LeakFreeRunsHaveNoOrphans(e, s', steps[1..], id);
      assert !(Orphan(s', id) && !Orphan(s, id));
    }
  }
}
