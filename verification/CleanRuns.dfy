/** Under a well-behaved environment no step leaks: every entry the operator appended stays
    with its object, which keeps its finalizer for as long as the entry exists. */
module CleanRuns {
  import opened Text
  import opened Suffixes
  import opened Records
  import opened Normaliser
  import opened Provider
  import opened Controller
  import opened Protocol
  import opened Isolation

  function ZoneAt(e: Env, spec: Spec): Option<string> {
    match ToRR(e.ext, Defaulted(e.ext.rules, spec))
    case None => None
    case Some(rr) => ZoneOf(e.ext.rules, rr.hdr.name)
  }

  /** What the environment must respect: an append returns one record, the process does not
      die between an append and its status write, that write is accepted, "not found" means an
      empty zone, edits keep the registrable domain and the finalizer, and others do not move
      entries between zones. */
  ghost predicate CleanStep(e: Env, s: State, step: Step) {
    match step
    case Append(_, r) => !r.AppendOdd?
    case Crash(k) => k in s.passes ==> Claim(s.passes[k]) == ""
    case Conclusion(k, _, accepted) =>
      k in s.passes && Claim(s.passes[k]) != "" ==> Accepted(s, k, s.passes[k], accepted)
    case List(k, l) => k in s.passes && l.Failed? && l.notFound ==>
      forall id :: id in s.remote ==> s.remote[id].zone != GoalZone(e.ext, e.me, s.passes[k].rec)
    case Edit(k, spec, fs) => k in s.store ==>
      ZoneAt(e, spec) == ZoneAt(e, s.store[k].spec) &&
      (RECORD_FINALIZER in s.store[k].finalizers ==> RECORD_FINALIZER in fs)
    case Foreign(id, entry) => id in s.remote && entry.Some? ==> entry.value.zone == s.remote[id].zone
    case _ => true
  }

  // ---- the invariant ----

  /** The computations on specs and records, as function values: the invariant is about how
      their results are used, whatever they are. */
  datatype View = View(zone: Spec -> Option<string>, goal: Record -> Option<Goal>, snap: Record -> Record)

  function ViewOf(e: Env): View {
    View(spec => ZoneAt(e, spec), rec => GoalOf(e.ext, e.me, rec), o => Snapshot(e.ext, o))
  }

  /** The entry is absent, or lies in the zone of the spec. */
  predicate InPlace(v: View, s: State, id: string, spec: Spec) {
    Live(s, id) ==> v.zone(spec) == Some(s.remote[id].zone)
  }

  predicate CleanObject(v: View, s: State, k: Key)
    requires k in s.store
  {
    var o := s.store[k];
    InPlace(v, s, o.status.id, o.spec) && (Live(s, o.status.id) ==> RECORD_FINALIZER in o.finalizers)
  }

  /** A record that may get an entry: live, protected by the finalizer, with a goal in its zone. */
  predicate MayClaim(v: View, rec: Record) {
    !rec.deleting && RECORD_FINALIZER in rec.finalizers && v.goal(rec).Some?
  }

  predicate CleanPhase(v: View, s: State, ph: Phase) {
    var rec := ph.rec;
    && InPlace(v, s, rec.status.id, rec.spec)
    && (v.goal(rec).Some? ==> v.zone(rec.spec) == Some(v.goal(rec).value.zone))
    && (ph.Asking? && !rec.deleting ==> RECORD_FINALIZER in rec.finalizers)
    && ((ph.Planned? && ph.plan.Create?) || ph.Appending? ==> MayClaim(v, rec) && !Live(s, rec.status.id))
    && (ph.Planned? && ph.plan.Replace? ==> MayClaim(v, rec))
    && (ph.Settled? && rec.deleting ==> ph.status.id == "")
    && (ph.Settled? && ph.status.id != rec.status.id ==> !Live(s, rec.status.id))
    && (Claim(ph) != "" ==> !rec.deleting && RECORD_FINALIZER in rec.finalizers && InPlace(v, s, ph.status.id, rec.spec))
  }

  /** While a pass works with a live, protected snapshot, its object stays, protected, with
      the same status and in the same zone. */
  predicate Anchored(v: View, s: State, k: Key, rec: Record) {
    !rec.deleting && RECORD_FINALIZER in rec.finalizers ==>
      k in s.store && RECORD_FINALIZER in s.store[k].finalizers && s.store[k].status == rec.status
      && v.zone(s.store[k].spec) == v.zone(rec.spec)
  }

  predicate CleanPass(v: View, s: State, k: Key)
    requires k in s.passes
  {
    CleanPhase(v, s, s.passes[k]) && Anchored(v, s, k, s.passes[k].rec) &&
    (k in s.store && s.store[k].version == s.passes[k].rec.version ==>
      s.passes[k].rec == v.snap(s.store[k]) && v.zone(s.passes[k].rec.spec) == v.zone(s.store[k].spec)
      && s.passes[k].rec.finalizers == s.store[k].finalizers)
  }

  ghost predicate CleanInv(v: View, s: State) {
    && Inv(s)
    && (forall k :: k in s.store ==> CleanObject(v, s, k))
    && (forall k :: k in s.passes ==> CleanPass(v, s, k))
  }

  /** Identifiers already issued do not come back, and entries do not move. */
  predicate Mild(s: State, s': State) {
    forall id :: id in s.issued && id in s'.remote ==> id in s.remote && s'.remote[id].zone == s.remote[id].zone
  }

  lemma OthersStayClean(v: View, s: State, s': State, k: Key)
    requires CleanInv(v, s) && Inv(s') && OnlyTouches(s, s', k) && Mild(s, s')
    requires k in s'.store ==> CleanObject(v, s', k)
    requires k in s'.passes ==> CleanPass(v, s', k)
    ensures CleanInv(v, s')
  {
    forall j | j in s'.store ensures CleanObject(v, s', j) {
      if j != k {
        assert j in s'.store - {k} && (s'.store - {k})[j] == (s.store - {k})[j];
        assert CleanObject(v, s, j) && ObjectOk(s, j);
      }
    }
    forall j | j in s'.passes ensures CleanPass(v, s', j) {
      if j != k {
        assert j in s'.passes - {k} && (s'.passes - {k})[j] == (s.passes - {k})[j];
        assert j in s'.store <==> j in s'.store - {k};
        assert j in s.store <==> j in s.store - {k};
        if j in s'.store {
          assert (s'.store - {k})[j] == (s.store - {k})[j];
        }
        assert CleanPass(v, s, j) && PassOk(s, j);
      }
    }
  }

  // ---- what the computations guarantee ----

  lemma SnapshotFacts(e: Env, o: Record)
    requires WellFormed(e.ext.rules)
    ensures var v, rec := ViewOf(e), Snapshot(e.ext, o);
      && rec == v.snap(o) && v.zone(rec.spec) == v.zone(o.spec)
      && (v.goal(rec).Some? ==> v.zone(rec.spec) == Some(v.goal(rec).value.zone))
  {
    DefaultingIsStable(e.ext, o.spec);
  }

  /** What the invariant needs to know about a plan. */
  predicate Informed(v: View, s: State, rec: Record, plan: Plan) {
    && (plan.Drop? || plan.Replace? ==> plan.victim.id == rec.status.id)
    && (plan.Create? || plan.Forget? ==> !Live(s, rec.status.id))
    && (plan.Create? || plan.Replace? ==> v.goal(rec).Some? && !rec.deleting)
    && (plan.Keep? ==> !rec.deleting)
  }

  /** A truthful listing of the record's own zone shows its entry if there is one. */
  lemma PlanIsInformed(e: Env, v: View, s: State, rec: Record, l: Listing)
    requires "" !in s.remote && CleanPhase(v, s, Asking(rec)) && v.goal(rec) == GoalOf(e.ext, e.me, rec)
    requires l.Listed? ==> Truthful(l.records, s.remote, GoalZone(e.ext, e.me, rec))
    requires l.Failed? && l.notFound ==>
      forall id :: id in s.remote ==> s.remote[id].zone != GoalZone(e.ext, e.me, rec)
    ensures Informed(v, s, rec, Decide(e.ext, e.me, rec, l))
  {
    VictimIsOwn(e, rec, l);
    if v.goal(rec).Some? && !(l.Failed? && !l.notFound && rec.status.id != "") {
      PlanForIsInformed(s, rec, v.goal(rec).value, l);
    }
  }

  lemma PlanForIsInformed(s: State, rec: Record, g: Goal, l: Listing)
    requires "" !in s.remote && (Live(s, rec.status.id) ==> s.remote[rec.status.id].zone == g.zone)
    requires l.Listed? ==> Truthful(l.records, s.remote, g.zone)
    requires l.Failed? && l.notFound ==> forall id :: id in s.remote ==> s.remote[id].zone != g.zone
    requires l.Failed? && !l.notFound ==> rec.status.id == ""
    ensures var plan := PlanFor(rec, g, if l.Listed? then l.records else []);
      && (plan.Create? || plan.Forget? ==> !Live(s, rec.status.id))
      && (plan.Create? || plan.Replace? || plan.Keep? ==> !rec.deleting)
  {
    if l.Listed? {
      FindTruthful(l.records, s.remote, g.zone, rec.status.id);
    }
  }

  // ---- step by step ----

  lemma FetchStaysClean(v: View, s: State, k: Key, ph: Phase)
    requires CleanInv(v, s) && Inv(Entered(s, k, ph)) && k in s.store && (ph.Asking? || ph.Finalizing?)
    requires ph.rec == v.snap(s.store[k]) && v.zone(ph.rec.spec) == v.zone(s.store[k].spec)
    requires ph.rec.status == s.store[k].status && ph.rec.finalizers == s.store[k].finalizers
    requires v.goal(ph.rec).Some? ==> v.zone(ph.rec.spec) == Some(v.goal(ph.rec).value.zone)
    requires ph.Asking? && !ph.rec.deleting ==> RECORD_FINALIZER in ph.rec.finalizers
    ensures CleanInv(v, Entered(s, k, ph))
  {
    assert CleanObject(v, s, k);
    OthersStayClean(v, s, Entered(s, k, ph), k);
  }

  lemma ListedPhases(v: View, s: State, rec: Record, plan: Plan)
    requires CleanPhase(v, s, Asking(rec)) && Informed(v, s, rec, plan) && "" !in s.remote
    ensures plan.Keep? ==> CleanPhase(v, s, Settled(rec, rec.status))
    ensures plan.Forget? ==> CleanPhase(v, s, Settled(rec, Cleared(rec.status)))
    ensures plan.Drop? || plan.Create? || plan.Replace? ==> CleanPhase(v, s, Planned(rec, plan))
  {
  }

  lemma ListStaysClean(v: View, s: State, k: Key, plan: Plan)
    requires CleanInv(v, s) && k in s.passes && s.passes[k].Asking? && Informed(v, s, s.passes[k].rec, plan)
    ensures CleanInv(v, AfterListing(s, k, s.passes[k].rec, plan))
  {
    var s' := AfterListing(s, k, s.passes[k].rec, plan);
    PlannedKeepsInv(s, k, s.passes[k].rec, plan);
    assert CleanPass(v, s, k);
    if k in s.store { assert CleanObject(v, s, k); }
    ListedPhases(v, s, s.passes[k].rec, plan);
    PhaseChangeStaysClean(v, s, s', k);
  }

  /** A pass that only moves on to another clean phase. */
  lemma PhaseChangeStaysClean(v: View, s: State, s': State, k: Key)
    requires CleanInv(v, s) && Inv(s') && k in s.passes
    requires s'.store == s.store && s'.remote == s.remote && s'.issued == s.issued && s'.clock == s.clock
    requires s' == Ended(s, k) || (k in s'.passes && s' == Entered(s, k, s'.passes[k])
             && s'.passes[k].rec == s.passes[k].rec && CleanPhase(v, s, s'.passes[k]))
    ensures CleanInv(v, s')
  {
    assert CleanPass(v, s, k);
    if k in s.store { assert CleanObject(v, s, k); }
    OthersStayClean(v, s, s', k);
  }

  lemma DeleteStaysClean(v: View, s: State, k: Key)
    requires CleanInv(v, s) && k in s.passes && s.passes[k].Planned? && (s.passes[k].plan.Drop? || s.passes[k].plan.Replace?)
    ensures CleanInv(v, AfterDelete(s, k, s.passes[k]))
  {
    DeleteKeepsInv(s, k);
    assert CleanPass(v, s, k) && PassOk(s, k);
    if k in s.store { assert CleanObject(v, s, k); }
    OthersStayClean(v, s, AfterDelete(s, k, s.passes[k]), k);
  }

  lemma EndStaysClean(v: View, s: State, k: Key)
    requires CleanInv(v, s)
    ensures CleanInv(v, Ended(s, k))
  {
    EndKeepsInv(s, k);
    if k in s.store { assert CleanObject(v, s, k); }
    OthersStayClean(v, s, Ended(s, k), k);
  }

  lemma AppendStaysClean(e: Env, v: View, s: State, k: Key, want: Data, r: Reply)
    requires CleanInv(v, s) && k in s.passes && (r.AppendFailed? || Fresh(s, r.id)) && !r.AppendOdd?
    requires var rec := s.passes[k].rec;
      MayClaim(v, rec) && !Live(s, rec.status.id) && v.goal(rec).value.zone == GoalZone(e.ext, e.me, rec)
    ensures CleanInv(v, AfterAppending(e, s, k, s.passes[k].rec, want, r))
  {
    var s' := AfterAppending(e, s, k, s.passes[k].rec, want, r);
    AppendKeepsInv(e, s, k, want, r);
    assert CleanPass(v, s, k) && PassOk(s, k);
    if k in s.store { assert CleanObject(v, s, k) && ObjectOk(s, k); }
    OthersStayClean(v, s, s', k);
  }

  lemma PutStaysClean(v: View, s: State, k: Key, o: Option<Record>)
    requires CleanInv(v, s) && Inv(Put(s, k, o))
    requires o.Some? ==> CleanObject(v, Put(s, k, o), k)
    requires o.Some? && k in s.passes ==> o.value.version == s.clock
    requires k in s.passes ==> Anchored(v, Put(s, k, o), k, s.passes[k].rec)
    ensures CleanInv(v, Put(s, k, o))
  {
    if k in s.passes { assert CleanPass(v, s, k) && PassOk(s, k); }
    OthersStayClean(v, s, Put(s, k, o), k);
  }

  lemma LastWriteMeta(e: Env, ph: Phase, look: Option<bool>)
    ensures var w := LastWrite(e, ph, look);
      w.WriteMeta? ==>
        && w.spec == ph.rec.spec
        && (if ph.Settled? then ph.rec.deleting && ph.status.id == ph.rec.status.id
            else w.finalizers == ph.rec.finalizers + [RECORD_FINALIZER])
    ensures !ph.Settled? ==> LastWrite(e, ph, look).WriteMeta?
  {
  }

  /** An accepted last write keeps the object clean and forgets no entry. */
  lemma ConclusionStaysClean(e: Env, v: View, s: State, k: Key, look: Option<bool>)
    requires CleanInv(v, s) && k in s.passes && Accepted(s, k, s.passes[k], true)
    ensures var o := Stored(s.store[k], LastWrite(e, s.passes[k], look), s.clock);
      !Drops(s, k, o) && CleanInv(v, Put(Ended(s, k), k, o))
  {
    var ph, w := s.passes[k], LastWrite(e, s.passes[k], look);
    var o := Stored(s.store[k], w, s.clock);
    assert CleanPass(v, s, k) && PassOk(s, k) && CleanObject(v, s, k) && ObjectOk(s, k);
    LastWriteStatus(e, ph, look);
    LastWriteMeta(e, ph, look);
    ConclusionKeepsInv(e, s, k, look);
    EndStaysClean(v, s, k);
    PutStaysClean(v, Ended(s, k), k, o);
  }

  lemma ConcludingStaysClean(e: Env, v: View, s: State, k: Key, look: Option<bool>, accepted: bool)
    requires CleanInv(v, s) && k in s.passes && Enabled(e, s, Conclusion(k, look, accepted))
    requires Claim(s.passes[k]) != "" ==> Accepted(s, k, s.passes[k], accepted)
    ensures !Leaks(s, Conclusion(k, look, accepted)) && CleanInv(v, Apply(e, s, Conclusion(k, look, accepted)))
  {
    if Accepted(s, k, s.passes[k], accepted) {
      ConclusionStaysClean(e, v, s, k, look);
      ConclusionDrops(e, s, k, look, accepted);
    } else {
      EndStaysClean(v, s, k);
    }
  }

  lemma EditStaysClean(v: View, s: State, k: Key, spec: Spec, fs: seq<string>)
    requires CleanInv(v, s) && k in s.store && v.zone(spec) == v.zone(s.store[k].spec)
    requires RECORD_FINALIZER in s.store[k].finalizers ==> RECORD_FINALIZER in fs
    ensures !Drops(s, k, Edited(s, k, spec, fs)) && CleanInv(v, Put(s, k, Edited(s, k, spec, fs)))
  {
    assert CleanObject(v, s, k) && ObjectOk(s, k) && (k in s.passes ==> PassOk(s, k));
    PutKeepsInv(s, k, Edited(s, k, spec, fs));
    if k in s.passes { assert CleanPass(v, s, k); }
    PutStaysClean(v, s, k, Edited(s, k, spec, fs));
  }

  lemma MarkStaysClean(v: View, s: State, k: Key)
    requires CleanInv(v, s) && k in s.store
    ensures !Drops(s, k, Marked(s, k)) && CleanInv(v, Put(s, k, Marked(s, k)))
  {
    assert CleanObject(v, s, k) && ObjectOk(s, k) && (k in s.passes ==> PassOk(s, k));
    PutKeepsInv(s, k, Marked(s, k));
    if k in s.passes { assert CleanPass(v, s, k); }
    PutStaysClean(v, s, k, Marked(s, k));
  }

  lemma MakeStaysClean(v: View, s: State, k: Key, spec: Spec, fs: seq<string>)
    requires CleanInv(v, s) && k !in s.store
    ensures CleanInv(v, Put(s, k, Some(Record(false, fs, s.clock, spec, NO_STATUS))))
  {
    var o := Some(Record(false, fs, s.clock, spec, NO_STATUS));
    PutKeepsInv(s, k, o);
    if k in s.passes { assert CleanPass(v, s, k); }
    PutStaysClean(v, s, k, o);
  }

  lemma ForeignStaysClean(e: Env, v: View, s: State, id: string, entry: Option<Placed>)
    requires CleanInv(v, s) && Enabled(e, s, Foreign(id, entry))
    requires id in s.remote && entry.Some? ==> entry.value.zone == s.remote[id].zone
    ensures CleanInv(v, Apply(e, s, Foreign(id, entry)))
  {
    ForeignKeepsInv(e, s, id, entry);
    var s' := Apply(e, s, Foreign(id, entry));
    forall k | k in s'.store ensures CleanObject(v, s', k) {
      assert CleanObject(v, s, k) && ObjectOk(s, k);
    }
    forall k | k in s'.passes ensures CleanPass(v, s', k) {
      assert CleanPass(v, s, k) && PassOk(s, k);
    }
  }

  lemma FetchedStaysClean(e: Env, s: State, k: Key)
    requires WellFormed(e.ext.rules) && CleanInv(ViewOf(e), s) && k !in s.passes
    ensures CleanInv(ViewOf(e), Fetched(e, s, k))
  {
    if k in s.store {
      FetchKeepsInv(e, s, k);
      SnapshotFacts(e, s.store[k]);
      var rec := Snapshot(e.ext, s.store[k]);
      match Open(e.ext, rec)
      case Reject =>
      case AddFinalizer => FetchStaysClean(ViewOf(e), s, k, Finalizing(rec));
      case Consult => FetchStaysClean(ViewOf(e), s, k, Asking(rec));
    }
  }

  /** A clean step leaks nothing and keeps the invariant. */
  lemma CleanStepsDoNotLeak(e: Env, s: State, step: Step)
    requires WellFormed(e.ext.rules) && CleanInv(ViewOf(e), s) && Enabled(e, s, step) && CleanStep(e, s, step)
    ensures !Leaks(s, step) && CleanInv(ViewOf(e), Apply(e, s, step))
  {
    var v := ViewOf(e);
    match step
    case Fetch(k) => FetchedStaysClean(e, s, k);
    case List(k, l) =>
      assert CleanPass(v, s, k);
      PlanIsInformed(e, v, s, s.passes[k].rec, l);
      ListStaysClean(v, s, k, Decide(e.ext, e.me, s.passes[k].rec, l));
    case Delete(k, fails) => if fails { EndStaysClean(v, s, k); } else { DeleteStaysClean(v, s, k); }
    case Append(k, r) =>
      var ph := s.passes[k];
      assert CleanPass(v, s, k) && PassOk(s, k);
      AppendStaysClean(e, v, s, k, if ph.Appending? then ph.want else ph.plan.want, r);
    case Conclusion(k, look, accepted) => ConcludingStaysClean(e, v, s, k, look, accepted);
    case Crash(k) => EndStaysClean(v, s, k);
    case Make(k, spec, fs) => MakeStaysClean(v, s, k, spec, fs);
    case Edit(k, spec, fs) => EditStaysClean(v, s, k, spec, fs);
    case Mark(k) => MarkStaysClean(v, s, k);
    case Foreign(id, entry) => ForeignStaysClean(e, v, s, id, entry);
  }

  // ---- whole runs ----

  ghost predicate CleanRun(e: Env, s: State, steps: seq<Step>)
    requires Possible(e, s, steps)
    decreases |steps|
  {
    steps != [] ==> CleanStep(e, s, steps[0]) && CleanRun(e, Apply(e, s, steps[0]), steps[1..])
  }

  lemma {:induction false} CleanRunsStayClean(e: Env, s: State, steps: seq<Step>)
    requires WellFormed(e.ext.rules) && CleanInv(ViewOf(e), s) && Possible(e, s, steps) && CleanRun(e, s, steps)
    ensures LeakFree(e, s, steps) && CleanInv(ViewOf(e), Final(e, s, steps))
    decreases |steps|
  {
    if steps != [] {
      CleanStepsDoNotLeak(e, s, steps[0]);
      CleanRunsStayClean(e, Apply(e, s, steps[0]), steps[1..]);
    }
  }

  /** An entry in the zones that was appended for object k. */
  predicate AppendedFor(s: State, k: Key, id: string) {
    id in s.remote && id in s.issued && s.issued[id] == Some(k)
  }

  /** The object exists under its finalizer, with the entry in the zone of its spec, and
      records the entry or is about to. */
  predicate Kept(v: View, s: State, k: Key, id: string)
    requires id in s.remote
  {
    && k in s.store && RECORD_FINALIZER in s.store[k].finalizers
    && v.zone(s.store[k].spec) == Some(s.remote[id].zone)
    && (s.store[k].status.id == id || (k in s.passes && Claim(s.passes[k]) == id))
  }

  lemma HeldIsKept(v: View, s: State, k: Key, id: string)
    requires CleanInv(v, s) && AppendedFor(s, k, id) && Held(s, id)
    ensures Kept(v, s, k, id)
  {
    if k in s.passes && Claim(s.passes[k]) == id {
      assert CleanPass(v, s, k);
    } else {
      assert CleanObject(v, s, k);
    }
  }

  lemma KeptOnce(v: View, s: State, k: Key, i: string, j: string)
    requires CleanInv(v, s) && AppendedFor(s, k, i) && AppendedFor(s, k, j) && Kept(v, s, k, i) && Kept(v, s, k, j)
    ensures i == j
  {
    if k in s.passes && Claim(s.passes[k]) != "" {
      assert CleanPass(v, s, k);
    }
  }

  /** No orphans: after any clean run, an entry the operator appended for an object exists
      only while that object exists under its finalizer, in the zone of its spec, and records
      the entry or has a pass that is about to. None is left once the object is gone. */
  lemma NoOrphans(e: Env, s0: State, steps: seq<Step>, k: Key, id: string)
    requires WellFormed(e.ext.rules) && Init(s0) && Possible(e, s0, steps) && CleanRun(e, s0, steps)
    requires AppendedFor(Final(e, s0, steps), k, id)
    ensures Kept(ViewOf(e), Final(e, s0, steps), k, id)
  {
    var s := Final(e, s0, steps);
    CleanRunsStayClean(e, s0, steps);
    LeakFreeRunsHaveNoOrphans(e, s0, steps, id);
    HeldIsKept(ViewOf(e), s, k, id);
  }

  /** One entry each: after any clean run, no object has two entries in the zones. */
  lemma OneEntryEach(e: Env, s0: State, steps: seq<Step>, k: Key, i: string, j: string)
    requires WellFormed(e.ext.rules) && Init(s0) && Possible(e, s0, steps) && CleanRun(e, s0, steps)
    requires AppendedFor(Final(e, s0, steps), k, i) && AppendedFor(Final(e, s0, steps), k, j)
    ensures i == j
  {
    NoOrphans(e, s0, steps, k, i);
    NoOrphans(e, s0, steps, k, j);
    CleanRunsStayClean(e, s0, steps);
    KeptOnce(ViewOf(e), Final(e, s0, steps), k, i, j);
  }

  /** Updates without finalizers, as the child-record controllers send them, do not leak by
      themselves; but deleting the object before the finalizer is restored always leaks. */
  lemma UpdateWithoutFinalizersThenDeleteLeaks(e: Env, s: State, k: Key, spec: Spec)
    requires Inv(s) && k in s.store && !s.store[k].deleting && Live(s, s.store[k].status.id)
    ensures !Leaks(s, Edit(k, spec, []))
    ensures Leaks(Apply(e, s, Edit(k, spec, [])), Mark(k))
  {
  }
}
