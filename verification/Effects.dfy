/** What a pass may do to an object and to the zones, whatever faults occur: field by field,
    who owns what it appended, and when the verified state changes. */
module Effects {
  import opened Text
  import opened Records
  import opened Normaliser
  import opened Provider
  import opened Controller
  import opened Convergence

  // ---- the provider pass ----

  /** Entries other than the object's own and the appended one are as before. */
  ghost predicate OthersSpared(remote: Remote, remote': Remote, own: string, appended: string) {
    forall i :: i != own && i != appended ==>
      (i in remote' <==> i in remote) && (i in remote ==> remote'[i] == remote[i])
  }

  function AppendedId(reply: Reply): string {
    if reply.AppendFailed? then "" else reply.id
  }

  /** A failed pass leaves the status alone. A successful one clears identifier and provider
      of an unwanted object; for a wanted one it keeps everything, or records the appended
      entry as its own provider's. Rendered record and verified state are not touched. */
  ghost predicate ProviderEffect(me: string, rec: Record, remote: Remote, calls: Calls, p: Outcome) {
    && OthersSpared(remote, p.remote, rec.status.id, AppendedId(calls.reply))
    && p.status.record == rec.status.record && p.status.active == rec.status.active
    && (!p.ok ==> p.status.id == rec.status.id && p.status.provider == rec.status.provider)
    && (p.ok && (rec.deleting || rec.spec.active == Some(false)) ==> p.status.id == "" && p.status.provider == "")
    && (p.ok && !rec.deleting && rec.spec.active != Some(false) ==>
          || (p.status.id == rec.status.id && p.status.provider == rec.status.provider && p.remote == remote)
          || (calls.reply == Appended(p.status.id) && p.status.provider == me && p.status.id in p.remote))
  }

  /** The appended entry is what was wanted, in the zone of the goal. */
  predicate PlacesGoal(rec: Record, g: Goal, p: Outcome) {
    p.ok && p.status.id != "" && p.status.id != rec.status.id ==>
      p.status.id in p.remote && p.remote[p.status.id] == Placed(g.zone, g.want)
  }

  lemma CarryEffect(me: string, rec: Record, remote: Remote, g: Goal, records: seq<Entry>, calls: Calls, p: Outcome)
    requires p == Carry(me, rec.status, remote, g.zone, PlanFor(rec, g, records), calls.deleteFails, calls.reply)
    ensures ProviderEffect(me, rec, remote, calls, p) && PlacesGoal(rec, g, p)
  {
    FindFacts(records, rec.status.id);
  }

  lemma ProviderPassEffect(ext: Externals, me: string, rec: Record, remote: Remote, calls: Calls)
    ensures var p := ProviderPass(ext, me, rec, remote, calls);
      && ProviderEffect(me, rec, remote, calls, p)
      && (p.ok ==> GoalOf(ext, me, rec).Some? && PlacesGoal(rec, GoalOf(ext, me, rec).value, p))
  {
    var g, l := GoalOf(ext, me, rec), calls.listing;
    if g.Some? && !(l.Failed? && !l.notFound && rec.status.id != "") {
      CarryEffect(me, rec, remote, g.value, if l.Listed? then l.records else [], calls, ProviderPass(ext, me, rec, remote, calls));
    }
  }

  lemma CarryRemoves(me: string, rec: Record, remote: Remote, g: Goal, records: seq<Entry>, calls: Calls, p: Outcome)
    requires p == Carry(me, rec.status, remote, g.zone, PlanFor(rec, g, records), calls.deleteFails, calls.reply)
    requires Truthful(records, remote, g.zone) && AppendedId(calls.reply) != rec.status.id
    requires p.ok && (Unwanted(rec) || p.status.id != rec.status.id)
    ensures rec.status.id in p.remote ==> p.remote[rec.status.id].zone != g.zone
  {
    FindTruthful(records, remote, g.zone, rec.status.id);
  }

  /** A successful pass that gives up or replaces an entry has removed it: with a true listing,
      nothing is left of it in the zone of the goal. */
  lemma OldEntryGoes(ext: Externals, me: string, rec: Record, remote: Remote, calls: Calls, p: Outcome)
    requires calls.listing.Listed? && Truthful(calls.listing.records, remote, GoalZone(ext, me, rec))
    requires AppendedId(calls.reply) != rec.status.id && p == ProviderPass(ext, me, rec, remote, calls)
    requires p.ok && (rec.deleting || rec.spec.active == Some(false) || p.status.id != rec.status.id)
    ensures rec.status.id in p.remote ==> p.remote[rec.status.id].zone != GoalZone(ext, me, rec)
  {
    SuccessHasGoal(ext, me, rec, remote, calls);
    CarryRemoves(me, rec, remote, GoalOf(ext, me, rec).value, calls.listing.records, calls, p);
  }

  /** A listing that fails for another reason than a missing zone stops exactly the passes of
      objects that have an entry; a new object goes on as if the zone were empty. */
  lemma FailedListing(ext: Externals, me: string, rec: Record)
    requires GoalOf(ext, me, rec).Some?
    ensures var plan := Decide(ext, me, rec, Failed(false));
      (plan == Refuse <==> rec.status.id != "") &&
      (rec.status.id == "" ==> plan == Decide(ext, me, rec, Listed([])))
    ensures Decide(ext, me, rec, Failed(true)) == Decide(ext, me, rec, Listed([]))
  {
  }

  // ---- the controller pass ----

  /** The object is defaulted at most; the finalizer is added or taken away; the rendered
      record is the rendering; identifier and provider are those of the provider pass; and the
      verified state is what the lookup said. */
  ghost predicate PassEffect(ext: Externals, me: string, o: Record, remote: Remote, calls: Calls, look: Remote -> Option<bool>, r: Result) {
    var rec := Snapshot(ext, o);
    var p := ProviderPass(ext, me, rec, remote, calls);
    && (r.remote == remote || r.remote == p.remote)
    && (r.obj.None? ==> o.deleting && o.finalizers == [RECORD_FINALIZER])
    && (r.obj.Some? ==>
          var o' := r.obj.value;
          && o'.deleting == o.deleting
          && (o'.spec == o.spec || o'.spec == Defaulted(ext.rules, o.spec))
          && (o'.finalizers == o.finalizers
              || (!o.deleting && RECORD_FINALIZER !in o.finalizers && o'.finalizers == o.finalizers + [RECORD_FINALIZER])
              || (o.deleting && RECORD_FINALIZER in o.finalizers && o'.finalizers == Removed(o.finalizers)))
          && ((o'.status.id == o.status.id && o'.status.provider == o.status.provider)
              || (p.ok && o'.status.id == p.status.id && o'.status.provider == p.status.provider))
          && (o'.status.record == o.status.record || (!o.deleting && IsPrinted(ext, o.spec, o'.status.record)))
          && (o'.status.active == o.status.active
              || (!o.deleting && look(r.remote).Some? && o'.status.active == look(r.remote))))
  }

  /** The text is the zone-file form of the defaulted spec's record. */
  predicate IsPrinted(ext: Externals, spec: Spec, text: string) {
    match ToRR(ext, Defaulted(ext.rules, spec))
    case None => false
    case Some(rr) => text == ext.printRR(rr)
  }

  lemma ConcludeEffect(ext: Externals, rec: Record, st: Status, look: Option<bool>)
    requires ToRR(ext, rec.spec).Some?
    requires st.record == rec.status.record && st.active == rec.status.active
    ensures var w := Conclude(ext, rec, st, look).write;
      match w
      case NoWrite => true
      case WriteStatus(s) =>
        && s.id == st.id && s.provider == st.provider
        && (s.record == rec.status.record || (!rec.deleting && s.record == ext.printRR(ToRR(ext, rec.spec).value)))
        && (s.active == rec.status.active || (!rec.deleting && look.Some? && s.active == look))
      case WriteMeta(spec, fs) =>
        rec.deleting && spec == rec.spec && RECORD_FINALIZER in rec.finalizers && fs == Removed(rec.finalizers)
  {
  }

  /** Every pass, with whatever answers of provider and verification, has only these effects. */
  lemma PassHasEffect(ext: Externals, me: string, o: Record, remote: Remote, calls: Calls, look: Remote -> Option<bool>, version: nat)
    ensures PassEffect(ext, me, o, remote, calls, look, Pass(ext, me, o, remote, calls, look, version))
  {
    var rec := Snapshot(ext, o);
    var p := ProviderPass(ext, me, rec, remote, calls);
    if Open(ext, rec) == Consult {
      ProviderPassEffect(ext, me, rec, remote, calls);
      ConcludeEffect(ext, rec, p.status, look(p.remote));
      if RECORD_FINALIZER in o.finalizers {
        RemovalOfOnlyOne(o.finalizers);
      }
    }
  }

  /** Without an answer of the verification server, a pass over a quiescent object changes
      nothing. */
  lemma UnverifiedChangesNothing(s: Setting, c: Config, calls: Calls, version: nat)
    requires Steady(s, c) && Faultless(s, c, calls) && Rank(s, c) == 0
    ensures Pass(s.ext, s.me, c.obj, c.remote, calls, r => None, version) == Result(Some(c.obj), c.remote, Quiet)
  {
    var g, rec := GoalAt(s, c.obj).value, Snapshot(s.ext, c.obj);
    DefaultActive(s, c.obj);
    SnapshotStable(s, c.obj);
    var p := PassFollows(s, c, calls, version);
    PlanProceeds(s.me, g, rec, c.remote, calls.listing.records, calls.reply.id);
    PlanFulfils(s.me, g, Rendered(s, c.obj), c.obj, rec, c.remote, calls.listing.records, calls.reply.id, p);
    assert p == Outcome(true, c.obj.status, c.remote) == ProviderPass(s.ext, s.me, rec, c.remote, calls);
  }

  // ---- what is reported ----

  predicate Wanted(o: Record) {
    o.spec.active.GetOr(true)
  }

  lemma ConcludeEvent(ext: Externals, rec: Record, st: Status, look: Option<bool>)
    requires st.active == rec.status.active
    ensures var f := Conclude(ext, rec, st, look);
      && (f.event == Warned <==> f.write.WriteStatus? && rec.status.active == Some(true) && f.write.status.active == Some(false))
      && (f.event == Deleted <==> rec.deleting && st.id == rec.status.id && st.provider == rec.status.provider)
      && (f.write.WriteMeta? ==> f.event == Deleted)
      && (f.event == Requeued ==> f.write == NoWrite && !rec.deleting && look == Some(!rec.spec.active.GetOr(true)))
      && (f.event == Succeeded ==> f.write == NoWrite && !rec.deleting && look == Some(rec.spec.active.GetOr(true)))
  {
  }

  /** What an event tells about the pass: a warning, that the object does not convert or that
      its verified state has just turned false; a deletion, that the object is marked for it
      and its status is clear; a requeue or a success, that nothing was written and that the
      verification disagrees or agrees with the spec. */
  predicate Tells(converts: bool, o: Record, look: Option<bool>, event: Event, now: Option<Record>) {
    && (!converts ==> event == Warned && now == Some(o))
    && (event == Warned && converts ==>
          now.Some? && o.status.active == Some(true) && now.value.status.active == look == Some(false))
    && (event != Warned && now.Some? && o.status.active == Some(true) ==> now.value.status.active != Some(false))
    && (event == Deleted ==> o.deleting && o.status.id == "" && o.status.provider == "")
    && (o.deleting && (now.None? || now.value.finalizers != o.finalizers) ==> event == Deleted)
    && (event == Requeued ==> now == Some(o) && !o.deleting && look == Some(!Wanted(o)))
    && (event == Succeeded ==> now == Some(o) && !o.deleting && look == Some(Wanted(o)))
  }

  lemma ConcludedTells(ext: Externals, o: Record, rec: Record, st: Status, look: Option<bool>, version: nat)
    requires rec == Snapshot(ext, o) && st.active == o.status.active && (o.deleting ==> st.id == "" && st.provider == "")
    ensures var f := Conclude(ext, rec, st, look);
      Tells(true, o, look, f.event, Stored(o, f.write, version))
  {
    ConcludeEvent(ext, rec, st, look);
    ConcludeStatus(ext, rec, st, look);
  }

  lemma ConcludeStatus(ext: Externals, rec: Record, st: Status, look: Option<bool>)
    requires st.active == rec.status.active
    ensures var w := Conclude(ext, rec, st, look).write;
      w.WriteStatus? ==> w.status.active == rec.status.active || (look.Some? && w.status.active == look)
  {
  }

  /** Every event tells what it should. */
  lemma EventMeans(ext: Externals, me: string, o: Record, remote: Remote, calls: Calls, look: Remote -> Option<bool>, version: nat)
    ensures var r := Pass(ext, me, o, remote, calls, look, version);
      Tells(ToRR(ext, Defaulted(ext.rules, o.spec)).Some?, o, look(r.remote), r.event, r.obj)
  {
    var rec := Snapshot(ext, o);
    if Open(ext, rec) == Consult {
      var p := ProviderPass(ext, me, rec, remote, calls);
      ProviderPassEffect(ext, me, rec, remote, calls);
      if p.ok {
        ConcludedTells(ext, o, rec, p.status, look(p.remote), version);
      }
    }
  }

  // ---- ownership ----

  /** Whoever has an entry has recorded this provider. */
  predicate Owned(me: string, o: Record) {
    o.status.id != "" ==> o.status.provider == me
  }

  /** Every pass, with whatever faults, keeps entries with their provider. */
  lemma OwnershipStays(ext: Externals, me: string, o: Record, remote: Remote, calls: Calls, look: Remote -> Option<bool>, version: nat)
    requires Owned(me, o)
    ensures var r := Pass(ext, me, o, remote, calls, look, version); r.obj.Some? ==> Owned(me, r.obj.value)
  {
    PassHasEffect(ext, me, o, remote, calls, look, version);
    ProviderPassEffect(ext, me, Snapshot(ext, o), remote, calls);
  }

  lemma {:induction false} OwnershipAlong(s: Setting, cs: seq<Config>, hops: seq<Hop>)
    requires Run(s, cs, hops) && Owned(s.me, cs[0].obj)
    ensures Owned(s.me, cs[|hops|].obj)
    decreases |hops|
  {
    if hops != [] {
      var n := |hops| - 1;
      RunInit(s, cs, hops);
      OwnershipAlong(s, cs[..n + 1], hops[..n]);
      if hops[n].Own? {
        OwnershipStays(s.ext, s.me, cs[n].obj, cs[n].remote, hops[n].calls, r => Some(s.look(r)), hops[n].version);
      }
    }
  }

  /** No other provider acts on a record that is owned: it fails before it has listed or
      written anything, whatever it would be answered. */
  lemma OthersKeepOff(ext: Externals, other: string, o: Record, remote: Remote, calls: Calls, look: Remote -> Option<bool>, version: nat)
    requires o.status.provider != "" && o.status.provider != other
    ensures GoalOf(ext, other, Snapshot(ext, o)) == None
    ensures o.deleting || RECORD_FINALIZER in o.finalizers ==>
      var r := Pass(ext, other, o, remote, calls, look, version); r.obj == Some(o) && r.remote == remote
  {
  }

  /** A record that starts without a status and is quiescent and active is owned by its
      provider, and every other provider keeps off. */
  lemma QuiescentIsOwned(s: Setting, cs: seq<Config>, hops: seq<Hop>, other: string, calls: Calls)
    requires Run(s, cs, hops) && Steady(s, cs[0]) && cs[0].obj.status == NO_STATUS
    requires var c := cs[|hops|]; Rank(s, c) == 0 && !Inactive(c.obj)
    requires s.me != "" && other != s.me
    ensures var c := cs[|hops|];
      && c.obj.status.provider == s.me && c.obj.status.id in c.remote
      && Pass(s.ext, other, c.obj, c.remote, calls, r => Some(s.look(r)), 0).obj == Some(c.obj)
      && Pass(s.ext, other, c.obj, c.remote, calls, r => Some(s.look(r)), 0).remote == c.remote
  {
    var c := cs[|hops|];
    OwnershipAlong(s, cs, hops);
    AtMostThreeWrites(s, cs, hops);
    OthersKeepOff(s.ext, other, c.obj, c.remote, calls, r => Some(s.look(r)), 0);
  }
}
