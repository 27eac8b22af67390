/** What passes of the DNSRecord controller achieve when the provider's echo is recognised:
    quiescence within three passes; and what success means. */
module Convergence {
  import opened Text
  import opened Suffixes
  import opened Records
  import opened Normaliser
  import opened Provider
  import opened Controller

  /** The setting of a controller: libraries, provider name, and DNS verification. */
  datatype Setting = Setting(ext: Externals, me: string, look: Remote -> bool)

  datatype Config = Config(obj: Record, remote: Remote)

  function GoalAt(s: Setting, o: Record): Option<Goal> {
    GoalOf(s.ext, s.me, Snapshot(s.ext, o))
  }

  /** Provider answers without faults: the listing is true and the new identifier is new. */
  ghost predicate Faultless(s: Setting, c: Config, calls: Calls) {
    && calls.listing.Listed?
    && Truthful(calls.listing.records, c.remote, GoalZone(s.ext, s.me, Snapshot(s.ext, c.obj)))
    && !calls.deleteFails
    && calls.reply.Appended? && calls.reply.id != "" && calls.reply.id !in c.remote
    && calls.reply.id != c.obj.status.id
  }

  lemma {:induction false} ListingExists(remote: Remote, zone: string) returns (records: seq<Entry>)
    ensures Truthful(records, remote, zone)
  {
    if remote == map[] {
      records := [];
    } else {
      var id :| id in remote;
      var rest := ListingExists(remote - {id}, zone);
      records := if remote[id].zone == zone then rest + [Entry(id, remote[id].data)] else rest;
      forall e: Entry ensures e in rest <==> e.id in remote - {id} && (remote - {id})[e.id] == Placed(zone, e.data) {
      }
    }
  }

  lemma {:induction false} LongerExists(ids: set<string>) returns (longer: string)
    ensures longer != "" && forall id :: id in ids ==> |id| < |longer|
  {
    if ids == {} {
      longer := "i";
    } else {
      var id :| id in ids;
      var rest := LongerExists(ids - {id});
      longer := rest + id + "i";
    }
  }

  /** In every situation the provider can answer without faults. */
  lemma FaultlessExists(s: Setting, c: Config) returns (calls: Calls)
    ensures Faultless(s, c, calls)
  {
    var records := ListingExists(c.remote, GoalZone(s.ext, s.me, Snapshot(s.ext, c.obj)));
    var id := LongerExists(c.remote.Keys + {c.obj.status.id});
    calls := Calls(Listed(records), false, Appended(id));
    assert c.obj.status.id in c.remote.Keys + {c.obj.status.id};
    assert forall i :: i in c.remote ==> i in c.remote.Keys + {c.obj.status.id};
  }

  function PassAt(s: Setting, c: Config, calls: Calls, version: nat): Result {
    Pass(s.ext, s.me, c.obj, c.remote, calls, r => Some(s.look(r)), version)
  }

  predicate Inactive(o: Record) {
    o.spec.active == Some(false)
  }

  /** The status and the zone are as the spec wants them. */
  predicate Synced(s: Setting, c: Config)
    requires GoalAt(s, c.obj).Some?
  {
    SyncedTo(GoalAt(s, c.obj).value, Rendered(s, c.obj), c.obj, c.remote)
  }

  predicate SyncedTo(g: Goal, raw: string, o: Record, remote: Remote) {
    o.status.record == raw &&
    if Inactive(o) then o.status.id == "" && o.status.provider == ""
    else Holds(g, o.status.id, remote)
  }

  /** The zone has a match of the goal at the identifier. */
  predicate Holds(g: Goal, id: string, remote: Remote) {
    id in remote && remote[id].zone == g.zone && FqdnRec(remote[id].data, g.zone) == g.want
  }

  function Rendered(s: Setting, o: Record): string {
    Render(s.ext, Snapshot(s.ext, o).spec)
  }

  /** How many writing passes are left: finalizer, provider and status, active flag. */
  function Rank(s: Setting, c: Config): nat {
    if RECORD_FINALIZER !in c.obj.finalizers then 3
    else if GoalAt(s, c.obj).None? || !Synced(s, c) then 2
    else if c.obj.status.active.GetOr(false) != s.look(c.remote) then 1
    else 0
  }

  /** A live object whose entry, if it wants one, is recognised when it comes back. */
  ghost predicate Steady(s: Setting, c: Config) {
    && WellFormed(s.ext.rules) && !c.obj.deleting && "" !in c.remote
    && (GoalAt(s, c.obj).Some? && !Inactive(c.obj) ==>
          EchoStable(GoalAt(s, c.obj).value.want, GoalAt(s, c.obj).value.zone))
  }

  lemma SnapshotStable(s: Setting, o: Record)
    requires WellFormed(s.ext.rules)
    ensures Snapshot(s.ext, Snapshot(s.ext, o)) == Snapshot(s.ext, o)
    ensures Snapshot(s.ext, o).spec.active == if o.spec.active.None? then Some(true) else o.spec.active
  {
    DefaultingIsStable(s.ext, o.spec);
  }

  /** The goal depends on the spec, and on the status only through the owning provider. */
  lemma SameGoal(s: Setting, o: Record, o': Record)
    requires WellFormed(s.ext.rules) && GoalAt(s, o).Some?
    requires Snapshot(s.ext, o').spec == Snapshot(s.ext, o).spec
    requires o'.status.provider == o.status.provider || o'.status.provider == "" || o'.status.provider == s.me
    ensures GoalAt(s, o') == GoalAt(s, o) && Rendered(s, o') == Rendered(s, o)
  {
  }

  /** The object with the controller's finalizer. */
  function Finalized(s: Setting, o: Record, version: nat): Record {
    o.(spec := Snapshot(s.ext, o).spec, finalizers := o.finalizers + [RECORD_FINALIZER], version := version)
  }

  lemma FinalizerAdvances(s: Setting, c: Config, version: nat)
    requires Steady(s, c) && RECORD_FINALIZER !in c.obj.finalizers
    ensures var o' := Finalized(s, c.obj, version);
      Steady(s, Config(o', c.remote)) && Rank(s, Config(o', c.remote)) <= 2
  {
    SnapshotStable(s, c.obj);
    var o' := Finalized(s, c.obj, version);
    if GoalAt(s, c.obj).Some? {
      SameGoal(s, c.obj, o');
    } else {
      assert GoalAt(s, o') == None;
    }
  }

  lemma CarryProvider(me: string, st: Status, remote: Remote, zone: string, plan: Plan, fails: bool, reply: Reply)
    ensures var p := Carry(me, st, remote, zone, plan, fails, reply).status.provider;
      p == st.provider || p == "" || p == me
  {
  }

  lemma ConcludeProvider(ext: Externals, rec: Record, st: Status, look: Option<bool>)
    ensures var w := Conclude(ext, rec, st, look).write;
      && (w.WriteStatus? ==> w.status.provider == st.provider)
      && (w.WriteMeta? ==> w.spec == rec.spec)
  {
  }

  lemma ConsultKeeps(s: Setting, c: Config, calls: Calls, version: nat)
    requires Open(s.ext, Snapshot(s.ext, c.obj)) == Consult && PassAt(s, c, calls, version).obj.Some?
    ensures var o' := PassAt(s, c, calls, version).obj.value;
      && (o'.spec == c.obj.spec || o'.spec == Snapshot(s.ext, c.obj).spec)
      && (o'.status.provider == c.obj.status.provider || o'.status.provider == "" || o'.status.provider == s.me)
  {
    var rec := Snapshot(s.ext, c.obj);
    var p := ProviderPass(s.ext, s.me, rec, c.remote, calls);
    CarryProvider(s.me, rec.status, c.remote, GoalZone(s.ext, s.me, rec), Decide(s.ext, s.me, rec, calls.listing),
                  calls.deleteFails, calls.reply);
    ConcludeProvider(s.ext, rec, p.status, Some(s.look(p.remote)));
  }

  /** A pass, with whatever faults, never changes what an object that stays in place wants. */
  lemma GoalStays(s: Setting, c: Config, calls: Calls, version: nat)
    requires WellFormed(s.ext.rules) && GoalAt(s, c.obj).Some? && PassAt(s, c, calls, version).obj.Some?
    ensures GoalAt(s, PassAt(s, c, calls, version).obj.value) == GoalAt(s, c.obj)
  {
    SnapshotStable(s, c.obj);
    if Open(s.ext, Snapshot(s.ext, c.obj)) == Consult {
      ConsultKeeps(s, c, calls, version);
      SameGoal(s, c.obj, PassAt(s, c, calls, version).obj.value);
    } else {
      PassAddsFinalizer(s, c, calls, version);
      SameGoal(s, c.obj, Finalized(s, c.obj, version));
    }
  }

  /** What follows a successful provider pass for a live object. */
  function Followed(raw: string, o: Record, st: Status, look: bool, version: nat): Record {
    if st.provider != o.status.provider || st.id != o.status.id || st.record != raw then
      o.(status := st.(record := raw), version := version)
    else if st.active.GetOr(false) != look then
      o.(status := st.(active := Some(look)), version := version)
    else o
  }

  lemma ConcludeFollows(ext: Externals, o: Record, rec: Record, st: Status, look: bool, version: nat)
    requires rec.status == o.status && !rec.deleting
    ensures Stored(o, Conclude(ext, rec, st, Some(look)).write, version) ==
      Some(Followed(Render(ext, rec.spec), o, st, look, version))
  {
  }

  /** A pass over a live object that reaches the provider. */
  lemma PassFollows(s: Setting, c: Config, calls: Calls, version: nat) returns (p: Outcome)
    requires calls.listing.Listed? && !calls.deleteFails && !c.obj.deleting
    requires GoalAt(s, c.obj).Some? && Open(s.ext, Snapshot(s.ext, c.obj)) == Consult
    ensures var g := GoalAt(s, c.obj).value;
      p == Carry(s.me, c.obj.status, c.remote, g.zone,
                 PlanFor(Snapshot(s.ext, c.obj), g, calls.listing.records), false, calls.reply)
    ensures var r := PassAt(s, c, calls, version);
      r.remote == p.remote &&
      r.obj == Some(if p.ok then Followed(Rendered(s, c.obj), c.obj, p.status, s.look(p.remote), version) else c.obj)
  {
    p := ProviderPass(s.ext, s.me, Snapshot(s.ext, c.obj), c.remote, calls);
    ConcludeFollows(s.ext, c.obj, Snapshot(s.ext, c.obj), p.status, s.look(p.remote), version);
  }

  /** The provider outcome is what the spec wants. */
  predicate Fulfils(me: string, g: Goal, o: Record, p: Outcome) {
    if Inactive(o) then p.status == Cleared(o.status)
    else (p.status == o.status || p.status == Claimed(o.status, me, p.status.id)) && Holds(g, p.status.id, p.remote)
  }

  /** A plan carried out without faults fulfils the goal, and changes nothing if it already was. */
  lemma PlanFulfils(me: string, g: Goal, raw: string, o: Record, rec: Record, remote: Remote,
                    records: seq<Entry>, id: string, p: Outcome)
    requires Truthful(records, remote, g.zone) && "" !in remote
    requires id != "" && id !in remote && id != o.status.id
    requires rec.status == o.status && (Unwanted(rec) <==> Inactive(o))
    requires !Inactive(o) ==> EchoStable(g.want, g.zone)
    requires p == Carry(me, o.status, remote, g.zone, PlanFor(rec, g, records), false, Appended(id))
    ensures "" !in p.remote && (p.ok ==> Fulfils(me, g, o, p))
    ensures !p.ok ==> p.remote == remote
    ensures SyncedTo(g, raw, o, remote) && p.ok ==> p.status == o.status && p.remote == remote
  {
    FindTruthful(records, remote, g.zone, rec.status.id);
  }

  /** After a fulfilled pass the object is synced, and the verification result was stored if
      it was synced before. */
  lemma FollowedIsSynced(me: string, g: Goal, raw: string, o: Record, p: Outcome, look: bool, version: nat)
    requires Fulfils(me, g, o, p)
    ensures var o' := Followed(raw, o, p.status, look, version);
      && SyncedTo(g, raw, o', p.remote)
      && o'.spec == o.spec && o'.finalizers == o.finalizers && o'.deleting == o.deleting
      && (o'.status.provider == o.status.provider || o'.status.provider == "" || o'.status.provider == me)
      && (p.status == o.status && o.status.record == raw ==> o'.status.active.GetOr(false) == look)
      && (p.status.id != o.status.id ==> o' != o)
  {
  }

  lemma FollowedAdvances(s: Setting, c: Config, p: Outcome, version: nat)
    requires Steady(s, c) && GoalAt(s, c.obj).Some? && RECORD_FINALIZER in c.obj.finalizers
    requires Fulfils(s.me, GoalAt(s, c.obj).value, c.obj, p) && "" !in p.remote
    requires Synced(s, c) ==> p.status == c.obj.status && p.remote == c.remote
    ensures var c' := Config(Followed(Rendered(s, c.obj), c.obj, p.status, s.look(p.remote), version), p.remote);
      Steady(s, c') && (c' != c ==> Rank(s, c') < Rank(s, c))
  {
    var g, raw, look := GoalAt(s, c.obj).value, Rendered(s, c.obj), s.look(p.remote);
    var c' := Config(Followed(raw, c.obj, p.status, look, version), p.remote);
    FollowedIsSynced(s.me, g, raw, c.obj, p, look, version);
    SameGoal(s, c.obj, c'.obj);
    assert Rank(s, c') <= 1;
    if Synced(s, c) && c' != c {
      assert Rank(s, c') == 0;
    }
  }

  lemma ConsultAdvances(s: Setting, c: Config, calls: Calls, version: nat)
    requires Steady(s, c) && Faultless(s, c, calls)
    requires GoalAt(s, c.obj).Some? && Open(s.ext, Snapshot(s.ext, c.obj)) == Consult
    ensures var r := PassAt(s, c, calls, version);
      r.obj.Some? && Advances(s, c, Config(r.obj.value, r.remote))
  {
    var p := PassFollows(s, c, calls, version);
    SnapshotStable(s, c.obj);
    PlanFulfils(s.me, GoalAt(s, c.obj).value, Rendered(s, c.obj), c.obj, Snapshot(s.ext, c.obj), c.remote,
                calls.listing.records, calls.reply.id, p);
    if p.ok {
      FollowedAdvances(s, c, p, version);
    }
  }

  ghost predicate Advances(s: Setting, c: Config, c': Config) {
    Steady(s, c') && (c' != c ==> Rank(s, c') < Rank(s, c))
  }

  /** A pass that writes anything brings the object at least one stage further. */
  lemma WritingPassAdvances(s: Setting, c: Config, calls: Calls, version: nat)
    requires Steady(s, c) && Faultless(s, c, calls)
    ensures var r := PassAt(s, c, calls, version);
      r.obj.Some? && Advances(s, c, Config(r.obj.value, r.remote))
  {
    match Open(s.ext, Snapshot(s.ext, c.obj))
    case Reject =>
    case AddFinalizer => FinalizerAdvances(s, c, version);
    case Consult =>
      if GoalAt(s, c.obj).Some? {
        ConsultAdvances(s, c, calls, version);
      }
  }

  /** The plan is refused exactly for a live record without an entry of its own whose place is taken. */
  lemma PlanProceeds(me: string, g: Goal, rec: Record, remote: Remote, records: seq<Entry>, id: string)
    requires Truthful(records, remote, g.zone)
    ensures Carry(me, rec.status, remote, g.zone, PlanFor(rec, g, records), false, Appended(id)).ok <==>
      Unwanted(rec) || !Taken(records, g) || (rec.status.id in remote && remote[rec.status.id].zone == g.zone)
  {
    FindTruthful(records, remote, g.zone, rec.status.id);
  }

  /** The object has a goal, and may pursue it: it is inactive, or has its own entry in the
      zone, or nobody else's entry has the name, type and value it wants. */
  ghost predicate Unoccupied(s: Setting, c: Config, calls: Calls) {
    && GoalAt(s, c.obj).Some? && calls.listing.Listed?
    && var g, id := GoalAt(s, c.obj).value, c.obj.status.id;
    Inactive(c.obj) || (id in c.remote && c.remote[id].zone == g.zone) || !Taken(calls.listing.records, g)
  }

  ghost predicate Changes(s: Setting, c: Config, calls: Calls, version: nat) {
    var r := PassAt(s, c, calls, version); r.obj != Some(c.obj) || r.remote != c.remote
  }

  /** At a positive rank a pass writes exactly when the finalizer is still missing from a
      convertible object, or the object has a goal that no other entry occupies. */
  lemma PassMakesProgress(s: Setting, c: Config, calls: Calls, version: nat)
    requires Steady(s, c) && Faultless(s, c, calls) && Rank(s, c) > 0
    ensures Changes(s, c, calls, version) <==>
      Open(s.ext, Snapshot(s.ext, c.obj)) == AddFinalizer || Unoccupied(s, c, calls)
  {
    match Open(s.ext, Snapshot(s.ext, c.obj))
    case Reject =>
    case AddFinalizer => PassAddsFinalizer(s, c, calls, version);
    case Consult =>
      if GoalAt(s, c.obj).Some? {
        ConsultMakesProgress(s, c, calls, version);
      }
  }

  lemma PassAddsFinalizer(s: Setting, c: Config, calls: Calls, version: nat)
    requires Open(s.ext, Snapshot(s.ext, c.obj)) == AddFinalizer
    ensures PassAt(s, c, calls, version) == Result(Some(Finalized(s, c.obj, version)), c.remote, Quiet)
    ensures RECORD_FINALIZER !in c.obj.finalizers
  {
  }

  lemma ConsultMakesProgress(s: Setting, c: Config, calls: Calls, version: nat)
    requires Steady(s, c) && Faultless(s, c, calls) && Rank(s, c) > 0
    requires GoalAt(s, c.obj).Some? && Open(s.ext, Snapshot(s.ext, c.obj)) == Consult
    ensures Changes(s, c, calls, version) <==> Unoccupied(s, c, calls)
  {
    var g, raw, rec := GoalAt(s, c.obj).value, Rendered(s, c.obj), Snapshot(s.ext, c.obj);
    var p := PassFollows(s, c, calls, version);
    SnapshotStable(s, c.obj);
    DefaultActive(s, c.obj);
    PlanProceeds(s.me, g, rec, c.remote, calls.listing.records, calls.reply.id);
    PlanFulfils(s.me, g, raw, c.obj, rec, c.remote, calls.listing.records, calls.reply.id, p);
    if p.ok {
      FollowedIsSynced(s.me, g, raw, c.obj, p, s.look(p.remote), version);
    }
  }

  // ---- whole runs ----

  /** An own pass with the answers it got, or anything else. */
  datatype Hop = Own(calls: Calls, version: nat) | Others

  ghost predicate PassTo(s: Setting, c: Config, calls: Calls, version: nat, c': Config) {
    Faultless(s, c, calls) && PassAt(s, c, calls, version).obj == Some(c'.obj)
    && PassAt(s, c, calls, version).remote == c'.remote
  }

  /** Anything else may happen to the provider between two passes, except to the object's own
      entry and to the answer of the verification server. */
  predicate OthersMay(s: Setting, c: Config, c': Config) {
    var id := c.obj.status.id;
    && c'.obj == c.obj && "" !in c'.remote && s.look(c'.remote) == s.look(c.remote)
    && (id in c.remote <==> id in c'.remote) && (id in c.remote ==> c.remote[id] == c'.remote[id])
  }

  ghost predicate HopTo(s: Setting, c: Config, hop: Hop, c': Config) {
    if hop.Own? then PassTo(s, c, hop.calls, hop.version, c') else OthersMay(s, c, c')
  }

  ghost predicate Run(s: Setting, cs: seq<Config>, hops: seq<Hop>) {
    |cs| == |hops| + 1 && forall i :: 0 <= i < |hops| ==> HopTo(s, cs[i], hops[i], cs[i + 1])
  }

  /** The number of the object's own passes. */
  function Passes(hops: seq<Hop>): nat {
    if hops == [] then 0 else Passes(hops[..|hops| - 1]) + if hops[|hops| - 1].Own? then 1 else 0
  }

  /** The number of the object's own passes that changed something. */
  function Writes(cs: seq<Config>, hops: seq<Hop>): nat
    requires |cs| == |hops| + 1
  {
    if hops == [] then 0
    else
      var n := |hops| - 1;
      Writes(cs[..n + 1], hops[..n]) + if hops[n].Own? && cs[n + 1] != cs[n] then 1 else 0
  }

  /** The object's own passes never find its place occupied. */
  ghost predicate AlwaysFree(s: Setting, cs: seq<Config>, hops: seq<Hop>)
    requires |cs| == |hops| + 1
  {
    forall i :: 0 <= i < |hops| && hops[i].Own? ==> Unoccupied(s, cs[i], hops[i].calls)
  }

  /** One hop: it never raises the rank, an own pass that writes lowers it, and an own pass
      that may pursue its goal lowers it until it is zero. */
  lemma HopAdvances(s: Setting, c: Config, hop: Hop, c': Config)
    requires Steady(s, c) && HopTo(s, c, hop, c')
    ensures Steady(s, c') && Rank(s, c') <= Rank(s, c)
    ensures hop.Own? && c' != c ==> Rank(s, c') < Rank(s, c)
    ensures hop.Own? && Unoccupied(s, c, hop.calls) ==> Rank(s, c') < Rank(s, c) || Rank(s, c') == 0
  {
    if hop.Own? {
      WritingPassAdvances(s, c, hop.calls, hop.version);
      if Unoccupied(s, c, hop.calls) && Rank(s, c) > 0 {
        PassMakesProgress(s, c, hop.calls, hop.version);
      }
    }
  }

  lemma RunInit(s: Setting, cs: seq<Config>, hops: seq<Hop>)
    requires Run(s, cs, hops) && hops != []
    ensures var n := |hops| - 1; Run(s, cs[..n + 1], hops[..n]) && HopTo(s, cs[n], hops[n], cs[n + 1])
  {
  }

  /** Convergence: over every run of passes of a live object, however other activity is
      interleaved, at most three passes write, and none does once the rank is zero. */
  lemma {:induction false} AtMostThreeWrites(s: Setting, cs: seq<Config>, hops: seq<Hop>)
    requires Run(s, cs, hops) && Steady(s, cs[0])
    ensures Steady(s, cs[|hops|]) && Writes(cs, hops) + Rank(s, cs[|hops|]) <= Rank(s, cs[0]) <= 3
    decreases |hops|
  {
    if hops != [] {
      var n := |hops| - 1;
      RunInit(s, cs, hops);
      AtMostThreeWrites(s, cs[..n + 1], hops[..n]);
      HopAdvances(s, cs[n], hops[n], cs[n + 1]);
    }
  }

  /** Quiescence is reached: as long as its place is free, every pass brings the object at
      least one stage further until nothing is left to do, so three passes are enough. */
  lemma {:induction false} PassesReachQuiescence(s: Setting, cs: seq<Config>, hops: seq<Hop>)
    requires Run(s, cs, hops) && Steady(s, cs[0]) && AlwaysFree(s, cs, hops)
    ensures Rank(s, cs[|hops|]) == 0 || Rank(s, cs[|hops|]) + Passes(hops) <= Rank(s, cs[0])
    ensures Passes(hops) >= 3 ==> Rank(s, cs[|hops|]) == 0
    decreases |hops|
  {
    if hops != [] {
      var n := |hops| - 1;
      RunInit(s, cs, hops);
      PassesReachQuiescence(s, cs[..n + 1], hops[..n]);
      AtMostThreeWrites(s, cs[..n + 1], hops[..n]);
      HopAdvances(s, cs[n], hops[n], cs[n + 1]);
    }
  }

  /** At rank zero a pass changes nothing and reports success exactly when the verification
      agrees with the spec. */
  lemma QuiescentPass(s: Setting, c: Config, calls: Calls, version: nat)
    requires Steady(s, c) && Faultless(s, c, calls) && Rank(s, c) == 0
    ensures PassAt(s, c, calls, version) ==
      Result(Some(c.obj), c.remote, if s.look(c.remote) == !Inactive(c.obj) then Succeeded else Requeued)
  {
    var g, rec := GoalAt(s, c.obj).value, Snapshot(s.ext, c.obj);
    WritingPassAdvances(s, c, calls, version);
    DefaultActive(s, c.obj);
    var p := PassFollows(s, c, calls, version);
    SnapshotStable(s, c.obj);
    PlanProceeds(s.me, g, rec, c.remote, calls.listing.records, calls.reply.id);
    PlanFulfils(s.me, g, Rendered(s, c.obj), c.obj, rec, c.remote, calls.listing.records, calls.reply.id, p);
    assert p == Outcome(true, c.obj.status, c.remote);
  }

  // ---- success ----

  /** A pass that reports success found everything as desired and wrote nothing. */
  lemma SuccessMeansDesired(s: Setting, c: Config, calls: Calls, version: nat)
    requires "" !in c.remote
    requires calls.listing.Listed? ==>
      Truthful(calls.listing.records, c.remote, GoalZone(s.ext, s.me, Snapshot(s.ext, c.obj)))
    requires calls.reply.Appended? ==> calls.reply.id != c.obj.status.id
    requires PassAt(s, c, calls, version).event == Succeeded
    ensures RECORD_FINALIZER in c.obj.finalizers && !c.obj.deleting
    ensures GoalAt(s, c.obj).Some? && Synced(s, c)
    ensures c.obj.status.active.GetOr(false) == s.look(c.remote) == !Inactive(c.obj)
    ensures PassAt(s, c, calls, version) == Result(Some(c.obj), c.remote, Succeeded)
  {
    var rec := Snapshot(s.ext, c.obj);
    var p := ProviderPass(s.ext, s.me, rec, c.remote, calls);
    SuccessConsults(s, c, calls, version, p);
    SuccessHasGoal(s.ext, s.me, rec, c.remote, calls);
    ConcludedSuccess(s.ext, rec, p.status, s.look(p.remote));
    UnmovedIsHeld(s.me, GoalAt(s, c.obj).value, rec, c.remote, calls);
    DefaultActive(s, c.obj);
  }

  lemma DefaultActive(s: Setting, o: Record)
    ensures Snapshot(s.ext, o).spec.active.GetOr(true) == !Inactive(o)
    ensures Unwanted(Snapshot(s.ext, o)) <==> o.deleting || Inactive(o)
  {
  }

  lemma SuccessConsults(s: Setting, c: Config, calls: Calls, version: nat, p: Outcome)
    requires p == ProviderPass(s.ext, s.me, Snapshot(s.ext, c.obj), c.remote, calls)
    requires PassAt(s, c, calls, version).event == Succeeded
    ensures var rec := Snapshot(s.ext, c.obj);
      && Open(s.ext, rec) == Consult && p.ok && (RECORD_FINALIZER in c.obj.finalizers || c.obj.deleting)
      && var f := Conclude(s.ext, rec, p.status, Some(s.look(p.remote)));
      f.event == Succeeded && PassAt(s, c, calls, version) == Result(Stored(c.obj, f.write, version), p.remote, Succeeded)
  {
  }

  lemma ConcludedSuccess(ext: Externals, rec: Record, status: Status, look: bool)
    requires Conclude(ext, rec, status, Some(look)).event == Succeeded
    ensures !rec.deleting && status.id == rec.status.id && status.provider == rec.status.provider
    ensures status.record == Render(ext, rec.spec)
    ensures status.active.GetOr(false) == look == rec.spec.active.GetOr(true)
    ensures Conclude(ext, rec, status, Some(look)).write == NoWrite
  {
  }

  /** A provider pass that succeeds without moving the status found what it wanted. */
  lemma UnmovedIsHeld(me: string, g: Goal, rec: Record, remote: Remote, calls: Calls)
    requires "" !in remote
    requires calls.listing.Listed? ==> Truthful(calls.listing.records, remote, g.zone)
    requires calls.reply.Appended? ==> calls.reply.id != rec.status.id
    requires var records := if calls.listing.Listed? then calls.listing.records else [];
      var p := Carry(me, rec.status, remote, g.zone, PlanFor(rec, g, records), calls.deleteFails, calls.reply);
      p.ok && p.status.id == rec.status.id && p.status.provider == rec.status.provider
    ensures var records := if calls.listing.Listed? then calls.listing.records else [];
      Carry(me, rec.status, remote, g.zone, PlanFor(rec, g, records), calls.deleteFails, calls.reply)
        == Outcome(true, rec.status, remote)
    ensures if Unwanted(rec) then rec.status.id == "" && rec.status.provider == "" else Holds(g, rec.status.id, remote)
  {
    if calls.listing.Listed? {
      FindTruthful(calls.listing.records, remote, g.zone, rec.status.id);
    }
  }
}
