/** The converse of convergence: an object whose entry is not recognised when it comes back is
    rewritten by every pass, forever, and quiescence is reached exactly when it is recognised. */
module Rewriting {
  import opened Suffixes
  import opened Records
  import opened Normaliser
  import opened Provider
  import opened Controller
  import opened Convergence

  /** A live active object with a goal, without a match of it at its identifier. */
  ghost predicate Unmatched(s: Setting, c: Config) {
    && WellFormed(s.ext.rules) && !c.obj.deleting && "" !in c.remote
    && !Inactive(c.obj) && GoalAt(s, c.obj).Some?
    && !Holds(GoalAt(s, c.obj).value, c.obj.status.id, c.remote)
  }

  /** One whose entry is not recognised when it comes back. */
  ghost predicate Errant(s: Setting, c: Config) {
    Unmatched(s, c) && !Recognisable(GoalAt(s, c.obj).value.want)
  }

  lemma GoalZoneName(s: Setting, o: Record)
    requires WellFormed(s.ext.rules) && GoalAt(s, o).Some?
    ensures ZoneName(GoalAt(s, o).value.zone)
  {
    var rr := ToRR(s.ext, Snapshot(s.ext, o).spec).value;
    ZoneOfShape(s.ext.rules, rr.hdr.name);
  }

  lemma RecognisedGoal(s: Setting, o: Record)
    requires WellFormed(s.ext.rules) && GoalAt(s, o).Some?
    ensures var g := GoalAt(s, o).value; EchoStable(g.want, g.zone) <==> Recognisable(g.want)
  {
    GoalZoneName(s, o);
    EchoStableExactly(GoalAt(s, o).value.want, GoalAt(s, o).value.zone);
  }

  // ---- one pass ----

  /** Without a match, a plan carried out without faults places what is wanted under the new
      identifier, unless the place is taken. */
  lemma PlanPlaces(me: string, g: Goal, rec: Record, remote: Remote, records: seq<Entry>, id: string, p: Outcome)
    requires Truthful(records, remote, g.zone) && "" !in remote && id != ""
    requires !Unwanted(rec) && !Holds(g, rec.status.id, remote)
    requires p == Carry(me, rec.status, remote, g.zone, PlanFor(rec, g, records), false, Appended(id))
    ensures "" !in p.remote
    ensures p.ok ==> p.status == Claimed(rec.status, me, id) && id in p.remote && p.remote[id] == Placed(g.zone, g.want)
    ensures !p.ok ==> p.remote == remote
  {
    FindTruthful(records, remote, g.zone, rec.status.id);
  }

  /** A consulting pass over an unmatched object whose place is free: the entry as it is sent,
      under a new identifier, which the status records. */
  lemma PassPlaces(s: Setting, c: Config, calls: Calls, version: nat)
    requires Unmatched(s, c) && Faultless(s, c, calls) && RECORD_FINALIZER in c.obj.finalizers
    ensures var r, g := PassAt(s, c, calls, version), GoalAt(s, c.obj).value;
      && r.obj.Some? && "" !in r.remote
      && (if Unoccupied(s, c, calls)
          then && r.obj.value == c.obj.(status := Claimed(c.obj.status, s.me, calls.reply.id).(record := Rendered(s, c.obj)),
                                        version := version)
               && calls.reply.id in r.remote && r.remote[calls.reply.id] == Placed(g.zone, g.want)
          else r.obj.value == c.obj && r.remote == c.remote)
  {
    var g, rec := GoalAt(s, c.obj).value, Snapshot(s.ext, c.obj);
    assert Open(s.ext, rec) == Consult;
    var p := PassFollows(s, c, calls, version);
    DefaultActive(s, c.obj);
    PlanProceeds(s.me, g, rec, c.remote, calls.listing.records, calls.reply.id);
    PlanPlaces(s.me, g, rec, c.remote, calls.listing.records, calls.reply.id, p);
  }

  /** The object's entry is in the zone just as it was sent, but is not recognised. */
  ghost predicate Flapping(s: Setting, c: Config) {
    && Errant(s, c) && RECORD_FINALIZER in c.obj.finalizers
    && var g := GoalAt(s, c.obj).value;
    c.obj.status.id in c.remote && c.remote[c.obj.status.id] == Placed(g.zone, g.want)
  }

  lemma SentIsNoMatch(s: Setting, c: Config)
    requires WellFormed(s.ext.rules) && GoalAt(s, c.obj).Some?
    requires var g := GoalAt(s, c.obj).value;
      && c.obj.status.id in c.remote && c.remote[c.obj.status.id] == Placed(g.zone, g.want) && !Recognisable(g.want)
    ensures !Holds(GoalAt(s, c.obj).value, c.obj.status.id, c.remote)
  {
    RecognisedGoal(s, c.obj);
  }

  /** Whatever is at its identifier, a pass over an errant object whose place is free leaves
      it flapping under a new identifier; and a flapping object's place is free. */
  lemma ErrantFlaps(s: Setting, c: Config, calls: Calls, version: nat)
    requires Errant(s, c) && Faultless(s, c, calls) && RECORD_FINALIZER in c.obj.finalizers && Unoccupied(s, c, calls)
    ensures var r := PassAt(s, c, calls, version);
      && r.obj.Some? && r.obj.value.status.id != c.obj.status.id && Flapping(s, Config(r.obj.value, r.remote))
      && GoalAt(s, r.obj.value) == GoalAt(s, c.obj)
  {
    PassPlaces(s, c, calls, version);
    var r := PassAt(s, c, calls, version);
    var c' := Config(r.obj.value, r.remote);
    SameGoal(s, c.obj, c'.obj);
    SentIsNoMatch(s, c');
  }

  /** Each pass over a flapping object replaces the entry by an identical one under a new
      identifier, and leaves the object flapping. */
  lemma UnrecognisedEchoFlaps(s: Setting, c: Config, calls: Calls, version: nat)
    requires Flapping(s, c) && Faultless(s, c, calls)
    ensures var r := PassAt(s, c, calls, version);
      r.obj.Some? && r.obj.value.status.id != c.obj.status.id && Flapping(s, Config(r.obj.value, r.remote))
  {
    ErrantFlaps(s, c, calls, version);
  }

  // ---- whole runs ----

  lemma OpensByFinalizer(s: Setting, c: Config)
    requires Unmatched(s, c)
    ensures Open(s.ext, Snapshot(s.ext, c.obj)) ==
      if RECORD_FINALIZER in c.obj.finalizers then Consult else AddFinalizer
  {
  }

  lemma FinalizedGoal(s: Setting, o: Record, version: nat)
    requires WellFormed(s.ext.rules) && GoalAt(s, o).Some?
    ensures GoalAt(s, Finalized(s, o, version)) == GoalAt(s, o)
    ensures Inactive(Finalized(s, o, version)) <==> Inactive(o)
  {
    SnapshotStable(s, o);
    SameGoal(s, o, Finalized(s, o, version));
  }

  lemma FinalizerKeepsGoal(s: Setting, c: Config, calls: Calls, version: nat)
    requires Unmatched(s, c) && RECORD_FINALIZER !in c.obj.finalizers
    ensures var r := PassAt(s, c, calls, version);
      && r.obj.Some? && r.remote == c.remote && r.obj.value != c.obj
      && Unmatched(s, Config(r.obj.value, r.remote)) && GoalAt(s, r.obj.value) == GoalAt(s, c.obj)
  {
    OpensByFinalizer(s, c);
    PassAddsFinalizer(s, c, calls, version);
    FinalizedGoal(s, c.obj, version);
  }

  /** An errant object stays so, with the same goal, whatever happens; an own pass that finds
      its place free writes. */
  lemma ErrantStays(s: Setting, c: Config, hop: Hop, c': Config)
    requires Errant(s, c) && HopTo(s, c, hop, c')
    ensures Errant(s, c') && GoalAt(s, c'.obj) == GoalAt(s, c.obj)
    ensures hop.Own? && Unoccupied(s, c, hop.calls) ==> c' != c
  {
    if hop.Own? {
      if RECORD_FINALIZER !in c.obj.finalizers {
        FinalizerKeepsGoal(s, c, hop.calls, hop.version);
      } else if Unoccupied(s, c, hop.calls) {
        ErrantFlaps(s, c, hop.calls, hop.version);
      } else {
        PassPlaces(s, c, hop.calls, hop.version);
      }
    }
  }

  lemma UnmatchedRank(s: Setting, c: Config)
    requires Unmatched(s, c)
    ensures Rank(s, c) == if RECORD_FINALIZER in c.obj.finalizers then 2 else 3
  {
  }

  /** No run of an errant object ever comes nearer to quiescence than rank two, and every one
      of its passes that finds its place free writes. */
  lemma {:induction false} NeverQuiescent(s: Setting, cs: seq<Config>, hops: seq<Hop>)
    requires Run(s, cs, hops) && Errant(s, cs[0])
    ensures Errant(s, cs[|hops|]) && Rank(s, cs[|hops|]) >= 2
    ensures AlwaysFree(s, cs, hops) ==> Writes(cs, hops) == Passes(hops)
    decreases |hops|
  {
    if hops != [] {
      var n := |hops| - 1;
      RunInit(s, cs, hops);
      NeverQuiescent(s, cs[..n + 1], hops[..n]);
      ErrantStays(s, cs[n], hops[n], cs[n + 1]);
    }
    UnmatchedRank(s, cs[|hops|]);
  }

  lemma RecognisedIsSteady(s: Setting, c: Config)
    requires Unmatched(s, c) && Recognisable(GoalAt(s, c.obj).value.want)
    ensures Steady(s, c)
  {
    RecognisedGoal(s, c.obj);
  }

  /** Quiescence exactly: over every run of an object that starts without a match and finds
      its place free, three passes reach quiescence if and only if the entry it wants is
      recognised when it comes back; otherwise every pass rewrites it. */
  lemma QuiescentExactly(s: Setting, cs: seq<Config>, hops: seq<Hop>)
    requires Run(s, cs, hops) && AlwaysFree(s, cs, hops) && Unmatched(s, cs[0]) && Passes(hops) >= 3
    ensures Rank(s, cs[|hops|]) == 0 <==> Recognisable(GoalAt(s, cs[0].obj).value.want)
    ensures Writes(cs, hops) <= 3 || Writes(cs, hops) == Passes(hops)
  {
    if Recognisable(GoalAt(s, cs[0].obj).value.want) {
      RecognisedIsSteady(s, cs[0]);
      PassesReachQuiescence(s, cs, hops);
      AtMostThreeWrites(s, cs, hops);
    } else {
      NeverQuiescent(s, cs, hops);
    }
  }

  // ---- such runs exist ----

  /** The object's own entry is in the zone, or no entry there has what it wants. */
  ghost predicate Free(s: Setting, c: Config)
    requires GoalAt(s, c.obj).Some?
  {
    var g, id := GoalAt(s, c.obj).value, c.obj.status.id;
    (id in c.remote && c.remote[id].zone == g.zone) ||
    forall i :: i in c.remote && c.remote[i].zone == g.zone ==> !SameRecord(Entry(i, c.remote[i].data), g)
  }

  lemma FreeIsUnoccupied(s: Setting, c: Config, calls: Calls)
    requires GoalAt(s, c.obj).Some? && Free(s, c) && Faultless(s, c, calls)
    ensures Unoccupied(s, c, calls)
  {
    var g, records := GoalAt(s, c.obj).value, calls.listing.records;
    if Taken(records, g) {
      var e :| e in records && SameRecord(e, g);
      assert e.id in c.remote && c.remote[e.id] == Placed(g.zone, e.data);
    }
  }

  /** A live active object with a recognisable goal and a free place. */
  ghost predicate Ready(s: Setting, c: Config) {
    Steady(s, c) && !Inactive(c.obj) && GoalAt(s, c.obj).Some? && Free(s, c)
  }

  lemma ConsultStaysReady(s: Setting, c: Config, calls: Calls)
    requires Ready(s, c) && Faultless(s, c, calls) && RECORD_FINALIZER in c.obj.finalizers
    ensures var r := PassAt(s, c, calls, 0); r.obj.Some? && Ready(s, Config(r.obj.value, r.remote))
  {
    var g, raw, rec := GoalAt(s, c.obj).value, Rendered(s, c.obj), Snapshot(s.ext, c.obj);
    FreeIsUnoccupied(s, c, calls);
    assert Open(s.ext, rec) == Consult;
    WritingPassAdvances(s, c, calls, 0);
    var p := PassFollows(s, c, calls, 0);
    DefaultActive(s, c.obj);
    SnapshotStable(s, c.obj);
    PlanProceeds(s.me, g, rec, c.remote, calls.listing.records, calls.reply.id);
    PlanFulfils(s.me, g, raw, c.obj, rec, c.remote, calls.listing.records, calls.reply.id, p);
    FollowedIsSynced(s.me, g, raw, c.obj, p, s.look(p.remote), 0);
    SameGoal(s, c.obj, Followed(raw, c.obj, p.status, s.look(p.remote), 0));
  }

  lemma FinalizerStaysReady(s: Setting, c: Config, calls: Calls)
    requires Ready(s, c) && Faultless(s, c, calls) && RECORD_FINALIZER !in c.obj.finalizers
    ensures var r := PassAt(s, c, calls, 0); r.obj.Some? && Ready(s, Config(r.obj.value, r.remote))
  {
    assert Open(s.ext, Snapshot(s.ext, c.obj)) == AddFinalizer;
    WritingPassAdvances(s, c, calls, 0);
    PassAddsFinalizer(s, c, calls, 0);
    FinalizedGoal(s, c.obj, 0);
  }

  lemma ReadyPass(s: Setting, c: Config) returns (calls: Calls, c': Config)
    requires Ready(s, c)
    ensures PassTo(s, c, calls, 0, c') && Unoccupied(s, c, calls) && Ready(s, c')
  {
    calls := FaultlessExists(s, c);
    FreeIsUnoccupied(s, c, calls);
    if RECORD_FINALIZER in c.obj.finalizers {
      ConsultStaysReady(s, c, calls);
    } else {
      FinalizerStaysReady(s, c, calls);
    }
    var r := PassAt(s, c, calls, 0);
    c' := Config(r.obj.value, r.remote);
  }

  lemma RunGrows(s: Setting, cs: seq<Config>, hops: seq<Hop>, calls: Calls, c': Config)
    requires Run(s, cs, hops) && AlwaysFree(s, cs, hops)
    requires PassTo(s, cs[|hops|], calls, 0, c') && Unoccupied(s, cs[|hops|], calls)
    ensures Run(s, cs + [c'], hops + [Own(calls, 0)]) && AlwaysFree(s, cs + [c'], hops + [Own(calls, 0)])
  {
    var n, cs', hops' := |hops|, cs + [c'], hops + [Own(calls, 0)];
    assert HopTo(s, cs[n], Own(calls, 0), c');
    forall i | 0 <= i <= n ensures HopTo(s, cs'[i], hops'[i], cs'[i + 1]) && (hops'[i].Own? ==> Unoccupied(s, cs'[i], hops'[i].calls)) {
      if i < n {
        assert HopTo(s, cs[i], hops[i], cs[i + 1]);
        assert cs'[i] == cs[i] && hops'[i] == hops[i] && cs'[i + 1] == cs[i + 1];
      }
    }
  }

  /** From a ready object there are runs with any number of passes. */
  lemma {:induction false} RunsExist(s: Setting, c: Config, n: nat) returns (cs: seq<Config>, hops: seq<Hop>)
    requires Ready(s, c)
    ensures Run(s, cs, hops) && AlwaysFree(s, cs, hops) && cs[0] == c && Passes(hops) == n && Ready(s, cs[|hops|])
  {
    if n == 0 {
      cs, hops := [c], [];
    } else {
      var cs1, hops1 := RunsExist(s, c, n - 1);
      var calls, c' := ReadyPass(s, cs1[|hops1|]);
      RunGrows(s, cs1, hops1, calls, c');
      cs, hops := cs1 + [c'], hops1 + [Own(calls, 0)];
      assert hops[..|hops| - 1] == hops1;
    }
  }

  /** The run starts with the object and ends in quiescence. */
  ghost predicate Reaches(s: Setting, c: Config, cs: seq<Config>, hops: seq<Hop>) {
    Run(s, cs, hops) && cs[0] == c && Rank(s, cs[|hops|]) == 0
  }

  /** A live active object without a match, whose place is free, has a run into quiescence if
      and only if the entry it wants is recognised when it comes back. */
  lemma ReachableExactly(s: Setting, c: Config)
    requires Unmatched(s, c) && Free(s, c)
    ensures (exists cs, hops :: Reaches(s, c, cs, hops)) <==> Recognisable(GoalAt(s, c.obj).value.want)
  {
    if Recognisable(GoalAt(s, c.obj).value.want) {
      RecognisedIsSteady(s, c);
      var cs, hops := RunsExist(s, c, 3);
      PassesReachQuiescence(s, cs, hops);
      assert Reaches(s, c, cs, hops);
    } else if cs, hops :| Reaches(s, c, cs, hops) {
      NeverQuiescent(s, cs, hops);
    }
  }
}
