/** The engines together: from the host of an Ingress to its entry in the provider's zone, and
    from a host that is no longer wanted to the end of its record. */
module EndToEnd {
  import opened Text
  import opened Suffixes
  import opened Records
  import opened Normaliser
  import opened Provider
  import opened Controller
  import opened Convergence
  import opened Rewriting
  import opened Deletion
  import Children
  import Rounds
  import DiffTheorems
  import Settling
  import Ingress
  import IngressRuns

  /** A child record as the DNSRecord controller sees it. */
  function AsRecord(c: Children.Child): Record {
    Record(c.deleting, c.finalizers, c.version, c.spec, c.status)
  }

  // ---- a host gets its entry ----

  /** The entry that a host of an Ingress should have for an address. */
  function EntryFor(ext: Externals, ing: Ingress.Ing, host: string, ip: IP): Data {
    Data(EnforceFqdn(ext.rules, host), "A", (if ing.ttl == 0 then 3600 else ing.ttl) * SECOND, ext.printIP(ip))
  }

  /** Own passes and other activity never change what a steady object wants. */
  lemma {:induction false} GoalStaysAlong(s: Setting, cs: seq<Config>, hops: seq<Hop>)
    requires Run(s, cs, hops) && Steady(s, cs[0]) && GoalAt(s, cs[0].obj).Some?
    ensures GoalAt(s, cs[|hops|].obj) == GoalAt(s, cs[0].obj) && (Inactive(cs[|hops|].obj) <==> Inactive(cs[0].obj))
    decreases |hops|
  {
    if hops != [] {
      var n := |hops| - 1;
      RunInit(s, cs, hops);
      GoalStaysAlong(s, cs[..n + 1], hops[..n]);
      if hops[n].Own? {
        GoalStays(s, cs[n], hops[n].calls, hops[n].version);
        ActiveStays(s, cs[n], hops[n].calls, hops[n].version);
      }
    }
  }

  lemma ActiveStays(s: Setting, c: Config, calls: Calls, version: nat)
    requires PassAt(s, c, calls, version).obj.Some?
    ensures Inactive(PassAt(s, c, calls, version).obj.value) <==> Inactive(c.obj)
  {
    DefaultActive(s, c.obj);
    match Open(s.ext, Snapshot(s.ext, c.obj))
    case Reject =>
    case AddFinalizer => PassAddsFinalizer(s, c, calls, version);
    case Consult => ConsultKeeps(s, c, calls, version);
  }

  /** The goal of an object that asks for a host. */
  lemma GoalOfHost(s: Setting, ing: Ingress.Ing, host: string, ip: string, o: Record)
    requires Ingress.AsksFor(s.ext, ing, host, ip, o.spec) && Defaulted(s.ext.rules, o.spec) == o.spec
    requires s.ext.parseIP(ip).Some? && ZoneOf(s.ext.rules, EnforceFqdn(s.ext.rules, host)).Some?
    requires o.status.provider == "" || o.status.provider == s.me
    ensures !Inactive(o)
    ensures GoalAt(s, o) ==
      Some(Goal(ZoneOf(s.ext.rules, EnforceFqdn(s.ext.rules, host)).value, EntryFor(s.ext, ing, host, s.ext.parseIP(ip).value)))
  {
    EnforceFqdnShape(s.ext.rules, host);
  }

  /** A live object that asks for a closable host is steady if its address prints plainly. */
  lemma HostIsSteady(s: Setting, ing: Ingress.Ing, host: string, ip: string, c: Config)
    requires Ingress.AsksFor(s.ext, ing, host, ip, c.obj.spec) && Defaulted(s.ext.rules, c.obj.spec) == c.obj.spec
    requires s.ext.parseIP(ip).Some? && ZoneOf(s.ext.rules, EnforceFqdn(s.ext.rules, host)).Some?
    requires c.obj.status.provider == "" || c.obj.status.provider == s.me
    requires WellFormed(s.ext.rules) && !c.obj.deleting && "" !in c.remote && IngressRuns.Closable(s.ext.rules, host)
    requires PlainText(s.ext.printIP(s.ext.parseIP(ip).value))
    ensures Steady(s, c)
  {
    GoalOfHost(s, ing, host, ip, c.obj);
    IngressRuns.ClosedExactly(s.ext.rules, host);
    assert Recognisable(EntryFor(s.ext, ing, host, s.ext.parseIP(ip).value));
    RecognisedGoal(s, c.obj);
  }

  lemma QuiescentHolds(s: Setting, c: Config, g: Goal)
    requires Rank(s, c) == 0 && GoalAt(s, c.obj) == Some(g) && !Inactive(c.obj)
    ensures RECORD_FINALIZER in c.obj.finalizers && Holds(g, c.obj.status.id, c.remote)
    ensures c.obj.status.record == Rendered(s, c.obj)
  {
  }

  /** After a pass that settles an Ingress, three passes over the record of a host and an
      address, with whatever happens in between, leave the entry of that host and address in
      the zone of the host's registrable domain, and the record knows it. */
  lemma HostReachesZone(p: IngressRuns.Input, s: Setting, h: nat, i: nat, cs: seq<Config>, hops: seq<Hop>)
    requires p.Valid() && p.Settles() && s.ext == p.ext
    requires h < |Ingress.NonEmpty(p.hosts)| && i < |Ingress.NonEmpty(p.addresses)|
    requires var host, ip := Ingress.NonEmpty(p.hosts)[h], Ingress.NonEmpty(p.addresses)[i];
      && ZoneOf(s.ext.rules, EnforceFqdn(s.ext.rules, host)).Some?
      && (s.ext.parseIP(ip).Some? ==> PlainText(s.ext.printIP(s.ext.parseIP(ip).value)))
      && StoredAt(p, host, i, s.me, cs)
    requires Run(s, cs, hops) && AlwaysFree(s, cs, hops) && Passes(hops) >= 3
    ensures var host, ip, c := Ingress.NonEmpty(p.hosts)[h], Ingress.NonEmpty(p.addresses)[i], cs[|hops|];
      && s.ext.parseIP(ip).Some? && RECORD_FINALIZER in c.obj.finalizers
      && Holds(Goal(ZoneOf(s.ext.rules, EnforceFqdn(s.ext.rules, host)).value,
                    EntryFor(s.ext, p.ing, host, s.ext.parseIP(ip).value)), c.obj.status.id, c.remote)
  {
    var host, ip := Ingress.NonEmpty(p.hosts)[h], Ingress.NonEmpty(p.addresses)[i];
    IngressRuns.EveryHostGetsItsRecords(p, h, i);
    AskedIsGood(p, host, ip);
    var o := cs[0].obj;
    GoalOfHost(s, p.ing, host, ip, o);
    HostIsSteady(s, p.ing, host, ip, cs[0]);
    PassesReachQuiescence(s, cs, hops);
    GoalStaysAlong(s, cs, hops);
    QuiescentHolds(s, cs[|hops|], GoalAt(s, o).value);
  }

  /** The run starts with the live record stored for the host, which no other provider owns. */
  ghost predicate StoredAt(p: IngressRuns.Input, host: string, i: nat, me: string, cs: seq<Config>)
    requires p.Children().Some?
  {
    var c := Children.Get(p.Result().store, Ingress.RecordName(p.ing.name, "ing", host, i));
    && c.Some? && cs != [] && cs[0].obj == AsRecord(c.value) && !c.value.deleting && "" !in cs[0].remote
    && (c.value.status.provider == "" || c.value.status.provider == me)
  }

  lemma AskedIsGood(p: IngressRuns.Input, host: string, ip: string)
    requires p.Valid() && p.Settles() && host in Ingress.NonEmpty(p.hosts) && ip in Ingress.NonEmpty(p.addresses)
    ensures IngressRuns.Closable(p.ext.rules, host) && p.ext.parseIP(ip).Some?
  {
  }

  // ---- a surplus record goes ----

  /** The record is a child that is no longer wanted. */
  predicate Surplus(got: seq<Children.Named>, want: seq<Children.Named>, n: string) {
    Children.Lookup(got, n).Some? && Children.Lookup(want, n).None?
  }

  /** A pass marks a surplus child under a finalizer, whether or not the pass succeeds. */
  lemma SurplusIsMarked(api: Children.Api, store: Children.Store, got: seq<Children.Named>, want: seq<Children.Named>, n: string)
    requires Rounds.Consistent(want) && Surplus(got, want, n) && n in store && store[n].finalizers != []
    ensures var store' := Children.Reconciled(api, store, got, want).store;
      n in store' && store'[n] == store[n].(deleting := true, version := store'[n].version)
  {
    Settling.PassPartly(api, store, got, want, n);
    var store' := Children.Reconciled(api, store, got, want).store;
    assert Children.Get(store', n) == Children.Deleted(api, n, store[n]);
  }

  /** A surplus child under the finalizer: after the pass it is marked, and then it goes with
      some run of faultless passes exactly when the provider can work with its spec and the
      controller's finalizer is the last, at the latest with the third pass of any run. */
  lemma SurplusGoes(s: Setting, api: Children.Api, store: Children.Store, got: seq<Children.Named>, want: seq<Children.Named>,
                    n: string, remote: Remote, cs: seq<Config>)
    requires WellFormed(s.ext.rules) && "" !in remote
    requires Rounds.Consistent(want) && Surplus(got, want, n) && n in store && RECORD_FINALIZER in store[n].finalizers
    ensures var store' := Children.Reconciled(api, store, got, want).store;
      && n in store'
      && var c := Config(AsRecord(store'[n]), remote);
      && Doomed(s, c)
      && ((exists run :: Ends(s, c, run)) <==> GoalAt(s, AsRecord(store[n])).Some? && FinalizerLast(store[n].finalizers))
      && (GoalAt(s, AsRecord(store[n])).Some? && FinalizerLast(store[n].finalizers) && Chain(s, cs) && cs[0] == c ==> |cs| <= 3)
  {
    SurplusIsMarked(api, store, got, want, n);
    var store' := Children.Reconciled(api, store, got, want).store;
    var c := Config(AsRecord(store'[n]), remote);
    assert GoalAt(s, c.obj) == GoalAt(s, AsRecord(store[n]));
    ObjectGoes(s, c);
    if GoalAt(s, c.obj).Some? && FinalizerLast(c.obj.finalizers) && Chain(s, cs) && cs[0] == c {
      GoneInThree(s, cs);
    }
  }

  /** Once the surplus children are gone, the next difference is empty. */
  lemma SettledOnceGone(api: Children.Api, store: Children.Store, items: seq<Children.Named>, want: seq<Children.Named>,
                        o: Children.Owner, annotation: string, store2: Children.Store, items2: seq<Children.Named>)
    requires DiffTheorems.Wanted(api, want, o) && Rounds.Consistent(want)
    requires Rounds.Lists(items, store) && Children.Adopted(items, o, annotation).Some? && Rounds.Lists(items2, store2)
    requires var got := Children.Adopted(items, o, annotation).value;
      && Rounds.Accepted(api, store, got, want)
      && (forall n :: Rounds.NeedsUpdate(got, want, n) && n in store ==> !store[n].deleting)
      && forall n :: Children.Get(store2, n) ==
           if Surplus(got, want, n) then None else Children.Get(Children.Reconciled(api, store, got, want).store, n)
    ensures var got2 := Children.Adopted(items2, o, annotation);
      got2.Some? && DiffTheorems.NoDifference(got2.value, want)
  {
    var got := Children.Adopted(items, o, annotation).value;
    forall n ensures var c := Children.Get(store2, n);
      (c.Some? ==> !Children.Adopt(c.value, o, annotation).Clash?) &&
      DiffTheorems.Same(Children.Lookup(want, n), Rounds.TakenAt(c, o, annotation))
    {
      DiffTheorems.ListedAt(store, items, want, o, annotation, n);
      Rounds.ReconciledAt(api, store, got, want, n);
      DiffTheorems.SettledAt(api, store, got, want, o, annotation, n);
    }
    forall n | Children.Lookup(items2, n).Some? ensures !Children.Adopt(Children.Lookup(items2, n).value, o, annotation).Clash? {
      assert Children.Lookup(items2, n) == Children.Get(store2, n);
    }
    Rounds.AdoptedIfNoClash(items2, o, annotation);
    var got2 := Children.Adopted(items2, o, annotation).value;
    forall n ensures DiffTheorems.SameAt(got2, want, n) {
      Rounds.AdoptedAt(items2, o, annotation, n);
    }
    DiffTheorems.NoDifferenceAt(got2, want);
  }
}
