/** Passes of the Ingress controller (controllers/ingress_controller.go): which hosts the
    webhooks admit, what one pass achieves, and what repeated passes do. */
module IngressRuns {
  import opened Text
  import opened Suffixes
  import opened Records
  import opened Children
  import opened Rounds
  import opened DiffTheorems
  import opened Ingress
  import Settling

  // ---- admission ----

  /** Defaulting closes the host with a dot, or it is closed already. */
  predicate Closable(rules: Rules, host: string) {
    Domain(rules, ToLower(host)).Some? || IsFqdn(host)
  }

  /** The webhooks admit the record of a host and an address exactly when the host has a
      registrable domain or a closing dot, and the address is one. */
  lemma HostIsAdmitted(ext: Externals, step: string -> nat, ing: Ing, host: string, ip: string, index: nat)
    requires WellFormed(ext.rules) && ip != ""
    ensures Admits(ApiOf(ext, step), RecordOf(ext.rules, ing, host, ip, index).obj.spec) <==>
      Closable(ext.rules, host) && ext.parseIP(ip).Some?
  {
    var spec := BLANK.(a := Some(ARecord(host, 0, ing.ttl, ip)));
    DefaultingIsStable(ext, spec);
    ClosedExactly(ext.rules, host);
    var d := Defaulted(ext.rules, spec);
    assert Admitted(d) == VA && d.a.value.name == EnforceFqdn(ext.rules, host) && d.a.value.target == ip;
  }

  lemma ClosedExactly(rules: Rules, host: string)
    ensures IsFqdn(EnforceFqdn(rules, host)) <==> Closable(rules, host)
  {
    EnforceFqdnShape(rules, host);
  }

  /** A host of a single label is never admitted. */
  lemma OneLabelIsRefused(rules: Rules, host: string)
    requires WellFormed(rules) && DotFree(host)
    ensures !Closable(rules, host)
  {
    var low := ToLower(host);
    assert DotFree(low);
    assert ToLower(low) == low;
    SplitDotFree(low);
    if Cut(rules, [low], 0).Some? {
      CutLeavesLabel(rules, [low], 0);
    }
  }

  /** Some host or address of an Ingress that asks for records is refused. */
  ghost predicate Refusable(ext: Externals, hosts: seq<string>, ips: seq<string>) {
    exists h, p :: h in hosts && p in ips && !(Closable(ext.rules, h) && ext.parseIP(p).Some?)
  }

  lemma {:induction false} NonEmptyMember(s: seq<string>, x: string)
    requires x in NonEmpty(s)
    ensures x != ""
  {
    if x in NonEmpty(s[..|s| - 1]) {
      NonEmptyMember(s[..|s| - 1], x);
    }
  }

  /** A record that is not admitted belongs to a refusable host or address. */
  lemma RejectedIsRefusable(ext: Externals, step: string -> nat, ing: Ing, hosts: seq<string>, ips: seq<string>, n: string)
    requires WellFormed(ext.rules) && "" !in ips
    requires var w := Lookup(Desired(MakerOf(ext.rules, ing), hosts, ips), n);
      w.Some? && !Admits(ApiOf(ext, step), w.value.spec)
    ensures Refusable(ext, hosts, ips)
  {
    var h, i, x := MakerOfName(MakerOf(ext.rules, ing), hosts, ips, n);
    assert x == RecordOf(ext.rules, ing, h, ips[i], i);
    HostIsAdmitted(ext, step, ing, h, ips[i], i);
  }

  lemma MakerOfName(mk: Maker, hosts: seq<string>, ips: seq<string>, n: string) returns (h: string, i: nat, x: Named)
    requires Lookup(Desired(mk, hosts, ips), n).Some?
    ensures h in hosts && i < |ips| && x == mk(h, ips[i], i) && x.obj == Lookup(Desired(mk, hosts, ips), n).value
  {
    x := Named(n, Lookup(Desired(mk, hosts, ips), n).value);
    LookupIsMember(Desired(mk, hosts, ips), n);
    h, i := DesiredMade(mk, hosts, ips, x);
  }

  /** A refusable host or address makes an invalid write, if the children listed are admitted. */
  lemma RefusableIsRejected(ext: Externals, step: string -> nat, ing: Ing, hosts: seq<string>, ips: seq<string>, got: seq<Named>)
    requires WellFormed(ext.rules) && "" !in ips && Refusable(ext, hosts, ips)
    requires var want := Desired(MakerOf(ext.rules, ing), hosts, ips);
      Consistent(want) && forall n :: Lookup(got, n).Some? ==> ApiOf(ext, step).valid(Lookup(got, n).value.spec)
    ensures Rejected(ApiOf(ext, step), got, Desired(MakerOf(ext.rules, ing), hosts, ips))
  {
    var mk, api := MakerOf(ext.rules, ing), ApiOf(ext, step);
    var want := Desired(mk, hosts, ips);
    var h, p :| h in hosts && p in ips && !(Closable(ext.rules, h) && ext.parseIP(p).Some?);
    var a := IndexIn(hosts, h);
    var i := IndexIn(ips, p);
    var x := mk(h, p, i);
    DesiredHas(mk, hosts, ips, a, i);
    HostIsAdmitted(ext, step, ing, h, p, i);
    RecordIsFit(ext, step, ing, h, p, i);
    assert x in want && x.obj.spec == Lookup(want, x.name).value.spec;
    assert CreatesInvalid(api, got, want, x.name) || UpdatesInvalid(api, got, want, x.name);
  }

  // ---- a whole pass ----

  /** The list an Ingress asks for, from its rules and its load-balancer status. */
  function WantedFor(rules: Rules, ing: Ing, hosts: seq<string>, addresses: seq<string>): seq<Named> {
    Desired(MakerOf(rules, ing), NonEmpty(hosts), NonEmpty(addresses))
  }

  /** What a pass leaves: an ignored Ingress loses its children, any other gets the difference
      applied. */
  function Outcome(api: Api, rules: Rules, store: Store, items: seq<Named>, ing: Ing, ignored: bool,
                   hosts: seq<string>, addresses: seq<string>): Progress
  {
    match Adopted(items, OwnerOf(ing), INGRESS_ANNOTATION)
    case None => Progress(store, false)
    case Some(got) =>
      if ignored then Progress(DeleteAll(api, store, got), true)
      else Reconciled(api, store, got, WantedFor(rules, ing, hosts, addresses))
  }

  /** `Reconcile` of the Ingress controller, for the listing it gets. */
  method ReconcileIngress(cluster: Cluster, rules: Rules, items: seq<Named>, ing: Ing, ignored: bool,
                          hosts: seq<string>, addresses: seq<string>) returns (ok: bool)
    modifies cluster
    ensures Progress(cluster.store, ok) ==
      Outcome(cluster.api, rules, old(cluster.store), items, ing, ignored, hosts, addresses)
  {
    var got := ChildRecords(items, OwnerOf(ing), INGRESS_ANNOTATION);
    if got.None? {
      return false;
    }
    if ignored {
      cluster.Delete(got.value);
      return true;
    }
    var want := BuildWanted(MakerOf(rules, ing), hosts, addresses);
    ok := cluster.ReconcileChildRecords(got.value, want);
  }

  /** The input of a pass: libraries, the store and its listing, and the Ingress. */
  datatype Input = Input(ext: Externals, step: string -> nat, store: Store, items: seq<Named>, ing: Ing,
                         hosts: seq<string>, addresses: seq<string>)
  {
    function TheApi(): Api { ApiOf(ext, step) }

    function Children(): Option<seq<Named>> { Adopted(items, OwnerOf(ing), INGRESS_ANNOTATION) }

    function Want(): seq<Named> { WantedFor(ext.rules, ing, hosts, addresses) }

    /** A current listing of a store whose records were all admitted, none of them claimed by
        another controller. */
    ghost predicate Valid() {
      WellFormed(ext.rules) && Lists(items, store) && Children().Some? && AllAdmitted(TheApi(), store)
    }

    function Result(): Progress
      requires Children().Some?
    {
      Reconciled(TheApi(), store, Children().value, Want())
    }

    /** What passes need to settle the Ingress: hosts that share record names agree, every host
        can be closed and every address parsed, no wanted name is held by another record, and
        no deletion is in the way. */
    ghost predicate Sane()
      requires Children().Some?
    {
      var got := Children().value;
      && (NonEmpty(addresses) == [] || Agreeing(ext.rules, NonEmpty(hosts)))
      && !Refusable(ext, NonEmpty(hosts), NonEmpty(addresses))
      && !Blocked(store, got, Want()) && forall n :: Unhindered(store, got, Want(), n)
    }

    /** For a single pass, moreover, no name is to be written twice. */
    ghost predicate Settles()
      requires Children().Some?
    {
      Sane() && OnceEach(Children().value, Want())
    }
  }

  lemma SaneIsWorkable(p: Input)
    requires p.Valid()
    ensures p.Sane() <==> Workable(p.TheApi(), p.store, p.Children().value, p.Want())
  {
    var got, hosts, ips := p.Children().value, NonEmpty(p.hosts), NonEmpty(p.addresses);
    IngressCanBeSettled(p.ext.rules, p.ing, hosts, ips);
    if "" in ips {
      NonEmptyMember(p.addresses, "");
    }
    forall n | Lookup(got, n).Some? ensures p.TheApi().valid(Lookup(got, n).value.spec) {
      ListedAt(p.store, p.items, p.Want(), OwnerOf(p.ing), INGRESS_ANNOTATION, n);
      TakenIsControlled(p.store[n], OwnerOf(p.ing), INGRESS_ANNOTATION);
    }
    if Consistent(p.Want()) && Refusable(p.ext, hosts, ips) {
      RefusableIsRejected(p.ext, p.step, p.ing, hosts, ips, got);
    }
    if n :| CreatesInvalid(p.TheApi(), got, p.Want(), n) || UpdatesInvalid(p.TheApi(), got, p.Want(), n) {
      RejectedIsRefusable(p.ext, p.step, p.ing, hosts, ips, n);
    }
  }

  /** A pass over an Ingress succeeds and leaves nothing for the next pass exactly when its
      input settles. */
  lemma IngressPass(p: Input, items': seq<Named>)
    requires p.Valid() && Lists(items', p.Result().store)
    ensures var got' := Adopted(items', OwnerOf(p.ing), INGRESS_ANNOTATION);
      p.Result().ok && got'.Some? && NoDifference(got'.value, p.Want()) <==> p.Settles()
    ensures AllAdmitted(p.TheApi(), p.Result().store)
  {
    DesiredIsWanted(p.ext, p.step, p.ing, NonEmpty(p.hosts), NonEmpty(p.addresses));
    SaneIsWorkable(p);
    DiffApplies(p.TheApi(), p.store, p.items, p.Want(), OwnerOf(p.ing), INGRESS_ANNOTATION, items');
    ReconciledAdmitted(p.TheApi(), p.store, p.Children().value, p.Want());
  }

  /** After such a pass every host has, for every address, a stored record that converts to the
      active A record of the closed lower-case host with that address. */
  lemma EveryHostGetsItsRecords(p: Input, h: nat, i: nat)
    requires p.Valid() && p.Settles() && h < |NonEmpty(p.hosts)| && i < |NonEmpty(p.addresses)|
    ensures var host, ip := NonEmpty(p.hosts)[h], NonEmpty(p.addresses)[i];
      var c := Get(p.Result().store, RecordName(p.ing.name, "ing", host, i));
      && c.Some? && AsksFor(p.ext, p.ing, host, ip, c.value.spec) && Errors(p.ext, c.value.spec) == []
      && Defaulted(p.ext.rules, c.value.spec) == c.value.spec
  {
    var want, host, ip := p.Want(), NonEmpty(p.hosts)[h], NonEmpty(p.addresses)[i];
    var x := MakerOf(p.ext.rules, p.ing)(host, ip, i);
    DesiredIsWanted(p.ext, p.step, p.ing, NonEmpty(p.hosts), NonEmpty(p.addresses));
    SaneIsWorkable(p);
    DesiredHas(MakerOf(p.ext.rules, p.ing), NonEmpty(p.hosts), NonEmpty(p.addresses), h, i);
    assert !Differs(x.obj, Lookup(want, x.name).value);
    CurrentIsAccepted(p.TheApi(), p.store, p.items, want, OwnerOf(p.ing), INGRESS_ANNOTATION);
    ChildrenAsWanted(p.TheApi(), p.store, p.items, want, OwnerOf(p.ing), INGRESS_ANNOTATION, x.name);
    ReconciledAdmitted(p.TheApi(), p.store, p.Children().value, want);
    RecordAsksForHost(p.ext, p.ing, host, ip, i);
  }

  /** Repeated passes settle a sane Ingress, at the latest with one pass more than it asks for
      records; hosts that occur in several rules only cost passes. */
  lemma IngressSettles(p: Input, stores: seq<Store>, listings: seq<seq<Named>>)
    requires p.Valid() && p.Sane() && |stores| > |p.Want()| + 1
    requires Settling.Passes(p.TheApi(), stores, listings, p.Want(), OwnerOf(p.ing), INGRESS_ANNOTATION)
    requires stores[0] == p.store && listings[0] == p.items
    ensures var got := Adopted(listings[|stores| - 1], OwnerOf(p.ing), INGRESS_ANNOTATION);
      got.Some? && NoDifference(got.value, p.Want())
  {
    DesiredIsWanted(p.ext, p.step, p.ing, NonEmpty(p.hosts), NonEmpty(p.addresses));
    SaneIsWorkable(p);
    Settling.PassesSettle(p.TheApi(), stores, listings, p.Want(), OwnerOf(p.ing), INGRESS_ANNOTATION);
  }

  lemma {:induction false} AllAreNew(want: seq<Named>)
    ensures Added([], want) == want && Changed([], want) == []
  {
    if want != [] {
      AllAreNew(want[..|want| - 1]);
      assert want == want[..|want| - 1] + [want[|want| - 1]];
    }
  }

  lemma NothingInTheWay(want: seq<Named>)
    ensures !Blocked(map[], [], want) && (forall n :: Unhindered(map[], [], want, n))
    ensures OnceEach([], want) <==> Distinct(want)
  {
    AllAreNew(want);
  }

  lemma EmptyIsValid(p: Input)
    requires WellFormed(p.ext.rules) && p.store == map[] && p.items == []
    ensures p.Valid() && p.Children() == Some([])
  {
    assert Lists([], map[]);
  }

  /** In an empty namespace the first pass settles the Ingress exactly when every host can be
      closed, every address parsed, and there is no address or the replaced hosts differ. */
  lemma FirstPass(p: Input)
    requires WellFormed(p.ext.rules) && p.store == map[] && p.items == []
    ensures p.Valid()
    ensures p.Settles() <==>
      !Refusable(p.ext, NonEmpty(p.hosts), NonEmpty(p.addresses)) &&
      (NonEmpty(p.addresses) == [] || Apart(h => Replaced(h), NonEmpty(p.hosts)))
  {
    EmptyIsValid(p);
    IngressCanBeSettled(p.ext.rules, p.ing, NonEmpty(p.hosts), NonEmpty(p.addresses));
    NothingInTheWay(p.Want());
    if Distinct(p.Want()) {
      DistinctIsOnceEach([], p.Want());
    }
  }
}
