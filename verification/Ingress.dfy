/** The records wanted for an Ingress (controllers/ingress_controller.go): one A record per
    host and load-balancer address. */
module Ingress {
  import opened Text
  import opened Suffixes
  import opened Records
  import opened Children
  import opened Rounds
  import opened DiffTheorems

  const INGRESS_ANNOTATION := "dns.linka.cloud/ingress"

  datatype Ing = Ing(name: string, uid: string, ttl: uint32)

  function OwnerOf(ing: Ing): Owner {
    Owner("networking.k8s.io", "v1", "Ingress", ing.name, ing.uid)
  }

  /** strings.NewReplacer(".", "-", "*", "wildcard") */
  function Replaced(host: string): string {
    if host == "" then ""
    else (if host[0] == '.' then "-" else if host[0] == '*' then "wildcard" else [host[0]]) + Replaced(host[1..])
  }

  function RecordName(name: string, typ: string, host: string, index: nat): string {
    name + "-" + typ + "-" + Replaced(host) + "-" + Decimal(index)
  }

  function RecordOf(rules: Rules, ing: Ing, host: string, ip: string, index: nat): Named {
    Named(RecordName(ing.name, "ing", host, index),
          Child(map[INGRESS_ANNOTATION := ing.name], [RefTo(OwnerOf(ing))],
                Defaulted(rules, BLANK.(a := Some(ARecord(host, 0, ing.ttl, ip)))), [], false, NO_STATUS, 0))
  }

  /** How a host, an address and its index become a record. */
  type Maker = (string, string, nat) -> Named

  function MakerOf(rules: Rules, ing: Ing): Maker {
    (host: string, ip: string, index: nat) => RecordOf(rules, ing, host, ip, index)
  }

  function NonEmpty(s: seq<string>): seq<string> {
    if s == [] then []
    else
      var before := NonEmpty(s[..|s| - 1]);
      if s[|s| - 1] != "" then before + [s[|s| - 1]] else before
  }

  /** The records of one host for its first k addresses. */
  function RecordsFor(mk: Maker, host: string, ips: seq<string>, k: nat): seq<Named>
    requires k <= |ips|
  {
    if k == 0 then [] else RecordsFor(mk, host, ips, k - 1) + [mk(host, ips[k - 1], k - 1)]
  }

  function Desired(mk: Maker, hosts: seq<string>, ips: seq<string>): seq<Named> {
    if hosts == [] then []
    else Desired(mk, hosts[..|hosts| - 1], ips) + RecordsFor(mk, hosts[|hosts| - 1], ips, |ips|)
  }

  /** The load-balancer addresses that carry an IP. */
  method Collect(addresses: seq<string>) returns (ips: seq<string>)
    ensures ips == NonEmpty(addresses)
  {
    ips := [];
    for i := 0 to |addresses|
      invariant ips == NonEmpty(addresses[..i])
    {
      assert addresses[..i + 1][..i] == addresses[..i];
      if addresses[i] != "" {
        ips := ips + [addresses[i]];
      }
    }
    assert addresses[..|addresses|] == addresses;
  }

  lemma DesiredSnoc(mk: Maker, hosts: seq<string>, host: string, ips: seq<string>)
    ensures Desired(mk, hosts + [host], ips) == Desired(mk, hosts, ips) + RecordsFor(mk, host, ips, |ips|)
  {
    assert (hosts + [host])[..|hosts|] == hosts;
  }

  /** The list built by nested loops from the rules' hosts and the load-balancer addresses. */
  method BuildWanted(mk: Maker, hosts: seq<string>, addresses: seq<string>) returns (want: seq<Named>)
    ensures want == Desired(mk, NonEmpty(hosts), NonEmpty(addresses))
  {
    var ips := Collect(addresses);
    want := [];
    for h := 0 to |hosts|
      invariant want == Desired(mk, NonEmpty(hosts[..h]), ips)
    {
      assert hosts[..h + 1][..h] == hosts[..h] && hosts[..h + 1][h] == hosts[h];
      if hosts[h] == "" {
        continue;
      }
      assert NonEmpty(hosts[..h + 1]) == NonEmpty(hosts[..h]) + [hosts[h]];
      ghost var before := want;
      for i := 0 to |ips|
        invariant want == before + RecordsFor(mk, hosts[h], ips, i)
      {
        want := want + [mk(hosts[h], ips[i], i)];
      }
      DesiredSnoc(mk, NonEmpty(hosts[..h]), hosts[h], ips);
    }
    assert hosts[..|hosts|] == hosts;
  }

  // ---- how many, and which names ----

  lemma {:induction false} RecordsForCount(mk: Maker, host: string, ips: seq<string>, k: nat)
    requires k <= |ips|
    ensures |RecordsFor(mk, host, ips, k)| == k
  {
    if k > 0 {
      RecordsForCount(mk, host, ips, k - 1);
    }
  }

  /** One record per host and address. */
  lemma {:induction false} DesiredCount(mk: Maker, hosts: seq<string>, ips: seq<string>)
    ensures |Desired(mk, hosts, ips)| == |hosts| * |ips|
  {
    if hosts != [] {
      DesiredCount(mk, hosts[..|hosts| - 1], ips);
      RecordsForCount(mk, hosts[|hosts| - 1], ips, |ips|);
      assert |hosts| * |ips| == (|hosts| - 1) * |ips| + |ips|;
    }
  }

  /** Names are determined by a key of the host and the index, and by nothing else. */
  ghost predicate NamesBy(mk: Maker, key: string -> string) {
    forall h, p, i, h', p', i' ::
      mk(h, p, i).name == mk(h', p', i').name <==> key(h) == key(h') && i == i'
  }

  ghost predicate NamedBy(mk: Maker, host: string, ips: seq<string>, k: nat, n: string) {
    exists i: nat :: i < k && i < |ips| && n == mk(host, ips[i], i).name
  }

  lemma {:induction false} RecordsForNames(mk: Maker, key: string -> string, host: string, ips: seq<string>, k: nat)
    requires NamesBy(mk, key) && k <= |ips|
    ensures Distinct(RecordsFor(mk, host, ips, k))
    ensures forall n :: Lookup(RecordsFor(mk, host, ips, k), n).Some? <==> NamedBy(mk, host, ips, k, n)
  {
    if k > 0 {
      var before, last := RecordsFor(mk, host, ips, k - 1), mk(host, ips[k - 1], k - 1);
      RecordsForNames(mk, key, host, ips, k - 1);
      assert !NamedBy(mk, host, ips, k - 1, last.name);
      assert (before + [last])[..|before|] == before;
      forall n ensures Lookup(before + [last], n).Some? <==> NamedBy(mk, host, ips, k, n) {
        LookupSnoc(before, last, n);
        if NamedBy(mk, host, ips, k - 1, n) {
          var i: nat :| i < k - 1 && n == mk(host, ips[i], i).name;
          assert i < k;
        }
      }
    }
  }

  ghost predicate NamedByAny(mk: Maker, hosts: seq<string>, ips: seq<string>, n: string) {
    exists h :: h in hosts && NamedBy(mk, h, ips, |ips|, n)
  }

  lemma {:induction false} LookupAppend(s: seq<Named>, t: seq<Named>, n: string)
    ensures Lookup(s + t, n) == if Lookup(s, n).Some? then Lookup(s, n) else Lookup(t, n)
  {
    if s == [] {
      assert s + t == t;
    } else {
      assert (s + t)[1..] == s[1..] + t;
      LookupAppend(s[1..], t, n);
    }
  }

  lemma {:induction false} DistinctAppend(s: seq<Named>, t: seq<Named>)
    ensures Distinct(s + t) <==> Distinct(s) && Distinct(t) && forall n :: Lookup(s, n).None? || Lookup(t, n).None?
  {
    if t == [] {
      assert s + t == s;
    } else {
      var init, last := t[..|t| - 1], t[|t| - 1];
      assert (s + t)[..|s + t| - 1] == s + init;
      DistinctAppend(s, init);
      LookupAppend(s, init, last.name);
      forall n ensures Lookup(t, n) == if Lookup(init, n).Some? then Lookup(init, n) else if last.name == n then Some(last.obj) else None {
        LookupLast(t, n);
      }
      assert Lookup(t, last.name).Some?;
    }
  }

  lemma {:induction false} DesiredNames(mk: Maker, key: string -> string, hosts: seq<string>, ips: seq<string>, n: string)
    requires NamesBy(mk, key)
    ensures Lookup(Desired(mk, hosts, ips), n).Some? <==> NamedByAny(mk, hosts, ips, n)
  {
    if hosts != [] {
      var init, last := hosts[..|hosts| - 1], hosts[|hosts| - 1];
      DesiredNames(mk, key, init, ips, n);
      RecordsForNames(mk, key, last, ips, |ips|);
      LookupAppend(Desired(mk, init, ips), RecordsFor(mk, last, ips, |ips|), n);
      assert hosts == init + [last];
      assert forall h :: h in hosts <==> h in init || h == last;
    }
  }

  /** No two hosts have the same key. */
  predicate Apart(key: string -> string, hosts: seq<string>) {
    forall i, j :: 0 <= i < j < |hosts| ==> key(hosts[i]) != key(hosts[j])
  }

  predicate ApartFrom(key: string -> string, hosts: seq<string>, host: string) {
    forall h :: h in hosts ==> key(h) != key(host)
  }

  lemma SharedNames(mk: Maker, key: string -> string, hosts: seq<string>, host: string, ips: seq<string>)
    requires NamesBy(mk, key) && ips != []
    ensures ApartFrom(key, hosts, host) <==>
      forall n :: Lookup(Desired(mk, hosts, ips), n).None? || Lookup(RecordsFor(mk, host, ips, |ips|), n).None?
  {
    RecordsForNames(mk, key, host, ips, |ips|);
    if ApartFrom(key, hosts, host) {
      forall n ensures Lookup(Desired(mk, hosts, ips), n).None? || Lookup(RecordsFor(mk, host, ips, |ips|), n).None? {
        DesiredNames(mk, key, hosts, ips, n);
      }
    } else {
      var h :| h in hosts && key(h) == key(host);
      var n := mk(host, ips[0], 0).name;
      assert mk(h, ips[0], 0).name == n;
      assert NamedBy(mk, h, ips, |ips|, n) && NamedBy(mk, host, ips, |ips|, n);
      DesiredNames(mk, key, hosts, ips, n);
    }
  }

  /** The names of the wanted list are distinct exactly when there is no address or the keys
      of the hosts are distinct. */
  lemma {:induction false} DesiredDistinct(mk: Maker, key: string -> string, hosts: seq<string>, ips: seq<string>)
    requires NamesBy(mk, key)
    ensures Distinct(Desired(mk, hosts, ips)) <==> ips == [] || Apart(key, hosts)
  {
    if hosts != [] {
      var init, last := hosts[..|hosts| - 1], hosts[|hosts| - 1];
      DesiredDistinct(mk, key, init, ips);
      RecordsForNames(mk, key, last, ips, |ips|);
      DistinctAppend(Desired(mk, init, ips), RecordsFor(mk, last, ips, |ips|));
      if ips != [] {
        assert Apart(key, hosts) <==> Apart(key, init) && ApartFrom(key, init, last);
        SharedNames(mk, key, init, last, ips);
      } else {
        assert RecordsFor(mk, last, ips, |ips|) == [];
      }
    }
  }

  lemma {:induction false} RecordsForHas(mk: Maker, host: string, ips: seq<string>, k: nat, i: nat)
    requires i < k <= |ips|
    ensures mk(host, ips[i], i) in RecordsFor(mk, host, ips, k)
  {
    if i < k - 1 {
      RecordsForHas(mk, host, ips, k - 1, i);
    }
  }

  /** The list has the record of every host and every address. */
  lemma {:induction false} DesiredHas(mk: Maker, hosts: seq<string>, ips: seq<string>, h: nat, i: nat)
    requires h < |hosts| && i < |ips|
    ensures mk(hosts[h], ips[i], i) in Desired(mk, hosts, ips)
  {
    if h < |hosts| - 1 {
      DesiredHas(mk, hosts[..|hosts| - 1], ips, h, i);
    } else {
      RecordsForHas(mk, hosts[h], ips, |ips|, i);
    }
  }

  lemma {:induction false} RecordsForMade(mk: Maker, host: string, ips: seq<string>, k: nat, x: Named) returns (i: nat)
    requires k <= |ips| && x in RecordsFor(mk, host, ips, k)
    ensures i < k && x == mk(host, ips[i], i)
  {
    if x in RecordsFor(mk, host, ips, k - 1) {
      i := RecordsForMade(mk, host, ips, k - 1, x);
    } else {
      i := k - 1;
    }
  }

  /** The list has nothing but the records of its hosts and addresses. */
  lemma {:induction false} DesiredMade(mk: Maker, hosts: seq<string>, ips: seq<string>, x: Named) returns (h: string, i: nat)
    requires x in Desired(mk, hosts, ips)
    ensures h in hosts && i < |ips| && x == mk(h, ips[i], i)
  {
    var init, last := hosts[..|hosts| - 1], hosts[|hosts| - 1];
    if x in Desired(mk, init, ips) {
      h, i := DesiredMade(mk, init, ips, x);
    } else {
      h := last;
      i := RecordsForMade(mk, last, ips, |ips|, x);
    }
  }

  /** Hosts with the same key have the same form. */
  predicate Coherent(key: string -> string, form: string -> string, hosts: seq<string>) {
    forall h, h' :: h in hosts && h' in hosts && key(h) == key(h') ==> form(h) == form(h')
  }

  /** For one address, records differ exactly when the forms of their hosts do. */
  ghost predicate FormedBy(mk: Maker, form: string -> string) {
    forall h, h', p, i :: Differs(mk(h, p, i).obj, mk(h', p, i).obj) <==> form(h) != form(h')
  }

  lemma CoherentAgree(mk: Maker, key: string -> string, form: string -> string, hosts: seq<string>, ips: seq<string>,
                      x: Named, y: Named)
    requires NamesBy(mk, key) && FormedBy(mk, form) && Coherent(key, form, hosts)
    requires x in Desired(mk, hosts, ips) && y in Desired(mk, hosts, ips) && x.name == y.name
    ensures !Differs(x.obj, y.obj)
  {
    var h, i := DesiredMade(mk, hosts, ips, x);
    var h', j := DesiredMade(mk, hosts, ips, y);
    assert key(h) == key(h') && i == j;
    assert form(h) == form(h');
  }

  lemma AgreeCoherent(mk: Maker, key: string -> string, form: string -> string, hosts: seq<string>, ips: seq<string>,
                      h: string, h': string)
    requires NamesBy(mk, key) && FormedBy(mk, form) && ips != []
    requires h in hosts && h' in hosts && key(h) == key(h') && form(h) != form(h')
    ensures !Consistent(Desired(mk, hosts, ips))
  {
    var a := IndexIn(hosts, h);
    var b := IndexIn(hosts, h');
    DesiredHas(mk, hosts, ips, a, 0);
    DesiredHas(mk, hosts, ips, b, 0);
    var x, y := mk(h, ips[0], 0), mk(h', ips[0], 0);
    assert x.name == y.name && Differs(x.obj, y.obj);
    ConsistentPairs(Desired(mk, hosts, ips));
  }

  lemma {:induction false} DesiredOfNone(mk: Maker, hosts: seq<string>)
    ensures Desired(mk, hosts, []) == []
  {
    if hosts != [] {
      DesiredOfNone(mk, hosts[..|hosts| - 1]);
    }
  }

  /** The records wanted under one name agree exactly when there is no address or hosts that
      share record names have the same form. */
  lemma DesiredConsistent(mk: Maker, key: string -> string, form: string -> string, hosts: seq<string>, ips: seq<string>)
    requires NamesBy(mk, key) && FormedBy(mk, form)
    ensures Consistent(Desired(mk, hosts, ips)) <==> ips == [] || Coherent(key, form, hosts)
  {
    if ips == [] {
      DesiredOfNone(mk, hosts);
    } else if h, h' :| h in hosts && h' in hosts && key(h) == key(h') && form(h) != form(h') {
      AgreeCoherent(mk, key, form, hosts, ips, h, h');
    } else {
      var want := Desired(mk, hosts, ips);
      forall x, y | x in want && y in want && x.name == y.name ensures !Differs(x.obj, y.obj) {
        CoherentAgree(mk, key, form, hosts, ips, x, y);
      }
      ConsistentPairs(want);
    }
  }

  lemma IndexIn(hosts: seq<string>, h: string) returns (a: nat)
    requires h in hosts
    ensures a < |hosts| && hosts[a] == h
  {
    a :| a < |hosts| && hosts[a] == h;
  }

  // ---- the Ingress records ----

  /** The spec is active and converts to the A record of the closed lower-case host with that
      address, of class IN, with the Ingress's TTL or 3600. */
  predicate AsksFor(ext: Externals, ing: Ing, host: string, ip: string, spec: Spec) {
    spec.active == Some(true) &&
    ToRR(ext, spec) == match ext.parseIP(ip)
      case None => None
      case Some(a) => Some(A(Header(if Domain(ext.rules, ToLower(host)).Some? then ToLower(host) + "." else ToLower(host),
                                    1, if ing.ttl == 0 then 3600 else ing.ttl), a))
  }

  /** The record of a host and an address asks for just that. */
  lemma RecordAsksForHost(ext: Externals, ing: Ing, host: string, ip: string, index: nat)
    ensures AsksFor(ext, ing, host, ip, RecordOf(ext.rules, ing, host, ip, index).obj.spec)
  {
    EnforceFqdnShape(ext.rules, host);
  }

  /** Two names of one Ingress agree exactly when the replaced hosts and the indices do. */
  lemma NamesAgree(name: string, typ: string, h1: string, i1: nat, h2: string, i2: nat)
    ensures RecordName(name, typ, h1, i1) == RecordName(name, typ, h2, i2) <==> Replaced(h1) == Replaced(h2) && i1 == i2
  {
    if RecordName(name, typ, h1, i1) == RecordName(name, typ, h2, i2) {
      var prefix := name + "-" + typ + "-";
      CutAtLast(prefix + Replaced(h1), Decimal(i1), prefix + Replaced(h2), Decimal(i2), '-');
      DecimalInjective(i1, i2);
      assert (prefix + Replaced(h1))[|prefix|..] == Replaced(h1);
      assert (prefix + Replaced(h2))[|prefix|..] == Replaced(h2);
    }
  }

  lemma IngressNames(rules: Rules, ing: Ing)
    ensures NamesBy(MakerOf(rules, ing), h => Replaced(h))
  {
    var mk, key := MakerOf(rules, ing), h => Replaced(h);
    forall h, p, i, h', p', i'
      ensures mk(h, p, i).name == mk(h', p', i').name <==> key(h) == key(h') && i == i'
    {
      NamesAgree(ing.name, "ing", h, i, h', i');
    }
  }

  /** Hosts without dashes and wildcards keep their identity. */
  lemma {:induction false} ReplacedInjective(a: string, b: string)
    requires '-' !in a && '*' !in a && '-' !in b && '*' !in b && Replaced(a) == Replaced(b)
    ensures a == b
  {
    ReplacedLength(a);
    ReplacedLength(b);
    if a != "" {
      assert Replaced(a)[0] == (if a[0] == '.' then '-' else a[0]);
      assert Replaced(b)[0] == (if b[0] == '.' then '-' else b[0]);
      assert Replaced(a)[1..] == Replaced(a[1..]) && Replaced(b)[1..] == Replaced(b[1..]);
      ReplacedInjective(a[1..], b[1..]);
      assert a == [a[0]] + a[1..] && b == [b[0]] + b[1..];
    }
  }

  lemma {:induction false} ReplacedLength(a: string)
    requires '*' !in a
    ensures |Replaced(a)| == |a|
  {
    if a != "" {
      ReplacedLength(a[1..]);
    }
  }

  /** Distinct hosts free of dashes and wildcards are apart. */
  lemma PlainHostsAreApart(hosts: seq<string>)
    requires forall h :: h in hosts ==> '-' !in h && '*' !in h
    requires forall i, j :: 0 <= i < j < |hosts| ==> hosts[i] != hosts[j]
    ensures Apart(h => Replaced(h), hosts)
  {
    forall i, j | 0 <= i < j < |hosts| ensures Replaced(hosts[i]) != Replaced(hosts[j]) {
      if Replaced(hosts[i]) == Replaced(hosts[j]) {
        ReplacedInjective(hosts[i], hosts[j]);
      }
    }
  }

  /** Two distinct hosts that get the same record names. */
  lemma HostsThatCollide()
    ensures Replaced("a.b") == Replaced("a-b") && "a.b" != "a-b"
  {
  }

  predicate FitFor(api: Api, ing: Ing, w: Child) {
    ControlledBy(w, OwnerOf(ing)) && api.default(w.spec) == w.spec && w.finalizers == []
  }

  lemma RecordIsFit(ext: Externals, step: string -> nat, ing: Ing, host: string, ip: string, index: nat)
    requires WellFormed(ext.rules)
    ensures FitFor(ApiOf(ext, step), ing, MakerOf(ext.rules, ing)(host, ip, index).obj)
  {
    DefaultingIsStable(ext, BLANK.(a := Some(ARecord(host, 0, ing.ttl, ip))));
  }

  lemma {:induction false} RecordsForFit(mk: Maker, fit: Child -> bool, host: string, ips: seq<string>, k: nat, n: string)
    requires (forall h, p, i :: fit(mk(h, p, i).obj)) && k <= |ips| && Lookup(RecordsFor(mk, host, ips, k), n).Some?
    ensures fit(Lookup(RecordsFor(mk, host, ips, k), n).value)
  {
    var before := RecordsFor(mk, host, ips, k - 1);
    LookupSnoc(before, mk(host, ips[k - 1], k - 1), n);
    if Lookup(before, n).Some? {
      RecordsForFit(mk, fit, host, ips, k - 1, n);
    }
  }

  lemma {:induction false} DesiredFit(mk: Maker, fit: Child -> bool, hosts: seq<string>, ips: seq<string>, n: string)
    requires (forall h, p, i :: fit(mk(h, p, i).obj)) && Lookup(Desired(mk, hosts, ips), n).Some?
    ensures fit(Lookup(Desired(mk, hosts, ips), n).value)
  {
    var init, last := hosts[..|hosts| - 1], hosts[|hosts| - 1];
    LookupAppend(Desired(mk, init, ips), RecordsFor(mk, last, ips, |ips|), n);
    if Lookup(Desired(mk, init, ips), n).Some? {
      DesiredFit(mk, fit, init, ips, n);
    } else {
      RecordsForFit(mk, fit, last, ips, |ips|, n);
    }
  }

  /** The list an Ingress asks for is what the difference theorem demands of a wanted list. */
  lemma DesiredIsWanted(ext: Externals, step: string -> nat, ing: Ing, hosts: seq<string>, ips: seq<string>)
    requires WellFormed(ext.rules)
    ensures Wanted(ApiOf(ext, step), Desired(MakerOf(ext.rules, ing), hosts, ips), OwnerOf(ing))
  {
    var mk, fit := MakerOf(ext.rules, ing), w => FitFor(ApiOf(ext, step), ing, w);
    forall h, p, i ensures fit(mk(h, p, i).obj) {
      RecordIsFit(ext, step, ing, h, p, i);
    }
    forall n | Lookup(Desired(mk, hosts, ips), n).Some? ensures fit(Lookup(Desired(mk, hosts, ips), n).value) {
      DesiredFit(mk, fit, hosts, ips, n);
    }
  }

  lemma IngressForms(rules: Rules, ing: Ing)
    ensures FormedBy(MakerOf(rules, ing), h => EnforceFqdn(rules, h))
  {
  }

  /** Hosts that share record names are one host, up to case and the closing dot. */
  predicate Agreeing(rules: Rules, hosts: seq<string>) {
    Coherent(h => Replaced(h), h => EnforceFqdn(rules, h), hosts)
  }

  /** An Ingress can ever be settled exactly when it has no address or its hosts agree; its
      record names are distinct exactly when it has no address or the replaced hosts are. */
  lemma IngressCanBeSettled(rules: Rules, ing: Ing, hosts: seq<string>, ips: seq<string>)
    ensures var want := Desired(MakerOf(rules, ing), hosts, ips);
      && ((exists got :: NoDifference(got, want)) <==> ips == [] || Agreeing(rules, hosts))
      && (Consistent(want) <==> ips == [] || Agreeing(rules, hosts))
      && (Distinct(want) <==> ips == [] || Apart(h => Replaced(h), hosts))
  {
    var mk := MakerOf(rules, ing);
    IngressNames(rules, ing);
    IngressForms(rules, ing);
    DesiredConsistent(mk, h => Replaced(h), h => EnforceFqdn(rules, h), hosts, ips);
    DesiredDistinct(mk, h => Replaced(h), hosts, ips);
    CanBeSettled(Desired(mk, hosts, ips));
  }

  /** An Ingress with two such hosts and an address can never be settled, whatever the rules. */
  lemma CollidingHostsNeverSettle(rules: Rules, ing: Ing, ips: seq<string>, got: seq<Named>)
    requires ips != []
    ensures !NoDifference(got, Desired(MakerOf(rules, ing), ["a.b", "a-b"], ips))
  {
    var hosts := ["a.b", "a-b"];
    HostsThatCollide();
    EnforceFqdnShape(rules, "a.b");
    EnforceFqdnShape(rules, "a-b");
    assert EnforceFqdn(rules, "a.b")[1] == '.' && EnforceFqdn(rules, "a-b")[1] == '-';
    assert hosts[0] in hosts && hosts[1] in hosts;
    assert !Agreeing(rules, hosts);
    IngressCanBeSettled(rules, ing, hosts, ips);
  }
}
