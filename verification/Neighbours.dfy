/** Several Ingresses in one namespace: which records each of them takes for its own, how they
    are named, and that none touches the records of another. */
module Neighbours {
  import opened Text
  import opened Suffixes
  import opened Children
  import opened Rounds
  import opened Ingress
  import opened IngressRuns

  // ---- whose child a record is ----

  /** The record names the owner in its annotation. */
  predicate Annotated(c: Child, o: Owner, annotation: string) {
    annotation in c.annotations && c.annotations[annotation] == o.name
  }

  /** Another object is the record's controller. */
  predicate Elsewhere(c: Child, o: Owner) {
    ControllerOf(c.owners).Some? && ControllerOf(c.owners).value.uid != o.uid
    && !(ControllerOf(c.owners).value.group == o.group && ControllerOf(c.owners).value.kind == o.kind
         && ControllerOf(c.owners).value.name == o.name)
  }

  /** A record is taken exactly if its controller has the owner's uid, or if it names the owner
      and has no controller other than an earlier object of that group, kind and name; it is an
      error exactly if it names the owner and another object controls it. */
  lemma AdoptedExactly(c: Child, o: Owner, annotation: string)
    ensures Adopt(c, o, annotation).Take? <==>
      ControlledBy(c, o) || (Annotated(c, o, annotation) && !Elsewhere(c, o))
    ensures Adopt(c, o, annotation).Clash? <==> Annotated(c, o, annotation) && Elsewhere(c, o)
  {
  }

  /** The controller of a record is its first reference whose controller flag is set. */
  lemma {:induction false} ControllerExactly(owners: seq<OwnerRef>)
    ensures ControllerOf(owners).None? <==> forall r :: r in owners ==> r.controller != Some(true)
    ensures ControllerOf(owners).Some? ==>
      exists i :: 0 <= i < |owners| && owners[i] == ControllerOf(owners).value && owners[i].controller == Some(true)
                  && forall j :: 0 <= j < i ==> owners[j].controller != Some(true)
  {
    if owners != [] && owners[0].controller != Some(true) {
      ControllerExactly(owners[1..]);
      if ControllerOf(owners).Some? {
        var i :| 0 <= i < |owners[1..]| && owners[1..][i] == ControllerOf(owners).value && owners[1..][i].controller == Some(true)
                 && forall j :: 0 <= j < i ==> owners[1..][j].controller != Some(true);
        assert forall j :: 1 <= j < i + 1 ==> owners[j] == owners[1..][j - 1];
        assert owners[i + 1] == ControllerOf(owners).value;
      }
    }
  }

  /** A repaired record keeps its references to others. */
  lemma {:induction false} UpsertKeepsOthers(owners: seq<OwnerRef>, o: Owner, r: OwnerRef)
    requires r in owners && !Refers(r, o)
    ensures r in Upsert(owners, o)
  {
    if !Refers(owners[0], o) && r != owners[0] {
      UpsertKeepsOthers(owners[1..], o, r);
    }
  }

  // ---- a pass leaves foreign records alone ----

  lemma {:induction false} CreateSparesExisting(api: Api, store: Store, add: seq<Named>, n: string)
    requires n in store
    ensures Get(CreateAll(api, store, add).store, n) == Get(store, n)
  {
    if add != [] {
      CreateSparesExisting(api, store, add[..|add| - 1], n);
    }
  }

  lemma {:induction false} ChangedIsListed(got: seq<Named>, want: seq<Named>, n: string)
    requires Lookup(got, n).None?
    ensures Lookup(Changed(got, want), n).None?
  {
    if want != [] {
      var w := want[|want| - 1];
      ChangedIsListed(got, want[..|want| - 1], n);
      if Lookup(got, w.name).Some? && Differs(w.obj, Lookup(got, w.name).value) {
        LookupSnoc(Changed(got, want[..|want| - 1]), Named(w.name, w.obj.(version := Lookup(got, w.name).value.version)), n);
      }
    }
  }

  /** A stored record that is not a child stays as it is, whatever is wanted. */
  lemma ForeignIsSpared(api: Api, store: Store, got: seq<Named>, want: seq<Named>, n: string)
    requires n in store && Lookup(got, n).None?
    ensures Get(Reconciled(api, store, got, want).store, n) == Get(store, n)
    ensures Get(DeleteAll(api, store, got), n) == Get(store, n)
  {
    var s1 := DeleteAll(api, store, Added(want, got));
    AddedAt(want, got, n);
    DeleteAllAt(api, store, Added(want, got), n);
    DeleteAllAt(api, store, got, n);
    assert n in s1;
    CreateSparesExisting(api, s1, Added(got, want), n);
    ChangedIsListed(got, want, n);
    UpdateAllKeeps(api, CreateAll(api, s1, Added(got, want)).store, Changed(got, want), n);
  }

  // ---- two Ingresses ----

  /** A record built for the Ingress, whatever has become of it since, with its owner
      reference or without any. */
  predicate BuiltFor(ing: Ing, c: Child) {
    && "dns.linka.cloud/ingress" in c.annotations && c.annotations["dns.linka.cloud/ingress"] == ing.name
    && (c.owners == [OwnerRef("networking.k8s.io", "v1", "Ingress", ing.name, ing.uid, Some(true), Some(true))] || c.owners == [])
  }

  /** What an Ingress builds is built for it, and taken back by it, with and without the
      reference, which a lost one gets back. */
  lemma OwnIsTaken(rules: Rules, ing: Ing, host: string, ip: string, index: nat, c: Child)
    ensures BuiltFor(ing, RecordOf(rules, ing, host, ip, index).obj)
    ensures BuiltFor(ing, c) ==>
      var a := Adopt(c, OwnerOf(ing), INGRESS_ANNOTATION);
      a.Take? && BuiltFor(ing, a.child) && a.child.owners != []
  {
  }

  /** Ingresses of different names and uids do not touch each other's records: neither a pass
      nor the removal of an ignored Ingress's children changes a record built for the other. */
  lemma IngressesAreApart(api: Api, rules: Rules, store: Store, items: seq<Named>, ing: Ing, ignored: bool,
                          hosts: seq<string>, addresses: seq<string>, other: Ing, n: string)
    requires Lists(items, store) && other.name != ing.name && other.uid != ing.uid
    requires n in store && BuiltFor(other, store[n])
    ensures Get(Outcome(api, rules, store, items, ing, ignored, hosts, addresses).store, n) == Some(store[n])
  {
    var got := Adopted(items, OwnerOf(ing), INGRESS_ANNOTATION);
    if got.Some? {
      AdoptedAt(items, OwnerOf(ing), INGRESS_ANNOTATION, n);
      assert Adopt(store[n], OwnerOf(ing), INGRESS_ANNOTATION) == Skip;
      ForeignIsSpared(api, store, got.value, WantedFor(rules, ing, hosts, addresses), n);
    }
  }

  /** An ignored Ingress loses all children that have no finalizers, and marks the others. */
  lemma IgnoredLosesChildren(api: Api, rules: Rules, store: Store, items: seq<Named>, ing: Ing,
                             hosts: seq<string>, addresses: seq<string>, n: string)
    requires Lists(items, store) && Adopted(items, OwnerOf(ing), INGRESS_ANNOTATION).Some?
    requires n in store && BuiltFor(ing, store[n])
    ensures var now := Outcome(api, rules, store, items, ing, true, hosts, addresses).store;
      if store[n].finalizers == [] then n !in now else n in now && now[n].deleting
  {
    AdoptedAt(items, OwnerOf(ing), INGRESS_ANNOTATION, n);
    OwnIsTaken(rules, ing, "", "", 0, store[n]);
    DeleteAllAt(api, store, Adopted(items, OwnerOf(ing), INGRESS_ANNOTATION).value, n);
    assert Get(Outcome(api, rules, store, items, ing, true, hosts, addresses).store, n) == Deleted(api, n, store[n]);
  }

  // ---- names ----

  /** In record names dots become dashes, stars become the word, and the rest stays. */
  lemma {:induction false} ReplacedAppends(a: string, b: string)
    ensures Replaced(a + b) == Replaced(a) + Replaced(b)
    ensures Replaced(".") == "-" && Replaced("*") == "wildcard" && Replaced("") == ""
    ensures forall c :: c != '.' && c != '*' ==> Replaced([c]) == [c]
  {
    if a == "" {
      assert a + b == b;
    } else {
      assert (a + b)[1..] == a[1..] + b;
      ReplacedAppends(a[1..], b);
    }
  }

  lemma {:induction false} ReplacedPlain(b: string)
    requires '.' !in b && '*' !in b
    ensures Replaced(b) == b
  {
    if b != "" {
      ReplacedPlain(b[1..]);
      assert b == [b[0]] + b[1..];
    }
  }

  /** A record of an Ingress is named after it, its kind, the replaced host and the index. */
  lemma NameShape(name: string, host: string, index: nat)
    ensures RecordName(name, "ing", host, index) == name + ("-ing-" + (Replaced(host) + ("-" + Decimal(index))))
  {
    assert "-" + "ing" + "-" == "-ing-";
    assert name + "-" + "ing" + "-" == name + ("-" + "ing" + "-");
  }

  lemma HostWithInfix(b: string, infix: string, host: string)
    requires '.' !in b && '*' !in b && '.' !in infix && '*' !in infix
    ensures Replaced(b + infix + host) == b + infix + Replaced(host)
  {
    ReplacedAppends(b + infix, host);
    ReplacedPlain(b + infix);
  }

  lemma Regrouped(a: string, b: string, infix: string, host: string, end: string)
    ensures a + (infix + ((b + infix + host) + end)) == (a + infix + b) + (infix + (host + end))
  {
  }

  /** The names of two Ingresses agree if one is named as the other would name a host: the
      later of them finds the names of its records taken. */
  lemma OwnersThatCollide(a: string, b: string, host: string, index: nat)
    requires '.' !in b && '*' !in b
    ensures RecordName(a, "ing", b + "-ing-" + host, index) == RecordName(a + "-ing-" + b, "ing", host, index)
  {
    HostWithInfix(b, "-ing-", host);
    NameShape(a, b + "-ing-" + host, index);
    NameShape(a + "-ing-" + b, host, index);
    Regrouped(a, b, "-ing-", Replaced(host), "-" + Decimal(index));
  }

  /** The lists of an Ingress keep the order of its non-empty hosts and addresses. */
  lemma {:induction false} NonEmptyAppends(s: seq<string>, t: seq<string>)
    ensures NonEmpty(s + t) == NonEmpty(s) + NonEmpty(t)
    ensures NonEmpty([""]) == [] && forall x :: x != "" ==> NonEmpty([x]) == [x]
  {
    assert [""][..0] == [];
    forall x | x != "" ensures NonEmpty([x]) == [x] {
      assert [x][..0] == [];
    }
    if t == [] {
      assert s + t == s;
    } else {
      assert (s + t)[..|s + t| - 1] == s + t[..|t| - 1];
      NonEmptyAppends(s, t[..|t| - 1]);
    }
  }
}
