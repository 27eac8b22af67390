/** The difference and the three rounds of writes, name by name: when a write is refused, and
    what every name is left with. */
module Rounds {
  import opened Text
  import opened Children

  predicate Distinct(s: seq<Named>) {
    s == [] || (Lookup(s[..|s| - 1], s[|s| - 1].name).None? && Distinct(s[..|s| - 1]))
  }

  /** A listing of the namespace, in any order. */
  ghost predicate Lists(items: seq<Named>, store: Store) {
    Distinct(items) && forall n :: Lookup(items, n) == Get(store, n)
  }

  // ---- lists as maps from names ----

  lemma {:induction false} LookupSnoc(s: seq<Named>, x: Named, n: string)
    ensures Lookup(s + [x], n) ==
      if Lookup(s, n).Some? then Lookup(s, n) else if x.name == n then Some(x.obj) else None
  {
    if s == [] {
      assert (s + [x])[1..] == [];
    } else {
      assert (s + [x])[1..] == s[1..] + [x];
      LookupSnoc(s[1..], x, n);
    }
  }

  lemma LookupLast(s: seq<Named>, n: string)
    requires s != []
    ensures Lookup(s, n) ==
      if Lookup(s[..|s| - 1], n).Some? then Lookup(s[..|s| - 1], n)
      else if s[|s| - 1].name == n then Some(s[|s| - 1].obj) else None
  {
    assert s == s[..|s| - 1] + [s[|s| - 1]];
    LookupSnoc(s[..|s| - 1], s[|s| - 1], n);
  }

  lemma EmptyByNames(s: seq<Named>)
    ensures s == [] <==> forall n :: Lookup(s, n).None?
  {
    if s != [] {
      assert Lookup(s, s[0].name).Some?;
    }
  }

  lemma {:induction false} AddedAt(got: seq<Named>, want: seq<Named>, n: string)
    ensures Lookup(Added(got, want), n) == if Lookup(got, n).None? then Lookup(want, n) else None
  {
    if want != [] {
      AddedAt(got, want[..|want| - 1], n);
      LookupLast(want, n);
      LookupSnoc(Added(got, want[..|want| - 1]), want[|want| - 1], n);
    }
  }

  predicate NeedsUpdate(got: seq<Named>, want: seq<Named>, n: string) {
    Lookup(want, n).Some? && Lookup(got, n).Some? && Differs(Lookup(want, n).value, Lookup(got, n).value)
  }

  /** Records wanted under one name do not differ. */
  ghost predicate Consistent(want: seq<Named>) {
    forall x :: x in want ==> Lookup(want, x.name).Some? && !Differs(x.obj, Lookup(want, x.name).value)
  }

  lemma ConsistentInit(want: seq<Named>)
    requires Consistent(want) && want != []
    ensures var init, w := want[..|want| - 1], want[|want| - 1];
      Consistent(init) && (Lookup(init, w.name).Some? ==> !Differs(w.obj, Lookup(init, w.name).value))
  {
    var init, w := want[..|want| - 1], want[|want| - 1];
    forall x | x in init ensures Lookup(init, x.name).Some? && !Differs(x.obj, Lookup(init, x.name).value) {
      assert x in want;
      LookupOfMember(init, x);
      LookupLast(want, x.name);
    }
    LookupLast(want, w.name);
    assert w in want;
  }

  lemma {:induction false} LookupOfMember(s: seq<Named>, x: Named)
    requires x in s
    ensures Lookup(s, x.name).Some?
  {
    if s[0].name != x.name {
      LookupOfMember(s[1..], x);
    }
  }

  lemma {:induction false} LookupIsMember(s: seq<Named>, n: string)
    requires Lookup(s, n).Some?
    ensures Named(n, Lookup(s, n).value) in s
  {
    if s[0].name != n {
      LookupIsMember(s[1..], n);
      assert Lookup(s, n) == Lookup(s[1..], n);
    }
  }

  /** Consistency, pair by pair. */
  lemma ConsistentPairs(s: seq<Named>)
    ensures Consistent(s) <==> forall x, y :: x in s && y in s && x.name == y.name ==> !Differs(x.obj, y.obj)
  {
    if forall x, y :: x in s && y in s && x.name == y.name ==> !Differs(x.obj, y.obj) {
      forall x | x in s ensures Lookup(s, x.name).Some? && !Differs(x.obj, Lookup(s, x.name).value) {
        LookupOfMember(s, x);
        LookupIsMember(s, x.name);
      }
    }
  }

  lemma {:induction false} ChangedAt(got: seq<Named>, want: seq<Named>, n: string)
    requires Consistent(want)
    ensures Lookup(Changed(got, want), n) ==
      if NeedsUpdate(got, want, n) then Some(Lookup(want, n).value.(version := Lookup(got, n).value.version)) else None
  {
    if want != [] {
      ConsistentInit(want);
      ChangedAt(got, want[..|want| - 1], n);
      LookupLast(want, n);
      var w := want[|want| - 1];
      if Lookup(got, w.name).Some? && Differs(w.obj, Lookup(got, w.name).value) {
        LookupSnoc(Changed(got, want[..|want| - 1]), Named(w.name, w.obj.(version := Lookup(got, w.name).value.version)), n);
      }
    }
  }

  /** No name is to be created twice, and none to be updated twice. */
  predicate OnceEach(got: seq<Named>, want: seq<Named>) {
    Distinct(Added(got, want)) && Distinct(Changed(got, want))
  }

  /** Distinct names are written once each. */
  lemma {:induction false} DistinctIsOnceEach(got: seq<Named>, want: seq<Named>)
    requires Distinct(want)
    ensures OnceEach(got, want) && Consistent(want)
  {
    if want != [] {
      var init, w := want[..|want| - 1], want[|want| - 1];
      DistinctIsOnceEach(got, init);
      AddedAt(got, init, w.name);
      ChangedAt(got, init, w.name);
      forall x | x in want ensures Lookup(want, x.name).Some? && !Differs(x.obj, Lookup(want, x.name).value) {
        LookupLast(want, x.name);
        if x in init {
          LookupOfMember(init, x);
        }
      }
      assert Added(got, want) != Added(got, init) ==> Added(got, want)[..|Added(got, want)| - 1] == Added(got, init);
      assert Changed(got, want) != Changed(got, init) ==> Changed(got, want)[..|Changed(got, want)| - 1] == Changed(got, init);
    }
  }

  /** The child list holds exactly the records that are taken. */
  function TakenAt(c: Option<Child>, o: Owner, annotation: string): Option<Child> {
    if c.Some? && Adopt(c.value, o, annotation).Take? then Some(Adopt(c.value, o, annotation).child) else None
  }

  /** A repaired reference is the controller reference of the owner. */
  lemma {:induction false} UpsertControls(owners: seq<OwnerRef>, o: Owner)
    requires ControllerOf(owners).None? || Refers(ControllerOf(owners).value, o)
    ensures ControllerOf(Upsert(owners, o)) == Some(RefTo(o))
  {
    if owners != [] && !Refers(owners[0], o) {
      UpsertControls(owners[1..], o);
      assert Upsert(owners, o)[1..] == Upsert(owners[1..], o);
    }
  }

  /** Every record taken as a child is controlled by the owner, and differs from the stored
      one at most in its owner references. */
  lemma TakenIsControlled(c: Child, o: Owner, annotation: string)
    requires Adopt(c, o, annotation).Take?
    ensures var t := Adopt(c, o, annotation).child;
      ControlledBy(t, o) && t == c.(owners := t.owners)
  {
    if !ControlledBy(c, o) {
      UpsertControls(c.owners, o);
    }
  }

  lemma {:induction false} AdoptedAt(items: seq<Named>, o: Owner, annotation: string, n: string)
    requires Distinct(items) && Adopted(items, o, annotation).Some?
    ensures Lookup(Adopted(items, o, annotation).value, n) == TakenAt(Lookup(items, n), o, annotation)
    ensures Lookup(items, n).Some? ==> !Adopt(Lookup(items, n).value, o, annotation).Clash?
  {
    if items != [] {
      var init, last := items[..|items| - 1], items[|items| - 1];
      AdoptedAt(init, o, annotation, n);
      AdoptedAt(init, o, annotation, last.name);
      LookupLast(items, n);
      if Adopt(last.obj, o, annotation).Take? {
        LookupSnoc(Adopted(init, o, annotation).value, Named(last.name, Adopt(last.obj, o, annotation).child), n);
      }
    }
  }

  lemma {:induction false} AdoptedIfNoClash(items: seq<Named>, o: Owner, annotation: string)
    requires Distinct(items)
    requires forall n :: Lookup(items, n).Some? ==> !Adopt(Lookup(items, n).value, o, annotation).Clash?
    ensures Adopted(items, o, annotation).Some?
  {
    if items != [] {
      var init, last := items[..|items| - 1], items[|items| - 1];
      LookupLast(items, last.name);
      forall n | Lookup(init, n).Some? ensures !Adopt(Lookup(init, n).value, o, annotation).Clash? {
        LookupLast(items, n);
      }
      AdoptedIfNoClash(init, o, annotation);
    }
  }

  // ---- the three rounds of writes, name by name ----

  lemma {:induction false} DeleteAllAt(api: Api, store: Store, del: seq<Named>, n: string)
    ensures Get(DeleteAll(api, store, del), n) ==
      if Lookup(del, n).Some? && n in store then Deleted(api, n, store[n]) else Get(store, n)
  {
    if del != [] {
      DeleteAllAt(api, store, del[..|del| - 1], n);
      LookupLast(del, n);
    }
  }

  lemma {:induction false} CreateAllAt(api: Api, store: Store, add: seq<Named>, n: string)
    requires Distinct(add)
    requires forall m :: Lookup(add, m).Some? ==> m !in store && Admits(api, Lookup(add, m).value.spec)
    ensures CreateAll(api, store, add).ok
    ensures Get(CreateAll(api, store, add).store, n) ==
      match Lookup(add, n) case Some(c) => Some(Created(api, n, c)) case None => Get(store, n)
  {
    if add != [] {
      var init, a := add[..|add| - 1], add[|add| - 1];
      forall m | Lookup(init, m).Some? ensures m !in store && Admits(api, Lookup(init, m).value.spec) {
        LookupLast(add, m);
      }
      CreateAllAt(api, store, init, n);
      CreateAllAt(api, store, init, a.name);
      LookupLast(add, n);
      LookupLast(add, a.name);
      assert a.name !in store;
    }
  }

  /** Creating over an existing object, or with an invalid spec, fails. */
  lemma {:induction false} CreateAllBlocked(api: Api, store: Store, add: seq<Named>, n: string)
    requires Lookup(add, n).Some? && (n in store || !Admits(api, Lookup(add, n).value.spec))
    ensures !CreateAll(api, store, add).ok
  {
    var init := add[..|add| - 1];
    LookupLast(add, n);
    if Lookup(init, n).Some? {
      CreateAllBlocked(api, store, init, n);
    } else if n in store {
      CreateAllKeeps(api, store, init, n);
    }
  }

  lemma {:induction false} CreateAllKeeps(api: Api, store: Store, add: seq<Named>, n: string)
    requires n in store
    ensures n in CreateAll(api, store, add).store
  {
    if add != [] {
      CreateAllKeeps(api, store, add[..|add| - 1], n);
    }
  }

  lemma {:induction false} CreateAllMakes(api: Api, store: Store, add: seq<Named>, n: string)
    requires CreateAll(api, store, add).ok && Lookup(add, n).Some?
    ensures n in CreateAll(api, store, add).store
  {
    LookupLast(add, n);
    if Lookup(add[..|add| - 1], n).Some? {
      CreateAllMakes(api, store, add[..|add| - 1], n);
    }
  }

  /** Creating a name twice fails. */
  lemma {:induction false} CreateAllRepeats(api: Api, store: Store, add: seq<Named>)
    requires !Distinct(add)
    ensures !CreateAll(api, store, add).ok
  {
    var init, a := add[..|add| - 1], add[|add| - 1];
    if !Distinct(init) {
      CreateAllRepeats(api, store, init);
    } else if CreateAll(api, store, init).ok {
      CreateAllMakes(api, store, init, a.name);
    }
  }

  lemma {:induction false} UpdateAllAt(api: Api, store: Store, update: seq<Named>, n: string)
    requires Distinct(update)
    requires forall m :: Lookup(update, m).Some? ==>
      m in store && store[m].version == Lookup(update, m).value.version && Admits(api, Lookup(update, m).value.spec)
    ensures UpdateAll(api, store, update).ok
    ensures Get(UpdateAll(api, store, update).store, n) ==
      match Lookup(update, n) case Some(c) => Updated(api, n, store[n], c) case None => Get(store, n)
  {
    if update != [] {
      var init, u := update[..|update| - 1], update[|update| - 1];
      forall m | Lookup(init, m).Some?
        ensures m in store && store[m].version == Lookup(init, m).value.version && Admits(api, Lookup(init, m).value.spec)
      {
        LookupLast(update, m);
      }
      UpdateAllAt(api, store, init, n);
      UpdateAllAt(api, store, init, u.name);
      LookupLast(update, n);
      LookupLast(update, u.name);
      assert Lookup(update, u.name) == Some(u.obj);
    }
  }

  lemma {:induction false} UpdateAllKeeps(api: Api, store: Store, update: seq<Named>, n: string)
    requires Lookup(update, n).None?
    ensures Get(UpdateAll(api, store, update).store, n) == Get(store, n)
  {
    if update != [] {
      LookupLast(update, n);
      UpdateAllKeeps(api, store, update[..|update| - 1], n);
    }
  }

  /** Updating an object that is gone or has changed, or with an invalid spec, fails. */
  lemma {:induction false} UpdateAllStale(api: Api, store: Store, update: seq<Named>, n: string)
    requires Lookup(update, n).Some?
    requires !Current(store, Named(n, Lookup(update, n).value)) || !Admits(api, Lookup(update, n).value.spec)
    ensures !UpdateAll(api, store, update).ok
  {
    var init, u := update[..|update| - 1], update[|update| - 1];
    LookupLast(update, n);
    if Lookup(init, n).Some? {
      UpdateAllStale(api, store, init, n);
    } else {
      UpdateAllKeeps(api, store, init, n);
      assert Get(store, n) == Get(UpdateAll(api, store, init).store, n);
    }
  }

  /** An updated object is gone or has a newer version. */
  lemma {:induction false} UpdateAllRaises(api: Api, store: Store, update: seq<Named>, n: string)
    requires UpdateAll(api, store, update).ok && Lookup(update, n).Some?
    ensures var s := UpdateAll(api, store, update).store; n in s ==> s[n].version > Lookup(update, n).value.version
  {
    LookupLast(update, n);
    if Lookup(update[..|update| - 1], n).Some? {
      UpdateAllRaises(api, store, update[..|update| - 1], n);
    }
  }

  lemma {:induction false} ChangedVersion(got: seq<Named>, want: seq<Named>, x: Named)
    requires x in Changed(got, want)
    ensures Lookup(got, x.name).Some? && Lookup(got, x.name).value.version == x.obj.version
  {
    var init := want[..|want| - 1];
    if x in Changed(got, init) {
      ChangedVersion(got, init, x);
    }
  }

  /** Updating a name twice fails: the second update carries the version of before the first. */
  lemma {:induction false} UpdateAllRepeats(api: Api, store: Store, version: string -> nat, update: seq<Named>)
    requires !Distinct(update) && forall x :: x in update ==> x.obj.version == version(x.name)
    ensures !UpdateAll(api, store, update).ok
  {
    var init, u := update[..|update| - 1], update[|update| - 1];
    if !Distinct(init) {
      UpdateAllRepeats(api, store, version, init);
    } else if UpdateAll(api, store, init).ok {
      UpdateAllRaises(api, store, init, u.name);
      LookupIsMember(init, u.name);
      assert u in update;
    }
  }

  /** What one reconciliation makes of the record of a given name. */
  function After(api: Api, store: Store, got: seq<Named>, want: seq<Named>, n: string): Option<Child>
    requires NeedsUpdate(got, want, n) ==> n in store
  {
    match (Lookup(want, n), Lookup(got, n))
    case (Some(w), Some(g)) =>
      if Differs(w, g) then Updated(api, n, store[n], w.(version := g.version)) else Get(store, n)
    case (Some(w), None) => Some(Created(api, n, w))
    case (None, Some(g)) => if n in store then Deleted(api, n, store[n]) else None
    case (None, None) => Get(store, n)
  }

  /** A wanted name is held by a record that is not a child. */
  predicate BlockedAt(store: Store, got: seq<Named>, want: seq<Named>, n: string) {
    Lookup(want, n).Some? && Lookup(got, n).None? && n in store
  }

  /** A child that needs an update is gone, or has changed since it was listed. */
  predicate StaleAt(store: Store, got: seq<Named>, want: seq<Named>, n: string) {
    NeedsUpdate(got, want, n) && !Current(store, Named(n, Lookup(got, n).value))
  }

  predicate CreatesInvalid(api: Api, got: seq<Named>, want: seq<Named>, n: string) {
    Lookup(want, n).Some? && Lookup(got, n).None? && !Admits(api, Lookup(want, n).value.spec)
  }

  predicate UpdatesInvalid(api: Api, got: seq<Named>, want: seq<Named>, n: string) {
    NeedsUpdate(got, want, n) && !Admits(api, Lookup(want, n).value.spec)
  }

  ghost predicate Blocked(store: Store, got: seq<Named>, want: seq<Named>) {
    exists n :: BlockedAt(store, got, want, n)
  }

  ghost predicate Stale(store: Store, got: seq<Named>, want: seq<Named>) {
    exists n :: StaleAt(store, got, want, n)
  }

  /** A spec that has to be written is invalid. */
  ghost predicate Rejected(api: Api, got: seq<Named>, want: seq<Named>) {
    exists n :: CreatesInvalid(api, got, want, n) || UpdatesInvalid(api, got, want, n)
  }

  /** What the first two rounds make of a name. */
  lemma FirstRoundsAt(api: Api, store: Store, got: seq<Named>, want: seq<Named>, n: string)
    requires Distinct(Added(got, want)) && !Blocked(store, got, want)
    requires forall m :: !CreatesInvalid(api, got, want, m)
    ensures var p := CreateAll(api, DeleteAll(api, store, Added(want, got)), Added(got, want));
      && p.ok
      && (Lookup(want, n).Some? && Lookup(got, n).Some? ==> Get(p.store, n) == Get(store, n))
      && (!NeedsUpdate(got, want, n) ==> Get(p.store, n) == After(api, store, got, want, n))
  {
    var del, add := Added(want, got), Added(got, want);
    var s1 := DeleteAll(api, store, del);
    forall m | Lookup(add, m).Some? ensures m !in s1 && Admits(api, Lookup(add, m).value.spec) {
      AddedAt(got, want, m);
      AddedAt(want, got, m);
      DeleteAllAt(api, store, del, m);
      assert !BlockedAt(store, got, want, m) && !CreatesInvalid(api, got, want, m);
    }
    CreateAllAt(api, s1, add, n);
    AddedAt(got, want, n);
    AddedAt(want, got, n);
    DeleteAllAt(api, store, del, n);
  }

  lemma CreatesFail(api: Api, store: Store, got: seq<Named>, want: seq<Named>, m: string)
    requires BlockedAt(store, got, want, m) || CreatesInvalid(api, got, want, m)
    ensures !CreateAll(api, DeleteAll(api, store, Added(want, got)), Added(got, want)).ok
  {
    AddedAt(got, want, m);
    AddedAt(want, got, m);
    DeleteAllAt(api, store, Added(want, got), m);
    CreateAllBlocked(api, DeleteAll(api, store, Added(want, got)), Added(got, want), m);
  }

  /** Names to be updated are as before when the updates begin. */
  lemma UpdatesFail(api: Api, store: Store, got: seq<Named>, want: seq<Named>, m: string)
    requires Consistent(want) && (StaleAt(store, got, want, m) || UpdatesInvalid(api, got, want, m))
    ensures !Reconciled(api, store, got, want).ok
  {
    var p := CreateAll(api, DeleteAll(api, store, Added(want, got)), Added(got, want));
    ChangedAt(got, want, m);
    AddedAt(got, want, m);
    AddedAt(want, got, m);
    DeleteAllAt(api, store, Added(want, got), m);
    CreateAllSpares(api, DeleteAll(api, store, Added(want, got)), Added(got, want), m);
    assert Get(p.store, m) == Get(store, m);
    UpdateAllStale(api, p.store, Changed(got, want), m);
  }

  lemma {:induction false} CreateAllSpares(api: Api, store: Store, add: seq<Named>, n: string)
    requires Lookup(add, n).None?
    ensures Get(CreateAll(api, store, add).store, n) == Get(store, n)
  {
    if add != [] {
      LookupLast(add, n);
      CreateAllSpares(api, store, add[..|add| - 1], n);
    }
  }

  lemma RepeatsFail(api: Api, store: Store, got: seq<Named>, want: seq<Named>)
    requires !OnceEach(got, want)
    ensures !Reconciled(api, store, got, want).ok
  {
    if !Distinct(Added(got, want)) {
      CreateAllRepeats(api, DeleteAll(api, store, Added(want, got)), Added(got, want));
    } else {
      var p := CreateAll(api, DeleteAll(api, store, Added(want, got)), Added(got, want));
      var version := (n: string) => match Lookup(got, n) case Some(c) => c.version case None => 0;
      forall x | x in Changed(got, want) ensures x.obj.version == version(x.name) {
        ChangedVersion(got, want, x);
      }
      UpdateAllRepeats(api, p.store, version, Changed(got, want));
    }
  }

  /** No write is refused: no wanted name is held by another record, no child to be updated
      has changed since it was listed, no spec to be written is invalid, and no name is
      written twice. */
  ghost predicate Accepted(api: Api, store: Store, got: seq<Named>, want: seq<Named>) {
    !Blocked(store, got, want) && !Stale(store, got, want) && !Rejected(api, got, want) && OnceEach(got, want)
  }

  lemma RefusedFails(api: Api, store: Store, got: seq<Named>, want: seq<Named>)
    requires Consistent(want) && !Accepted(api, store, got, want)
    ensures !Reconciled(api, store, got, want).ok
  {
    if n :| BlockedAt(store, got, want, n) || CreatesInvalid(api, got, want, n) {
      CreatesFail(api, store, got, want, n);
    } else if n :| StaleAt(store, got, want, n) || UpdatesInvalid(api, got, want, n) {
      UpdatesFail(api, store, got, want, n);
    } else {
      RepeatsFail(api, store, got, want);
    }
  }

  /** Reconciliation succeeds exactly when no write is refused; then it does to every name what
      it should, other records included. */
  lemma ReconciledAt(api: Api, store: Store, got: seq<Named>, want: seq<Named>, n: string)
    requires Consistent(want)
    ensures Reconciled(api, store, got, want).ok <==> Accepted(api, store, got, want)
    ensures Reconciled(api, store, got, want).ok ==>
      !StaleAt(store, got, want, n) && Get(Reconciled(api, store, got, want).store, n) == After(api, store, got, want, n)
  {
    if !Accepted(api, store, got, want) {
      RefusedFails(api, store, got, want);
    } else {
      var s2 := CreateAll(api, DeleteAll(api, store, Added(want, got)), Added(got, want)).store;
      var update := Changed(got, want);
      FirstRoundsAt(api, store, got, want, n);
      forall m | Lookup(update, m).Some?
        ensures m in s2 && s2[m].version == Lookup(update, m).value.version && Admits(api, Lookup(update, m).value.spec)
      {
        ChangedAt(got, want, m);
        FirstRoundsAt(api, store, got, want, m);
        assert !StaleAt(store, got, want, m) && !UpdatesInvalid(api, got, want, m) && Get(s2, m) == Get(store, m);
      }
      UpdateAllAt(api, s2, update, n);
      ChangedAt(got, want, n);
      assert !StaleAt(store, got, want, n);
    }
  }

  // ---- admission is kept ----

  ghost predicate AllAdmitted(api: Api, store: Store) {
    forall n :: n in store ==> api.valid(store[n].spec)
  }

  lemma {:induction false} DeletesKeepAdmitted(api: Api, store: Store, del: seq<Named>)
    requires AllAdmitted(api, store)
    ensures AllAdmitted(api, DeleteAll(api, store, del))
  {
    if del != [] {
      DeletesKeepAdmitted(api, store, del[..|del| - 1]);
    }
  }

  lemma {:induction false} CreatesKeepAdmitted(api: Api, store: Store, add: seq<Named>)
    requires AllAdmitted(api, store)
    ensures AllAdmitted(api, CreateAll(api, store, add).store)
  {
    if add != [] {
      CreatesKeepAdmitted(api, store, add[..|add| - 1]);
    }
  }

  lemma {:induction false} UpdatesKeepAdmitted(api: Api, store: Store, update: seq<Named>)
    requires AllAdmitted(api, store)
    ensures AllAdmitted(api, UpdateAll(api, store, update).store)
  {
    if update != [] {
      UpdatesKeepAdmitted(api, store, update[..|update| - 1]);
    }
  }

  /** Whether or not it succeeds, reconciliation stores only admitted specs. */
  lemma ReconciledAdmitted(api: Api, store: Store, got: seq<Named>, want: seq<Named>)
    requires AllAdmitted(api, store)
    ensures AllAdmitted(api, Reconciled(api, store, got, want).store)
  {
    var deleted := DeleteAll(api, store, Added(want, got));
    DeletesKeepAdmitted(api, store, Added(want, got));
    CreatesKeepAdmitted(api, deleted, Added(got, want));
    UpdatesKeepAdmitted(api, CreateAll(api, deleted, Added(got, want)).store, Changed(got, want));
  }
}
