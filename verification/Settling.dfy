/** Repeated reconciliation: passes that fail on a name wanted twice still make progress, and
    the children are settled after at most one pass more than there are wanted records. */
module Settling {
  import opened Text
  import opened Records
  import opened Children
  import opened Rounds
  import opened DiffTheorems

  // ---- rounds that stop half-way ----

  /** A round of creates leaves a name alone or creates the first record of that name. */
  lemma {:induction false} CreatePartly(api: Api, store: Store, add: seq<Named>, n: string)
    ensures var now := Get(CreateAll(api, store, add).store, n);
      now == Get(store, n) || (Lookup(add, n).Some? && now == Some(Created(api, n, Lookup(add, n).value)))
  {
    if add != [] {
      var init, a := add[..|add| - 1], add[|add| - 1];
      CreatePartly(api, store, init, n);
      LookupLast(add, n);
      if a.name == n && CreateAll(api, store, init).ok && Lookup(init, n).Some? {
        CreateAllMakes(api, store, init, n);
      }
    }
  }

  /** The first create is accepted. */
  lemma {:induction false} CreateFirst(api: Api, store: Store, add: seq<Named>)
    requires add != [] && add[0].name !in store && Admits(api, add[0].obj.spec)
    ensures add[0].name in CreateAll(api, store, add).store
  {
    if |add| == 1 {
      assert CreateAll(api, store, []) == Progress(store, true);
    } else {
      CreateFirst(api, store, add[..|add| - 1]);
    }
  }

  /** A round of updates leaves a name alone or applies the first update of that name. */
  lemma {:induction false} UpdatePartly(api: Api, store: Store, version: string -> nat, update: seq<Named>, n: string)
    requires forall x :: x in update ==> x.obj.version == version(x.name)
    ensures var now := Get(UpdateAll(api, store, update).store, n);
      now == Get(store, n) ||
      (Lookup(update, n).Some? && n in store && now == Updated(api, n, store[n], Lookup(update, n).value))
  {
    if update != [] {
      var init, u := update[..|update| - 1], update[|update| - 1];
      UpdatePartly(api, store, version, init, n);
      LookupLast(update, n);
      if u.name == n && UpdateAll(api, store, init).ok && Lookup(init, n).Some? {
        UpdateAllRaises(api, store, init, n);
        LookupIsMember(init, n);
        assert u in update;
      }
    }
  }

  /** The first update is accepted. */
  lemma {:induction false} UpdateFirst(api: Api, store: Store, update: seq<Named>)
    requires update != [] && Current(store, update[0]) && Admits(api, update[0].obj.spec)
    ensures var s, n := UpdateAll(api, store, update).store, update[0].name;
      n in s ==> s[n].version > update[0].obj.version
  {
    if |update| == 1 {
      assert UpdateAll(api, store, []) == Progress(store, true);
    } else {
      UpdateFirst(api, store, update[..|update| - 1]);
    }
  }

  function ListedVersion(got: seq<Named>, n: string): nat {
    match Lookup(got, n) case Some(c) => c.version case None => 0
  }

  lemma ChangedVersions(got: seq<Named>, want: seq<Named>, version: string -> nat)
    requires forall n :: version(n) == ListedVersion(got, n)
    ensures forall x :: x in Changed(got, want) ==> x.obj.version == version(x.name)
  {
    forall x | x in Changed(got, want) ensures x.obj.version == version(x.name) {
      ChangedVersion(got, want, x);
    }
  }

  // ---- one pass, successful or not ----

  /** A pass gives a name its due result, or leaves a wanted name for later. */
  lemma PassPartly(api: Api, store: Store, got: seq<Named>, want: seq<Named>, n: string)
    requires Consistent(want) && !StaleAt(store, got, want, n)
    ensures var now := Get(Reconciled(api, store, got, want).store, n);
      now == After(api, store, got, want, n) || (Lookup(want, n).Some? && now == Get(store, n))
  {
    var del, add, update := Added(want, got), Added(got, want), Changed(got, want);
    var s1 := DeleteAll(api, store, del);
    var s2 := CreateAll(api, s1, add).store;
    AddedAt(got, want, n);
    AddedAt(want, got, n);
    ChangedAt(got, want, n);
    DeleteAllAt(api, store, del, n);
    CreatePartly(api, s1, add, n);
    var version := (m: string) => ListedVersion(got, m);
    ChangedVersions(got, want, version);
    UpdatePartly(api, s2, version, update, n);
  }

  /** A pass leaves the status of a stored record to the record controller; a record it creates
      has none. The finalizers of a record it updates are those wanted, so the controller's is
      lost. */
  lemma StatusIsSpared(api: Api, store: Store, got: seq<Named>, want: seq<Named>, n: string)
    requires Consistent(want) && !StaleAt(store, got, want, n) && (Lookup(got, n).Some? ==> n in store)
    ensures var now := Get(Reconciled(api, store, got, want).store, n);
      now.Some? ==>
        if n in store then
          && (Lookup(got, n).Some? || Lookup(want, n).None? ==> now.value.status == store[n].status)
          && (NeedsUpdate(got, want, n) && now != Get(store, n) ==> now.value.finalizers == Lookup(want, n).value.finalizers)
        else now.value.status == Status("", None, "", "") && !now.value.deleting
  {
    PassPartly(api, store, got, want, n);
  }

  /** If a wanted name is unsettled, the pass settles some wanted name. */
  lemma SomeNameWritten(api: Api, store: Store, got: seq<Named>, want: seq<Named>, m: string) returns (n: string)
    requires Consistent(want) && (forall n :: !StaleAt(store, got, want, n)) && !Blocked(store, got, want)
    requires !Rejected(api, got, want) && Lookup(want, m).Some? && !SameAt(got, want, m)
    ensures Lookup(want, n).Some? && !SameAt(got, want, n) && !StaleAt(store, got, want, n)
    ensures Get(Reconciled(api, store, got, want).store, n) == After(api, store, got, want, n)
  {
    var del, add, update := Added(want, got), Added(got, want), Changed(got, want);
    var s1 := DeleteAll(api, store, del);
    AddedAt(got, want, m);
    ChangedAt(got, want, m);
    if add != [] {
      n := add[0].name;
      AddedAt(got, want, n);
      AddedAt(want, got, n);
      ChangedAt(got, want, n);
      DeleteAllAt(api, store, del, n);
      assert !BlockedAt(store, got, want, n) && !CreatesInvalid(api, got, want, n);
      CreateFirst(api, s1, add);
      UpdateAllKeeps(api, CreateAll(api, s1, add).store, update, n);
    } else {
      n := update[0].name;
      AddedAt(got, want, n);
      AddedAt(want, got, n);
      ChangedAt(got, want, n);
      DeleteAllAt(api, store, del, n);
      assert !StaleAt(store, got, want, n) && !UpdatesInvalid(api, got, want, n);
      assert Get(s1, n) == Get(store, n);
      UpdateFirst(api, s1, update);
    }
    PassPartly(api, store, got, want, n);
  }

  /** What a pass does at a name, seen from the next listing: it is settled, or it is a wanted
      name and nothing about it has changed. */
  ghost predicate Followed(store: Store, got: seq<Named>, want: seq<Named>, store': Store, got': seq<Named>, n: string) {
    || SameAt(got', want, n)
    || (Lookup(want, n).Some? && Get(store', n) == Get(store, n) && Lookup(got', n) == Lookup(got, n))
  }

  /** The setting of a pass: a current listing, and a workable list of what is wanted. */
  ghost predicate Sound(api: Api, store: Store, items: seq<Named>, want: seq<Named>, o: Owner, annotation: string) {
    && Lists(items, store) && Adopted(items, o, annotation).Some? && Wanted(api, want, o)
    && Workable(api, store, Adopted(items, o, annotation).value, want)
  }

  /** Workable, name by name. */
  lemma ListedWork(api: Api, store: Store, items: seq<Named>, want: seq<Named>, o: Owner, annotation: string, n: string)
    requires Sound(api, store, items, want, o, annotation)
    ensures var got := Adopted(items, o, annotation).value;
      && Lookup(got, n) == TakenAt(Get(store, n), o, annotation) && (n in store ==> !Adopt(store[n], o, annotation).Clash?)
      && !StaleAt(store, got, want, n) && !BlockedAt(store, got, want, n) && Unhindered(store, got, want, n)
      && !CreatesInvalid(api, got, want, n) && !UpdatesInvalid(api, got, want, n)
  {
    ListedAt(store, items, want, o, annotation, n);
  }

  lemma NoClashAfter(api: Api, store: Store, items: seq<Named>, want: seq<Named>, o: Owner, annotation: string, n: string)
    requires Sound(api, store, items, want, o, annotation)
    ensures var store' := Reconciled(api, store, Adopted(items, o, annotation).value, want).store;
      n in store' ==> !Adopt(store'[n], o, annotation).Clash?
  {
    var got := Adopted(items, o, annotation).value;
    var store' := Reconciled(api, store, got, want).store;
    ListedWork(api, store, items, want, o, annotation, n);
    PassPartly(api, store, got, want, n);
    SettledAt(api, store, got, want, o, annotation, n);
    assert n in store' ==> Get(store', n) == Some(store'[n]);
  }

  lemma FollowedAt(api: Api, store: Store, items: seq<Named>, want: seq<Named>, o: Owner, annotation: string,
                   items': seq<Named>, n: string)
    requires Sound(api, store, items, want, o, annotation) && Adopted(items', o, annotation).Some?
    requires Lists(items', Reconciled(api, store, Adopted(items, o, annotation).value, want).store)
    ensures var got, got' := Adopted(items, o, annotation).value, Adopted(items', o, annotation).value;
      Followed(store, got, want, Reconciled(api, store, got, want).store, got', n)
  {
    var got := Adopted(items, o, annotation).value;
    ListedWork(api, store, items, want, o, annotation, n);
    PassPartly(api, store, got, want, n);
    SettledAt(api, store, got, want, o, annotation, n);
    AdoptedAt(items', o, annotation, n);
  }

  /** The next listing is workable again, at every name. */
  lemma StaysWorkable(api: Api, store: Store, got: seq<Named>, want: seq<Named>, store': Store, got': seq<Named>)
    requires Workable(api, store, got, want) && forall n :: Followed(store, got, want, store', got', n)
    requires forall n :: Lookup(got', n).Some? ==> n in store'
    ensures Workable(api, store', got', want)
  {
    forall n ensures
      && !BlockedAt(store', got', want, n) && !CreatesInvalid(api, got', want, n) && !UpdatesInvalid(api, got', want, n)
      && Unhindered(store', got', want, n)
    {
      assert Followed(store, got, want, store', got', n);
      assert !BlockedAt(store, got, want, n) && !CreatesInvalid(api, got, want, n) && !UpdatesInvalid(api, got, want, n);
      assert Unhindered(store, got, want, n);
      assert Get(store', n) == Get(store, n) ==> (n in store' <==> n in store);
    }
  }

  /** A pass leads to a workable setting again. */
  lemma SoundAgain(api: Api, store: Store, items: seq<Named>, want: seq<Named>, o: Owner, annotation: string, items': seq<Named>)
    requires Sound(api, store, items, want, o, annotation)
    requires Lists(items', Reconciled(api, store, Adopted(items, o, annotation).value, want).store)
    ensures Sound(api, Reconciled(api, store, Adopted(items, o, annotation).value, want).store, items', want, o, annotation)
    ensures forall n :: Followed(store, Adopted(items, o, annotation).value, want,
                                 Reconciled(api, store, Adopted(items, o, annotation).value, want).store,
                                 Adopted(items', o, annotation).value, n)
  {
    var got := Adopted(items, o, annotation).value;
    var store' := Reconciled(api, store, got, want).store;
    forall n | Lookup(items', n).Some? ensures !Adopt(Lookup(items', n).value, o, annotation).Clash? {
      NoClashAfter(api, store, items, want, o, annotation, n);
    }
    AdoptedIfNoClash(items', o, annotation);
    var got' := Adopted(items', o, annotation).value;
    forall n ensures Followed(store, got, want, store', got', n) && (Lookup(got', n).Some? ==> n in store') {
      FollowedAt(api, store, items, want, o, annotation, items', n);
      AdoptedAt(items', o, annotation, n);
    }
    StaysWorkable(api, store, got, want, store', got');
  }

  // ---- counting ----

  /** How many of the wanted records have an unsettled name. */
  function Unsettled(want: seq<Named>, settled: string -> bool): nat {
    if want == [] then 0
    else Unsettled(want[..|want| - 1], settled) + if settled(want[|want| - 1].name) then 0 else 1
  }

  lemma {:induction false} UnsettledBound(want: seq<Named>, settled: string -> bool)
    ensures Unsettled(want, settled) <= |want|
    ensures Unsettled(want, settled) == 0 ==> forall x :: x in want ==> settled(x.name)
  {
    if want != [] {
      UnsettledBound(want[..|want| - 1], settled);
      assert want == want[..|want| - 1] + [want[|want| - 1]];
    }
  }

  lemma {:induction false} UnsettledShrinks(want: seq<Named>, before: string -> bool, now: string -> bool)
    requires forall n :: before(n) ==> now(n)
    ensures Unsettled(want, now) <= Unsettled(want, before)
    ensures (exists x :: x in want && !before(x.name) && now(x.name)) ==> Unsettled(want, now) < Unsettled(want, before)
  {
    if want != [] {
      UnsettledShrinks(want[..|want| - 1], before, now);
      assert want == want[..|want| - 1] + [want[|want| - 1]];
    }
  }

  function Left(got: seq<Named>, want: seq<Named>): nat {
    Unsettled(want, n => SameAt(got, want, n))
  }

  lemma LeftShrinks(got: seq<Named>, got': seq<Named>, want: seq<Named>, n: string)
    requires forall m :: SameAt(got, want, m) ==> SameAt(got', want, m)
    ensures Lookup(want, n).Some? && !SameAt(got, want, n) && SameAt(got', want, n) ==> Left(got', want) < Left(got, want)
  {
    var before, now := (m: string) => SameAt(got, want, m), (m: string) => SameAt(got', want, m);
    UnsettledShrinks(want, before, now);
    if Lookup(want, n).Some? && !SameAt(got, want, n) && SameAt(got', want, n) {
      LookupIsMember(want, n);
      var x := Named(n, Lookup(want, n).value);
      assert x in want && !before(x.name) && now(x.name);
    }
  }

  /** A pass keeps what is settled, and settles everything or at least one wanted name more. */
  lemma PassSettlesMore(api: Api, store: Store, items: seq<Named>, want: seq<Named>, o: Owner, annotation: string, items': seq<Named>)
    requires Sound(api, store, items, want, o, annotation)
    requires Lists(items', Reconciled(api, store, Adopted(items, o, annotation).value, want).store)
    ensures Adopted(items', o, annotation).Some?
    ensures var got, got' := Adopted(items, o, annotation).value, Adopted(items', o, annotation).value;
      NoDifference(got', want) || (!NoDifference(got, want) && Left(got', want) < Left(got, want))
  {
    SoundAgain(api, store, items, want, o, annotation, items');
    var got, got' := Adopted(items, o, annotation).value, Adopted(items', o, annotation).value;
    var store' := Reconciled(api, store, got, want).store;
    forall m | SameAt(got, want, m) ensures SameAt(got', want, m) {
      assert Followed(store, got, want, store', got', m);
    }
    NoDifferenceAt(got, want);
    NoDifferenceAt(got', want);
    if m :| !SameAt(got', want, m) {
      assert Followed(store, got, want, store', got', m);
      var n := SettledByPass(api, store, items, want, o, annotation, items', m);
      LeftShrinks(got, got', want, n);
    }
  }

  lemma SettledByPass(api: Api, store: Store, items: seq<Named>, want: seq<Named>, o: Owner, annotation: string,
                      items': seq<Named>, m: string) returns (n: string)
    requires Sound(api, store, items, want, o, annotation) && Adopted(items', o, annotation).Some?
    requires Lists(items', Reconciled(api, store, Adopted(items, o, annotation).value, want).store)
    requires Lookup(want, m).Some? && !SameAt(Adopted(items, o, annotation).value, want, m)
    ensures Lookup(want, n).Some? && !SameAt(Adopted(items, o, annotation).value, want, n)
    ensures SameAt(Adopted(items', o, annotation).value, want, n)
  {
    var got := Adopted(items, o, annotation).value;
    forall k ensures !StaleAt(store, got, want, k) {
      ListedWork(api, store, items, want, o, annotation, k);
    }
    n := SomeNameWritten(api, store, got, want, m);
    ListedWork(api, store, items, want, o, annotation, n);
    SettledAt(api, store, got, want, o, annotation, n);
    AdoptedAt(items', o, annotation, n);
  }

  // ---- whole runs ----

  /** Passes one after the other, each with a current listing, whether they succeed or not. */
  ghost predicate Passes(api: Api, stores: seq<Store>, listings: seq<seq<Named>>, want: seq<Named>, o: Owner, annotation: string) {
    && |stores| == |listings| > 0 && (forall i :: 0 <= i < |stores| ==> Lists(listings[i], stores[i]))
    && forall i :: 0 < i < |stores| ==> PassBetween(api, stores[i - 1], listings[i - 1], want, o, annotation, stores[i])
  }

  ghost predicate PassBetween(api: Api, store: Store, items: seq<Named>, want: seq<Named>, o: Owner, annotation: string, store': Store) {
    Adopted(items, o, annotation).Some? && store' == Reconciled(api, store, Adopted(items, o, annotation).value, want).store
  }

  lemma PassesInit(api: Api, stores: seq<Store>, listings: seq<seq<Named>>, want: seq<Named>, o: Owner, annotation: string)
    requires Passes(api, stores, listings, want, o, annotation) && |stores| > 1
    ensures var n := |stores| - 1;
      && Passes(api, stores[..n], listings[..n], want, o, annotation) && Lists(listings[n], stores[n])
      && PassBetween(api, stores[n - 1], listings[n - 1], want, o, annotation, stores[n])
  {
  }

  lemma SettlingStep(api: Api, store: Store, items: seq<Named>, want: seq<Named>, o: Owner, annotation: string,
                     store': Store, items': seq<Named>)
    requires Sound(api, store, items, want, o, annotation) && Lists(items', store')
    requires PassBetween(api, store, items, want, o, annotation, store')
    ensures Sound(api, store', items', want, o, annotation)
    ensures ToDo(items', want, o, annotation) == 0 || ToDo(items', want, o, annotation) < ToDo(items, want, o, annotation)
  {
    SoundAgain(api, store, items, want, o, annotation, items');
    PassSettlesMore(api, store, items, want, o, annotation, items');
  }

  /** Zero when there is no difference, else one more than the unsettled wanted records. */
  function ToDo(items: seq<Named>, want: seq<Named>, o: Owner, annotation: string): nat
    requires Adopted(items, o, annotation).Some?
  {
    var got := Adopted(items, o, annotation).value;
    if NoDifference(got, want) then 0 else 1 + Left(got, want)
  }

  /** From a workable setting every pass leaves less to do, even if it fails on a name wanted
      twice. */
  lemma {:induction false} PassesLeaveLess(api: Api, stores: seq<Store>, listings: seq<seq<Named>>, want: seq<Named>, o: Owner, annotation: string)
    requires Passes(api, stores, listings, want, o, annotation) && Sound(api, stores[0], listings[0], want, o, annotation)
    ensures var n := |stores| - 1;
      && Sound(api, stores[n], listings[n], want, o, annotation)
      && (ToDo(listings[n], want, o, annotation) == 0 ||
          ToDo(listings[n], want, o, annotation) + n <= ToDo(listings[0], want, o, annotation))
    decreases |stores|
  {
    var n := |stores| - 1;
    if n > 0 {
      PassesInit(api, stores, listings, want, o, annotation);
      PassesLeaveLess(api, stores[..n], listings[..n], want, o, annotation);
      SettlingStep(api, stores[n - 1], listings[n - 1], want, o, annotation, stores[n], listings[n]);
    }
  }

  /** One pass more than there are wanted records settles the children. */
  lemma PassesSettle(api: Api, stores: seq<Store>, listings: seq<seq<Named>>, want: seq<Named>, o: Owner, annotation: string)
    requires Passes(api, stores, listings, want, o, annotation) && Sound(api, stores[0], listings[0], want, o, annotation)
    requires |stores| > |want| + 1
    ensures var got := Adopted(listings[|stores| - 1], o, annotation); got.Some? && NoDifference(got.value, want)
  {
    PassesLeaveLess(api, stores, listings, want, o, annotation);
    UnsettledBound(want, m => SameAt(Adopted(listings[0], o, annotation).value, want, m));
  }
}
