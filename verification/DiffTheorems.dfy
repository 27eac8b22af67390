/** Applying the difference makes the children what was wanted, and exactly when the next
    difference is empty. */
module DiffTheorems {
  import opened Text
  import opened Children
  import opened Rounds

  /** A wanted list as the controllers build it: each record controlled by the owner, already
      defaulted, and without finalizers. */
  ghost predicate Wanted(api: Api, want: seq<Named>, o: Owner) {
    forall n :: Lookup(want, n).Some? ==>
      var w := Lookup(want, n).value;
      ControlledBy(w, o) && api.default(w.spec) == w.spec && w.finalizers == []
  }

  /** No deletion is in the way: surplus children have no finalizers, and no child that needs
      an update is already being deleted. */
  predicate Unhindered(store: Store, got: seq<Named>, want: seq<Named>, n: string) {
    n in store ==>
      (Lookup(got, n).Some? && Lookup(want, n).None? ==> store[n].finalizers == []) &&
      (NeedsUpdate(got, want, n) ==> !store[n].deleting)
  }

  predicate Same(want: Option<Child>, got: Option<Child>) {
    match (want, got)
    case (Some(w), Some(g)) => !Differs(w, g)
    case (None, None) => true
    case _ => false
  }

  predicate SameAt(got: seq<Named>, want: seq<Named>, n: string) {
    Same(Lookup(want, n), Lookup(got, n))
  }

  /** There is nothing to add, to change or to delete. */
  predicate NoDifference(got: seq<Named>, want: seq<Named>) {
    Added(got, want) == [] && Changed(got, want) == [] && Added(want, got) == []
  }

  /** One name after reconciliation: it is as wanted and settled exactly when unhindered. */
  lemma SettledAt(api: Api, store: Store, got: seq<Named>, want: seq<Named>, o: Owner, annotation: string, n: string)
    requires Wanted(api, want, o) && !BlockedAt(store, got, want, n)
    requires Lookup(got, n) == TakenAt(Get(store, n), o, annotation)
    requires n in store ==> !Adopt(store[n], o, annotation).Clash?
    ensures var c := After(api, store, got, want, n);
      && (c.Some? ==> !Adopt(c.value, o, annotation).Clash?)
      && (Unhindered(store, got, want, n) <==> Same(Lookup(want, n), TakenAt(c, o, annotation)))
  {
  }

  /** What a current listing says about the children, name by name. */
  lemma ListedAt(store: Store, items: seq<Named>, want: seq<Named>, o: Owner, annotation: string, n: string)
    requires Lists(items, store) && Adopted(items, o, annotation).Some?
    ensures var got := Adopted(items, o, annotation).value;
      && Lookup(got, n) == TakenAt(Get(store, n), o, annotation) && !StaleAt(store, got, want, n)
      && (n in store ==> !Adopt(store[n], o, annotation).Clash?)
  {
    AdoptedAt(items, o, annotation, n);
  }

  /** After a successful reconciliation the next difference is empty exactly when no deletion
      is in the way. */
  lemma NextDifference(api: Api, store: Store, items: seq<Named>, want: seq<Named>, o: Owner, annotation: string,
                       items': seq<Named>)
    requires Lists(items, store) && Adopted(items, o, annotation).Some? && Wanted(api, want, o) && Consistent(want)
    requires var r := Reconciled(api, store, Adopted(items, o, annotation).value, want); r.ok && Lists(items', r.store)
    ensures Adopted(items', o, annotation).Some?
    ensures NoDifference(Adopted(items', o, annotation).value, want) <==>
      forall n :: Unhindered(store, Adopted(items, o, annotation).value, want, n)
  {
    var got := Adopted(items, o, annotation).value;
    var store' := Reconciled(api, store, got, want).store;
    forall n ensures
      && !BlockedAt(store, got, want, n)
      && Lookup(got, n) == TakenAt(Get(store, n), o, annotation)
      && (n in store ==> !Adopt(store[n], o, annotation).Clash?)
      && Get(store', n) == After(api, store, got, want, n)
    {
      ListedAt(store, items, want, o, annotation, n);
      ReconciledAt(api, store, got, want, n);
    }
    forall n ensures n in store' ==> !Adopt(store'[n], o, annotation).Clash? {
      SettledAt(api, store, got, want, o, annotation, n);
    }
    AdoptedIfNoClash(items', o, annotation);
    var got' := Adopted(items', o, annotation).value;
    forall n ensures Unhindered(store, got, want, n) <==> SameAt(got', want, n) {
      AdoptedAt(items', o, annotation, n);
      SettledAt(api, store, got, want, o, annotation, n);
    }
    NoDifferenceAt(got', want);
  }

  /** Applying the difference succeeds and leaves nothing more to do exactly when the records
      wanted under one name agree and no name is written twice, no wanted name is held by a
      record that is not a child, no spec to be written is invalid, and no deletion is in the
      way. */
  lemma DiffApplies(api: Api, store: Store, items: seq<Named>, want: seq<Named>, o: Owner, annotation: string,
                    items': seq<Named>)
    requires Lists(items, store) && Adopted(items, o, annotation).Some? && Wanted(api, want, o)
    requires Lists(items', Reconciled(api, store, Adopted(items, o, annotation).value, want).store)
    ensures var got, got' := Adopted(items, o, annotation).value, Adopted(items', o, annotation);
      Reconciled(api, store, got, want).ok && got'.Some? && NoDifference(got'.value, want) <==>
      Applicable(api, store, got, want)
  {
    var got, got' := Adopted(items, o, annotation).value, Adopted(items', o, annotation);
    if !Consistent(want) {
      if got'.Some? && NoDifference(got'.value, want) {
        SettledIsConsistent(got'.value, want);
      }
    } else {
      forall n ensures !StaleAt(store, got, want, n) {
        ListedAt(store, items, want, o, annotation, n);
      }
      ReconciledAt(api, store, got, want, "");
      if Accepted(api, store, got, want) {
        NextDifference(api, store, items, want, o, annotation, items');
      }
    }
  }

  /** The records wanted under one name agree, no wanted name is held by another record, no
      spec to be written is invalid, and no deletion is in the way. */
  ghost predicate Workable(api: Api, store: Store, got: seq<Named>, want: seq<Named>) {
    && Consistent(want) && !Blocked(store, got, want) && !Rejected(api, got, want)
    && forall n :: Unhindered(store, got, want, n)
  }

  ghost predicate Applicable(api: Api, store: Store, got: seq<Named>, want: seq<Named>) {
    Workable(api, store, got, want) && OnceEach(got, want)
  }

  lemma {:induction false} AddedHas(got: seq<Named>, want: seq<Named>, x: Named)
    requires x in want && Lookup(got, x.name).None?
    ensures Added(got, want) != []
  {
    if x in want[..|want| - 1] {
      AddedHas(got, want[..|want| - 1], x);
    } else {
      assert want == want[..|want| - 1] + [want[|want| - 1]];
    }
  }

  lemma {:induction false} ChangedHas(got: seq<Named>, want: seq<Named>, x: Named)
    requires x in want && Lookup(got, x.name).Some? && Differs(x.obj, Lookup(got, x.name).value)
    ensures Changed(got, want) != []
  {
    if x in want[..|want| - 1] {
      ChangedHas(got, want[..|want| - 1], x);
    } else {
      assert want == want[..|want| - 1] + [want[|want| - 1]];
    }
  }

  /** With different records wanted under one name there is always a difference. */
  lemma SettledIsConsistent(got: seq<Named>, want: seq<Named>)
    requires NoDifference(got, want)
    ensures Consistent(want)
  {
    forall x, y | x in want && y in want && x.name == y.name ensures !Differs(x.obj, y.obj) {
      SettledMember(got, want, x);
      SettledMember(got, want, y);
    }
    ConsistentPairs(want);
  }

  lemma SettledMember(got: seq<Named>, want: seq<Named>, x: Named)
    requires NoDifference(got, want) && x in want
    ensures Lookup(got, x.name).Some? && !Differs(x.obj, Lookup(got, x.name).value)
  {
    if Lookup(got, x.name).None? {
      AddedHas(got, want, x);
    } else if Differs(x.obj, Lookup(got, x.name).value) {
      ChangedHas(got, want, x);
    }
  }

  predicate Alike(w: Child, c: Child) {
    c.spec == w.spec && c.annotations == w.annotations && c.owners == w.owners
  }

  /** There is no difference exactly when every wanted record is among the children under its
      name, with its spec, annotations and owner references, and every child is wanted. */
  lemma NoDifferenceMeans(got: seq<Named>, want: seq<Named>)
    ensures NoDifference(got, want) <==>
      (forall x :: x in want ==> Lookup(got, x.name).Some? && Alike(x.obj, Lookup(got, x.name).value)) &&
      (forall x :: x in got ==> Lookup(want, x.name).Some?)
  {
    if NoDifference(got, want) {
      forall x | x in want ensures Lookup(got, x.name).Some? && !Differs(x.obj, Lookup(got, x.name).value) {
        SettledMember(got, want, x);
      }
      forall x | x in got ensures Lookup(want, x.name).Some? {
        if Lookup(want, x.name).None? {
          AddedHas(want, got, x);
        }
      }
    } else {
      if Added(got, want) != [] {
        AddedFrom(got, want, Added(got, want)[0]);
      } else if Changed(got, want) != [] {
        var x := ChangedFrom(got, want, Changed(got, want)[0]);
      } else {
        AddedFrom(want, got, Added(want, got)[0]);
      }
    }
  }

  lemma {:induction false} AddedFrom(got: seq<Named>, want: seq<Named>, x: Named)
    requires x in Added(got, want)
    ensures x in want && Lookup(got, x.name).None?
  {
    if x in Added(got, want[..|want| - 1]) {
      AddedFrom(got, want[..|want| - 1], x);
    }
  }

  lemma {:induction false} ChangedFrom(got: seq<Named>, want: seq<Named>, u: Named) returns (x: Named)
    requires u in Changed(got, want)
    ensures x in want && Lookup(got, x.name).Some? && Differs(x.obj, Lookup(got, x.name).value)
  {
    if u in Changed(got, want[..|want| - 1]) {
      x := ChangedFrom(got, want[..|want| - 1], u);
    } else {
      x := want[|want| - 1];
    }
  }

  /** Some children leave nothing to do exactly when the records wanted under one name agree. */
  lemma CanBeSettled(want: seq<Named>)
    ensures (exists got :: NoDifference(got, want)) <==> Consistent(want)
  {
    if got :| NoDifference(got, want) {
      SettledIsConsistent(got, want);
    }
    if Consistent(want) {
      NoDifferenceAt(want, want);
      assert NoDifference(want, want);
    }
  }

  lemma NoDifferenceAt(got: seq<Named>, want: seq<Named>)
    requires Consistent(want)
    ensures NoDifference(got, want) <==> forall n :: SameAt(got, want, n)
  {
    forall n ensures SameAt(got, want, n) <==>
      Lookup(Added(got, want), n).None? && Lookup(Changed(got, want), n).None? && Lookup(Added(want, got), n).None? {
      AddedAt(got, want, n);
      AddedAt(want, got, n);
      ChangedAt(got, want, n);
    }
    EmptyByNames(Added(got, want));
    EmptyByNames(Changed(got, want));
    EmptyByNames(Added(want, got));
  }

  /** The wanted spec and annotations under a wanted name, no surplus child, and everything
      else as it was. */
  predicate AsWanted(want: Option<Child>, got: Option<Child>, was: Option<Child>, now: Option<Child>) {
    match want
    case Some(w) => now.Some? && now.value.spec == w.spec && now.value.annotations == w.annotations
    case None => if got.Some? then now == None else now == was
  }

  lemma AfterAsWanted(api: Api, store: Store, got: seq<Named>, want: seq<Named>, o: Owner, annotation: string, n: string)
    requires Wanted(api, want, o) && Unhindered(store, got, want, n)
    requires Lookup(got, n) == TakenAt(Get(store, n), o, annotation)
    ensures AsWanted(Lookup(want, n), Lookup(got, n), Get(store, n), After(api, store, got, want, n))
  {
  }

  /** If no write is refused and nothing is in the way, the children are what was wanted and
      nothing else changed. */
  lemma ChildrenAsWanted(api: Api, store: Store, items: seq<Named>, want: seq<Named>, o: Owner, annotation: string, n: string)
    requires Lists(items, store) && Adopted(items, o, annotation).Some? && Wanted(api, want, o) && Consistent(want)
    requires var got := Adopted(items, o, annotation).value;
      Accepted(api, store, got, want) && Unhindered(store, got, want, n)
    ensures var got := Adopted(items, o, annotation).value;
      var r := Reconciled(api, store, got, want);
      r.ok && AsWanted(Lookup(want, n), Lookup(got, n), Get(store, n), Get(r.store, n))
  {
    var got := Adopted(items, o, annotation).value;
    ListedAt(store, items, want, o, annotation, n);
    ReconciledAt(api, store, got, want, n);
    AfterAsWanted(api, store, got, want, o, annotation, n);
  }

  lemma CurrentIsAccepted(api: Api, store: Store, items: seq<Named>, want: seq<Named>, o: Owner, annotation: string)
    requires Lists(items, store) && Adopted(items, o, annotation).Some?
    ensures var got := Adopted(items, o, annotation).value;
      Applicable(api, store, got, want) ==> Accepted(api, store, got, want)
  {
    var got := Adopted(items, o, annotation).value;
    forall n ensures !StaleAt(store, got, want, n) {
      ListedAt(store, items, want, o, annotation, n);
    }
  }

  /** A surplus child with a finalizer, as the record controller sets it, is a hindrance. */
  lemma SurplusWithFinalizers(api: Api, o: Owner, annotation: string, c: Child)
    requires Adopt(c, o, annotation).Take? && c.finalizers != []
    ensures var store, items: seq<Named> := map["a" := c], [Named("a", c)];
      && Lists(items, store) && Adopted(items, o, annotation).Some? && Wanted(api, [], o)
      && var got := Adopted(items, o, annotation).value;
      !Blocked(store, got, []) && !Unhindered(store, got, [], "a")
  {
    var items := [Named("a", c)];
    assert items[..0] == [] && items[1..] == [];
    assert Adopted([], o, annotation) == Some([]);
    AdoptedAt(items, o, annotation, "a");
  }
}
