/** Child records of an Ingress or Service (controllers/child_records.go): finding them,
    diffing them against the wanted list, and applying the difference to the API server. */
module Children {
  import opened Text
  import opened Records

  /** An owner reference; the API version is split into group and version. */
  datatype OwnerRef = OwnerRef(group: string, apiVersion: string, kind: string, name: string, uid: string,
                               controller: Option<bool>, block: Option<bool>)

  datatype Owner = Owner(group: string, apiVersion: string, kind: string, name: string, uid: string)

  datatype Child = Child(annotations: map<string, string>, owners: seq<OwnerRef>, spec: Spec,
                         finalizers: seq<string>, deleting: bool, status: Status, version: nat)

  datatype Named = Named(name: string, obj: Child)

  /** The DNSRecords of one namespace. */
  type Store = map<string, Child>

  // ---- ownership ----

  function ControllerOf(owners: seq<OwnerRef>): Option<OwnerRef> {
    if owners == [] then None
    else if owners[0].controller == Some(true) then Some(owners[0])
    else ControllerOf(owners[1..])
  }

  predicate ControlledBy(c: Child, o: Owner) {
    ControllerOf(c.owners).Some? && ControllerOf(c.owners).value.uid == o.uid
  }

  /** The reference names the same object, in whatever version of its group. */
  predicate Refers(r: OwnerRef, o: Owner) {
    r.group == o.group && r.kind == o.kind && r.name == o.name
  }

  /** The controller reference to an owner. */
  function RefTo(o: Owner): OwnerRef {
    OwnerRef(o.group, o.apiVersion, o.kind, o.name, o.uid, Some(true), Some(true))
  }

  function Upsert(owners: seq<OwnerRef>, o: Owner): seq<OwnerRef> {
    if owners == [] then [RefTo(o)]
    else if Refers(owners[0], o) then [RefTo(o)] + owners[1..]
    else [owners[0]] + Upsert(owners[1..], o)
  }

  datatype Adoption = Skip | Take(child: Child) | Clash

  /** What `childRecords` makes of one record: taken as it is, taken with a repaired owner
      reference, skipped, or an error because another controller owns it. */
  function Adopt(c: Child, o: Owner, annotation: string): Adoption {
    if ControlledBy(c, o) then Take(c)
    else if annotation in c.annotations && c.annotations[annotation] == o.name then
      if ControllerOf(c.owners).Some? && !Refers(ControllerOf(c.owners).value, o) then Clash
      else Take(c.(owners := Upsert(c.owners, o)))
    else Skip
  }

  function Adopted(items: seq<Named>, o: Owner, annotation: string): Option<seq<Named>> {
    if items == [] then Some([])
    else
      var last := items[|items| - 1];
      match Adopted(items[..|items| - 1], o, annotation)
      case None => None
      case Some(got) =>
        match Adopt(last.obj, o, annotation)
        case Skip => Some(got)
        case Take(c) => Some(got + [Named(last.name, c)])
        case Clash => None
  }

  method ChildRecords(items: seq<Named>, o: Owner, annotation: string) returns (got: Option<seq<Named>>)
    ensures got == Adopted(items, o, annotation)
  {
    var found := [];
    for i := 0 to |items|
      invariant Adopted(items[..i], o, annotation) == Some(found)
    {
      assert items[..i + 1][..i] == items[..i];
      match Adopt(items[i].obj, o, annotation) {
        case Skip =>
        case Take(c) => found := found + [Named(items[i].name, c)];
        case Clash =>
          ClashRemains(items, i + 1, o, annotation);
          return None;
      }
    }
    assert items[..|items|] == items;
    return Some(found);
  }

  lemma {:induction false} ClashRemains(items: seq<Named>, i: nat, o: Owner, annotation: string)
    requires i <= |items| && Adopted(items[..i], o, annotation) == None
    ensures Adopted(items, o, annotation) == None
    decreases |items|
  {
    if i == |items| {
      assert items[..i] == items;
    } else {
      var init := items[..|items| - 1];
      assert init[..i] == items[..i];
      ClashRemains(init, i, o, annotation);
    }
  }

  // ---- the difference ----

  function Lookup(s: seq<Named>, name: string): Option<Child> {
    if s == [] then None
    else if s[0].name == name then Some(s[0].obj)
    else Lookup(s[1..], name)
  }

  predicate Differs(want: Child, got: Child) {
    want.spec != got.spec || want.annotations != got.annotations || want.owners != got.owners
  }

  function Added(got: seq<Named>, want: seq<Named>): seq<Named> {
    if want == [] then []
    else
      var w := want[|want| - 1];
      var before := Added(got, want[..|want| - 1]);
      if Lookup(got, w.name).None? then before + [w] else before
  }

  /** An update carries the version that was listed. */
  function Changed(got: seq<Named>, want: seq<Named>): seq<Named> {
    if want == [] then []
    else
      var w := want[|want| - 1];
      var g, before := Lookup(got, w.name), Changed(got, want[..|want| - 1]);
      if g.Some? && Differs(w.obj, g.value) then before + [Named(w.name, w.obj.(version := g.value.version))]
      else before
  }

  /** The first item of that name, as the inner loops of `diffRecords` find it. */
  method Match(s: seq<Named>, name: string) returns (r: Option<Child>)
    ensures r == Lookup(s, name)
  {
    for i := 0 to |s|
      invariant Lookup(s, name) == Lookup(s[i..], name)
    {
      if s[i].name == name {
        return Some(s[i].obj);
      }
      assert s[i..][1..] == s[i + 1..];
    }
    return None;
  }

  /** `diffRecords` */
  method DiffRecords(got: seq<Named>, want: seq<Named>) returns (add: seq<Named>, update: seq<Named>, del: seq<Named>)
    ensures add == Added(got, want) && update == Changed(got, want) && del == Added(want, got)
  {
    add, update, del := [], [], [];
    for i := 0 to |want|
      invariant add == Added(got, want[..i]) && update == Changed(got, want[..i])
    {
      assert want[..i + 1][..i] == want[..i];
      var g := Match(got, want[i].name);
      if g.None? {
        add := add + [want[i]];
      } else if Differs(want[i].obj, g.value) {
        update := update + [Named(want[i].name, want[i].obj.(version := g.value.version))];
      }
    }
    for i := 0 to |got|
      invariant del == Added(want, got[..i])
    {
      assert got[..i + 1][..i] == got[..i];
      var w := Match(want, got[i].name);
      if w.None? {
        del := del + [got[i]];
      }
    }
    assert want[..|want|] == want && got[..|got|] == got;
  }

  // ---- the API server ----

  function Get(store: Store, name: string): Option<Child> {
    if name in store then Some(store[name]) else None
  }

  function Set(store: Store, name: string, c: Option<Child>): Store {
    if c.None? then store - {name} else store[name := c.value]
  }

  /** The API server: its defaulting and validating webhooks, and by how much it raises the
      version of what it stores under a name. */
  datatype Api = Api(default: Spec -> Spec, valid: Spec -> bool, step: string -> nat)

  /** The webhooks of the operator. */
  function ApiOf(ext: Externals, step: string -> nat): Api {
    Api(s => Defaulted(ext.rules, s), s => Errors(ext, s) == [], step)
  }

  /** Validation follows defaulting. */
  predicate Admits(api: Api, s: Spec) {
    api.valid(api.default(s))
  }

  function NextVersion(api: Api, name: string, c: Child): nat {
    c.version + 1 + api.step(name)
  }

  /** Deleting only marks an object that has finalizers. */
  function Deleted(api: Api, name: string, c: Child): Option<Child> {
    if c.finalizers == [] then None
    else if c.deleting then Some(c)
    else Some(c.(deleting := true, version := NextVersion(api, name, c)))
  }

  /** Creation starts with an empty status. */
  function Created(api: Api, name: string, c: Child): Child {
    c.(spec := api.default(c.spec), deleting := false, status := NO_STATUS, version := api.step(name))
  }

  /** An update replaces spec and metadata; an object being deleted disappears if the update
      carries no finalizers. */
  function Updated(api: Api, name: string, prev: Child, c: Child): Option<Child> {
    if prev.deleting && c.finalizers == [] then None
    else
      Some(c.(spec := api.default(c.spec), deleting := prev.deleting, status := prev.status,
              version := NextVersion(api, name, prev)))
  }

  function DeleteAll(api: Api, store: Store, del: seq<Named>): Store {
    if del == [] then store
    else
      var s, n := DeleteAll(api, store, del[..|del| - 1]), del[|del| - 1].name;
      if n in s then Set(s, n, Deleted(api, n, s[n])) else s
  }

  /** The store so far, and whether all writes were accepted; the first refused one is the last tried. */
  datatype Progress = Progress(store: Store, ok: bool)

  /** A create is refused when the name is taken or the spec is invalid. */
  function CreateAll(api: Api, store: Store, add: seq<Named>): Progress {
    if add == [] then Progress(store, true)
    else
      var before, a := CreateAll(api, store, add[..|add| - 1]), add[|add| - 1];
      if !before.ok || a.name in before.store || !Admits(api, a.obj.spec) then before.(ok := false)
      else Progress(before.store[a.name := Created(api, a.name, a.obj)], true)
  }

  /** The object is still there in the version that the update carries. */
  predicate Current(store: Store, u: Named) {
    u.name in store && store[u.name].version == u.obj.version
  }

  /** An update is refused when the object is gone or has changed, or the spec is invalid. */
  function UpdateAll(api: Api, store: Store, update: seq<Named>): Progress {
    if update == [] then Progress(store, true)
    else
      var before, u := UpdateAll(api, store, update[..|update| - 1]), update[|update| - 1];
      if !before.ok || !Current(before.store, u) || !Admits(api, u.obj.spec) then before.(ok := false)
      else Progress(Set(before.store, u.name, Updated(api, u.name, before.store[u.name], u.obj)), true)
  }

  /** The outcome of `reconcileChildRecords`. */
  function Reconciled(api: Api, store: Store, got: seq<Named>, want: seq<Named>): Progress {
    var created := CreateAll(api, DeleteAll(api, store, Added(want, got)), Added(got, want));
    if created.ok then UpdateAll(api, created.store, Changed(got, want)) else created
  }

  class Cluster {
    var store: Store
    const api: Api

    constructor (store: Store, api: Api)
      ensures this.store == store && this.api == api
    {
      this.store, this.api := store, api;
    }

    method Delete(del: seq<Named>)
      modifies this
      ensures store == DeleteAll(api, old(store), del)
    {
      ghost var before := store;
      for i := 0 to |del|
        invariant store == DeleteAll(api, before, del[..i])
      {
        assert del[..i + 1][..i] == del[..i];
        var n := del[i].name;
        if n in store {
          store := Set(store, n, Deleted(api, n, store[n]));
        }
      }
      assert del[..|del|] == del;
    }

    method Create(add: seq<Named>) returns (ok: bool)
      modifies this
      ensures Progress(store, ok) == CreateAll(api, old(store), add)
    {
      ghost var before := store;
      for i := 0 to |add|
        invariant CreateAll(api, before, add[..i]) == Progress(store, true)
      {
        assert add[..i + 1][..i] == add[..i];
        if add[i].name in store || !Admits(api, add[i].obj.spec) {
          CreateStops(api, before, add, i + 1);
          return false;
        }
        store := store[add[i].name := Created(api, add[i].name, add[i].obj)];
      }
      assert add[..|add|] == add;
      return true;
    }

    method Update(update: seq<Named>) returns (ok: bool)
      modifies this
      ensures Progress(store, ok) == UpdateAll(api, old(store), update)
    {
      ghost var before := store;
      for i := 0 to |update|
        invariant UpdateAll(api, before, update[..i]) == Progress(store, true)
      {
        assert update[..i + 1][..i] == update[..i];
        var u := update[i];
        if !Current(store, u) || !Admits(api, u.obj.spec) {
          UpdateStops(api, before, update, i + 1);
          return false;
        }
        store := Set(store, u.name, Updated(api, u.name, store[u.name], u.obj));
      }
      assert update[..|update|] == update;
      return true;
    }

    /** `reconcileChildRecords`: deletes, then creates, then updates, up to the first refusal. */
    method ReconcileChildRecords(got: seq<Named>, want: seq<Named>) returns (ok: bool)
      modifies this
      ensures Progress(store, ok) == Reconciled(api, old(store), got, want)
    {
      var add, update, del := DiffRecords(got, want);
      Delete(del);
      ok := Create(add);
      if ok {
        ok := Update(update);
      }
    }
  }

  lemma {:induction false} CreateStops(api: Api, store: Store, add: seq<Named>, i: nat)
    requires i <= |add| && !CreateAll(api, store, add[..i]).ok
    ensures CreateAll(api, store, add) == CreateAll(api, store, add[..i])
    decreases |add|
  {
    if i == |add| {
      assert add[..i] == add;
    } else {
      assert add[..|add| - 1][..i] == add[..i];
      CreateStops(api, store, add[..|add| - 1], i);
    }
  }

  lemma {:induction false} UpdateStops(api: Api, store: Store, update: seq<Named>, i: nat)
    requires i <= |update| && !UpdateAll(api, store, update[..i]).ok
    ensures UpdateAll(api, store, update) == UpdateAll(api, store, update[..i])
    decreases |update|
  {
    if i == |update| {
      assert update[..i] == update;
    } else {
      assert update[..|update| - 1][..i] == update[..i];
      UpdateStops(api, store, update[..|update| - 1], i);
    }
  }
}
