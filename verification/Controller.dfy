/** One pass of the DNSRecord controller (controllers/dnsrecord_controller.go). */
module Controller {
  import opened Text
  import opened Records
  import opened Provider

  const RECORD_FINALIZER := "dns.linka.cloud/finalizer"

  // ---- finalizers ----

  function IndexOf(fs: seq<string>, f: string): nat
    requires f in fs
  {
    if fs[0] == f then 0 else 1 + IndexOf(fs[1..], f)
  }

  lemma {:induction false} IndexOfFirst(fs: seq<string>, f: string)
    requires f in fs
    ensures IndexOf(fs, f) < |fs| && fs[IndexOf(fs, f)] == f
    ensures forall i :: 0 <= i < IndexOf(fs, f) ==> fs[i] != f
  {
    if fs[0] != f {
      IndexOfFirst(fs[1..], f);
      assert forall i :: 1 <= i < |fs| ==> fs[i] == fs[1..][i - 1];
    }
  }

  /** What `removeFinalizer` leaves: with other finalizers around, it keeps everything from
      the first RECORD_FINALIZER on and appends what follows it once more. */
  function Removed(fs: seq<string>): seq<string>
    requires RECORD_FINALIZER in fs
  {
    IndexOfFirst(fs, RECORD_FINALIZER);
    var i := IndexOf(fs, RECORD_FINALIZER);
    if |fs| == 1 then [] else fs[i..] + fs[i + 1..]
  }

  /** Dropping the finalizer and nothing else happens exactly for a singleton list. */
  lemma RemovalIsExact(fs: seq<string>)
    requires RECORD_FINALIZER in fs
    ensures var i := IndexOf(fs, RECORD_FINALIZER);
      i < |fs| && (Removed(fs) == fs[..i] + fs[i + 1..] <==> |fs| == 1)
    ensures RECORD_FINALIZER !in Removed(fs) <==> |fs| == 1
  {
    IndexOfFirst(fs, RECORD_FINALIZER);
    var i := IndexOf(fs, RECORD_FINALIZER);
    if |fs| > 1 {
      assert Removed(fs)[0] == RECORD_FINALIZER;
      assert i > 0 ==> (fs[..i] + fs[i + 1..])[0] == fs[0];
    }
  }

  lemma RemovalOfOnlyOne(fs: seq<string>)
    requires RECORD_FINALIZER in fs
    ensures Removed(fs) == [] <==> fs == [RECORD_FINALIZER]
  {
    IndexOfFirst(fs, RECORD_FINALIZER);
  }

  function Next(fs: seq<string>): seq<string> {
    if RECORD_FINALIZER in fs then Removed(fs) else fs
  }

  /** The list after n removals. */
  function Repeated(fs: seq<string>, n: nat): seq<string> {
    if n == 0 then fs else Next(Repeated(fs, n - 1))
  }

  /** With something behind the finalizer, the list grows with every removal. */
  lemma {:induction false} RemovalGrows(fs: seq<string>, n: nat)
    requires RECORD_FINALIZER in fs && IndexOf(fs, RECORD_FINALIZER) + 1 < |fs| && n > 0
    ensures |Repeated(fs, n)| >= n + 2 && Repeated(fs, n)[0] == RECORD_FINALIZER
  {
    IndexOfFirst(fs, RECORD_FINALIZER);
    if n == 1 {
      assert Repeated(fs, 0) == fs;
    } else {
      RemovalGrows(fs, n - 1);
      var before := Repeated(fs, n - 1);
      assert Removed(before) == before[0..] + before[1..];
    }
  }

  /** Removals ever empty the list exactly when the finalizer comes last. */
  lemma RemovalEmpties(fs: seq<string>)
    requires RECORD_FINALIZER in fs
    ensures (exists n: nat :: Repeated(fs, n) == []) <==> IndexOf(fs, RECORD_FINALIZER) == |fs| - 1
  {
    IndexOfFirst(fs, RECORD_FINALIZER);
    if IndexOf(fs, RECORD_FINALIZER) == |fs| - 1 {
      var one: nat, two: nat := 1, 2;
      assert Repeated(fs, 0) == fs;
      assert Repeated(fs, one) == Removed(fs);
      if |fs| > 1 {
        assert Removed(fs) == [RECORD_FINALIZER];
        assert Repeated(fs, two) == Next([RECORD_FINALIZER]) == [];
      }
    } else {
      forall n: nat ensures Repeated(fs, n) != [] {
        if n > 0 {
          RemovalGrows(fs, n);
        }
      }
    }
  }

  // ---- the two halves of a pass around the provider ----

  /** A write to the API server: of the status, or of spec and finalizers. */
  datatype Write = NoWrite | WriteStatus(status: Status) | WriteMeta(spec: Spec, finalizers: seq<string>)

  datatype Event = Quiet | Warned | Requeued | Succeeded | Deleted

  datatype Finish = Finish(write: Write, event: Event)

  /** The record as a pass sees it: fetched, then defaulted. */
  function Snapshot(ext: Externals, o: Record): Record {
    o.(spec := Defaulted(ext.rules, o.spec))
  }

  datatype Opening = Reject | AddFinalizer | Consult

  function Open(ext: Externals, rec: Record): Opening {
    if ToRR(ext, rec.spec).None? then Reject
    else if !rec.deleting && RECORD_FINALIZER !in rec.finalizers then AddFinalizer
    else Consult
  }

  /** The record in zone-file form, as stored in the status. */
  function Render(ext: Externals, spec: Spec): string {
    match ToRR(ext, spec) case None => "" case Some(rr) => ext.printRR(rr)
  }

  /** What a pass writes once the provider has succeeded; `look` is the DNS verification. */
  function Conclude(ext: Externals, rec: Record, status: Status, look: Option<bool>): Finish {
    var moved := status.provider != rec.status.provider || status.id != rec.status.id;
    if rec.deleting then
      if moved then Finish(WriteStatus(status), Quiet)
      else if RECORD_FINALIZER in rec.finalizers then Finish(WriteMeta(rec.spec, Removed(rec.finalizers)), Deleted)
      else Finish(NoWrite, Deleted)
    else
      var raw := Render(ext, rec.spec);
      if moved || status.record != raw then Finish(WriteStatus(status.(record := raw)), Quiet)
      else match look
        case None => Finish(NoWrite, Quiet)
        case Some(ok) =>
          if status.active.GetOr(false) != ok then
            Finish(WriteStatus(status.(active := Some(ok))), if ok then Quiet else Warned)
          else if rec.spec.active.GetOr(true) != ok then Finish(NoWrite, Requeued)
          else Finish(NoWrite, Succeeded)
  }

  /** The API server's answer to a write: an object marked for deletion disappears once it
      has no finalizers left. */
  function Stored(o: Record, w: Write, version: nat): Option<Record> {
    match w
    case NoWrite => Some(o)
    case WriteStatus(s) => Some(o.(status := s, version := version))
    case WriteMeta(spec, fs) =>
      if o.deleting && fs == [] then None else Some(o.(spec := spec, finalizers := fs, version := version))
  }

  datatype Result = Result(obj: Option<Record>, remote: Remote, event: Event)

  /** A whole pass over a stored object, without interference and with accepted writes. */
  function Pass(ext: Externals, me: string, o: Record, remote: Remote, calls: Calls,
                look: Remote -> Option<bool>, version: nat): Result
  {
    var rec := Snapshot(ext, o);
    match Open(ext, rec)
    case Reject => Result(Some(o), remote, Warned)
    case AddFinalizer =>
      Result(Stored(o, WriteMeta(rec.spec, o.finalizers + [RECORD_FINALIZER]), version), remote, Quiet)
    case Consult =>
      var p := ProviderPass(ext, me, rec, remote, calls);
      if !p.ok then Result(Some(o), p.remote, Quiet)
      else
        var f := Conclude(ext, rec, p.status, look(p.remote));
        Result(Stored(o, f.write, version), p.remote, f.event)
  }

  /** The controller with its view of the API server. */
  class DNSRecordReconciler {
    var store: map<string, Record>
    const ext: Externals
    const provider: Prov

    constructor (store: map<string, Record>, ext: Externals, provider: Prov)
      ensures this.store == store && this.ext == ext && this.provider == provider
    {
      this.store, this.ext, this.provider := store, ext, provider;
    }

    method UpdateStatus(key: string, rec: DNSRecord, version: nat)
      requires key in store
      modifies this`store
      ensures store == old(store)[key := old(store)[key].(status := rec.status, version := version)]
    {
      store := store[key := store[key].(status := rec.status, version := version)];
    }

    method Update(key: string, rec: DNSRecord, version: nat)
      requires key in store
      modifies this`store
      ensures store == match Stored(old(store)[key], WriteMeta(rec.spec, rec.finalizers), version)
                       case None => old(store) - {key}
                       case Some(o) => old(store)[key := o]
    {
      var o := store[key];
      if o.deleting && rec.finalizers == [] {
        store := store - {key};
      } else {
        store := store[key := o.(spec := rec.spec, finalizers := rec.finalizers, version := version)];
      }
    }

    /** `Reconcile` behind the lock: it computes exactly `Pass` and touches no other object. */
    method Reconcile(key: string, calls: Calls, look: Remote -> Option<bool>, version: nat) returns (event: Event)
      modifies this`store, provider.client
      ensures key !in old(store) ==> store == old(store) && provider.client.remote == old(provider.client.remote)
      ensures key in old(store) ==>
        var r := Pass(ext, provider.name, old(store)[key], old(provider.client.remote), calls, look, version);
        event == r.event && provider.client.remote == r.remote &&
        store == match r.obj case None => old(store) - {key} case Some(o) => old(store)[key := o]
    {
      if key !in store {
        return Quiet;
      }
      var rec := new DNSRecord(store[key]);
      rec.Default(ext.rules);
      var rr := ToRR(ext, rec.spec);
      if rr.None? {
        return Warned;
      }
      if !rec.deleting && RECORD_FINALIZER !in rec.finalizers {
        rec.finalizers := rec.finalizers + [RECORD_FINALIZER];
        Update(key, rec, version);
        return Quiet;
      }
      ghost var snapshot := rec.View();
      var o := rec.status;
      var ok := provider.Reconcile(ext, rec, calls);
      if !ok {
        return Quiet;
      }
      event := Settle(key, rec, snapshot, o, rr.value, look(provider.client.remote), version);
    }

    /** The part of `Reconcile` after the provider has succeeded. */
    method Settle(key: string, rec: DNSRecord, ghost snapshot: Record, o: Status, rr: RR,
                  look: Option<bool>, version: nat) returns (event: Event)
      requires key in store && ToRR(ext, snapshot.spec) == Some(rr)
      requires rec.View() == snapshot.(status := rec.status) && snapshot.status == o
      requires store[key].deleting == rec.deleting
      modifies this`store, rec
      ensures var f := Conclude(ext, snapshot, old(rec.status), look);
        event == f.event &&
        store == match Stored(old(store)[key], f.write, version)
                 case None => old(store) - {key} case Some(o) => old(store)[key := o]
    {
      if rec.deleting {
        if rec.status.provider != o.provider || rec.status.id != o.id {
          UpdateStatus(key, rec, version);
          return Quiet;
        }
        var found := RemoveFinalizer(rec);
        if !found {
          return Deleted;
        }
        Update(key, rec, version);
        return Deleted;
      }
      var raw := ext.printRR(rr);
      if rec.status.provider != o.provider || rec.status.id != o.id || rec.status.record != raw {
        rec.status := rec.status.(record := raw);
        UpdateStatus(key, rec, version);
        return Quiet;
      }
      if look.None? {
        return Quiet;
      }
      var found := look.value;
      if rec.status.active.GetOr(false) != found {
        rec.status := rec.status.(active := Some(found));
        UpdateStatus(key, rec, version);
        return if found then Quiet else Warned;
      }
      if rec.spec.active.GetOr(true) != found {
        return Requeued;
      }
      return Succeeded;
    }
  }

  /** `removeFinalizer`: edits the slice in a loop. */
  method RemoveFinalizer(rec: DNSRecord) returns (found: bool)
    modifies rec`finalizers
    ensures found <==> RECORD_FINALIZER in old(rec.finalizers)
    ensures rec.finalizers == if found then Removed(old(rec.finalizers)) else old(rec.finalizers)
  {
    var fs := rec.finalizers;
    for i := 0 to |fs|
      invariant rec.finalizers == fs
      invariant forall j :: 0 <= j < i ==> fs[j] != RECORD_FINALIZER
    {
      if fs[i] != RECORD_FINALIZER {
        continue;
      }
      IndexOfFirst(fs, RECORD_FINALIZER);
      if |fs| == 1 {
        rec.finalizers := [];
        return true;
      }
      rec.finalizers := fs[i..] + fs[i + 1..];
      return true;
    }
    return false;
  }
}
