/** One pass of a libdns provider over one record (pkg/provider/libdns): list the zone, decide,
    and delete or append. Calls may fail; a failed call has no effect on the zone. */
module Provider {
  import opened Text
  import opened Suffixes
  import opened Records
  import opened Normaliser

  /** All zones of a provider account, by entry identifier. */
  datatype Placed = Placed(zone: string, data: Data)
  type Remote = map<string, Placed>

  datatype Listing = Listed(records: seq<Entry>) | Failed(notFound: bool)

  /** The answer to an append: one entry, an error, or an unexpected number of entries. */
  datatype Reply = Appended(id: string) | AppendFailed | AppendOdd(id: string)

  datatype Calls = Calls(listing: Listing, deleteFails: bool, reply: Reply)

  /** What a pass does once it has seen the listing. */
  datatype Plan =
    | Refuse                                // give up without touching anything
    | Keep                                  // the entry is up to date
    | Forget                                // nothing to remove, clear the status
    | Drop(victim: Entry)                   // remove the entry, clear the status
    | Create(want: Data)
    | Replace(victim: Entry, want: Data)

  datatype Goal = Goal(zone: string, want: Data)

  /** The checks made before the provider is called, and what the zone should hold. */
  function GoalOf(ext: Externals, me: string, rec: Record): Option<Goal> {
    if rec.status.provider != "" && rec.status.provider != me then None
    else
      match ToRR(ext, rec.spec)
      case None => None
      case Some(rr) =>
        match ZoneOf(ext.rules, rr.hdr.name)
        case None => None
        case Some(zone) => Some(Goal(zone, MakeRecord(ext, rr)))
  }

  function Find(records: seq<Entry>, id: string): Option<Entry> {
    if records == [] then None
    else if records[0].id == id then Some(records[0])
    else Find(records[1..], id)
  }

  predicate SameRecord(e: Entry, g: Goal) {
    InZone(e.data.name, g.zone) == g.want.name && e.data.rrtype == g.want.rrtype && e.data.value == g.want.value
  }

  predicate Taken(records: seq<Entry>, g: Goal) {
    exists e :: e in records && SameRecord(e, g)
  }

  predicate Unwanted(rec: Record) {
    rec.deleting || rec.spec.active == Some(false)
  }

  function PlanFor(rec: Record, g: Goal, records: seq<Entry>): Plan {
    match Find(records, rec.status.id)
    case None =>
      if Unwanted(rec) then Forget else if Taken(records, g) then Refuse else Create(g.want)
    case Some(e) =>
      if Unwanted(rec) then Drop(e)
      else if FqdnRec(e.data, g.zone) == g.want then Keep
      else Replace(Entry(e.id, FqdnRec(e.data, g.zone)), g.want)
  }

  function Decide(ext: Externals, me: string, rec: Record, listing: Listing): Plan {
    match GoalOf(ext, me, rec)
    case None => Refuse
    case Some(g) =>
      if listing.Failed? && !listing.notFound && rec.status.id != "" then Refuse
      else PlanFor(rec, g, if listing.Listed? then listing.records else [])
  }

  function Cleared(s: Status): Status {
    s.(id := "", provider := "")
  }

  function Claimed(s: Status, me: string, id: string): Status {
    s.(id := id, provider := me)
  }

  datatype Outcome = Outcome(ok: bool, status: Status, remote: Remote)

  function AfterAppend(me: string, s: Status, remote: Remote, zone: string, want: Data, reply: Reply): Outcome {
    match reply
    case AppendFailed => Outcome(false, s, remote)
    case AppendOdd(id) => Outcome(false, s, remote[id := Placed(zone, want)])
    case Appended(id) => Outcome(true, Claimed(s, me, id), remote[id := Placed(zone, want)])
  }

  /** Carrying a plan out, with the given answers of the provider. */
  function Carry(me: string, s: Status, remote: Remote, zone: string, plan: Plan,
                 deleteFails: bool, reply: Reply): Outcome {
    match plan
    case Refuse => Outcome(false, s, remote)
    case Keep => Outcome(true, s, remote)
    case Forget => Outcome(true, Cleared(s), remote)
    case Drop(e) =>
      if deleteFails then Outcome(false, s, remote) else Outcome(true, Cleared(s), remote - {e.id})
    case Create(want) => AfterAppend(me, s, remote, zone, want, reply)
    case Replace(e, want) =>
      if deleteFails then Outcome(false, s, remote)
      else AfterAppend(me, s, remote - {e.id}, zone, want, reply)
  }

  function GoalZone(ext: Externals, me: string, rec: Record): string {
    match GoalOf(ext, me, rec) case None => "" case Some(g) => g.zone
  }

  /** The effect of a whole provider pass on the record's status and on the provider. */
  function ProviderPass(ext: Externals, me: string, rec: Record, remote: Remote, calls: Calls): Outcome {
    Carry(me, rec.status, remote, GoalZone(ext, me, rec), Decide(ext, me, rec, calls.listing),
          calls.deleteFails, calls.reply)
  }

  /** A provider pass that succeeds has got past all checks. */
  lemma SuccessHasGoal(ext: Externals, me: string, rec: Record, remote: Remote, calls: Calls)
    requires ProviderPass(ext, me, rec, remote, calls).ok
    ensures GoalOf(ext, me, rec).Some?
    ensures var g := GoalOf(ext, me, rec).value;
      ProviderPass(ext, me, rec, remote, calls) ==
        Carry(me, rec.status, remote, g.zone,
              PlanFor(rec, g, if calls.listing.Listed? then calls.listing.records else []), calls.deleteFails, calls.reply)
  {
  }

  lemma {:induction false} FindSplit(pre: seq<Entry>, rest: seq<Entry>, id: string)
    requires forall e :: e in pre ==> e.id != id
    ensures Find(pre + rest, id) == Find(rest, id)
  {
    if pre == [] {
      assert pre + rest == rest;
    } else {
      assert (pre + rest)[1..] == pre[1..] + rest;
      FindSplit(pre[1..], rest, id);
    }
  }

  lemma {:induction false} FindFacts(records: seq<Entry>, id: string)
    ensures Find(records, id).Some? ==> Find(records, id).value in records && Find(records, id).value.id == id
    ensures Find(records, id).None? <==> forall e :: e in records ==> e.id != id
  {
    if records != [] && records[0].id != id {
      FindFacts(records[1..], id);
    }
  }

  /** A listing that shows the zone as it is. */
  ghost predicate Truthful(records: seq<Entry>, remote: Remote, zone: string) {
    forall e: Entry :: e in records <==> e.id in remote && remote[e.id] == Placed(zone, e.data)
  }

  lemma FindTruthful(records: seq<Entry>, remote: Remote, zone: string, id: string)
    requires Truthful(records, remote, zone)
    ensures Find(records, id) ==
      if id in remote && remote[id].zone == zone then Some(Entry(id, remote[id].data)) else None
  {
    FindFacts(records, id);
    if id in remote && remote[id].zone == zone {
      assert Entry(id, remote[id].data) in records;
    }
  }

  /** The provider account behind the client interface. */
  class Client {
    var remote: Remote

    constructor (r: Remote)
      ensures remote == r
    {
      remote := r;
    }

    method DeleteRecord(e: Entry, fails: bool) returns (ok: bool)
      modifies this
      ensures ok == !fails && remote == if ok then old(remote) - {e.id} else old(remote)
    {
      ok := !fails;
      if ok {
        remote := remote - {e.id};
      }
    }

    method AppendRecord(zone: string, want: Data, reply: Reply) returns (ids: Option<seq<string>>)
      modifies this
      ensures remote == if reply.AppendFailed? then old(remote) else old(remote)[reply.id := Placed(zone, want)]
      ensures ids == match reply case AppendFailed => None case Appended(id) => Some([id]) case AppendOdd(_) => Some([])
    {
      match reply {
        case AppendFailed => ids := None;
        case Appended(id) =>
          remote := remote[id := Placed(zone, want)];
          ids := Some([id]);
        case AppendOdd(id) =>
          remote := remote[id := Placed(zone, want)];
          ids := Some([]);
      }
    }
  }

  class Prov {
    const name: string
    const client: Client

    constructor (name: string, client: Client)
      ensures this.name == name && this.client == client
    {
      this.name, this.client := name, client;
    }

    /** Appends the wanted entry and claims it in the status. */
    method Append(rec: DNSRecord, zone: string, want: Data, reply: Reply) returns (ok: bool)
      modifies rec`status, client
      ensures Outcome(ok, rec.status, client.remote) ==
        AfterAppend(name, old(rec.status), old(client.remote), zone, want, reply)
    {
      var ids := client.AppendRecord(zone, want, reply);
      if ids.None? || |ids.value| != 1 {
        return false;
      }
      rec.status := rec.status.(provider := name);
      rec.status := rec.status.(id := ids.value[0]);
      return true;
    }

    /** `prov.Reconcile`: the in-place pass computes exactly `ProviderPass`. */
    method Reconcile(ext: Externals, rec: DNSRecord, calls: Calls) returns (ok: bool)
      modifies rec`status, client
      ensures Outcome(ok, rec.status, client.remote) ==
        ProviderPass(ext, name, old(rec.View()), old(client.remote), calls)
    {
      if rec.status.provider != "" && rec.status.provider != name {
        return false;
      }
      var rr := ToRR(ext, rec.spec);
      if rr.None? {
        return false;
      }
      var zone := ZoneOf(ext.rules, rr.value.hdr.name);
      if zone.None? {
        return false;
      }
      if calls.listing.Failed? && !calls.listing.notFound && rec.status.id != "" {
        return false;
      }
      var records := if calls.listing.Listed? then calls.listing.records else [];
      ok := Pursue(rec, Goal(zone.value, MakeRecord(ext, rr.value)), records, calls.deleteFails, calls.reply);
    }

    /** The part of `prov.Reconcile` after the listing. */
    method Pursue(rec: DNSRecord, goal: Goal, records: seq<Entry>, deleteFails: bool, reply: Reply) returns (ok: bool)
      modifies rec`status, client
      ensures Outcome(ok, rec.status, client.remote) ==
        Carry(name, old(rec.status), old(client.remote), goal.zone, PlanFor(old(rec.View()), goal, records), deleteFails, reply)
    {
      var r := Lookup(records, rec.status.id);
      if rec.deleting || rec.spec.active == Some(false) {
        if r.Some? {
          var deleted := client.DeleteRecord(r.value, deleteFails);
          if !deleted {
            return false;
          }
        }
        rec.status := rec.status.(id := "");
        rec.status := rec.status.(provider := "");
        return true;
      }
      if r.None? {
        var taken := AlreadyThere(records, goal);
        if taken {
          return false;
        }
        ok := Append(rec, goal.zone, goal.want, reply);
        return;
      }
      var e := Entry(r.value.id, FqdnRec(r.value.data, goal.zone));
      if e.data == goal.want {
        return true;
      }
      var deleted := client.DeleteRecord(e, deleteFails);
      if !deleted {
        return false;
      }
      ok := Append(rec, goal.zone, goal.want, reply);
    }
  }

  /** The search for the record's own entry. */
  method Lookup(records: seq<Entry>, id: string) returns (r: Option<Entry>)
    ensures r == Find(records, id)
  {
    for i := 0 to |records|
      invariant forall e :: e in records[..i] ==> e.id != id
    {
      if records[i].id == id {
        FindSplit(records[..i], records[i..], id);
        assert records == records[..i] + records[i..];
        return Some(records[i]);
      }
    }
    FindSplit(records, [], id);
    assert records + [] == records == records[..|records|];
    return None;
  }

  /** The search for an identical entry that is not the record's own. */
  method AlreadyThere(records: seq<Entry>, g: Goal) returns (taken: bool)
    ensures taken <==> Taken(records, g)
  {
    for i := 0 to |records|
      invariant forall e :: e in records[..i] ==> !SameRecord(e, g)
    {
      if SameRecord(records[i], g) {
        return true;
      }
    }
    return false;
  }
}
