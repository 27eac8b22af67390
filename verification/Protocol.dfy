/** Any number of DNSRecord passes over shared provider zones, interleaved between single
    calls, together with users, other writers of the zones, faults and crashes. At most one
    pass per object is in progress, which the lock table provides. */
module Protocol {
  import opened Text
  import opened Records
  import opened Normaliser
  import opened Provider
  import opened Controller

  type Key = string

  datatype Env = Env(ext: Externals, me: string)

  /** A pass in progress, named by what it does next; `rec` is its snapshot of the object. */
  datatype Phase =
    | Finalizing(rec: Record)
    | Asking(rec: Record)
    | Planned(rec: Record, plan: Plan)
    | Appending(rec: Record, want: Data)
    | Settled(rec: Record, status: Status)

  datatype State = State(
    store: map<Key, Record>,               // the API server
    remote: Remote,                        // the provider's zones
    issued: map<string, Option<Key>>,      // every identifier ever issued, and the object it was issued to
    passes: map<Key, Phase>,
    clock: nat)                            // source of resource versions

  datatype Step =
    | Fetch(key: Key)
    | List(key: Key, listing: Listing)
    | Delete(key: Key, fails: bool)
    | Append(key: Key, reply: Reply)
    | Conclusion(key: Key, look: Option<bool>, accepted: bool)
    | Crash(key: Key)
    | Make(key: Key, spec: Spec, finalizers: seq<string>)
    | Edit(key: Key, spec: Spec, finalizers: seq<string>)
    | Mark(key: Key)
    | Foreign(id: string, entry: Option<Placed>)

  predicate Init(s: State) {
    s.passes == map[] && s.issued == map[] && s.remote == map[] && s.store == map[]
  }

  // ---- what each step does ----

  function Ended(s: State, k: Key): State {
    s.(passes := s.passes - {k})
  }

  function Entered(s: State, k: Key, ph: Phase): State {
    s.(passes := s.passes[k := ph])
  }

  function Put(s: State, k: Key, o: Option<Record>): State {
    s.(store := if o.None? then s.store - {k} else s.store[k := o.value], clock := s.clock + 1)
  }

  predicate Fresh(s: State, id: string) {
    id != "" && id !in s.issued
  }

  ghost predicate Enabled(e: Env, s: State, step: Step) {
    match step
    case Fetch(k) => k !in s.passes
    case List(k, l) => k in s.passes && s.passes[k].Asking? &&
      (l.Listed? ==> Truthful(l.records, s.remote, GoalZone(e.ext, e.me, s.passes[k].rec)))
    case Delete(k, _) => k in s.passes && s.passes[k].Planned? && (s.passes[k].plan.Drop? || s.passes[k].plan.Replace?)
    case Append(k, r) => k in s.passes && (r.AppendFailed? || Fresh(s, r.id)) &&
      (s.passes[k].Appending? || (s.passes[k].Planned? && s.passes[k].plan.Create?))
    case Conclusion(k, _, _) => k in s.passes && (s.passes[k].Finalizing? || s.passes[k].Settled?)
    case Crash(k) => k in s.passes
    case Make(k, _, _) => k !in s.store
    case Edit(k, _, _) => k in s.store
    case Mark(k) => k in s.store
    case Foreign(id, entry) => id in s.remote || (entry.Some? && Fresh(s, id))
  }

  function Fetched(e: Env, s: State, k: Key): State {
    if k !in s.store then s
    else
      var rec := Snapshot(e.ext, s.store[k]);
      match Open(e.ext, rec)
      case Reject => s
      case AddFinalizer => Entered(s, k, Finalizing(rec))
      case Consult => Entered(s, k, Asking(rec))
  }

  function AfterListing(s: State, k: Key, rec: Record, plan: Plan): State {
    match plan
    case Refuse => Ended(s, k)
    case Keep => Entered(s, k, Settled(rec, rec.status))
    case Forget => Entered(s, k, Settled(rec, Cleared(rec.status)))
    case _ => Entered(s, k, Planned(rec, plan))
  }

  function AfterDelete(s: State, k: Key, ph: Phase): State
    requires ph.Planned? && (ph.plan.Drop? || ph.plan.Replace?)
  {
    Entered(s.(remote := s.remote - {ph.plan.victim.id}), k,
            if ph.plan.Drop? then Settled(ph.rec, Cleared(ph.rec.status)) else Appending(ph.rec, ph.plan.want))
  }

  function AfterAppending(e: Env, s: State, k: Key, rec: Record, want: Data, r: Reply): State {
    match r
    case AppendFailed => Ended(s, k)
    case AppendOdd(id) => Ended(Issued(e, s, k, rec, want, id), k)
    case Appended(id) => Entered(Issued(e, s, k, rec, want, id), k, Settled(rec, Claimed(rec.status, e.me, id)))
  }

  function Issued(e: Env, s: State, k: Key, rec: Record, want: Data, id: string): State {
    s.(remote := s.remote[id := Placed(GoalZone(e.ext, e.me, rec), want)], issued := s.issued[id := Some(k)])
  }

  /** The write a pass ends with. */
  function LastWrite(e: Env, ph: Phase, look: Option<bool>): Write {
    if ph.Settled? then Conclude(e.ext, ph.rec, ph.status, look).write
    else WriteMeta(ph.rec.spec, ph.rec.finalizers + [RECORD_FINALIZER])
  }

  /** The API server accepts a write only against the version that was read. */
  predicate Accepted(s: State, k: Key, ph: Phase, accepted: bool) {
    accepted && k in s.store && s.store[k].version == ph.rec.version
  }

  function Marked(s: State, k: Key): Option<Record>
    requires k in s.store
  {
    if s.store[k].finalizers == [] then None else Some(s.store[k].(deleting := true, version := s.clock))
  }

  function Edited(s: State, k: Key, spec: Spec, fs: seq<string>): Option<Record>
    requires k in s.store
  {
    Stored(s.store[k], WriteMeta(spec, fs), s.clock)
  }

  function Apply(e: Env, s: State, step: Step): State
    requires Enabled(e, s, step)
  {
    match step
    case Fetch(k) => Fetched(e, s, k)
    case List(k, l) => AfterListing(s, k, s.passes[k].rec, Decide(e.ext, e.me, s.passes[k].rec, l))
    case Delete(k, fails) => if fails then Ended(s, k) else AfterDelete(s, k, s.passes[k])
    case Append(k, r) =>
      var ph := s.passes[k];
      AfterAppending(e, s, k, ph.rec, if ph.Appending? then ph.want else ph.plan.want, r)
    case Conclusion(k, look, accepted) =>
      var ph := s.passes[k];
      if Accepted(s, k, ph, accepted) then Put(Ended(s, k), k, Stored(s.store[k], LastWrite(e, ph, look), s.clock))
      else Ended(s, k)
    case Crash(k) => Ended(s, k)
    case Make(k, spec, fs) => Put(s, k, Some(Record(false, fs, s.clock, spec, NO_STATUS)))
    case Edit(k, spec, fs) => Put(s, k, Edited(s, k, spec, fs))
    case Mark(k) => Put(s, k, Marked(s, k))
    case Foreign(id, entry) =>
      s.(remote := if entry.None? then s.remote - {id} else s.remote[id := entry.value],
         issued := if id in s.issued then s.issued else s.issued[id := None])
  }

  // ---- isolation ----

  /** An identifier that object k may hold. */
  predicate OwnId(s: State, k: Key, id: string) {
    id == "" || (id in s.issued && s.issued[id] == Some(k))
  }

  predicate ObjectOk(s: State, k: Key)
    requires k in s.store
  {
    OwnId(s, k, s.store[k].status.id) && s.store[k].version < s.clock
  }

  /** The entry a pass has appended and not yet recorded. */
  function Claim(ph: Phase): string {
    if ph.Settled? && ph.status.id != ph.rec.status.id then ph.status.id else ""
  }

  predicate PassOk(s: State, k: Key)
    requires k in s.passes
  {
    var ph := s.passes[k];
    && OwnId(s, k, ph.rec.status.id) && ph.rec.version < s.clock
    && (ph.Planned? ==> ph.plan.Create? || ((ph.plan.Drop? || ph.plan.Replace?) && ph.plan.victim.id == ph.rec.status.id))
    && (ph.Settled? ==> OwnId(s, k, ph.status.id))
    && (Claim(ph) != "" && k in s.store ==> s.store[k].status.id != Claim(ph))
    && (k in s.store && s.store[k].version == ph.rec.version ==>
          s.store[k].status == ph.rec.status && s.store[k].deleting == ph.rec.deleting)
  }

  ghost predicate Inv(s: State) {
    && "" !in s.issued && s.remote.Keys <= s.issued.Keys
    && (forall k :: k in s.store ==> ObjectOk(s, k))
    && (forall k :: k in s.passes ==> PassOk(s, k))
  }

  /** Nothing about other objects changes. */
  predicate OnlyTouches(s: State, s': State, k: Key) {
    && s.clock <= s'.clock
    && s'.store - {k} == s.store - {k} && s'.passes - {k} == s.passes - {k}
    && (forall id :: id in s.issued ==> id in s'.issued && s'.issued[id] == s.issued[id])
  }

  lemma OthersKept(s: State, s': State, k: Key)
    requires Inv(s) && OnlyTouches(s, s', k)
    requires "" !in s'.issued && s'.remote.Keys <= s'.issued.Keys
    requires k in s'.store ==> ObjectOk(s', k)
    requires k in s'.passes ==> PassOk(s', k)
    ensures Inv(s')
  {
    forall j | j in s'.store ensures ObjectOk(s', j) {
      if j != k {
        assert j in s'.store - {k} && (s'.store - {k})[j] == (s.store - {k})[j];
        assert ObjectOk(s, j);
      }
    }
    forall j | j in s'.passes ensures PassOk(s', j) {
      if j != k {
        assert j in s'.passes - {k} && (s'.passes - {k})[j] == (s.passes - {k})[j];
        assert PassOk(s, j);
        assert j in s'.store <==> j in s'.store - {k};
        assert j in s.store <==> j in s.store - {k};
        if j in s'.store {
          assert (s'.store - {k})[j] == (s.store - {k})[j];
        }
      }
    }
  }

  /** A plan only ever deletes the entry at the record's own identifier. */
  lemma VictimIsOwn(e: Env, rec: Record, l: Listing)
    ensures var plan := Decide(e.ext, e.me, rec, l);
      plan.Drop? || plan.Replace? ==> plan.victim.id == rec.status.id
  {
    FindFacts(if l.Listed? then l.records else [], rec.status.id);
  }

  lemma EnterKeepsInv(s: State, k: Key, ph: Phase)
    requires Inv(s) && k in s.store && (ph.Asking? || ph.Finalizing?)
    requires ph.rec.status == s.store[k].status && ph.rec.version == s.store[k].version
    requires ph.rec.deleting == s.store[k].deleting
    ensures Inv(Entered(s, k, ph))
  {
    assert ObjectOk(s, k);
    OthersKept(s, Entered(s, k, ph), k);
  }

  lemma FetchKeepsInv(e: Env, s: State, k: Key)
    requires Inv(s) && k !in s.passes
    ensures Inv(Fetched(e, s, k))
  {
    if k in s.store {
      var rec := Snapshot(e.ext, s.store[k]);
      EnterKeepsInv(s, k, Finalizing(rec));
      EnterKeepsInv(s, k, Asking(rec));
    }
  }

  lemma ListKeepsInv(e: Env, s: State, k: Key, l: Listing)
    requires Inv(s) && k in s.passes && s.passes[k].Asking?
    ensures Inv(AfterListing(s, k, s.passes[k].rec, Decide(e.ext, e.me, s.passes[k].rec, l)))
  {
    var rec := s.passes[k].rec;
    assert PassOk(s, k);
    VictimIsOwn(e, rec, l);
    PlannedKeepsInv(s, k, rec, Decide(e.ext, e.me, rec, l));
  }

  lemma PlannedKeepsInv(s: State, k: Key, rec: Record, plan: Plan)
    requires Inv(s) && k in s.passes && s.passes[k] == Asking(rec)
    requires plan.Drop? || plan.Replace? ==> plan.victim.id == rec.status.id
    ensures Inv(AfterListing(s, k, rec, plan))
  {
    assert PassOk(s, k);
    OthersKept(s, AfterListing(s, k, rec, plan), k);
  }

  lemma DeleteKeepsInv(s: State, k: Key)
    requires Inv(s) && k in s.passes && s.passes[k].Planned? && (s.passes[k].plan.Drop? || s.passes[k].plan.Replace?)
    ensures Inv(AfterDelete(s, k, s.passes[k]))
  {
    assert PassOk(s, k);
    OthersKept(s, AfterDelete(s, k, s.passes[k]), k);
  }

  lemma EndKeepsInv(s: State, k: Key)
    requires Inv(s)
    ensures Inv(Ended(s, k))
  {
    OthersKept(s, Ended(s, k), k);
  }

  lemma AppendKeepsInv(e: Env, s: State, k: Key, want: Data, r: Reply)
    requires Inv(s) && k in s.passes && (r.AppendFailed? || Fresh(s, r.id))
    ensures Inv(AfterAppending(e, s, k, s.passes[k].rec, want, r))
  {
    var s' := AfterAppending(e, s, k, s.passes[k].rec, want, r);
    assert PassOk(s, k);
    if k in s.store {
      assert ObjectOk(s, k);
    }
    OthersKept(s, s', k);
  }

  /** A write that gives the object a new version, or removes it, keeps the invariant. */
  lemma PutKeepsInv(s: State, k: Key, o: Option<Record>)
    requires Inv(s)
    requires o.Some? ==> OwnId(s, k, o.value.status.id) && o.value.version <= s.clock
    requires o.Some? && k in s.passes ==>
      o.value.version == s.clock && (Claim(s.passes[k]) == "" || o.value.status.id != Claim(s.passes[k]))
    ensures Inv(Put(s, k, o))
  {
    if k in s.passes {
      assert PassOk(s, k);
    }
    OthersKept(s, Put(s, k, o), k);
  }

  lemma ConclusionKeepsInv(e: Env, s: State, k: Key, look: Option<bool>)
    requires Inv(s) && k in s.passes && k in s.store
    ensures Inv(Put(Ended(s, k), k, Stored(s.store[k], LastWrite(e, s.passes[k], look), s.clock)))
  {
    var ph := s.passes[k];
    assert PassOk(s, k) && ObjectOk(s, k);
    EndKeepsInv(s, k);
    LastWriteStatus(e, ph, look);
    PutKeepsInv(Ended(s, k), k, Stored(s.store[k], LastWrite(e, ph, look), s.clock));
  }

  /** The identifier a pass writes is the one it has settled on, and a claim is always written. */
  lemma LastWriteStatus(e: Env, ph: Phase, look: Option<bool>)
    ensures var w := LastWrite(e, ph, look);
      w.WriteStatus? ==> ph.Settled? && w.status.id == ph.status.id
    ensures Claim(ph) != "" ==> LastWrite(e, ph, look).WriteStatus?
  {
  }

  lemma ForeignKeepsInv(e: Env, s: State, id: string, entry: Option<Placed>)
    requires Inv(s) && Enabled(e, s, Foreign(id, entry))
    ensures Inv(Apply(e, s, Foreign(id, entry)))
  {
    var s' := Apply(e, s, Foreign(id, entry));
    forall k | k in s'.store ensures ObjectOk(s', k) { assert ObjectOk(s, k); }
    forall k | k in s'.passes ensures PassOk(s', k) { assert PassOk(s, k); }
  }

  /** Isolation: every step of every participant keeps the invariant. */
  lemma StepKeepsInv(e: Env, s: State, step: Step)
    requires Inv(s) && Enabled(e, s, step)
    ensures Inv(Apply(e, s, step))
  {
    match step
    case Fetch(k) => FetchKeepsInv(e, s, k);
    case List(k, l) => ListKeepsInv(e, s, k, l);
    case Delete(k, fails) => if fails { EndKeepsInv(s, k); } else { DeleteKeepsInv(s, k); }
    case Append(k, r) =>
      var ph := s.passes[k];
      AppendKeepsInv(e, s, k, if ph.Appending? then ph.want else ph.plan.want, r);
    case Conclusion(k, look, accepted) =>
      if Accepted(s, k, s.passes[k], accepted) { ConclusionKeepsInv(e, s, k, look); } else { EndKeepsInv(s, k); }
    case Crash(k) => EndKeepsInv(s, k);
    case Make(k, spec, fs) => PutKeepsInv(s, k, Some(Record(false, fs, s.clock, spec, NO_STATUS)));
    case Edit(k, spec, fs) =>
      assert ObjectOk(s, k) && (k in s.passes ==> PassOk(s, k));
      PutKeepsInv(s, k, Edited(s, k, spec, fs));
    case Mark(k) =>
      assert ObjectOk(s, k) && (k in s.passes ==> PassOk(s, k));
      PutKeepsInv(s, k, Marked(s, k));
    case Foreign(id, entry) => ForeignKeepsInv(e, s, id, entry);
  }
}
