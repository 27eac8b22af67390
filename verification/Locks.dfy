/** The lock table of the DNSRecord controller: concurrent calls, a table mutex around the
    look-up-or-create of a key's mutex, then the key's mutex for the rest of the pass. */
module Locks {
  import opened Text

  /** A sync.Mutex, by identity. */
  class Mutex {
    constructor () {}
  }

  /** The table as a call under the table mutex sees it. */
  class LockTable {
    var locks: map<string, Mutex>

    ghost predicate Valid()
      reads this
    {
      forall a, b :: a in locks && b in locks && locks[a] == locks[b] ==> a == b
    }

    constructor ()
      ensures Valid() && locks == map[]
    {
      locks := map[];
    }

    /** The mutex of a key: created once, never replaced, never shared between keys. */
    method MutexFor(key: string) returns (m: Mutex)
      requires Valid()
      modifies this
      ensures Valid() && key in locks && m == locks[key]
      ensures key in old(locks) ==> locks == old(locks)
      ensures key !in old(locks) ==> fresh(m) && locks == old(locks)[key := m]
    {
      if key in locks {
        return locks[key];
      }
      m := new Mutex();
      assert forall a :: a in locks ==> locks[a] != m;
      locks := locks[key := m];
    }
  }

  // ---- any number of concurrent calls ----

  /** Where a call is: before the table mutex, holding it (before, between and after look-up
      and insertion), waiting for the key's mutex, or in the pass. */
  datatype Pc =
    | Entering(key: string)
    | InTable(key: string)
    | Probed(key: string, found: Option<nat>)
    | Leaving(key: string, mutex: nat)
    | Waiting(key: string, mutex: nat)
    | Inside(key: string, mutex: nat)

  datatype State = State(
    table: Option<nat>,          // the call that holds the table mutex
    locks: map<string, nat>,     // mutexes by key
    held: map<nat, nat>,         // the call that holds each locked mutex
    next: nat,                   // the next mutex to be created
    calls: map<nat, Pc>)         // calls in progress

  datatype Step = Call(t: nat, key: string) | TakeTable(t: nat) | Probe(t: nat) | Install(t: nat)
                | DropTable(t: nat) | Acquire(t: nat) | Release(t: nat)

  predicate Init(s: State) {
    s.table == None && s.locks == map[] && s.held == map[] && s.calls == map[]
  }

  predicate Enabled(s: State, step: Step) {
    if step.Call? then step.t !in s.calls
    else
      step.t in s.calls &&
      match step
      case TakeTable(t) => s.calls[t].Entering? && s.table == None
      case Probe(t) => s.calls[t].InTable?
      case Install(t) => s.calls[t].Probed?
      case DropTable(t) => s.calls[t].Leaving?
      case Acquire(t) => s.calls[t].Waiting? && s.calls[t].mutex !in s.held
      case _ => s.calls[step.t].Inside?
  }

  function Get(locks: map<string, nat>, key: string): Option<nat> {
    if key in locks then Some(locks[key]) else None
  }

  function Apply(s: State, step: Step): State
    requires Enabled(s, step)
  {
    match step
    case Call(t, key) => s.(calls := s.calls[t := Entering(key)])
    case TakeTable(t) => s.(table := Some(t), calls := s.calls[t := InTable(s.calls[t].key)])
    case Probe(t) => var key := s.calls[t].key; s.(calls := s.calls[t := Probed(key, Get(s.locks, key))])
    case Install(t) =>
      var key := s.calls[t].key;
      (match s.calls[t].found
       case Some(m) => s.(calls := s.calls[t := Leaving(key, m)])
       case None => s.(locks := s.locks[key := s.next], next := s.next + 1, calls := s.calls[t := Leaving(key, s.next)]))
    case DropTable(t) => s.(table := None, calls := s.calls[t := Waiting(s.calls[t].key, s.calls[t].mutex)])
    case Acquire(t) =>
      s.(held := s.held[s.calls[t].mutex := t], calls := s.calls[t := Inside(s.calls[t].key, s.calls[t].mutex)])
    case Release(t) => s.(held := s.held - {s.calls[t].mutex}, calls := s.calls - {t})
  }

  predicate HoldsTable(pc: Pc) {
    pc.InTable? || pc.Probed? || pc.Leaving?
  }

  predicate CallOk(s: State, t: nat)
    requires t in s.calls
  {
    var pc := s.calls[t];
    && (HoldsTable(pc) <==> s.table == Some(t))
    && (pc.Probed? ==> pc.found == Get(s.locks, pc.key))
    && (pc.Leaving? || pc.Waiting? || pc.Inside? ==> pc.key in s.locks && s.locks[pc.key] == pc.mutex)
    && (pc.Inside? ==> pc.mutex in s.held && s.held[pc.mutex] == t)
  }

  ghost predicate Inv(s: State) {
    && (s.table.Some? ==> s.table.value in s.calls)
    && (forall a, b :: a in s.locks && b in s.locks && s.locks[a] == s.locks[b] ==> a == b)
    && (forall a :: a in s.locks ==> s.locks[a] < s.next)
    && (forall m :: m in s.held ==> s.held[m] in s.calls && s.calls[s.held[m]].Inside? && s.calls[s.held[m]].mutex == m)
    && (forall t :: t in s.calls ==> CallOk(s, t))
  }

  /** Steps around the table mutex. */
  lemma TableStepKeepsInv(s: State, step: Step)
    requires Inv(s) && Enabled(s, step) && (step.TakeTable? || step.Probe? || step.DropTable?)
    ensures Inv(Apply(s, step))
  {
    var s' := Apply(s, step);
    assert CallOk(s, step.t);
    forall t | t in s'.calls ensures CallOk(s', t) {
      assert CallOk(s, t);
    }
  }

  lemma InstallKeepsInv(s: State, t: nat)
    requires Inv(s) && Enabled(s, Install(t))
    ensures Inv(Apply(s, Install(t)))
  {
    var s' := Apply(s, Install(t));
    assert CallOk(s, t);
    forall u | u in s'.calls ensures CallOk(s', u) {
      assert CallOk(s, u);
    }
  }

  /** Steps around a key's mutex. */
  lemma MutexStepKeepsInv(s: State, step: Step)
    requires Inv(s) && Enabled(s, step) && (step.Call? || step.Acquire? || step.Release?)
    ensures Inv(Apply(s, step))
  {
    var s' := Apply(s, step);
    if !step.Call? {
      assert CallOk(s, step.t);
    }
    forall t | t in s'.calls ensures CallOk(s', t) {
      if t != step.t {
        assert CallOk(s, t);
      }
    }
  }

  /** Every step keeps the invariant, and no step replaces a key's mutex. */
  lemma StepKeepsInv(s: State, step: Step)
    requires Inv(s) && Enabled(s, step)
    ensures Inv(Apply(s, step))
    ensures forall key :: key in s.locks ==> key in Apply(s, step).locks && Apply(s, step).locks[key] == s.locks[key]
  {
    if step.Call? || step.Acquire? || step.Release? {
      MutexStepKeepsInv(s, step);
    } else if step.Install? {
      InstallKeepsInv(s, step.t);
      assert CallOk(s, step.t);
    } else {
      TableStepKeepsInv(s, step);
    }
  }

  predicate Possible(s: State, steps: seq<Step>)
    decreases |steps|
  {
    steps != [] ==> Enabled(s, steps[0]) && Possible(Apply(s, steps[0]), steps[1..])
  }

  function Final(s: State, steps: seq<Step>): State
    requires Possible(s, steps)
    decreases |steps|
  {
    if steps == [] then s else Final(Apply(s, steps[0]), steps[1..])
  }

  lemma {:induction false} RunKeepsInv(s: State, steps: seq<Step>)
    requires Inv(s) && Possible(s, steps)
    ensures Inv(Final(s, steps))
    ensures forall key :: key in s.locks ==> key in Final(s, steps).locks && Final(s, steps).locks[key] == s.locks[key]
    decreases |steps|
  {
    if steps != [] {
      StepKeepsInv(s, steps[0]);
      RunKeepsInv(Apply(s, steps[0]), steps[1..]);
    }
  }

  /** Mutual exclusion: at any moment of any run, two calls inside the pass of one key are
      the same call, and calls that wait for a key's mutex wait for a call of the same key. */
  lemma MutualExclusion(s0: State, steps: seq<Step>, t: nat, u: nat)
    requires Init(s0) && Possible(s0, steps)
    requires var s := Final(s0, steps); t in s.calls && u in s.calls && s.calls[t].Inside?
    ensures var s := Final(s0, steps);
      && (s.calls[u].Inside? && s.calls[u].key == s.calls[t].key ==> u == t)
      && (s.calls[u].Waiting? && s.calls[u].mutex == s.calls[t].mutex ==> s.calls[u].key == s.calls[t].key)
  {
    RunKeepsInv(s0, steps);
    var s := Final(s0, steps);
    assert CallOk(s, t) && CallOk(s, u);
  }

  /** The keys with a pass in progress. */
  function Busy(s: State): set<string> {
    set t | t in s.calls && s.calls[t].Inside? :: s.calls[t].key
  }

  /** The step begins a pass for a key that has none, ends its own, or does neither. */
  predicate OneAtATime(s: State, step: Step)
    requires Enabled(s, step)
  {
    var s' := Apply(s, step);
    if step.Acquire? then s.calls[step.t].key !in Busy(s) && Busy(s') == Busy(s) + {s.calls[step.t].key}
    else if step.Release? then s.calls[step.t].key in Busy(s) && Busy(s') == Busy(s) - {s.calls[step.t].key}
    else Busy(s') == Busy(s)
  }

  /** A pass starts only for a key that has none in progress and ends only its own, which is
      how passes begin and end in the protocol of interleaved passes. */
  lemma OnePassPerKey(s0: State, steps: seq<Step>, step: Step)
    requires Init(s0) && Possible(s0, steps) && Enabled(Final(s0, steps), step)
    ensures OneAtATime(Final(s0, steps), step)
  {
    RunKeepsInv(s0, steps);
    BusyAfter(Final(s0, steps), step);
  }

  predicate InsideOf(s: State, t: nat, key: string) {
    t in s.calls && s.calls[t].Inside? && s.calls[t].key == key
  }

  ghost predicate OtherInside(s: State, t: nat, key: string) {
    exists u :: u != t && InsideOf(s, u, key)
  }

  lemma BusySplit(s: State, t: nat, key: string)
    ensures key in Busy(s) <==> InsideOf(s, t, key) || OtherInside(s, t, key)
  {
    if u :| u in s.calls && s.calls[u].Inside? && s.calls[u].key == key {
      assert InsideOf(s, u, key);
    }
  }

  lemma OthersStayInside(s: State, step: Step, key: string)
    requires Enabled(s, step)
    ensures OtherInside(Apply(s, step), step.t, key) <==> OtherInside(s, step.t, key)
  {
    var s' := Apply(s, step);
    if u :| u != step.t && InsideOf(s, u, key) {
      assert InsideOf(s', u, key);
    }
    if u :| u != step.t && InsideOf(s', u, key) {
      assert InsideOf(s, u, key);
    }
  }

  /** A call that is inside, or finds the mutex of its key free, has no other inside. */
  lemma NoOtherInside(s: State, t: nat)
    requires Inv(s) && t in s.calls
    requires s.calls[t].Inside? || (s.calls[t].Waiting? && s.calls[t].mutex !in s.held)
    ensures !OtherInside(s, t, s.calls[t].key)
  {
    assert CallOk(s, t);
    if u :| u != t && InsideOf(s, u, s.calls[t].key) {
      assert CallOk(s, u);
    }
  }

  lemma BusyAfter(s: State, step: Step)
    requires Inv(s) && Enabled(s, step)
    ensures OneAtATime(s, step)
  {
    var s', t := Apply(s, step), step.t;
    forall key ensures key in Busy(s) <==> InsideOf(s, t, key) || OtherInside(s, t, key) {
      BusySplit(s, t, key);
    }
    forall key ensures key in Busy(s') <==> InsideOf(s', t, key) || OtherInside(s, t, key) {
      BusySplit(s', t, key);
      OthersStayInside(s, step, key);
    }
    if step.Acquire? || step.Release? {
      NoOtherInside(s, t);
    }
  }

  /** No deadlock: as long as any call is in progress, some call in progress can go on. */
  lemma SomeCallCanGoOn(s0: State, steps: seq<Step>, t: nat) returns (step: Step)
    requires Init(s0) && Possible(s0, steps) && t in Final(s0, steps).calls
    ensures Enabled(Final(s0, steps), step) && !step.Call?
  {
    RunKeepsInv(s0, steps);
    var s := Final(s0, steps);
    assert CallOk(s, t);
    var u := if s.table.Some? then s.table.value
             else if s.calls[t].Waiting? && s.calls[t].mutex in s.held then s.held[s.calls[t].mutex] else t;
    assert CallOk(s, u);
    match s.calls[u] {
      case Entering(_) => step := TakeTable(u);
      case InTable(_) => step := Probe(u);
      case Probed(_, _) => step := Install(u);
      case Leaving(_, _) => step := DropTable(u);
      case Waiting(_, _) => step := Acquire(u);
      case Inside(_, _) => step := Release(u);
    }
  }
}
