/** A pass that nothing interleaves with takes the steps of the protocol to the result that
    the controller's `Reconcile` computes: the two descriptions are of one behaviour. */
module Solo {
  import opened Text
  import opened Records
  import opened Normaliser
  import opened Provider
  import opened Controller
  import opened Protocol
  import opened Isolation

  lemma Then(e: Env, s: State, step: Step, rest: seq<Step>)
    requires Enabled(e, s, step) && Possible(e, Apply(e, s, step), rest)
    ensures Possible(e, s, [step] + rest) && Final(e, s, [step] + rest) == Final(e, Apply(e, s, step), rest)
  {
    assert ([step] + rest)[1..] == rest;
  }

  /** The state in which object, zones and locks are as after the pass. */
  predicate Reached(s: State, s': State, k: Key, obj: Option<Record>, remote: Remote) {
    s'.remote == remote && s'.passes == s.passes - {k} &&
    s'.store == match obj case None => s.store - {k} case Some(o) => s.store[k := o]
  }

  lemma EndSteps(e: Env, s: State, k: Key)
    requires k in s.passes && k in s.store
    ensures Reached(s, Ended(s, k), k, Some(s.store[k]), s.remote)
  {
  }

  /** The last step, for a pass whose snapshot is current. */
  lemma ConcludeSteps(e: Env, s: State, k: Key, look: Option<bool>) returns (steps: seq<Step>)
    requires k in s.passes && (s.passes[k].Finalizing? || s.passes[k].Settled?)
    requires k in s.store && s.store[k].version == s.passes[k].rec.version
    ensures Possible(e, s, steps)
    ensures Reached(s, Final(e, s, steps), k, Stored(s.store[k], LastWrite(e, s.passes[k], look), s.clock), s.remote)
  {
    steps := [Conclusion(k, look, true)];
    var s' := Apply(e, s, steps[0]);
    assert Possible(e, s', []) && Final(e, s', []) == s';
    Then(e, s, steps[0], []);
  }

  function AppendWant(ph: Phase): Data
    requires ph.Appending? || (ph.Planned? && ph.plan.Create?)
  {
    if ph.Appending? then ph.want else ph.plan.want
  }

  lemma AppendSteps(e: Env, s: State, k: Key, reply: Reply, look: Remote -> Option<bool>) returns (steps: seq<Step>)
    requires k in s.passes && (s.passes[k].Appending? || (s.passes[k].Planned? && s.passes[k].plan.Create?))
    requires reply.AppendFailed? || Fresh(s, reply.id)
    requires k in s.store && s.store[k].version == s.passes[k].rec.version
    ensures Possible(e, s, steps)
    ensures var rec := s.passes[k].rec;
      var p := AfterAppend(e.me, rec.status, s.remote, GoalZone(e.ext, e.me, rec), AppendWant(s.passes[k]), reply);
      Reached(s, Final(e, s, steps), k,
              if p.ok then Stored(s.store[k], Conclude(e.ext, rec, p.status, look(p.remote)).write, s.clock) else Some(s.store[k]),
              p.remote)
  {
    var step := Append(k, reply);
    var s' := Apply(e, s, step);
    if reply.Appended? {
      var rest := ConcludeSteps(e, s', k, look(s'.remote));
      Then(e, s, step, rest);
      steps := [step] + rest;
    } else {
      assert Possible(e, s', []) && Final(e, s', []) == s';
      Then(e, s, step, []);
      steps := [step] + [];
      EndSteps(e, s, k);
    }
  }

  /** What the pass at k comes to when the provider's outcome is p. */
  predicate Leads(e: Env, s: State, s': State, k: Key, rec: Record, p: Outcome, look: Remote -> Option<bool>)
    requires k in s.store
  {
    Reached(s, s', k,
            if p.ok then Stored(s.store[k], Conclude(e.ext, rec, p.status, look(p.remote)).write, s.clock) else Some(s.store[k]),
            p.remote)
  }

  lemma DeleteSteps(e: Env, s: State, k: Key, deleteFails: bool, reply: Reply, look: Remote -> Option<bool>)
    returns (steps: seq<Step>)
    requires k in s.passes && s.passes[k].Planned? && (s.passes[k].plan.Drop? || s.passes[k].plan.Replace?)
    requires reply.AppendFailed? || Fresh(s, reply.id)
    requires k in s.store && s.store[k].version == s.passes[k].rec.version
    ensures Possible(e, s, steps)
    ensures var ph := s.passes[k];
      Leads(e, s, Final(e, s, steps), k, ph.rec,
            Carry(e.me, ph.rec.status, s.remote, GoalZone(e.ext, e.me, ph.rec), ph.plan, deleteFails, reply), look)
  {
    var step := Delete(k, deleteFails);
    var s' := Apply(e, s, step);
    if deleteFails {
      steps := [];
      EndSteps(e, s, k);
    } else if s.passes[k].plan.Drop? {
      steps := ConcludeSteps(e, s', k, look(s'.remote));
    } else {
      steps := AppendSteps(e, s', k, reply, look);
    }
    Then(e, s, step, steps);
    steps := [step] + steps;
  }

  /** The steps that carry out a plan and conclude. */
  lemma PlanSteps(e: Env, s: State, k: Key, plan: Plan, deleteFails: bool, reply: Reply, look: Remote -> Option<bool>)
    returns (steps: seq<Step>)
    requires k in s.passes && s.passes[k].Asking? && (reply.AppendFailed? || Fresh(s, reply.id))
    requires k in s.store && s.store[k].version == s.passes[k].rec.version
    ensures Possible(e, AfterListing(s, k, s.passes[k].rec, plan), steps)
    ensures var rec := s.passes[k].rec;
      Leads(e, s, Final(e, AfterListing(s, k, rec, plan), steps), k, rec,
            Carry(e.me, rec.status, s.remote, GoalZone(e.ext, e.me, rec), plan, deleteFails, reply), look)
  {
    var s1 := AfterListing(s, k, s.passes[k].rec, plan);
    match plan
    case Refuse =>
      steps := [];
      EndSteps(e, s, k);
    case Keep => steps := ConcludeSteps(e, s1, k, look(s.remote));
    case Forget => steps := ConcludeSteps(e, s1, k, look(s.remote));
    case Create(_) => steps := AppendSteps(e, s1, k, reply, look);
    case _ => steps := DeleteSteps(e, s1, k, deleteFails, reply, look);
  }

  /** A whole pass, from fetch to last write, is a run of the protocol. */
  lemma PassIsARun(e: Env, s: State, k: Key, calls: Calls, look: Remote -> Option<bool>) returns (steps: seq<Step>)
    requires k in s.store && k !in s.passes
    requires calls.reply.AppendFailed? || Fresh(s, calls.reply.id)
    requires calls.listing.Listed? ==>
      Truthful(calls.listing.records, s.remote, GoalZone(e.ext, e.me, Snapshot(e.ext, s.store[k])))
    ensures Possible(e, s, steps)
    ensures var r := Pass(e.ext, e.me, s.store[k], s.remote, calls, look, s.clock);
      Reached(s, Final(e, s, steps), k, r.obj, r.remote)
  {
    var rec := Snapshot(e.ext, s.store[k]);
    var s1 := Apply(e, s, Fetch(k));
    assert s.passes - {k} == s.passes;
    match Open(e.ext, rec)
    case Reject =>
      steps := [];
      assert s.store[k := s.store[k]] == s.store;
    case AddFinalizer =>
      steps := ConcludeSteps(e, s1, k, None);
      Then(e, s, Fetch(k), steps);
      steps := [Fetch(k)] + steps;
    case Consult =>
      steps := PlanSteps(e, s1, k, Decide(e.ext, e.me, rec, calls.listing), calls.deleteFails, calls.reply, look);
      Then(e, s1, List(k, calls.listing), steps);
      steps := [List(k, calls.listing)] + steps;
      Then(e, s, Fetch(k), steps);
      steps := [Fetch(k)] + steps;
  }
}
