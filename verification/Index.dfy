/** The record index of the CoreDNS plugin (pkg/coredns/k8s_dns/provider.go): informer events
    maintain a map from renderings to records, which should hold the active objects. */
module Index {
  import opened Text
  import opened Suffixes
  import opened Records
  import opened Zones
  import opened Routing

  /** How objects are read: conversion to a record, and rendering. */
  datatype Reading = Reading(convert: Spec -> Option<RR>, render: RR -> string)

  function ReadingOf(ext: Externals): Reading {
    Reading(s => ToRR(ext, s), ext.printRR)
  }

  predicate Active(s: Spec) {
    s.active.GetOr(true)
  }

  // ---- the handlers ----

  function OnAdd(r: Reading, records: Index, s: Spec): Index {
    match r.convert(s)
    case None => records
    case Some(rr) => if Active(s) then records[r.render(rr) := rr] else records
  }

  function OnUpdate(r: Reading, records: Index, was: Spec, now: Spec): Index {
    match (r.convert(was), r.convert(now))
    case (Some(o), Some(n)) =>
      var rest := records - {r.render(o)};
      if Active(now) then rest[r.render(n) := n] else rest
    case _ => records
  }

  function OnDelete(r: Reading, records: Index, s: Spec): Index {
    match r.convert(s)
    case None => records
    case Some(rr) => records - {r.render(rr)}
  }

  /** The event handlers, each followed by a rebuild of the zones. */
  class Handlers {
    const p: ZoneProvider

    constructor (p: ZoneProvider)
      ensures this.p == p
    {
      this.p := p;
    }

    method AddFunc(s: Spec)
      requires p.Valid()
      modifies p
      ensures p.records == OnAdd(ReadingOf(p.ext), old(p.records), s)
      ensures p.Valid()
    {
      var rr := ToRR(p.ext, s);
      if rr.None? || !s.active.GetOr(true) {
        return;
      }
      p.records := p.records[p.ext.printRR(rr.value) := rr.value];
      p.Sync();
    }

    method UpdateFunc(was: Spec, now: Spec)
      requires p.Valid()
      modifies p
      ensures p.records == OnUpdate(ReadingOf(p.ext), old(p.records), was, now)
      ensures p.Valid()
    {
      var o := ToRR(p.ext, was);
      if o.None? {
        return;
      }
      var n := ToRR(p.ext, now);
      if n.None? {
        return;
      }
      p.records := p.records - {p.ext.printRR(o.value)};
      if now.active.GetOr(true) {
        p.records := p.records[p.ext.printRR(n.value) := n.value];
      }
      p.Sync();
    }

    method DeleteFunc(s: Spec)
      requires p.Valid()
      modifies p
      ensures p.records == OnDelete(ReadingOf(p.ext), old(p.records), s)
      ensures p.Valid()
    {
      var rr := ToRR(p.ext, s);
      if rr.None? {
        return;
      }
      p.records := p.records - {p.ext.printRR(rr.value)};
      p.Sync();
    }
  }

  // ---- informer histories ----

  datatype State = State(live: map<string, Spec>, records: Index)

  /** An object appears, changes, or goes; a missed deletion is delivered as a tombstone,
      which the handler rejects. */
  datatype Event = Appear(key: string, spec: Spec) | Change(key: string, spec: Spec) | Vanish(key: string, tombstone: bool)

  predicate Fits(s: State, ev: Event) {
    if ev.Appear? then ev.key !in s.live else ev.key in s.live
  }

  function Step(r: Reading, s: State, ev: Event): State
    requires Fits(s, ev)
  {
    match ev
    case Appear(k, spec) => State(s.live[k := spec], OnAdd(r, s.records, spec))
    case Change(k, spec) => State(s.live[k := spec], OnUpdate(r, s.records, s.live[k], spec))
    case Vanish(k, tombstone) =>
      State(s.live - {k}, if tombstone then s.records else OnDelete(r, s.records, s.live[k]))
  }

  /** What an object contributes to the index. */
  function Rendering(r: Reading, s: Spec): Option<string> {
    if r.convert(s).Some? && Active(s) then Some(r.render(r.convert(s).value)) else None
  }

  /** Some other object renders the same. */
  ghost predicate ByOther(r: Reading, s: State, k: string, x: string) {
    exists j :: j in s.live && j != k && Rendering(r, s.live[j]) == Some(x)
  }

  ghost predicate Backed(r: Reading, s: State, x: string) {
    exists j :: j in s.live && Rendering(r, s.live[j]) == Some(x)
  }

  /** The index holds exactly the renderings of the live active objects. */
  ghost predicate Agree(r: Reading, s: State) {
    forall x :: x in s.records <==> Backed(r, s, x)
  }

  /** The events after which the index no longer agrees: the deletion of a rendering that
      another live object shares, a change to or from an object that does not convert, and a
      tombstone, each unless another object makes up for it. */
  ghost predicate Breaks(r: Reading, s: State, ev: Event)
    requires Fits(s, ev)
  {
    match ev
    case Appear(_, _) => false
    case Change(k, now) =>
      var was := s.live[k];
      if r.convert(was).Some? && r.convert(now).Some? then
        var x := r.render(r.convert(was).value);
        ByOther(r, s, k, x) && Rendering(r, now) != Some(x)
      else
        (Rendering(r, was).Some? && !ByOther(r, s, k, Rendering(r, was).value)) ||
        (Rendering(r, now).Some? && !ByOther(r, s, k, Rendering(r, now).value))
    case Vanish(k, tombstone) =>
      var was := s.live[k];
      if tombstone then Rendering(r, was).Some? && !ByOther(r, s, k, Rendering(r, was).value)
      else r.convert(was).Some? && ByOther(r, s, k, r.render(r.convert(was).value))
  }

  /** Backing by an object and by the others. */
  lemma BackedSplit(r: Reading, s: State, k: string, x: string)
    requires k in s.live
    ensures Backed(r, s, x) <==> Rendering(r, s.live[k]) == Some(x) || ByOther(r, s, k, x)
  {
  }

  lemma OthersUnchanged(r: Reading, s: State, s': State, k: string, x: string)
    requires s'.live - {k} == s.live - {k}
    ensures ByOther(r, s', k, x) <==> ByOther(r, s, k, x)
  {
    if j :| j in s.live && j != k && Rendering(r, s.live[j]) == Some(x) {
      assert j in s'.live - {k} && (s'.live - {k})[j] == (s.live - {k})[j];
    }
    if j :| j in s'.live && j != k && Rendering(r, s'.live[j]) == Some(x) {
      assert j in s.live - {k} && (s'.live - {k})[j] == (s.live - {k})[j];
    }
  }

  /** What is backed after an event: by the object as it is now, or by the others. */
  lemma BackedAfter(r: Reading, s: State, ev: Event, x: string)
    requires Fits(s, ev)
    ensures Backed(r, Step(r, s, ev), x) <==>
      (!ev.Vanish? && Rendering(r, ev.spec) == Some(x)) || ByOther(r, s, ev.key, x)
    ensures Backed(r, s, x) <==>
      (!ev.Appear? && Rendering(r, s.live[ev.key]) == Some(x)) || ByOther(r, s, ev.key, x)
  {
    var s' := Step(r, s, ev);
    assert s'.live - {ev.key} == s.live - {ev.key};
    OthersUnchanged(r, s, s', ev.key, x);
    if ev.key in s.live { BackedSplit(r, s, ev.key, x); }
    if ev.key in s'.live { BackedSplit(r, s', ev.key, x); }
  }

  /** An event keeps the index in agreement exactly when it does not break it. */
  lemma AgreementKept(r: Reading, s: State, ev: Event)
    requires Agree(r, s) && Fits(s, ev)
    ensures Agree(r, Step(r, s, ev)) <==> !Breaks(r, s, ev)
  {
    var s' := Step(r, s, ev);
    forall x ensures Backed(r, s', x) <==> (!ev.Vanish? && Rendering(r, ev.spec) == Some(x)) || ByOther(r, s, ev.key, x) {
      BackedAfter(r, s, ev, x);
    }
    forall x ensures Backed(r, s, x) <==> (!ev.Appear? && Rendering(r, s.live[ev.key]) == Some(x)) || ByOther(r, s, ev.key, x) {
      BackedAfter(r, s, ev, x);
    }
  }

  /** An object that converts is in the index after it appears or changes exactly if its
      active flag is not off; the one that was there before leaves, and no other entry is
      added. */
  lemma IndexedUnlessOff(r: Reading, s: State, k: string, now: Spec)
    requires r.convert(now).Some?
    ensures k !in s.live ==>
      var s' := Step(r, s, Appear(k, now));
      s'.records == if now.active == Some(false) then s.records else s.records[r.render(r.convert(now).value) := r.convert(now).value]
    ensures k in s.live && r.convert(s.live[k]).Some? ==>
      var s', x, y := Step(r, s, Change(k, now)), r.render(r.convert(s.live[k]).value), r.render(r.convert(now).value);
      && (now.active == Some(false) ==> s'.records == s.records - {x})
      && (now.active != Some(false) ==> s'.records == (s.records - {x})[y := r.convert(now).value])
  {
  }

  // ---- whole histories ----

  predicate Possible(r: Reading, s: State, evs: seq<Event>)
    decreases |evs|
  {
    evs != [] ==> Fits(s, evs[0]) && Possible(r, Step(r, s, evs[0]), evs[1..])
  }

  function Final(r: Reading, s: State, evs: seq<Event>): State
    requires Possible(r, s, evs)
    decreases |evs|
  {
    if evs == [] then s else Final(r, Step(r, s, evs[0]), evs[1..])
  }

  /** All events are over objects that convert, and none is a tombstone. */
  predicate Convertible(r: Reading, evs: seq<Event>) {
    forall ev :: ev in evs ==> if ev.Vanish? then !ev.tombstone else r.convert(ev.spec).Some?
  }

  predicate AllConvert(r: Reading, s: State) {
    forall k :: k in s.live ==> r.convert(s.live[k]).Some?
  }

  ghost predicate Source(r: Reading, s: State, x: string, rr: RR) {
    exists k :: k in s.live && Active(s.live[k]) && r.convert(s.live[k]) == Some(rr) && r.render(rr) == x
  }

  /** Every entry is the record of a live active object. */
  ghost predicate Sound(r: Reading, s: State) {
    forall x :: x in s.records ==> Source(r, s, x, s.records[x])
  }

  lemma SoundKept(r: Reading, s: State, ev: Event)
    requires Sound(r, s) && AllConvert(r, s) && Fits(s, ev) && Convertible(r, [ev])
    ensures Sound(r, Step(r, s, ev)) && AllConvert(r, Step(r, s, ev))
  {
    var s' := Step(r, s, ev);
    assert ev in [ev];
    forall x | x in s'.records ensures Source(r, s', x, s'.records[x]) {
      if x in s.records && s'.records[x] == s.records[x] && !(ev.Change? && Rendering(r, ev.spec) == Some(x)) {
        var k :| k in s.live && Active(s.live[k]) && r.convert(s.live[k]) == Some(s.records[x]) && r.render(s.records[x]) == x;
        assert k != ev.key;
        assert k in s'.live && s'.live[k] == s.live[k];
      } else {
        assert ev.key in s'.live && s'.live[ev.key] == ev.spec;
      }
    }
  }

  /** After any history over convertible objects, every entry of the index is the record of a
      live active object. */
  lemma {:induction false} SoundAlways(r: Reading, s: State, evs: seq<Event>)
    requires Sound(r, s) && AllConvert(r, s) && Possible(r, s, evs) && Convertible(r, evs)
    ensures Sound(r, Final(r, s, evs)) && AllConvert(r, Final(r, s, evs))
    decreases |evs|
  {
    if evs != [] {
      assert evs[0] in evs;
      SoundKept(r, s, evs[0]);
      SoundAlways(r, Step(r, s, evs[0]), evs[1..]);
    }
  }

  /** No event of the history breaks the agreement. */
  ghost predicate Unbroken(r: Reading, s: State, evs: seq<Event>)
    requires Possible(r, s, evs)
    decreases |evs|
  {
    evs != [] ==> !Breaks(r, s, evs[0]) && Unbroken(r, Step(r, s, evs[0]), evs[1..])
  }

  /** An unbroken history leaves exactly the renderings of the live active objects. */
  lemma {:induction false} AgreesAlways(r: Reading, s: State, evs: seq<Event>)
    requires Agree(r, s) && Possible(r, s, evs) && Unbroken(r, s, evs)
    ensures Agree(r, Final(r, s, evs))
    decreases |evs|
  {
    if evs != [] {
      AgreementKept(r, s, evs[0]);
      AgreesAlways(r, Step(r, s, evs[0]), evs[1..]);
    }
  }

  /** Live objects, active or not, render pairwise differently. */
  predicate Apart(r: Reading, s: State) {
    forall j, k :: j in s.live && k in s.live && j != k && r.convert(s.live[j]).Some? && r.convert(s.live[k]).Some? ==>
      r.render(r.convert(s.live[j]).value) != r.render(r.convert(s.live[k]).value)
  }

  predicate AlwaysApart(r: Reading, s: State, evs: seq<Event>)
    requires Possible(r, s, evs)
    decreases |evs|
  {
    Apart(r, s) && (evs != [] ==> AlwaysApart(r, Step(r, s, evs[0]), evs[1..]))
  }

  /** If the live objects convert and always render differently, nothing breaks. */
  lemma {:induction false} ApartIsUnbroken(r: Reading, s: State, evs: seq<Event>)
    requires AllConvert(r, s) && Possible(r, s, evs) && Convertible(r, evs) && AlwaysApart(r, s, evs)
    ensures Unbroken(r, s, evs)
    decreases |evs|
  {
    if evs != [] {
      assert evs[0] in evs;
      ApartIsUnbroken(r, Step(r, s, evs[0]), evs[1..]);
    }
  }

  lemma TwoEvents(r: Reading, s: State, a: Event, b: Event)
    requires Fits(s, a) && Fits(Step(r, s, a), b)
    ensures Possible(r, s, [a, b]) && Final(r, s, [a, b]) == Step(r, Step(r, s, a), b)
  {
    var s1 := Step(r, s, a);
    var s2 := Step(r, s1, b);
    assert [a, b][1..] == [b] && [b][1..] == [];
    assert Possible(r, s2, []) && Final(r, s2, []) == s2;
    assert Possible(r, s1, [b]) && Final(r, s1, [b]) == s2;
  }

  lemma ThreeEvents(r: Reading, s: State, a: Event, b: Event, c: Event)
    requires Fits(s, a) && Fits(Step(r, s, a), b) && Fits(Step(r, Step(r, s, a), b), c)
    ensures Possible(r, s, [a, b, c]) && Final(r, s, [a, b, c]) == Step(r, Step(r, Step(r, s, a), b), c)
  {
    assert [a, b, c][1..] == [b, c];
    TwoEvents(r, Step(r, s, a), b, c);
  }

  /** Two objects with one record: when one goes, the other is no longer served. */
  lemma TwinIsLost(r: Reading, spec: Spec)
    requires Rendering(r, spec).Some?
    ensures var s := State(map[], map[]);
      var evs := [Appear("a", spec), Appear("b", spec), Vanish("a", false)];
      Possible(r, s, evs) &&
      var s' := Final(r, s, evs);
      "b" in s'.live && s'.live["b"] == spec && Rendering(r, spec).value !in s'.records
  {
    ThreeEvents(r, State(map[], map[]), Appear("a", spec), Appear("b", spec), Vanish("a", false));
  }

  /** A deletion that arrives as a tombstone leaves the record in the index. */
  lemma TombstoneIsMissed(r: Reading, spec: Spec)
    requires Rendering(r, spec).Some?
    ensures var s, evs := State(map[], map[]), [Appear("a", spec), Vanish("a", true)];
      Possible(r, s, evs) &&
      var s' := Final(r, s, evs);
      s'.live == map[] && Rendering(r, spec).value in s'.records
  {
    TwoEvents(r, State(map[], map[]), Appear("a", spec), Vanish("a", true));
  }

  /** An object that stops converting leaves its old record behind, even once it is gone;
      one that starts converting is not served. */
  lemma UnconvertibleIsMissed(r: Reading, spec: Spec, broken: Spec)
    requires Rendering(r, spec).Some? && r.convert(broken).None?
    ensures var s, evs := State(map[], map[]), [Appear("a", spec), Change("a", broken), Vanish("a", false)];
      Possible(r, s, evs) &&
      var s' := Final(r, s, evs);
      s'.live == map[] && Rendering(r, spec).value in s'.records
    ensures var s, evs := State(map[], map[]), [Appear("a", broken), Change("a", spec)];
      Possible(r, s, evs) &&
      var s' := Final(r, s, evs);
      s'.live == map["a" := spec] && s'.records == map[]
  {
    ThreeEvents(r, State(map[], map[]), Appear("a", spec), Change("a", broken), Vanish("a", false));
    TwoEvents(r, State(map[], map[]), Appear("a", broken), Change("a", spec));
  }

  // ---- from objects to answers ----

  /** Live active objects that render as this one does convert to the same record. */
  predicate Alone(ext: Externals, s: State, k: string)
    requires k in s.live
  {
    var o := s.live[k];
    forall j :: j in s.live && Rendering(ReadingOf(ext), s.live[j]) == Rendering(ReadingOf(ext), o) ==>
      ToRR(ext, s.live[j]) == ToRR(ext, o)
  }

  /** The record has a zone that supports it, in which no other SOA record rivals it. */
  ghost predicate Servable(ext: Externals, records: Index, rr: RR) {
    && Home(ext, rr).Some? && PlaceOf(rr, Home(ext, rr).value) != Unsupported
    && Unrivalled(FilingOf(ext), records, rr)
  }

  lemma Indexed(ext: Externals, s: State, k: string)
    requires Agree(ReadingOf(ext), s) && Sound(ReadingOf(ext), s)
    requires k in s.live && Active(s.live[k]) && ToRR(ext, s.live[k]).Some? && Alone(ext, s, k)
    ensures In(FilingOf(ext), s.records, ToRR(ext, s.live[k]).value)
  {
    var r, rr := ReadingOf(ext), ToRR(ext, s.live[k]).value;
    var x := ext.printRR(rr);
    assert Rendering(r, s.live[k]) == Some(x);
    assert Backed(r, s, x);
    assert Source(r, s, x, s.records[x]);
    var j :| j in s.live && Active(s.live[j]) && r.convert(s.live[j]) == Some(s.records[x]) && r.render(s.records[x]) == x;
    assert Rendering(r, s.live[j]) == Some(x);
  }

  /** With a sound index in agreement and the zones rebuilt from it, the record of a live
      active object is in the very zone that a query for its name is routed to. */
  lemma ActiveObjectsAreServed(ext: Externals, c: Settings, s: State, zs: Zones, k: string)
    requires WellFormed(ext.rules) && Agree(ReadingOf(ext), s) && Sound(ReadingOf(ext), s)
    requires Filed(FilingOf(ext), s.records, zs)
    requires k in s.live && Active(s.live[k]) && ToRR(ext, s.live[k]).Some? && Alone(ext, s, k)
    requires Servable(ext, s.records, ToRR(ext, s.live[k]).value)
    ensures var rr := ToRR(ext, s.live[k]).value;
      var zone := BestMatch(zs.names, ToLower(rr.hdr.name));
      zone in zs.z && Holds(Completed(c, zone, zs.z[zone]), rr)
  {
    var f, rr := FilingOf(ext), ToRR(ext, s.live[k]).value;
    Indexed(ext, s, k);
    RoutedWhereFiled(ext, s.records, zs, rr);
    RecordsArePartitioned(f, s.records, zs, rr, Home(ext, rr).value);
    CompletedApex(c, Home(ext, rr).value, zs.z[Home(ext, rr).value], rr);
  }

  /** From the first event to the answer: after any unbroken history over convertible
      objects, the zones rebuilt from the index serve every live active object. */
  lemma HistoriesAreServed(ext: Externals, c: Settings, evs: seq<Event>, zs: Zones, k: string)
    requires var r, s0 := ReadingOf(ext), State(map[], map[]);
      && Possible(r, s0, evs) && Convertible(r, evs) && Unbroken(r, s0, evs)
      && var s := Final(r, s0, evs);
      && WellFormed(ext.rules) && Filed(FilingOf(ext), s.records, zs)
      && k in s.live && Active(s.live[k]) && Alone(ext, s, k)
      && (ToRR(ext, s.live[k]).Some? ==> Servable(ext, s.records, ToRR(ext, s.live[k]).value))
    ensures var rr := ToRR(ext, Final(ReadingOf(ext), State(map[], map[]), evs).live[k]);
      rr.Some? &&
      var zone := BestMatch(zs.names, ToLower(rr.value.hdr.name));
      zone in zs.z && Holds(Completed(c, zone, zs.z[zone]), rr.value)
  {
    var r, s0 := ReadingOf(ext), State(map[], map[]);
    SoundAlways(r, s0, evs);
    AgreesAlways(r, s0, evs);
    var s := Final(r, s0, evs);
    assert r.convert(s.live[k]).Some?;
    ActiveObjectsAreServed(ext, c, s, zs, k);
  }
}
