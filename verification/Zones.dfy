/** The zones of the CoreDNS plugin (pkg/coredns/k8s_dns): rebuilding them from the record
    index, and choosing one for a query. */
module Zones {
  import opened Text
  import opened Suffixes
  import opened Records

  /** A zone of the file plugin: its SOA, its apex NS records, and everything else. */
  datatype Zone = Zone(soa: Option<RR>, ns: seq<RR>, others: set<RR>)

  const NEW_ZONE := Zone(None, [], {})

  /** file.Zones: zones by name, and the names in order of appearance. */
  datatype Zones = Zones(z: map<string, Zone>, names: seq<string>)

  /** Where a zone puts a record. */
  datatype Place = Start | Apex | Ordinary | Unsupported

  function PlaceOf(rr: RR, origin: string): Place {
    if rr.SOA? then Start
    else if rr.NS? && ToLower(rr.hdr.name) == origin then Apex
    else if rr.Other? && (rr.rrtype == "NSEC3" || rr.rrtype == "NSEC3PARAM") then Unsupported
    else Ordinary
  }

  function Home(ext: Externals, rr: RR): Option<string> {
    ZoneOf(ext.rules, rr.hdr.name)
  }

  /** What filing depends on: how a record renders, which zone it belongs to, and where in
      a zone it goes. */
  datatype Filing = Filing(render: RR -> string, home: RR -> Option<string>, place: (RR, string) -> Place)

  function FilingOf(ext: Externals): Filing {
    Filing(ext.printRR, rr => Home(ext, rr), (rr, k) => PlaceOf(rr, k))
  }

  function Insert(f: Filing, zone: Zone, origin: string, rr: RR): Zone {
    match f.place(rr, origin)
    case Start => zone.(soa := Some(rr))
    case Apex => zone.(ns := zone.ns + [rr])
    case Ordinary => zone.(others := zone.others + {rr})
    case Unsupported => zone
  }

  // ---- what the zones hold ----

  type Index = map<string, RR>

  /** Every record is stored under its rendering. */
  ghost predicate Keyed(f: Filing, records: Index) {
    forall x :: x in records ==> f.render(records[x]) == x
  }

  predicate In(f: Filing, records: Index, rr: RR) {
    f.render(rr) in records && records[f.render(rr)] == rr
  }

  /** The record belongs to the zone, at the given place. */
  predicate Belongs(f: Filing, records: Index, rr: RR, k: string, place: Place) {
    In(f, records, rr) && f.home(rr) == Some(k) && f.place(rr, k) == place
  }

  predicate NoRepeats<T(==)>(s: seq<T>) {
    forall i, j :: 0 <= i < j < |s| ==> s[i] != s[j]
  }

  ghost predicate ZoneFiled(f: Filing, records: Index, k: string, zone: Zone) {
    && (forall rr :: rr in zone.others <==> Belongs(f, records, rr, k, Ordinary))
    && (forall rr :: rr in zone.ns <==> Belongs(f, records, rr, k, Apex)) && NoRepeats(zone.ns)
    && (zone.soa.Some? ==> Belongs(f, records, zone.soa.value, k, Start))
    && (zone.soa.None? ==> forall rr :: !Belongs(f, records, rr, k, Start))
  }

  ghost predicate Inhabited(f: Filing, records: Index, k: string) {
    exists x :: x in records && f.home(records[x]) == Some(k)
  }

  /** The zones partition the usable records. */
  ghost predicate Filed(f: Filing, records: Index, zs: Zones) {
    && NoRepeats(zs.names) && (forall k :: k in zs.names <==> k in zs.z)
    && (forall k :: k in zs.z <==> Inhabited(f, records, k))
    && (forall k :: k in zs.z ==> ZoneFiled(f, records, k, zs.z[k]))
  }

  function File(f: Filing, zs: Zones, rr: RR): Zones {
    match f.home(rr)
    case None => zs
    case Some(k) =>
      if k in zs.z then zs.(z := zs.z[k := Insert(f, zs.z[k], k, rr)])
      else Zones(zs.z[k := Insert(f, NEW_ZONE, k, rr)], zs.names + [k])
  }

  lemma NewZoneFiled(f: Filing, records: Index, k: string)
    requires Keyed(f, records) && !Inhabited(f, records, k)
    ensures ZoneFiled(f, records, k, NEW_ZONE)
  {
  }

  lemma InsertFiled(f: Filing, records: Index, k: string, zone: Zone, rr: RR)
    requires ZoneFiled(f, records, k, zone) && f.render(rr) !in records && f.home(rr) == Some(k)
    ensures ZoneFiled(f, records[f.render(rr) := rr], k, Insert(f, zone, k, rr))
  {
    var records', zone' := records[f.render(rr) := rr], Insert(f, zone, k, rr);
    forall q, place ensures Belongs(f, records', q, k, place) <==>
      Belongs(f, records, q, k, place) || (q == rr && f.place(rr, k) == place) {
    }
    assert rr !in zone.ns;
  }

  lemma OtherZoneFiled(f: Filing, records: Index, k: string, zone: Zone, rr: RR)
    requires ZoneFiled(f, records, k, zone) && f.render(rr) !in records && f.home(rr) != Some(k)
    ensures ZoneFiled(f, records[f.render(rr) := rr], k, zone)
  {
    var records' := records[f.render(rr) := rr];
    forall q, place ensures Belongs(f, records', q, k, place) <==> Belongs(f, records, q, k, place) {
    }
  }

  lemma InhabitedAfter(f: Filing, records: Index, rr: RR, k: string)
    requires f.render(rr) !in records
    ensures Inhabited(f, records[f.render(rr) := rr], k) <==> Inhabited(f, records, k) || f.home(rr) == Some(k)
  {
    var records' := records[f.render(rr) := rr];
    if f.home(rr) == Some(k) {
      assert records'[f.render(rr)] == rr;
    }
    if x :| x in records && f.home(records[x]) == Some(k) {
      assert records'[x] == records[x];
    }
  }

  /** Filing one more record keeps the partition. */
  lemma FileKeepsFiled(f: Filing, records: Index, zs: Zones, rr: RR)
    requires Keyed(f, records) && Filed(f, records, zs) && f.render(rr) !in records
    ensures Filed(f, records[f.render(rr) := rr], File(f, zs, rr))
  {
    var x := f.render(rr);
    var records', zs' := records[x := rr], File(f, zs, rr);
    forall k ensures Inhabited(f, records', k) <==> Inhabited(f, records, k) || f.home(rr) == Some(k) {
      InhabitedAfter(f, records, rr, k);
    }
    forall k | k in zs'.z ensures ZoneFiled(f, records', k, zs'.z[k]) {
      ZoneFiledAfter(f, records, zs, rr, k);
    }
  }

  lemma ZoneFiledAfter(f: Filing, records: Index, zs: Zones, rr: RR, k: string)
    requires Keyed(f, records) && Filed(f, records, zs) && f.render(rr) !in records && k in File(f, zs, rr).z
    ensures ZoneFiled(f, records[f.render(rr) := rr], k, File(f, zs, rr).z[k])
  {
    if f.home(rr) == Some(k) {
      if k !in zs.z {
        NewZoneFiled(f, records, k);
      }
      InsertFiled(f, records, k, if k in zs.z then zs.z[k] else NEW_ZONE, rr);
    } else {
      OtherZoneFiled(f, records, k, zs.z[k], rr);
    }
  }

  // ---- completing a zone ----

  datatype Settings = Settings(hostmaster: string, ttl: uint32, apex: string, external: Option<IP>)

  function Effective(c: Settings): Settings {
    Settings(if c.hostmaster == "" then "hostmaster" else c.hostmaster, if c.ttl == 0 then 3600 else c.ttl,
             if c.apex == "" then "dns" else c.apex, c.external)
  }

  function Ns0(c: Settings, k: string): string {
    "ns0." + c.apex + "." + k
  }

  function DefaultSoa(c: Settings, k: string): RR {
    SOA(Header(k, 1, c.ttl), Soa(Ns0(c, k), c.hostmaster + "." + c.apex + "." + k, 1499347823, 7200, 1800, 86400, 5))
  }

  function DefaultNs(c: Settings, k: string): RR {
    NS(Header(k, 1, c.ttl), Ns0(c, k))
  }

  /** A missing SOA and missing apex NS records are generated; a generated NS record comes
      with its address if that is known. */
  function Completed(c: Settings, k: string, zone: Zone): Zone {
    var soa := if zone.soa.Some? then zone.soa else Some(DefaultSoa(c, k));
    if zone.ns != [] then zone.(soa := soa)
    else
      Zone(soa, [DefaultNs(c, k)],
           if c.external.Some? then zone.others + {A(Header(Ns0(c, k), 1, c.ttl), c.external.value)} else zone.others)
  }

  predicate Holds(zone: Zone, rr: RR) {
    rr in zone.others || rr in zone.ns || zone.soa == Some(rr)
  }

  /** The address record of the generated name server. */
  predicate IsGlue(c: Settings, k: string, rr: RR) {
    rr.A? && rr.hdr == Header(Ns0(c, k), 1, c.ttl) && c.external == Some(rr.ip)
  }

  /** A completed zone has a valid apex, keeps everything that was filed, and adds nothing
      but what is missing: defined SOA and NS records are never replaced. */
  lemma CompletedApex(c: Settings, k: string, zone: Zone, rr: RR)
    ensures var z := Completed(c, k, zone);
      && z.soa.Some? && z.ns != []
      && (Holds(zone, rr) ==> Holds(z, rr))
      && (Holds(z, rr) && !Holds(zone, rr) ==>
            (rr == DefaultSoa(c, k) && zone.soa.None?) || (zone.ns == [] && (rr == DefaultNs(c, k) || IsGlue(c, k, rr))))
      && (zone.ns == [] && c.external.Some? ==> A(Header(z.ns[0].target, 1, c.ttl), c.external.value) in z.others)
  {
  }

  /** The plugin's provider, as far as `sync` is concerned. */
  class ZoneProvider {
    const ext: Externals
    var records: Index
    var zones: Zones
    var settings: Settings
    ghost var filed: Zones    // the zones before completion

    /** The zones served are the completed partition of the index. */
    ghost predicate Valid()
      reads this
    {
      && Keyed(FilingOf(ext), records) && Filed(FilingOf(ext), records, filed)
      && zones.names == filed.names && zones.z.Keys == filed.z.Keys
      && forall k :: k in filed.z ==> zones.z[k] == Completed(settings, k, filed.z[k])
    }

    constructor (ext: Externals, settings: Settings)
      ensures Valid() && this.ext == ext && this.settings == settings && records == map[]
    {
      this.ext, this.settings := ext, settings;
      records, zones, filed := map[], Zones(map[], []), Zones(map[], []);
    }

    /** `sync`: two loops over maps, each in any order. */
    method Sync()
      requires Keyed(FilingOf(ext), records)
      modifies this`zones, this`settings, this`filed
      ensures Valid() && settings == Effective(old(settings))
    {
      if settings.hostmaster == "" { settings := settings.(hostmaster := "hostmaster"); }
      if settings.ttl == 0 { settings := settings.(ttl := 3600); }
      if settings.apex == "" { settings := settings.(apex := "dns"); }
      zones := Rebuild(FilingOf(ext), records);
      filed := zones;
      var z := CompleteAll(settings, zones.z);
      zones := zones.(z := z);
    }
  }

  /** The first loop of `sync`. */
  method Rebuild(f: Filing, records: Index) returns (zs: Zones)
    requires Keyed(f, records)
    ensures Filed(f, records, zs)
  {
    zs := Zones(map[], []);
    var todo := records.Keys;
    ghost var done: Index := map[];
    while todo != {}
      invariant todo <= records.Keys && done == records - todo
      invariant Filed(f, done, zs)
      decreases |todo|
    {
      var x :| x in todo;
      FileKeepsFiled(f, done, zs, records[x]);
      zs := File(f, zs, records[x]);
      todo := todo - {x};
      done := done[x := records[x]];
      assert done == records - todo;
    }
    assert done == records;
  }

  /** The second loop of `sync`. */
  method CompleteAll(c: Settings, z: map<string, Zone>) returns (r: map<string, Zone>)
    ensures r.Keys == z.Keys && forall k :: k in z ==> r[k] == Completed(c, k, z[k])
  {
    r := z;
    var rest := z.Keys;
    while rest != {}
      invariant rest <= z.Keys && r.Keys == z.Keys
      invariant forall k :: k in z ==> r[k] == if k in rest then z[k] else Completed(c, k, z[k])
      decreases |rest|
    {
      var k :| k in rest;
      r := r[k := Completed(c, k, r[k])];
      rest := rest - {k};
    }
  }

  // ---- the result does not depend on the order ----

  /** The zone has at most one SOA record of its own. */
  ghost predicate OneSoa(f: Filing, records: Index, k: string) {
    forall r1, r2 :: Belongs(f, records, r1, k, Start) && Belongs(f, records, r2, k, Start) ==> r1 == r2
  }

  /** If the record is an SOA record, it is the only one of its zone. */
  ghost predicate Unrivalled(f: Filing, records: Index, rr: RR) {
    forall k, r2 :: Belongs(f, records, rr, k, Start) && Belongs(f, records, r2, k, Start) ==> r2 == rr
  }

  /** A record lies in no zone but its home zone, and does lie there if zones support it and
      no other SOA record rivals it. */
  lemma RecordsArePartitioned(f: Filing, records: Index, zs: Zones, rr: RR, k: string)
    requires Filed(f, records, zs) && In(f, records, rr)
    ensures k in zs.z && Holds(zs.z[k], rr) ==> f.home(rr) == Some(k)
    ensures f.home(rr) == Some(k) ==> k in zs.z
    ensures f.home(rr) == Some(k) && f.place(rr, k) != Unsupported && Unrivalled(f, records, rr) ==> Holds(zs.z[k], rr)
  {
    assert records[f.render(rr)] == rr;
    if k in zs.z {
      assert ZoneFiled(f, records, k, zs.z[k]);
      assert Belongs(f, records, rr, k, f.place(rr, k)) <==> f.home(rr) == Some(k);
    }
  }

  /** Any two results of rebuilding agree, up to the order of names and NS records, and up to
      the SOA record of zones that have several. */
  lemma OrderDoesNotMatter(f: Filing, records: Index, z1: Zones, z2: Zones, k: string)
    requires Filed(f, records, z1) && Filed(f, records, z2)
    ensures z1.z.Keys == z2.z.Keys && (k in z1.names <==> k in z2.names)
    ensures k in z1.z ==>
      && z1.z[k].others == z2.z[k].others && (forall rr :: rr in z1.z[k].ns <==> rr in z2.z[k].ns)
      && (OneSoa(f, records, k) ==> z1.z[k].soa == z2.z[k].soa)
  {
    assert forall k :: k in z1.z <==> Inhabited(f, records, k);
  }

  /** With two SOA records in one zone, either may end up in it. */
  lemma TwoSoasAreAmbiguous(f: Filing, records: Index, zs: Zones, k: string, rr: RR)
    requires Filed(f, records, zs) && k in zs.z && Belongs(f, records, rr, k, Start)
    ensures Filed(f, records, zs.(z := zs.z[k := zs.z[k].(soa := Some(rr))]))
  {
  }

  /** A supported record is in its home zone after every rebuild exactly when it has no rival. */
  lemma AlwaysFiledExactly(f: Filing, records: Index, zs: Zones, rr: RR, k: string)
    requires Filed(f, records, zs) && In(f, records, rr) && f.home(rr) == Some(k) && f.place(rr, k) != Unsupported
    ensures (forall z :: Filed(f, records, z) ==> k in z.z && Holds(z.z[k], rr)) <==> Unrivalled(f, records, rr)
  {
    if Unrivalled(f, records, rr) {
      forall z | Filed(f, records, z) ensures k in z.z && Holds(z.z[k], rr) {
        RecordsArePartitioned(f, records, z, rr, k);
      }
    } else {
      var rival :| Belongs(f, records, rr, k, Start) && Belongs(f, records, rival, k, Start) && rival != rr;
      RecordsArePartitioned(f, records, zs, rr, k);
      TwoSoasAreAmbiguous(f, records, zs, k, rival);
      var z := zs.(z := zs.z[k := zs.z[k].(soa := Some(rival))]);
      assert Filed(f, records, z) && ZoneFiled(f, records, k, z.z[k]);
    }
  }

  // ---- the apex that is served ----

  /** A record of the index is where its place in the zone is. */
  lemma InItsPlace(f: Filing, records: Index, zs: Zones, rr: RR, k: string)
    requires Filed(f, records, zs) && In(f, records, rr) && f.home(rr) == Some(k)
    ensures k in zs.z
    ensures rr in zs.z[k].ns <==> f.place(rr, k) == Apex
    ensures rr in zs.z[k].others <==> f.place(rr, k) == Ordinary
    ensures f.place(rr, k) == Start && Unrivalled(f, records, rr) ==> zs.z[k].soa == Some(rr)
    ensures zs.z[k].soa == Some(rr) ==> f.place(rr, k) == Start
  {
    assert records[f.render(rr)] == rr;
    assert ZoneFiled(f, records, k, zs.z[k]);
    assert Belongs(f, records, rr, k, f.place(rr, k));
  }

  lemma ServedIn(f: Filing, c: Settings, records: Index, zs: Zones, rr: RR, k: string)
    requires Filed(f, records, zs) && In(f, records, rr) && f.home(rr) == Some(k)
    ensures k in zs.z
    ensures var zone := Completed(c, k, zs.z[k]);
      && (f.place(rr, k) == Apex ==> rr in zone.ns && zone.ns == zs.z[k].ns && zone.others == zs.z[k].others)
      && (f.place(rr, k) == Ordinary ==> rr in zone.others && rr !in zs.z[k].ns)
      && (f.place(rr, k) == Start && Unrivalled(f, records, rr) ==> zone.soa == Some(rr))
      && (f.place(rr, k) == Unsupported ==> !Holds(zs.z[k], rr))
  {
    InItsPlace(f, records, zs, rr, k);
  }

  /** Where the records of the index are served: apex NS records and the SOA record at the
      apex, in place of generated ones, and everything else that is supported, delegations
      included, below it. */
  lemma ServedAt(ext: Externals, c: Settings, records: Index, zs: Zones, rr: RR, k: string)
    requires Filed(FilingOf(ext), records, zs) && In(FilingOf(ext), records, rr) && Home(ext, rr) == Some(k)
    ensures k in zs.z
    ensures var zone := Completed(c, k, zs.z[k]);
      && (rr.NS? && ToLower(rr.hdr.name) == k ==> rr in zone.ns && zone.ns == zs.z[k].ns && zone.others == zs.z[k].others)
      && (rr.NS? && ToLower(rr.hdr.name) != k ==> rr in zone.others && rr !in zs.z[k].ns)
      && (rr.SOA? && Unrivalled(FilingOf(ext), records, rr) ==> zone.soa == Some(rr))
      && (rr.Other? && (rr.rrtype == "NSEC3" || rr.rrtype == "NSEC3PARAM") ==> !Holds(zs.z[k], rr))
      && (!rr.NS? && !rr.SOA? && !(rr.Other? && (rr.rrtype == "NSEC3" || rr.rrtype == "NSEC3PARAM")) ==> rr in zone.others)
  {
    var f := FilingOf(ext);
    assert records[f.render(rr)] == rr && f.home(rr) == Some(k) && f.place(rr, k) == PlaceOf(rr, k);
    ServedIn(f, c, records, zs, rr, k);
  }

  /** A zone without an SOA record gets one of the configured TTL that names the generated
      name server, the hostmaster of the apex name in the zone, and the fixed timers; a defined
      one is kept. */
  lemma GeneratedSoa(c: Settings, k: string, zone: Zone)
    ensures var soa := Completed(c, k, zone).soa;
      if zone.soa.Some? then soa == zone.soa
      else
        && soa.Some? && soa.value.SOA? && soa.value.hdr == Header(k, 1, c.ttl)
        && var d := soa.value.soa;
        && d.ns == "ns0." + c.apex + "." + k && d.mbox == c.hostmaster + "." + c.apex + "." + k
        && d.serial == 1499347823 && d.refresh == 7200 && d.retry == 1800 && d.expire == 86400 && d.minttl == 5
  {
  }

  /** The generated NS record points to the name server of the generated SOA record, whose
      address record, if its address is known, is served below the apex. */
  lemma GeneratedNs(c: Settings, k: string, zone: Zone)
    requires zone.ns == []
    ensures var z, ns := Completed(c, k, zone), "ns0." + c.apex + "." + k;
      && z.ns == [NS(Header(k, 1, c.ttl), ns)] && HasSuffix(ns, "." + k)
      && (c.external.Some? ==> A(Header(ns, 1, c.ttl), c.external.value) in z.others)
      && (c.external.None? ==> z.others == zone.others)
  {
    var ns := "ns0." + c.apex + "." + k;
    assert ns == "ns0." + c.apex + ("." + k);
  }

  /** Unset settings are `hostmaster`, one hour and `dns`; set ones stay. */
  lemma EffectiveSettings(c: Settings)
    ensures Effective(Settings("", 0, "", c.external)) == Settings("hostmaster", 3600, "dns", c.external)
    ensures c.hostmaster != "" && c.ttl != 0 && c.apex != "" ==> Effective(c) == c
    ensures Effective(Effective(c)) == Effective(c)
  {
  }
}
