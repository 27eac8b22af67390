/** Queries are routed to the zone their record was filed in (pkg/coredns/k8s_dns). */
module Routing {
  import opened Text
  import opened Suffixes
  import opened Records
  import opened Zones

  /** dns.IsSubDomain on lower-case names */
  predicate IsSubDomain(parent: string, child: string) {
    LabelSuffix(SplitDomainName(parent), SplitDomainName(child))
  }

  /** The longest of the names that qualify, "" if none does. */
  function Longest(names: seq<string>, encloses: string -> bool): string {
    if names == [] then ""
    else
      var best, z := Longest(names[..|names| - 1], encloses), names[|names| - 1];
      if encloses(z) && |z| > |best| then z else best
  }

  function BestMatch(names: seq<string>, qname: string): string {
    Longest(names, z => IsSubDomain(z, qname))
  }

  /** plugin.Zones.Matches, which `ServeDNS` routes by: the longest enclosing zone. */
  method Matches(names: seq<string>, encloses: string -> bool) returns (zone: string)
    ensures zone == Longest(names, encloses)
  {
    zone := "";
    for i := 0 to |names|
      invariant zone == Longest(names[..i], encloses)
    {
      assert names[..i + 1][..i] == names[..i];
      if encloses(names[i]) {
        if |names[i]| > |zone| {
          zone := names[i];
        }
      }
    }
    assert names[..|names|] == names;
  }

  lemma {:induction false} LongestIsFound(names: seq<string>, encloses: string -> bool)
    ensures Longest(names, encloses) == "" || (Longest(names, encloses) in names && encloses(Longest(names, encloses)))
  {
    if names != [] {
      LongestIsFound(names[..|names| - 1], encloses);
    }
  }

  /** An enclosing zone that is longer than all other enclosing zones is chosen. */
  lemma {:induction false} LongestWins(names: seq<string>, encloses: string -> bool, k: string)
    requires k in names && k != "" && encloses(k)
    requires forall z :: z in names && z != k && encloses(z) ==> |z| < |k|
    ensures Longest(names, encloses) == k
  {
    var init := names[..|names| - 1];
    assert forall z :: z in init ==> z in names;
    if k in init {
      LongestWins(init, encloses, k);
    } else {
      assert names[|names| - 1] == k;
      LongestIsFound(init, encloses);
    }
  }

  lemma {:induction false} JoinDropShorter(labels: seq<string>, c: nat)
    requires 0 < c < |labels|
    ensures |Join(labels[c..])| < |Join(labels)|
  {
    if c > 1 {
      JoinDropShorter(labels[1..], c - 1);
      assert labels[1..][c - 1..] == labels[c..];
    }
  }

  lemma ZoneText(zone: string)
    requires ZoneName(zone)
    ensures SplitDomainName(zone) != [] && zone == Join(SplitDomainName(zone)) + "."
  {
    assert zone[|zone| - 1..] == ".";
    JoinSplit(TrimSuffix(zone, "."));
  }

  /** Of two zones that enclose one name, the one with fewer labels has the shorter text. */
  lemma FewerLabelsShorter(z: string, k: string, qname: string)
    requires ZoneName(z) && ZoneName(k) && IsSubDomain(z, qname) && IsSubDomain(k, qname)
    requires |SplitDomainName(z)| <= |SplitDomainName(k)| && z != k
    ensures |z| < |k|
  {
    var a, b, n := SplitDomainName(z), SplitDomainName(k), SplitDomainName(qname);
    ZoneText(z);
    ZoneText(k);
    var c := |b| - |a|;
    assert b[c..] == n[|n| - |b|..][c..] == n[|n| - |a|..] == a;
    if c > 0 {
      JoinDropShorter(b, c);
    }
  }

  /** The zone of one name that encloses another name is no longer than that name's own zone. */
  lemma OwnZoneIsLongest(rules: Rules, name: string, other: string)
    requires WellFormed(rules) && ZoneOf(rules, name).Some? && ZoneOf(rules, other).Some?
    requires IsSubDomain(ZoneOf(rules, other).value, ToLower(name))
    ensures |SplitDomainName(ZoneOf(rules, other).value)| <= |SplitDomainName(ZoneOf(rules, name).value)|
  {
    ZoneOfShape(rules, name);
    ZoneOfShape(rules, other);
    LongestZone(rules, SplitDomainName(ToLower(name)), SplitDomainName(ToLower(other)));
  }

  lemma ZoneEncloses(rules: Rules, name: string)
    requires WellFormed(rules) && ZoneOf(rules, name).Some?
    ensures ZoneName(ZoneOf(rules, name).value) && IsSubDomain(ZoneOf(rules, name).value, ToLower(name))
  {
    ZoneOfShape(rules, name);
  }

  lemma OtherZoneIsShorter(rules: Rules, name: string, other: string)
    requires WellFormed(rules) && ZoneOf(rules, name).Some? && ZoneOf(rules, other).Some?
    requires IsSubDomain(ZoneOf(rules, other).value, ToLower(name)) && ZoneOf(rules, other) != ZoneOf(rules, name)
    ensures |ZoneOf(rules, other).value| < |ZoneOf(rules, name).value|
  {
    OwnZoneIsLongest(rules, name, other);
    ZoneEncloses(rules, name);
    ZoneEncloses(rules, other);
    FewerLabelsShorter(ZoneOf(rules, other).value, ZoneOf(rules, name).value, ToLower(name));
  }

  /** Routing agrees with filing: for every usable record, however the zones nest, a query
      for its name is routed to the very zone the record was filed in. */
  lemma RoutedWhereFiled(ext: Externals, records: Index, zs: Zones, rr: RR)
    requires WellFormed(ext.rules) && Filed(FilingOf(ext), records, zs)
    requires In(FilingOf(ext), records, rr) && Home(ext, rr).Some?
    ensures BestMatch(zs.names, ToLower(rr.hdr.name)) == Home(ext, rr).value
    ensures Home(ext, rr).value in zs.z
  {
    var f, name, k := FilingOf(ext), rr.hdr.name, Home(ext, rr).value;
    ZoneEncloses(ext.rules, name);
    assert records[f.render(rr)] == rr && f.home(rr) == Some(k);
    assert Inhabited(f, records, k);
    forall z | z in zs.names && z != k && IsSubDomain(z, ToLower(name)) ensures |z| < |k| {
      assert Inhabited(f, records, z);
      var x :| x in records && f.home(records[x]) == Some(z);
      OtherZoneIsShorter(ext.rules, name, records[x].hdr.name);
    }
    LongestWins(zs.names, z => IsSubDomain(z, ToLower(name)), k);
  }
}
