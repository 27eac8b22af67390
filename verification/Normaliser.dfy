/** The provider form of a record and the normalisers that compare it with what a DNS
    provider reports (pkg/provider/libdns). */
module Normaliser {
  import opened Text
  import opened Suffixes
  import opened Records

  /** A libdns record without its identifier; the TTL is a duration in nanoseconds. */
  datatype Data = Data(name: string, rrtype: string, ttl: int, value: string)

  datatype Entry = Entry(id: string, data: Data)

  const SECOND := 1_000_000_000
  const GAP := "\" \""

  function UnFqdn(name: string): string {
    TrimSuffix(name, ".")
  }

  /** libdns.AbsoluteName for a non-empty zone */
  function AbsoluteName(name: string, zone: string): string {
    if name == "" || name == "@" then zone
    else if !IsFqdn(name) then name + "." + zone
    else name
  }

  function InZone(name: string, zone: string): string {
    if HasSuffix(name, UnFqdn(zone)) then Fqdn(name)
    else if !HasSuffix(name, Fqdn(zone)) then AbsoluteName(name, zone)
    else name
  }

  function Unquote(text: string): string {
    TrimRight(TrimLeft(TrimSpace(text), IsQuote), IsQuote)
  }

  function TypeName(rr: RR): string {
    match rr
    case A(_, _) => "A" case AAAA(_, _) => "AAAA" case CNAME(_, _) => "CNAME"
    case MX(_, _, _) => "MX" case NS(_, _) => "NS" case SRV(_, _, _, _, _) => "SRV"
    case TXT(_, _) => "TXT" case SOA(_, _) => "SOA" case Other(_, t, _) => t
  }

  function Concat(chunks: seq<string>): string {
    if chunks == [] then "" else chunks[0] + Concat(chunks[1..])
  }

  function Value(ext: Externals, rr: RR): string {
    match rr
    case A(_, ip) => ext.printIP(ip)
    case AAAA(_, ip) => ext.printIP(ip)
    case CNAME(_, t) => t
    case MX(_, p, t) => Decimal(p) + " " + t
    case NS(_, t) => t
    case SRV(_, p, w, o, t) => Decimal(p) + " " + Decimal(w) + " " + Decimal(o) + " " + t
    case TXT(_, chunks) => Concat(chunks)
    case _ => ""
  }

  function MakeRecord(ext: Externals, rr: RR): Data {
    Data(rr.hdr.name, TypeName(rr), rr.hdr.ttl * SECOND, Value(ext, rr))
  }

  predicate TextType(t: string) {
    t == "A" || t == "AAAA" || t == "TXT"
  }

  predicate NameType(t: string) {
    t == "CNAME" || t == "MX" || t == "NS" || t == "SRV"
  }

  function FqdnRec(d: Data, zone: string): Data {
    Data(InZone(d.name, zone), d.rrtype, d.ttl,
         if TextType(d.rrtype) then Unquote(RemoveAll(d.value, GAP))
         else if NameType(d.rrtype) then Unquote(InZone(d.value, zone))
         else d.value)
  }

  // ---- names ----

  lemma ZoneParts(zone: string)
    requires ZoneName(zone)
    ensures UnFqdn(zone) + "." == zone && Fqdn(zone) == zone
    ensures UnFqdn(zone) != "" && !IsFqdn(UnFqdn(zone))
  {
  }

  /** Exactly the dotted names are left alone. */
  lemma InZoneFixed(name: string, zone: string)
    requires ZoneName(zone)
    ensures InZone(name, zone) == name <==> IsFqdn(name)
    ensures IsFqdn(InZone(name, zone))
  {
  }

  /** The absolute name and its undotted form have the absolute name as normal form. */
  lemma AbsoluteForms(bare: string, zone: string)
    requires ZoneName(zone) && HasSuffix(bare, UnFqdn(zone))
    ensures InZone(bare + ".", zone) == bare + "." && InZone(bare, zone) == bare + "."
  {
  }

  lemma ApexForms(zone: string)
    requires ZoneName(zone)
    ensures InZone("", zone) == zone && InZone("@", zone) == zone
    ensures InZone(zone, zone) == zone && InZone(UnFqdn(zone), zone) == zone
  {
    var u := UnFqdn(zone);
    ZoneParts(zone);
    assert InZone("@", zone) == zone by {
      if HasSuffix("@", u) {
        assert u == "@";
      }
    }
    assert InZone(u, zone) == zone by {
      assert u[0..] == u;
      AbsoluteForms(u, zone);
    }
    assert InZone(zone, zone) == zone by {
      InZoneFixed(zone, zone);
    }
  }

  /** A relative name is understood exactly when its text does not end in the zone's text. */
  lemma RelativeForm(rel: string, zone: string)
    requires ZoneName(zone) && rel != "" && rel != "@" && !IsFqdn(rel)
    ensures InZone(rel, zone) == rel + "." + zone <==> !HasSuffix(rel, UnFqdn(zone))
  {
  }

  lemma AbsoluteText(rel: string, zone: string)
    requires ZoneName(zone)
    ensures HasSuffix(rel + "." + UnFqdn(zone), UnFqdn(zone))
    ensures rel + "." + UnFqdn(zone) + "." == rel + "." + zone
  {
  }

  /** One name in all its spellings has one normal form: dotted absolute, undotted absolute,
      "" and "@" for the apex, and relative, the last one exactly when it is understood. */
  lemma NameNormalForm(rel: string, name: string, zone: string)
    requires ZoneName(zone)
    ensures IsFqdn(InZone(name, zone)) && InZone(InZone(name, zone), zone) == InZone(name, zone)
    ensures InZone("", zone) == InZone("@", zone) == InZone(UnFqdn(zone), zone) == InZone(zone, zone) == zone
    ensures InZone(rel + "." + UnFqdn(zone), zone) == rel + "." + zone == InZone(rel + "." + zone, zone)
    ensures rel != "" && rel != "@" && !IsFqdn(rel) ==>
      (InZone(rel, zone) == rel + "." + zone <==> !HasSuffix(rel, UnFqdn(zone)))
  {
    InZoneFixed(name, zone);
    InZoneFixed(InZone(name, zone), zone);
    ApexForms(zone);
    AbsoluteText(rel, zone);
    AbsoluteForms(rel + "." + UnFqdn(zone), zone);
    if rel != "" && rel != "@" && !IsFqdn(rel) {
      RelativeForm(rel, zone);
    }
  }

  // ---- texts ----

  predicate Edge(c: char) {
    IsSpace(c) || IsQuote(c)
  }

  /** Unquoting leaves exactly the texts without a space or quote at either end alone. */
  lemma UnquoteFixed(v: string)
    ensures |Unquote(v)| <= |v|
    ensures Unquote(v) == v <==> (v == "" || (!Edge(v[0]) && !Edge(v[|v| - 1])))
  {
    var a := TrimLeft(v, IsSpace);
    var b := TrimRight(a, IsSpace);
    var c := TrimLeft(b, IsQuote);
    TrimLeftShrinks(v, IsSpace);
    TrimRightShrinks(a, IsSpace);
    TrimLeftShrinks(b, IsQuote);
    TrimRightShrinks(c, IsQuote);
  }

  /** What the operator sends is what it recognises later. */
  predicate EchoStable(d: Data, zone: string) {
    FqdnRec(d, zone) == d
  }

  ghost predicate PlainText(v: string) {
    !Contains(v, GAP) && (v == "" || (!Edge(v[0]) && !Edge(v[|v| - 1])))
  }

  ghost predicate Recognisable(d: Data) {
    && IsFqdn(d.name)
    && (TextType(d.rrtype) ==> PlainText(d.value))
    && (NameType(d.rrtype) ==> IsFqdn(d.value) && !Edge(d.value[0]))
  }

  lemma TextFixed(v: string)
    ensures Unquote(RemoveAll(v, GAP)) == v <==> PlainText(v)
  {
    RemoveAllFixed(v, GAP);
    UnquoteFixed(RemoveAll(v, GAP));
    if Unquote(RemoveAll(v, GAP)) == v {
      RemoveAllShrinks(v, GAP);
    }
  }

  lemma {:induction false} RemoveAllShrinks(s: string, cut: string)
    requires cut != ""
    ensures |RemoveAll(s, cut)| == |s| ==> RemoveAll(s, cut) == s
    decreases |s|
  {
    if |s| >= |cut| && s[..|cut|] != cut {
      RemoveAllShrinks(s[1..], cut);
      assert s == [s[0]] + s[1..];
    }
  }

  lemma NameFixed(v: string, zone: string)
    requires ZoneName(zone)
    ensures Unquote(InZone(v, zone)) == v <==> IsFqdn(v) && !Edge(v[0])
  {
    var w := InZone(v, zone);
    InZoneFixed(v, zone);
    UnquoteFixed(w);
    UnquoteKeepsDot(w);
  }

  lemma UnquoteKeepsDot(w: string)
    requires IsFqdn(w)
    ensures IsFqdn(Unquote(w))
  {
    var a := TrimLeft(w, IsSpace);
    TrimLeftKeepsEnd(w, IsSpace);
    TrimRightShrinks(a, IsSpace);
    TrimLeftKeepsEnd(a, IsQuote);
    TrimRightShrinks(TrimLeft(a, IsQuote), IsQuote);
  }

  lemma {:induction false} TrimLeftKeepsEnd(s: string, p: char -> bool)
    requires s != "" && !p(s[|s| - 1])
    ensures TrimLeft(s, p) != "" && TrimLeft(s, p)[|TrimLeft(s, p)| - 1] == s[|s| - 1]
  {
    if p(s[0]) {
      TrimLeftKeepsEnd(s[1..], p);
    }
  }

  /** The exact condition for a sent entry to compare equal when it comes back unchanged. */
  lemma EchoStableExactly(d: Data, zone: string)
    requires ZoneName(zone)
    ensures EchoStable(d, zone) <==> Recognisable(d)
  {
    InZoneFixed(d.name, zone);
    if TextType(d.rrtype) {
      TextFixed(d.value);
    } else if NameType(d.rrtype) {
      NameFixed(d.value, zone);
    }
  }
}
