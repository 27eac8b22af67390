/** What is sent to a provider, read back: by the type mnemonics of RFC 1035 section 3.2.2,
    RFC 3596 and RFC 2782, an entry of the provider gives back the record it was made from. */
module EntryReader {
  import opened Text
  import opened Records
  import opened Normaliser
  import opened ProviderForms

  /** A number field of 16 bits, and what follows it. */
  function ReadNumber(s: string): Option<(uint16, string)> {
    var (f, rest) := Field(s);
    if f != "" && (forall c :: c in f ==> '0' <= c <= '9') && 0 <= Number(f) < 65536 then Some((Number(f), rest)) else None
  }

  /** The TTL in seconds, if it is a whole number of them that fits. */
  function ReadTtl(nanoseconds: int): Option<uint32> {
    if nanoseconds % 1_000_000_000 == 0 && 0 <= nanoseconds / 1_000_000_000 < 0x1_0000_0000
    then Some(nanoseconds / 1_000_000_000) else None
  }

  /** Reading an entry as a record of class IN; TXT data is one text. */
  function ReadEntry(ext: Externals, d: Data): Option<RR> {
    match ReadTtl(d.ttl)
    case None => None
    case Some(ttl) =>
      var h := Header(d.name, 1, ttl);
      if d.rrtype == "A" then
        match ext.parseIP(d.value) case None => None case Some(ip) => Some(A(h, ip))
      else if d.rrtype == "AAAA" then
        match ext.parseIP(d.value) case None => None case Some(ip) => Some(AAAA(h, ip))
      else if d.rrtype == "CNAME" then Some(CNAME(h, d.value))
      else if d.rrtype == "NS" then Some(NS(h, d.value))
      else if d.rrtype == "TXT" then Some(TXT(h, [d.value]))
      else if d.rrtype == "MX" then
        match ReadNumber(d.value) case None => None case Some((p, t)) => Some(MX(h, p, t))
      else if d.rrtype == "SRV" then ReadSrv(h, d.value)
      else None
  }

  function ReadSrv(h: Header, v: string): Option<RR> {
    match ReadNumber(v)
    case None => None
    case Some((p, v1)) =>
      match ReadNumber(v1)
      case None => None
      case Some((w, v2)) =>
        match ReadNumber(v2)
        case None => None
        case Some((o, t)) => Some(SRV(h, p, w, o, t))
  }

  /** The record as an entry can hold it: of class IN, and TXT data joined. */
  function Joined(rr: RR): RR {
    var h := rr.hdr.(cls := 1);
    match rr
    case A(_, ip) => A(h, ip)
    case AAAA(_, ip) => AAAA(h, ip)
    case CNAME(_, t) => CNAME(h, t)
    case MX(_, p, t) => MX(h, p, t)
    case NS(_, t) => NS(h, t)
    case SRV(_, p, w, o, t) => SRV(h, p, w, o, t)
    case TXT(_, chunks) => TXT(h, [Concat(chunks)])
    case SOA(_, soa) => SOA(h, soa)
    case Other(_, t, data) => Other(h, t, data)
  }

  lemma NumberRead(n: uint16, x: string)
    ensures ReadNumber(Decimal(n) + " " + x) == Some((n, x))
  {
    NumberReadsBack(n, x);
  }

  lemma SrvRead(ext: Externals, rr: RR, h: Header)
    requires rr.SRV?
    ensures ReadSrv(h, Value(ext, rr)) == Some(SRV(h, rr.priority, rr.weight, rr.port, rr.target))
  {
    var v2 := Decimal(rr.port) + " " + rr.target;
    var v1 := Decimal(rr.weight) + " " + v2;
    Regroup(Decimal(rr.priority), Decimal(rr.weight), Decimal(rr.port), rr.target);
    NumberRead(rr.priority, v1);
    NumberRead(rr.weight, v2);
    NumberRead(rr.port, rr.target);
  }

  lemma TtlRead(ttl: uint32)
    ensures ReadTtl(ttl * SECOND) == Some(ttl)
  {
  }

  /** Every A, AAAA, CNAME, MX, NS, SRV and TXT record is read back from the entry sent for it,
      if its address prints as it is parsed. A record of any other type is not: its data is
      not sent at all. */
  lemma EntryReadsBack(ext: Externals, rr: RR)
    requires rr.A? || rr.AAAA? ==> ext.parseIP(ext.printIP(rr.ip)) == Some(rr.ip)
    ensures !rr.SOA? && !rr.Other? ==> ReadEntry(ext, MakeRecord(ext, rr)) == Some(Joined(rr))
    ensures rr.SOA? || rr.Other? ==> MakeRecord(ext, rr).value == ""
    ensures rr.SOA? ==> MakeRecord(ext, rr).rrtype == "SOA"
    ensures rr.Other? ==> MakeRecord(ext, rr).rrtype == rr.rrtype
  {
    TtlRead(rr.hdr.ttl);
    if rr.MX? {
      NumberRead(rr.preference, rr.target);
    } else if rr.SRV? {
      SrvRead(ext, rr, rr.hdr.(cls := 1));
    }
  }

  /** The text sent for TXT data is its chunks in order, without anything between them. */
  lemma {:induction false} ConcatAppends(a: seq<string>, b: seq<string>)
    ensures Concat(a + b) == Concat(a) + Concat(b)
    ensures forall c :: Concat([c]) == c
  {
    forall c ensures Concat([c]) == c {
      assert [c][1..] == [];
    }
    if a == [] {
      assert a + b == b;
    } else {
      assert (a + b)[1..] == a[1..] + b;
      ConcatAppends(a[1..], b);
    }
  }
}
