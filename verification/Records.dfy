/** DNSRecord objects (api/v1alpha1), their admission webhook, and the conversion between
    them and resource records (pkg/record). */
module Records {
  import opened Text
  import opened Suffixes

  type uint16 = n: int | 0 <= n < 0x1_0000
  type uint32 = n: int | 0 <= n < 0x1_0000_0000

  datatype IP = IP(octets: seq<nat>)

  datatype Header = Header(name: string, cls: uint16, ttl: uint32)

  /** The data of an SOA record (section 3.3.13 of RFC 1035). */
  datatype Soa = Soa(ns: string, mbox: string, serial: uint32, refresh: uint32, retry: uint32, expire: uint32, minttl: uint32)

  /** dns.RR: the types the operator looks into, SOA, and the rest by type name and data. */
  datatype RR =
    | A(hdr: Header, ip: IP)
    | AAAA(hdr: Header, ip: IP)
    | CNAME(hdr: Header, target: string)
    | MX(hdr: Header, preference: uint16, target: string)
    | NS(hdr: Header, target: string)
    | SRV(hdr: Header, priority: uint16, weight: uint16, port: uint16, target: string)
    | TXT(hdr: Header, chunks: seq<string>)
    | SOA(hdr: Header, soa: Soa)
    | Other(hdr: Header, rrtype: string, data: string)

  /** Library functions the repository calls but does not define. */
  datatype Externals = Externals(
    rules: Rules,                        // publicsuffix.DefaultList
    parseIP: string -> Option<IP>,       // net.ParseIP
    printIP: IP -> string,               // net.IP.String
    parseRR: string -> Option<RR>,       // dns.NewRR, None for an error or a nil record
    printRR: RR -> string)               // RR.String

  datatype ARecord = ARecord(name: string, cls: uint16, ttl: uint32, target: string)
  datatype CNAMERecord = CNAMERecord(name: string, cls: uint16, ttl: uint32, target: string)
  datatype TXTRecord = TXTRecord(name: string, cls: uint16, ttl: uint32, targets: seq<string>)
  datatype SRVRecord = SRVRecord(name: string, cls: uint16, ttl: uint32,
                                 priority: uint16, weight: uint16, port: uint16, target: string)
  datatype MXRecord = MXRecord(name: string, cls: uint16, ttl: uint32, preference: uint16, target: string)

  datatype Spec = Spec(active: Option<bool>, a: Option<ARecord>, cname: Option<CNAMERecord>,
                       txt: Option<TXTRecord>, srv: Option<SRVRecord>, mx: Option<MXRecord>, raw: string)

  datatype Status = Status(record: string, active: Option<bool>, provider: string, id: string)

  const NO_STATUS := Status("", None, "", "")

  /** The parts of a stored DNSRecord that its controller reads or writes. */
  datatype Record = Record(deleting: bool, finalizers: seq<string>, version: nat, spec: Spec, status: Status)

  // ---- which variant of a spec is taken ----

  datatype Variant = VA | VCNAME | VTXT | VSRV | VMX | VRaw

  /** The order of `Default` and `validate`. */
  function Admitted(s: Spec): Variant {
    if s.a.Some? then VA else if s.cname.Some? then VCNAME else if s.txt.Some? then VTXT
    else if s.srv.Some? then VSRV else if s.mx.Some? then VMX else VRaw
  }

  /** The order of `ToRR`. */
  function Converted(s: Spec): Variant {
    if s.a.Some? then VA else if s.txt.Some? then VTXT else if s.srv.Some? then VSRV
    else if s.mx.Some? then VMX else if s.cname.Some? then VCNAME else VRaw
  }

  function ToRR(ext: Externals, s: Spec): Option<RR> {
    match Converted(s)
    case VA =>
      var r := s.a.value;
      (match ext.parseIP(r.target)
       case None => None
       case Some(ip) => Some(A(Header(r.name, r.cls, r.ttl), ip)))
    case VTXT =>
      var r := s.txt.value;
      if r.targets == [] then None else Some(TXT(Header(r.name, r.cls, r.ttl), r.targets))
    case VSRV =>
      var r := s.srv.value;
      if r.target == "" then None
      else Some(SRV(Header(r.name, r.cls, r.ttl), r.priority, r.weight, r.port, r.target))
    case VMX =>
      var r := s.mx.value;
      Some(MX(Header(r.name, r.cls, r.ttl), r.preference, r.target))
    case VCNAME =>
      var r := s.cname.value;
      if r.target == "" then None else Some(CNAME(Header(r.name, r.cls, r.ttl), r.target))
    case VRaw =>
      if s.raw == "" then None else ext.parseRR(s.raw)
  }

  const BLANK := Spec(None, None, None, None, None, None, "")

  function FromRR(ext: Externals, rr: RR): Spec {
    var name, cls, ttl := rr.hdr.name, rr.hdr.cls, rr.hdr.ttl;
    match rr
    case A(_, ip) => BLANK.(a := Some(ARecord(name, cls, ttl, ext.printIP(ip))))
    case CNAME(_, t) => BLANK.(cname := Some(CNAMERecord(name, cls, ttl, t)))
    case SRV(_, p, w, o, t) => BLANK.(srv := Some(SRVRecord(name, cls, ttl, p, w, o, t)))
    case TXT(_, chunks) => BLANK.(txt := Some(TXTRecord(name, cls, ttl, chunks)))
    case MX(_, p, t) => BLANK.(mx := Some(MXRecord(name, cls, ttl, p, t)))
    case _ => BLANK.(raw := ext.printRR(rr))
  }

  // ---- admission ----

  function EnforceFqdn(rules: Rules, name: string): string {
    var v := ToLower(name);
    match Domain(rules, v)
    case None => v
    case Some(d) => if HasSuffix(v, d) then v + "." else v
  }

  function OrElse(n: int, default: int): int {
    if n == 0 then default else n
  }

  function Defaulted(rules: Rules, s: Spec): Spec {
    var s := if s.active.None? then s.(active := Some(true)) else s;
    match Admitted(s)
    case VA =>
      var r := s.a.value;
      s.(a := Some(ARecord(EnforceFqdn(rules, r.name), OrElse(r.cls, 1), OrElse(r.ttl, 3600), r.target)))
    case VCNAME =>
      var r := s.cname.value;
      s.(cname := Some(CNAMERecord(EnforceFqdn(rules, r.name), OrElse(r.cls, 1), OrElse(r.ttl, 3600),
                                   EnforceFqdn(rules, r.target))))
    case VTXT =>
      var r := s.txt.value;
      s.(txt := Some(TXTRecord(EnforceFqdn(rules, r.name), OrElse(r.cls, 1), OrElse(r.ttl, 3600), r.targets)))
    case VSRV =>
      var r := s.srv.value;
      s.(srv := Some(SRVRecord(EnforceFqdn(rules, r.name), OrElse(r.cls, 1), OrElse(r.ttl, 3600),
                               r.priority, OrElse(r.weight, 1), r.port, EnforceFqdn(rules, r.target))))
    case VMX =>
      var r := s.mx.value;
      s.(mx := Some(MXRecord(EnforceFqdn(rules, r.name), OrElse(r.cls, 1), OrElse(r.ttl, 3600),
                             OrElse(r.preference, 10), EnforceFqdn(rules, r.target))))
    case VRaw => s
  }

  function NameErrors(name: string): seq<string> {
    if IsFqdn(name) then [] else ["name"]
  }

  function TargetErrors(target: string): seq<string> {
    (if target == "" then ["target"] else []) + (if IsFqdn(target) then [] else ["target"])
  }

  /** `validate`: the fields found invalid, empty when the spec is admitted. */
  function Errors(ext: Externals, s: Spec): seq<string> {
    match Admitted(s)
    case VA => NameErrors(s.a.value.name) +
      (if ext.parseIP(s.a.value.target).None? || s.a.value.target == "" then ["target"] else [])
    case VCNAME => NameErrors(s.cname.value.name) + TargetErrors(s.cname.value.target)
    case VTXT => NameErrors(s.txt.value.name) + (if s.txt.value.targets == [] then ["targets"] else [])
    case VSRV => NameErrors(s.srv.value.name) + TargetErrors(s.srv.value.target)
    case VMX => NameErrors(s.mx.value.name) + TargetErrors(s.mx.value.target)
    case VRaw =>
      if s.raw == "" then ["spec"] else if ext.parseRR(s.raw).None? then ["raw"] else []
  }

  /** A DNSRecord in a controller's hands: `Default` rewrites its spec in place. */
  class DNSRecord {
    const deleting: bool
    var finalizers: seq<string>
    const version: nat
    var spec: Spec
    var status: Status

    constructor (r: Record)
      ensures View() == r
    {
      deleting, finalizers, version, spec, status := r.deleting, r.finalizers, r.version, r.spec, r.status;
    }

    function View(): Record
      reads this
    {
      Record(deleting, finalizers, version, spec, status)
    }

    method Default(rules: Rules)
      modifies this`spec
      ensures spec == Defaulted(rules, old(spec))
    {
      if spec.active.None? {
        spec := spec.(active := Some(true));
      }
      if spec.a.Some? {
        var r := spec.a.value;
        if r.cls == 0 { r := r.(cls := 1); }
        if r.ttl == 0 { r := r.(ttl := 3600); }
        r := r.(name := EnforceFqdn(rules, r.name));
        spec := spec.(a := Some(r));
      } else if spec.cname.Some? {
        var r := spec.cname.value;
        if r.cls == 0 { r := r.(cls := 1); }
        if r.ttl == 0 { r := r.(ttl := 3600); }
        r := r.(name := EnforceFqdn(rules, r.name));
        r := r.(target := EnforceFqdn(rules, r.target));
        spec := spec.(cname := Some(r));
      } else if spec.txt.Some? {
        var r := spec.txt.value;
        if r.cls == 0 { r := r.(cls := 1); }
        if r.ttl == 0 { r := r.(ttl := 3600); }
        r := r.(name := EnforceFqdn(rules, r.name));
        spec := spec.(txt := Some(r));
      } else if spec.srv.Some? {
        var r := spec.srv.value;
        if r.cls == 0 { r := r.(cls := 1); }
        if r.ttl == 0 { r := r.(ttl := 3600); }
        if r.weight == 0 { r := r.(weight := 1); }
        r := r.(name := EnforceFqdn(rules, r.name));
        r := r.(target := EnforceFqdn(rules, r.target));
        spec := spec.(srv := Some(r));
      } else if spec.mx.Some? {
        var r := spec.mx.value;
        if r.cls == 0 { r := r.(cls := 1); }
        if r.ttl == 0 { r := r.(ttl := 3600); }
        if r.preference == 0 { r := r.(preference := 10); }
        r := r.(name := EnforceFqdn(rules, r.name));
        r := r.(target := EnforceFqdn(rules, r.target));
        spec := spec.(mx := Some(r));
      }
    }
  }

  // ---- defaulting is stable ----

  /** `enforceFqdn` closes a name with a dot exactly when it has a registrable domain; its
      suffix test never fails. */
  lemma EnforceFqdnShape(rules: Rules, name: string)
    ensures EnforceFqdn(rules, name) ==
      if Domain(rules, ToLower(name)).Some? then ToLower(name) + "." else ToLower(name)
  {
    DomainIsSuffix(rules, ToLower(name));
    ToLowerIdempotent(name);
  }

  /** A name that admission leaves alone. */
  predicate Settled(rules: Rules, name: string) {
    ToLower(name) == name && Domain(rules, name) == None
  }

  lemma EnforceFqdnStable(rules: Rules, name: string)
    requires WellFormed(rules)
    ensures Settled(rules, EnforceFqdn(rules, name))
    ensures EnforceFqdn(rules, name) == name <==> Settled(rules, name)
    ensures IsFqdn(name) ==> IsFqdn(EnforceFqdn(rules, name))
    ensures ToLower(name) == name && IsFqdn(name) ==> Settled(rules, name)
  {
    EnforceFqdnShape(rules, name);
    ToLowerIdempotent(name);
    var v := EnforceFqdn(rules, name);
    var low := ToLower(name);
    if Domain(rules, low).Some? {
      assert ToLower(v) == ToLower(low) + ".";
      RootedHasNoDomain(rules, v);
    }
    if IsFqdn(name) {
      RootedHasNoDomain(rules, low);
      RootedHasNoDomain(rules, name);
    }
  }

  /** Defaulting twice is defaulting once, and it keeps an admitted spec admitted: a child
      record defaulted before the diff and again at admission still compares equal. */
  lemma DefaultingIsStable(ext: Externals, s: Spec)
    requires WellFormed(ext.rules)
    ensures Defaulted(ext.rules, Defaulted(ext.rules, s)) == Defaulted(ext.rules, s)
    ensures Errors(ext, s) == [] ==> Errors(ext, Defaulted(ext.rules, s)) == []
  {
    match Admitted(s)
    case VA => EnforceTwice(ext.rules, s.a.value.name);
    case VCNAME => CnameStable(ext, s);
    case VTXT => EnforceTwice(ext.rules, s.txt.value.name);
    case VSRV => SrvStable(ext, s);
    case VMX => MxStable(ext, s);
    case VRaw =>
  }

  ghost predicate Stable(ext: Externals, s: Spec) {
    Defaulted(ext.rules, Defaulted(ext.rules, s)) == Defaulted(ext.rules, s) &&
    (Errors(ext, s) == [] ==> Errors(ext, Defaulted(ext.rules, s)) == [])
  }

  lemma CnameStable(ext: Externals, s: Spec)
    requires WellFormed(ext.rules) && Admitted(s) == VCNAME
    ensures Stable(ext, s)
  {
    EnforceTwice(ext.rules, s.cname.value.name);
    EnforceTwice(ext.rules, s.cname.value.target);
  }

  lemma SrvStable(ext: Externals, s: Spec)
    requires WellFormed(ext.rules) && Admitted(s) == VSRV
    ensures Stable(ext, s)
  {
    EnforceTwice(ext.rules, s.srv.value.name);
    EnforceTwice(ext.rules, s.srv.value.target);
  }

  lemma MxStable(ext: Externals, s: Spec)
    requires WellFormed(ext.rules) && Admitted(s) == VMX
    ensures Stable(ext, s)
  {
    var r := s.mx.value;
    var d := MXRecord(EnforceFqdn(ext.rules, r.name), OrElse(r.cls, 1), OrElse(r.ttl, 3600),
                      OrElse(r.preference, 10), EnforceFqdn(ext.rules, r.target));
    EnforceTwice(ext.rules, r.name);
    EnforceTwice(ext.rules, r.target);
    assert Defaulted(ext.rules, s).mx == Some(d);
  }

  lemma EnforceTwice(rules: Rules, name: string)
    requires WellFormed(rules)
    ensures EnforceFqdn(rules, EnforceFqdn(rules, name)) == EnforceFqdn(rules, name)
    ensures IsFqdn(name) ==> IsFqdn(EnforceFqdn(rules, name))
  {
    EnforceFqdnStable(rules, name);
    EnforceFqdnStable(rules, EnforceFqdn(rules, name));
  }

  // ---- admission implies conversion ----

  predicate OfVariant(ext: Externals, s: Spec, v: Variant, rr: RR) {
    match v
    case VA => s.a.Some? && rr.A? && rr.hdr.name == s.a.value.name
    case VCNAME => s.cname.Some? && rr.CNAME? && rr.target == s.cname.value.target
    case VTXT => s.txt.Some? && rr.TXT? && rr.chunks == s.txt.value.targets
    case VSRV => s.srv.Some? && rr.SRV? && rr.target == s.srv.value.target
    case VMX => s.mx.Some? && rr.MX? && rr.target == s.mx.value.target
    case VRaw => ext.parseRR(s.raw) == Some(rr)
  }

  /** An admitted spec converts to the variant that was validated exactly when A is set, or
      CNAME is unset, or none of TXT, SRV and MX is set: otherwise the two orders differ. */
  lemma AdmissionImpliesConversion(ext: Externals, s: Spec)
    requires Errors(ext, s) == []
    ensures (ToRR(ext, s).Some? && OfVariant(ext, s, Admitted(s), ToRR(ext, s).value)) <==>
            (s.a.Some? || s.cname.None? || (s.txt.None? && s.srv.None? && s.mx.None?))
  {
  }

  /** An admitted spec that does not convert at all: a valid CNAME beside an empty TXT. */
  lemma AdmittedWithoutConversion(ext: Externals)
    ensures var s := BLANK.(cname := Some(CNAMERecord("a.org.", 1, 60, "b.org.")),
                            txt := Some(TXTRecord("a.org.", 1, 60, [])));
      Errors(ext, s) == [] && ToRR(ext, s) == None
  {
  }

  // ---- import ----

  /** What an imported record must be like to survive conversion, defaulting and conversion back. */
  predicate Importable(ext: Externals, rr: RR) {
    match rr
    case A(h, ip) => Plain(ext, h) && ext.parseIP(ext.printIP(ip)) == Some(ip)
    case CNAME(h, t) => Plain(ext, h) && t != "" && Settled(ext.rules, t)
    case SRV(h, _, w, _, t) => Plain(ext, h) && w != 0 && t != "" && Settled(ext.rules, t)
    case TXT(h, chunks) => Plain(ext, h) && chunks != []
    case MX(h, p, t) => Plain(ext, h) && p != 0 && Settled(ext.rules, t)
    case _ => ext.printRR(rr) != "" && ext.parseRR(ext.printRR(rr)) == Some(rr)
  }

  predicate Plain(ext: Externals, h: Header) {
    h.cls != 0 && h.ttl != 0 && Settled(ext.rules, h.name)
  }

  lemma EnforceFixed(rules: Rules, name: string)
    requires WellFormed(rules)
    ensures EnforceFqdn(rules, name) == name <==> Settled(rules, name)
    ensures EnforceFqdn(rules, name) == "" <==> name == ""
  {
    EnforceFqdnStable(rules, name);
    EnforceFqdnShape(rules, name);
  }

  /** What defaulting makes of an imported record. */
  function Imported(ext: Externals, rr: RR): RR {
    var h := Header(EnforceFqdn(ext.rules, rr.hdr.name), OrElse(rr.hdr.cls, 1), OrElse(rr.hdr.ttl, 3600));
    match rr
    case A(_, ip) => A(h, ip)
    case CNAME(_, t) => CNAME(h, EnforceFqdn(ext.rules, t))
    case SRV(_, p, w, o, t) => SRV(h, p, OrElse(w, 1), o, EnforceFqdn(ext.rules, t))
    case TXT(_, chunks) => TXT(h, chunks)
    case MX(_, p, t) => MX(h, OrElse(p, 10), EnforceFqdn(ext.rules, t))
    case _ => rr
  }

  lemma ImportedByConversion(ext: Externals, rr: RR)
    requires rr.CNAME? || rr.SRV? || rr.TXT? || rr.MX?
    requires rr.CNAME? || rr.SRV? ==> EnforceFqdn(ext.rules, rr.target) != ""
    requires rr.TXT? ==> rr.chunks != []
    ensures ToRR(ext, Defaulted(ext.rules, FromRR(ext, rr))) == Some(Imported(ext, rr))
  {
  }

  /** Defaulting leaves an imported record alone exactly when nothing in it calls for it. */
  lemma ImportedFixed(ext: Externals, rr: RR)
    requires WellFormed(ext.rules) && (rr.A? || rr.CNAME? || rr.SRV? || rr.TXT? || rr.MX?)
    ensures Imported(ext, rr) == rr <==>
      Plain(ext, rr.hdr) && (rr.CNAME? || rr.SRV? || rr.MX? ==> Settled(ext.rules, rr.target))
      && (rr.SRV? ==> rr.weight != 0) && (rr.MX? ==> rr.preference != 0)
  {
    EnforceFixed(ext.rules, rr.hdr.name);
    if rr.CNAME? || rr.SRV? || rr.MX? {
      EnforceFixed(ext.rules, rr.target);
    }
  }

  lemma AddressByConversion(ext: Externals, rr: RR)
    requires rr.A?
    ensures ToRR(ext, Defaulted(ext.rules, FromRR(ext, rr))) ==
      match ext.parseIP(ext.printIP(rr.ip)) case None => None case Some(ip) => Some(A(Imported(ext, rr).hdr, ip))
  {
  }

  lemma RawByConversion(ext: Externals, rr: RR)
    requires rr.AAAA? || rr.NS? || rr.SOA? || rr.Other?
    ensures ToRR(ext, Defaulted(ext.rules, FromRR(ext, rr))) ==
      if ext.printRR(rr) == "" then None else ext.parseRR(ext.printRR(rr))
  {
  }

  lemma NothingToConvert(ext: Externals, rr: RR)
    requires WellFormed(ext.rules)
    requires (rr.TXT? && rr.chunks == []) || ((rr.CNAME? || rr.SRV?) && rr.target == "")
    ensures ToRR(ext, Defaulted(ext.rules, FromRR(ext, rr))) == None
  {
    if rr.CNAME? || rr.SRV? {
      EnforceFixed(ext.rules, rr.target);
    }
  }

  /** Importing a record, defaulting it and converting it back gives the same record exactly
      for the importable ones. */
  lemma ImportRoundTrip(ext: Externals, rr: RR)
    requires WellFormed(ext.rules)
    ensures ToRR(ext, Defaulted(ext.rules, FromRR(ext, rr))) == Some(rr) <==> Importable(ext, rr)
  {
    if rr.AAAA? || rr.NS? || rr.SOA? || rr.Other? {
      RawByConversion(ext, rr);
    } else {
      ImportedFixed(ext, rr);
      if rr.A? {
        AddressByConversion(ext, rr);
      } else if (rr.TXT? && rr.chunks == []) || ((rr.CNAME? || rr.SRV?) && rr.target == "") {
        NothingToConvert(ext, rr);
      } else {
        if rr.CNAME? || rr.SRV? {
          EnforceFixed(ext.rules, rr.target);
        }
        ImportedByConversion(ext, rr);
      }
    }
  }
}
