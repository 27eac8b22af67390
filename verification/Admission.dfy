/** What the webhooks do to a spec, said without their order of work: which fields are found
    invalid, which specs are admitted, and which fields defaulting may touch. */
module Admission {
  import opened Text
  import opened Suffixes
  import opened Records

  /** The owner name of the variant that is looked at, unless that is the raw text. */
  function OwnerName(s: Spec): Option<string> {
    if s.a.Some? then Some(s.a.value.name)
    else if s.cname.Some? then Some(s.cname.value.name)
    else if s.txt.Some? then Some(s.txt.value.name)
    else if s.srv.Some? then Some(s.srv.value.name)
    else if s.mx.Some? then Some(s.mx.value.name)
    else None
  }

  /** The name that a CNAME, SRV or MX record points to, if such a variant is looked at. */
  function HostTarget(s: Spec): Option<string> {
    if s.a.Some? then None
    else if s.cname.Some? then Some(s.cname.value.target)
    else if s.txt.Some? then None
    else if s.srv.Some? then Some(s.srv.value.target)
    else if s.mx.Some? then Some(s.mx.value.target)
    else None
  }

  predicate OnlyText(s: Spec) {
    s.a.None? && s.cname.None? && s.txt.Some?
  }

  /** Which fields are invalid. */
  predicate Faulty(ext: Externals, s: Spec, field: string) {
    || (field == "name" && OwnerName(s).Some? && !IsFqdn(OwnerName(s).value))
    || (field == "target" && s.a.Some? && (s.a.value.target == "" || ext.parseIP(s.a.value.target).None?))
    || (field == "target" && HostTarget(s).Some? && !IsFqdn(HostTarget(s).value))
    || (field == "targets" && OnlyText(s) && s.txt.value.targets == [])
    || (field == "spec" && OwnerName(s).None? && s.raw == "")
    || (field == "raw" && OwnerName(s).None? && s.raw != "" && ext.parseRR(s.raw).None?)
  }

  lemma NameErrorsExactly(name: string, field: string)
    ensures field in NameErrors(name) <==> field == "name" && !IsFqdn(name)
    ensures field in TargetErrors(name) <==> field == "target" && !IsFqdn(name)
  {
  }

  lemma AddressErrors(ext: Externals, s: Spec, field: string)
    requires s.a.Some?
    ensures field in Errors(ext, s) <==> Faulty(ext, s, field)
  {
    NameErrorsExactly(s.a.value.name, field);
  }

  lemma TextErrors(ext: Externals, s: Spec, field: string)
    requires OnlyText(s)
    ensures field in Errors(ext, s) <==> Faulty(ext, s, field)
  {
    NameErrorsExactly(s.txt.value.name, field);
  }

  lemma HostErrors(ext: Externals, s: Spec, field: string)
    requires HostTarget(s).Some?
    ensures field in Errors(ext, s) <==> Faulty(ext, s, field)
  {
    NameErrorsExactly(OwnerName(s).value, field);
    NameErrorsExactly(HostTarget(s).value, field);
    assert Errors(ext, s) == NameErrors(OwnerName(s).value) + TargetErrors(HostTarget(s).value);
  }

  lemma RawErrors(ext: Externals, s: Spec, field: string)
    requires OwnerName(s).None?
    ensures field in Errors(ext, s) <==> Faulty(ext, s, field)
  {
  }

  /** Validation reports exactly the invalid fields. */
  lemma ErrorsExactly(ext: Externals, s: Spec, field: string)
    ensures field in Errors(ext, s) <==> Faulty(ext, s, field)
  {
    if s.a.Some? {
      AddressErrors(ext, s, field);
    } else if OnlyText(s) {
      TextErrors(ext, s, field);
    } else if HostTarget(s).Some? {
      HostErrors(ext, s, field);
    } else {
      RawErrors(ext, s, field);
    }
  }

  /** A spec is admitted exactly when the variant looked at has a dotted name and a parsed
      address, a dotted target or a text, or when the raw text parses. */
  lemma AdmittedExactly(ext: Externals, s: Spec)
    ensures Errors(ext, s) == [] <==>
      if OwnerName(s).None? then s.raw != "" && ext.parseRR(s.raw).Some?
      else
        && IsFqdn(OwnerName(s).value)
        && (s.a.Some? ==> s.a.value.target != "" && ext.parseIP(s.a.value.target).Some?)
        && (HostTarget(s).Some? ==> IsFqdn(HostTarget(s).value))
        && (OnlyText(s) ==> s.txt.value.targets != [])
  {
  }

  /** A record with dotted names that survives its import is admitted once imported, before
      and after defaulting. */
  lemma ImportIsAdmitted(ext: Externals, rr: RR)
    requires WellFormed(ext.rules) && Importable(ext, rr)
    requires rr.A? || rr.CNAME? || rr.SRV? || rr.TXT? || rr.MX? ==> IsFqdn(rr.hdr.name)
    requires rr.CNAME? || rr.SRV? || rr.MX? ==> IsFqdn(rr.target)
    requires rr.A? ==> ext.printIP(rr.ip) != ""
    ensures Errors(ext, FromRR(ext, rr)) == [] && Errors(ext, Defaulted(ext.rules, FromRR(ext, rr))) == []
  {
    AdmittedExactly(ext, FromRR(ext, rr));
    DefaultingIsStable(ext, FromRR(ext, rr));
  }

  /** Defaulting gives a class, a TTL, a weight, a preference and an active flag only to specs
      without one, closes or lower-cases names, and touches nothing outside the variant that is
      looked at. */
  lemma DefaultingTouchesOne(rules: Rules, s: Spec)
    ensures var d := Defaulted(rules, s);
      && d.active == Some(s.active.GetOr(true)) && d.raw == s.raw
      && (match s.a
          case Some(r) => d.a == Some(ARecord(EnforceFqdn(rules, r.name), if r.cls == 0 then 1 else r.cls,
                                              if r.ttl == 0 then 3600 else r.ttl, r.target))
          case None => d.a == None)
      && (s.a.Some? ==> d.cname == s.cname) && (s.a.Some? || s.cname.Some? ==> d.txt == s.txt)
      && (s.a.Some? || s.cname.Some? || s.txt.Some? ==> d.srv == s.srv)
      && (s.a.Some? || s.cname.Some? || s.txt.Some? || s.srv.Some? ==> d.mx == s.mx)
      && (OnlyText(s) ==> d.txt.Some? && d.txt.value.targets == s.txt.value.targets)
      && OwnerName(d) == match OwnerName(s) { case Some(n) => Some(EnforceFqdn(rules, n)) case None => None }
      && HostTarget(d) == match HostTarget(s) { case Some(n) => Some(EnforceFqdn(rules, n)) case None => None }
  {
  }
}
