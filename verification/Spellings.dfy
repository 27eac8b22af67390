/** How providers spell entries: a reported entry is normalised to the wanted one from every
    spelling of its names and texts, and a pass that finds its entry so spelled keeps it. */
module Spellings {
  import opened Text
  import opened Suffixes
  import opened Records
  import opened Normaliser
  import opened ProviderForms
  import opened Provider

  // ---- names ----

  /** The spellings of an absolute name in a zone: as it is; without its closing dot, if the
      text ends as the zone does; empty or "@" for the zone itself; and relative to the zone,
      if the text does not end as the zone does. */
  predicate Spells(n: string, absolute: string, zone: string)
    requires ZoneName(zone)
  {
    var bare := zone[..|zone| - 1];
    || (IsFqdn(n) && n == absolute)
    || (!IsFqdn(n) && HasSuffix(n, bare) && n + "." == absolute)
    || ((n == "" || n == "@") && absolute == zone)
    || (n != "" && n != "@" && !IsFqdn(n) && !HasSuffix(n, bare) && n + "." + zone == absolute)
  }

  lemma BareZone(zone: string)
    requires ZoneName(zone)
    ensures UnFqdn(zone) == zone[..|zone| - 1] && UnFqdn(zone) != "" && Fqdn(zone) == zone
  {
    assert zone[|zone| - 1..] == ".";
  }

  /** A name is normalised to an absolute name exactly if it spells that name. */
  lemma SpelledExactly(n: string, absolute: string, zone: string)
    requires ZoneName(zone)
    ensures InZone(n, zone) == absolute <==> Spells(n, absolute, zone)
  {
    BareZone(zone);
    ApexForms(zone);
    if n != "" && n != "@" && !IsFqdn(n) {
      if HasSuffix(n, UnFqdn(zone)) {
        AbsoluteForms(n, zone);
      } else {
        RelativeForm(n, zone);
      }
    } else if IsFqdn(n) {
      InZoneFixed(n, zone);
    }
  }

  lemma SuffixBehindSpace(pre: string, n: string, bare: string)
    requires ' ' !in bare && pre != "" && pre[|pre| - 1] == ' '
    ensures HasSuffix(pre + n, bare) <==> HasSuffix(n, bare)
  {
    var v := pre + n;
    if |bare| <= |n| {
      assert v[|v| - |bare|..] == n[|n| - |bare|..];
    } else if |bare| <= |v| {
      var tail := v[|v| - |bare|..];
      assert tail[|bare| - |n| - 1] == ' ';
      assert ' ' in tail;
    }
  }

  /** Behind numbers, as in MX and SRV data, a name keeps its spelling. */
  lemma NumberedSpelling(pre: string, n: string, absolute: string, zone: string)
    requires ZoneName(zone) && ' ' !in zone && pre != "" && pre[|pre| - 1] == ' '
    requires Spells(n, absolute, zone) && n != "" && n != "@"
    ensures Spells(pre + n, pre + absolute, zone)
  {
    SuffixBehindSpace(pre, n, zone[..|zone| - 1]);
    var v := pre + n;
    assert v[|v| - 1] == n[|n| - 1];
    if !IsFqdn(n) {
      if HasSuffix(n, zone[..|zone| - 1]) {
        assert v + "." == pre + (n + ".");
      } else {
        assert v != "@" by { assert |v| >= 2; }
        assert v + "." + zone == pre + (n + "." + zone);
      }
    }
  }

  /** Only the "@" of the zone itself is not understood there: it is taken for a name. */
  lemma ApexBehindNumber(pre: string, zone: string)
    requires ZoneName(zone) && ' ' !in zone && pre != "" && pre[|pre| - 1] == ' ' && zone != "@."
    ensures InZone(pre + "@", zone) == pre + "@." + zone
  {
    var v, bare := pre + "@", zone[..|zone| - 1];
    SuffixBehindSpace(pre, "@", bare);
    assert !HasSuffix("@", bare) by {
      assert zone == bare + "." && bare != "@" && bare != "";
    }
    assert !IsFqdn(v) by { assert v[|v| - 1] == '@'; }
    assert v + "." + zone == pre + "@." + zone;
    SpelledExactly(v, v + "." + zone, zone);
  }

  // ---- texts ----

  /** The text as it is, or in quoted presentation form, in one chunk or several. */
  ghost predicate Writes(v: string, text: string) {
    || (v == text && PlainText(text))
    || exists chunks :: Quotes(v, text, chunks)
  }

  ghost predicate Quotes(v: string, text: string, chunks: seq<string>) {
    chunks != [] && QuoteFreeChunks(chunks) && chunks[0] != " " && v == Presented(chunks) && text == Concat(chunks)
  }

  lemma WrittenText(v: string, text: string)
    requires Writes(v, text)
    ensures Unquote(RemoveAll(v, GAP)) == text
  {
    if chunks :| Quotes(v, text, chunks) {
      TxtRoundTrip(chunks);
    } else {
      TextFixed(text);
    }
  }

  // ---- whole entries ----

  /** A provider's report of an entry: the same type and TTL, a spelling of its name, and its
      value written as text or spelled as a name, as the type demands. */
  ghost predicate Reports(d: Data, want: Data, zone: string)
    requires ZoneName(zone)
  {
    && d.rrtype == want.rrtype && d.ttl == want.ttl && Spells(d.name, want.name, zone)
    && (if want.rrtype in {"A", "AAAA", "TXT"} then Writes(d.value, want.value)
        else if want.rrtype in {"CNAME", "MX", "NS", "SRV"}
        then Spells(d.value, want.value, zone) && want.value != "" && !Edge(want.value[0])
        else d.value == want.value)
  }

  lemma SpelledValue(v: string, target: string, zone: string)
    requires ZoneName(zone) && Spells(v, target, zone) && target != "" && !Edge(target[0])
    ensures Unquote(InZone(v, zone)) == target
  {
    SpelledExactly(v, target, zone);
    InZoneFixed(v, zone);
    UnquoteFixed(target);
  }

  /** Every report of an entry is normalised to the entry. */
  lemma ReportIsRecognised(d: Data, want: Data, zone: string)
    requires ZoneName(zone) && Reports(d, want, zone)
    ensures FqdnRec(d, zone) == want
  {
    SpelledExactly(d.name, want.name, zone);
    if want.rrtype in {"A", "AAAA", "TXT"} {
      WrittenText(d.value, want.value);
    } else if want.rrtype in {"CNAME", "MX", "NS", "SRV"} {
      SpelledValue(d.value, want.value, zone);
    }
  }

  /** What is normalised to an entry has its type and TTL and spells its name. */
  lemma RecognisedIsReport(d: Data, want: Data, zone: string)
    requires ZoneName(zone) && FqdnRec(d, zone) == want
    ensures d.rrtype == want.rrtype && d.ttl == want.ttl && Spells(d.name, want.name, zone)
  {
    SpelledExactly(d.name, want.name, zone);
  }

  /** A pass that finds its own entry so reported keeps it; one that keeps an entry has found
      one of that identifier, type, TTL and name. */
  lemma ReportIsKept(rec: Record, g: Goal, records: seq<Entry>)
    requires ZoneName(g.zone) && !rec.deleting && rec.spec.active != Some(false)
    ensures Find(records, rec.status.id).Some? && Reports(Find(records, rec.status.id).value.data, g.want, g.zone) ==>
      PlanFor(rec, g, records) == Keep
    ensures PlanFor(rec, g, records) == Keep ==>
      exists e :: e in records && e.id == rec.status.id && e.data.rrtype == g.want.rrtype && e.data.ttl == g.want.ttl
                  && Spells(e.data.name, g.want.name, g.zone)
  {
    FindFacts(records, rec.status.id);
    if Find(records, rec.status.id).Some? {
      var e := Find(records, rec.status.id).value;
      if Reports(e.data, g.want, g.zone) {
        ReportIsRecognised(e.data, g.want, g.zone);
      }
      if FqdnRec(e.data, g.zone) == g.want {
        RecognisedIsReport(e.data, g.want, g.zone);
      }
    }
  }

  /** A place is taken exactly by an entry that spells the wanted name and has the wanted type
      and the very value. */
  lemma TakenExactly(records: seq<Entry>, g: Goal)
    requires ZoneName(g.zone)
    ensures Taken(records, g) <==>
      exists e :: e in records && e.data.rrtype == g.want.rrtype && e.data.value == g.want.value
                  && Spells(e.data.name, g.want.name, g.zone)
  {
    forall e: Entry ensures InZone(e.data.name, g.zone) == g.want.name <==> Spells(e.data.name, g.want.name, g.zone) {
      SpelledExactly(e.data.name, g.want.name, g.zone);
    }
  }
}
