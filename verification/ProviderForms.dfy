/** The provider form loses nothing that matters: presentation-format TXT data (section 5.1
    of RFC 1035) normalises back to its concatenation, equal provider forms come from equal
    records, and admitted specs are recognised when the provider reports them back. */
module ProviderForms {
  import opened Text
  import opened Records
  import opened Normaliser

  const Q := "\""

  predicate QuoteFree(s: string) {
    '\"' !in s
  }

  ghost predicate QuoteFreeChunks(chunks: seq<string>) {
    forall c :: c in chunks ==> QuoteFree(c)
  }

  /** The text `c1" "c2" ... "cn"`, that is, the presentation form after its first quote. */
  function Body(chunks: seq<string>): string
    requires chunks != []
  {
    if |chunks| == 1 then chunks[0] + Q else chunks[0] + (GAP + Body(chunks[1..]))
  }

  /** The presentation form `"c1" "c2" ... "cn"`. */
  function Presented(chunks: seq<string>): string
    requires chunks != []
  {
    Q + Body(chunks)
  }

  function SkipBlanks(chunks: seq<string>): seq<string> {
    if chunks != [] && chunks[0] == " " then SkipBlanks(chunks[1..]) else chunks
  }

  lemma {:induction false} RemoveAfterPrefix(u: string, x: string)
    requires QuoteFree(u)
    ensures RemoveAll(u + x, GAP) == u + RemoveAll(x, GAP)
  {
    var s := u + x;
    if u == "" {
      assert s == x;
    } else {
      assert s[0] == u[0] && s[1..] == u[1..] + x;
      RemoveAfterPrefix(u[1..], x);
      assert u == [u[0]] + u[1..];
      if |s| >= 3 {
        assert s[..3][0] == u[0] && GAP[0] == '\"';
      } else {
        assert RemoveAll(s[1..], GAP) == s[1..];
      }
    }
  }

  lemma RemoveLeadingGap(x: string)
    ensures RemoveAll(GAP + x, GAP) == RemoveAll(x, GAP)
  {
  }

  lemma {:induction false} RemoveInBody(chunks: seq<string>)
    requires chunks != [] && QuoteFreeChunks(chunks)
    ensures RemoveAll(Body(chunks), GAP) == Concat(chunks) + Q
  {
    var c := chunks[0];
    if |chunks| == 1 {
      RemoveAfterPrefix(c, Q);
      assert Concat(chunks[1..]) == "";
    } else {
      RemoveInBody(chunks[1..]);
      RemoveAfterPrefix(c, GAP + Body(chunks[1..]));
      RemoveLeadingGap(Body(chunks[1..]));
    }
  }

  /** Unless the first chunk is a single space, no gap starts at the first quote. */
  lemma RemoveInPresented(chunks: seq<string>)
    requires chunks != [] && QuoteFreeChunks(chunks) && chunks[0] != " "
    ensures RemoveAll(Presented(chunks), GAP) == Q + (Concat(chunks) + Q)
  {
    var s, c := Presented(chunks), chunks[0];
    assert QuoteFree(c);
    var tail := if |chunks| == 1 then "" else GAP[1..] + Body(chunks[1..]);
    assert Body(chunks) == c + (Q + tail) by {
      if |chunks| > 1 {
        assert GAP == Q + GAP[1..];
        assert c + (GAP + Body(chunks[1..])) == c + (Q + (GAP[1..] + Body(chunks[1..])));
      }
    }
    NoLeadingGap(c, tail);
    StepOver(s);
    assert s[1..] == Body(chunks) && [s[0]] == Q;
    RemoveInBody(chunks);
  }

  lemma StepOver(s: string)
    requires s != "" && (|s| >= 3 ==> s[..3] != GAP)
    ensures RemoveAll(s, GAP) == [s[0]] + RemoveAll(s[1..], GAP)
  {
    if |s| < 3 {
      assert RemoveAll(s[1..], GAP) == s[1..];
    }
  }

  lemma NoLeadingGap(c: string, tail: string)
    requires QuoteFree(c) && c != " "
    ensures var s := Q + (c + (Q + tail)); |s| >= 3 ==> s[..3] != GAP
  {
    var s := Q + (c + (Q + tail));
    if |c| >= 2 {
      assert s[2] == c[1] != '\"';
    } else if |c| == 1 {
      assert c == [c[0]];
      assert s[1] == c[0] != ' ';
    } else {
      assert s[1] == '\"';
    }
  }

  lemma UnquoteQuoted(t: string)
    requires QuoteFree(t)
    ensures Unquote(Q + (t + Q)) == t
  {
    var s := Q + (t + Q);
    TrimLeftShrinks(s, IsSpace);
    TrimRightShrinks(s, IsSpace);
    assert s[1..] == t + Q;
    if t == "" {
      assert TrimLeft(t + Q, IsQuote) == "";
    } else {
      assert (t + Q)[0] == t[0];
      assert TrimLeft(s, IsQuote) == t + Q;
      assert (t + Q)[..|t|] == t;
      TrimRightShrinks(t, IsQuote);
    }
  }

  lemma {:induction false} ConcatQuoteFree(chunks: seq<string>)
    requires QuoteFreeChunks(chunks)
    ensures QuoteFree(Concat(chunks))
  {
    if chunks != [] {
      assert QuoteFree(chunks[0]);
      ConcatQuoteFree(chunks[1..]);
    }
  }

  /** Normalising the presentation form gives the concatenation of the chunks, less the
      leading chunks that are a single space. */
  lemma {:induction false} NormalisedPresentation(chunks: seq<string>)
    requires chunks != [] && QuoteFreeChunks(chunks)
    ensures Unquote(RemoveAll(Presented(chunks), GAP)) == Concat(SkipBlanks(chunks))
  {
    if chunks[0] != " " {
      RemoveInPresented(chunks);
      ConcatQuoteFree(chunks);
      UnquoteQuoted(Concat(chunks));
    } else if |chunks| == 1 {
      assert Presented(chunks) == GAP + "";
      RemoveLeadingGap("");
    } else {
      var rest := chunks[1..];
      assert Presented(chunks) == GAP + (" " + Presented(rest));
      RemoveLeadingGap(" " + Presented(rest));
      RemoveAfterPrefix(" ", Presented(rest));
      NormalisedPresentation(rest);
      var x := RemoveAll(Presented(rest), GAP);
      assert (" " + x)[1..] == x;
      assert TrimSpace(" " + x) == TrimSpace(x);
    }
  }

  lemma {:induction false} SkippedLength(chunks: seq<string>)
    ensures |Concat(SkipBlanks(chunks))| <= |Concat(chunks)|
  {
    if chunks != [] && chunks[0] == " " {
      SkippedLength(chunks[1..]);
    }
  }

  /** TXT data reported in presentation form compares equal to the text the operator asked
      for exactly when its first chunk is not a single space. */
  lemma TxtRoundTrip(chunks: seq<string>)
    requires chunks != [] && QuoteFreeChunks(chunks)
    ensures Unquote(RemoveAll(Presented(chunks), GAP)) == Concat(chunks) <==> chunks[0] != " "
  {
    NormalisedPresentation(chunks);
    if chunks[0] == " " {
      SkippedLength(chunks[1..]);
    }
  }

  // ---- equal provider forms come from equal records ----

  /** A duration in nanoseconds holds any TTL. */
  lemma TtlFits(ext: Externals, rr: RR)
    ensures 0 <= MakeRecord(ext, rr).ttl < 0x8000_0000_0000_0000
  {
  }

  /** Reading a decimal number. */
  function Number(s: string): int {
    if s == "" then 0 else 10 * Number(s[..|s| - 1]) + (s[|s| - 1] as int - '0' as int)
  }

  lemma {:induction false} NumberOfDecimal(n: nat)
    ensures Number(Decimal(n)) == n
  {
    var s := Decimal(n);
    if n < 10 {
      assert s[..|s| - 1] == "";
    } else {
      assert s[..|s| - 1] == Decimal(n / 10);
      NumberOfDecimal(n / 10);
    }
  }

  /** The text up to the first space, and what follows it. */
  function Field(s: string): (string, string) {
    if s == "" then ("", "")
    else if s[0] == ' ' then ("", s[1..])
    else var (f, rest) := Field(s[1..]); ([s[0]] + f, rest)
  }

  lemma {:induction false} FieldOf(a: string, x: string)
    requires ' ' !in a
    ensures Field(a + " " + x) == (a, x)
  {
    var s := a + " " + x;
    if a == "" {
      assert s[1..] == x;
    } else {
      assert s[1..] == a[1..] + " " + x;
      FieldOf(a[1..], x);
      assert a == [a[0]] + a[1..];
    }
  }

  /** A decimal number, then the rest of the data. */
  predicate ReadsAs(s: string, n: nat, rest: string) {
    var (f, r) := Field(s);
    (forall c :: c in f ==> '0' <= c <= '9') && f != "" && Number(f) == n && r == rest
  }

  lemma NumberReadsBack(n: nat, x: string)
    ensures ReadsAs(Decimal(n) + " " + x, n, x)
  {
    FieldOf(Decimal(n), x);
    NumberOfDecimal(n);
  }

  /** The data of MX records reads as preference and host, that of SRV records as priority,
      weight, port and target, in the order of RFC 1035 section 3.3.9 and RFC 2782. */
  lemma DataReadsBack(ext: Externals, rr: RR)
    ensures rr.MX? ==> ReadsAs(Value(ext, rr), rr.preference, rr.target)
    ensures rr.SRV? ==>
      var rest := Field(Value(ext, rr)).1;
      ReadsAs(Value(ext, rr), rr.priority, rest) && ReadsAs(rest, rr.weight, Field(rest).1)
      && ReadsAs(Field(rest).1, rr.port, rr.target)
  {
    if rr.MX? {
      NumberReadsBack(rr.preference, rr.target);
    } else if rr.SRV? {
      var last := Decimal(rr.port) + " " + rr.target;
      Regroup(Decimal(rr.priority), Decimal(rr.weight), Decimal(rr.port), rr.target);
      NumberReadsBack(rr.priority, Decimal(rr.weight) + " " + last);
      NumberReadsBack(rr.weight, last);
      NumberReadsBack(rr.port, rr.target);
    }
  }

  lemma NumberThenText(m: nat, x: string, n: nat, y: string)
    requires Decimal(m) + " " + x == Decimal(n) + " " + y
    ensures m == n && x == y
  {
    CutAtFirst(Decimal(m), x, Decimal(n), y, ' ');
    DecimalInjective(m, n);
  }

  lemma Regroup(a: string, b: string, c: string, t: string)
    ensures a + " " + b + " " + c + " " + t == a + " " + (b + " " + (c + " " + t))
  {
  }

  lemma SrvValueInjective(ext: Externals, r1: RR, r2: RR)
    requires r1.SRV? && r2.SRV? && Value(ext, r1) == Value(ext, r2)
    ensures r1.priority == r2.priority && r1.weight == r2.weight && r1.port == r2.port && r1.target == r2.target
  {
    var x1 := Decimal(r1.port) + " " + r1.target;
    var x2 := Decimal(r2.port) + " " + r2.target;
    Regroup(Decimal(r1.priority), Decimal(r1.weight), Decimal(r1.port), r1.target);
    Regroup(Decimal(r2.priority), Decimal(r2.weight), Decimal(r2.port), r2.target);
    NumberThenText(r1.priority, Decimal(r1.weight) + " " + x1, r2.priority, Decimal(r2.weight) + " " + x2);
    NumberThenText(r1.weight, x1, r2.weight, x2);
    NumberThenText(r1.port, r1.target, r2.port, r2.target);
  }

  /** Two records of one of the provider's types with the same provider form have the same
      type, owner name, TTL and data; for TXT the same concatenated data. The class is not
      part of the form. */
  lemma FaithfulProviderForm(ext: Externals, r1: RR, r2: RR)
    requires MakeRecord(ext, r1) == MakeRecord(ext, r2)
    requires !r1.SOA? && !r1.Other? && !r2.SOA? && !r2.Other?
    requires (r1.A? || r1.AAAA?) && (r2.A? || r2.AAAA?) && ext.printIP(r1.ip) == ext.printIP(r2.ip) ==> r1.ip == r2.ip
    ensures r1.hdr.name == r2.hdr.name && r1.hdr.ttl == r2.hdr.ttl
    ensures match r1
      case TXT(_, chunks) => r2.TXT? && Concat(chunks) == Concat(r2.chunks)
      case A(_, ip) => r2 == A(r1.hdr.(cls := r2.hdr.cls), ip)
      case AAAA(_, ip) => r2 == AAAA(r1.hdr.(cls := r2.hdr.cls), ip)
      case CNAME(_, t) => r2 == CNAME(r1.hdr.(cls := r2.hdr.cls), t)
      case NS(_, t) => r2 == NS(r1.hdr.(cls := r2.hdr.cls), t)
      case MX(_, p, t) => r2 == MX(r1.hdr.(cls := r2.hdr.cls), p, t)
      case SRV(_, p, w, o, t) => r2 == SRV(r1.hdr.(cls := r2.hdr.cls), p, w, o, t)
      case _ => false
  {
    assert TypeName(r1) == TypeName(r2);
    if r1.MX? && r2.MX? {
      NumberThenText(r1.preference, r1.target, r2.preference, r2.target);
    } else if r1.SRV? && r2.SRV? {
      SrvValueInjective(ext, r1, r2);
    }
  }

  // ---- admitted specs are recognised ----

  lemma NumberThenName(n: nat, t: string)
    requires IsFqdn(t)
    ensures var v := Decimal(n) + " " + t; IsFqdn(v) && !Edge(v[0])
  {
  }

  lemma NumberedForm(ext: Externals, rr: RR)
    requires (rr.MX? || rr.SRV?) && IsFqdn(rr.target)
    ensures IsFqdn(Value(ext, rr)) && !Edge(Value(ext, rr)[0])
  {
    if rr.MX? {
      NumberThenName(rr.preference, rr.target);
    } else {
      Regroup(Decimal(rr.priority), Decimal(rr.weight), Decimal(rr.port), rr.target);
      NumberThenName(rr.port, rr.target);
      NumberThenName(rr.weight, Decimal(rr.port) + " " + rr.target);
      NumberThenName(rr.priority, Decimal(rr.weight) + " " + (Decimal(rr.port) + " " + rr.target));
    }
  }

  /** For an admitted spec whose validated variant is the converted one, the provider form is
      recognised exactly when the address or the TXT data is plain text, or the CNAME target
      does not start with a space or quote; SRV and MX forms always are. */
  lemma AdmittedIsRecognised(ext: Externals, s: Spec)
    requires Errors(ext, s) == [] && Admitted(s) == Converted(s) != VRaw
    ensures ToRR(ext, s).Some?
    ensures var rr := ToRR(ext, s).value;
      Recognisable(MakeRecord(ext, rr)) <==>
      match rr
      case A(_, ip) => PlainText(ext.printIP(ip))
      case TXT(_, chunks) => PlainText(Concat(chunks))
      case CNAME(_, t) => !Edge(t[0])
      case _ => true
  {
    var rr := ToRR(ext, s).value;
    if rr.MX? || rr.SRV? {
      NumberedForm(ext, rr);
    }
  }
}
