/** The public-suffix lookup behind publicsuffix.Domain: the longest listed suffix of a
    name wins, and the registrable domain is that suffix plus one more label. */
module Suffixes {
  import opened Text

  datatype Kind = Normal | Wildcard | Exception

  /** The rule list, keyed by the labels of each rule without its `*.` or `!` mark. */
  type Rules = map<seq<string>, Kind>

  ghost predicate WellFormed(rules: Rules) {
    forall k :: k in rules ==>
      k != [] && k[|k| - 1] != "" && (rules[k] == Exception ==> |k| >= 2)
  }

  /** Does the suffix starting at label i carry a rule that applies to the whole name? */
  predicate Applies(rules: Rules, labels: seq<string>, i: nat)
    requires i < |labels|
  {
    labels[i..] in rules && !(rules[labels[i..]] == Wildcard && i == 0)
  }

  /** The label index where the registrable domain starts, looking at suffixes from i on. */
  function Cut(rules: Rules, labels: seq<string>, i: nat): (c: Option<nat>)
    requires i <= |labels|
    ensures c.Some? ==> c.value < |labels|
    decreases |labels| - i
  {
    if i == |labels| then
      if |labels| >= 2 && labels[|labels| - 1] != "" then Some(|labels| - 2) else None
    else if Applies(rules, labels, i) then
      match rules[labels[i..]]
      case Normal => if i >= 1 then Some(i - 1) else None
      case Wildcard => if i >= 2 then Some(i - 2) else None
      case Exception => Some(i)
    else
      Cut(rules, labels, i + 1)
  }

  /** publicsuffix.Domain */
  function Domain(rules: Rules, name: string): Option<string> {
    var n := ToLower(name);
    if n == "" || n[0] == '.' then None
    else
      var labels := Split(n);
      match Cut(rules, labels, 0)
      case None => None
      case Some(c) => Some(Join(labels[c..]))
  }

  /** The zone that the operator files a name under: pkg/provider/libdns and the CoreDNS
      plugin compute it the same way. */
  function ZoneOf(rules: Rules, name: string): Option<string> {
    var parts := SplitDomainName(name);
    if |parts| < 2 then None
    else
      match Domain(rules, Join(parts))
      case None => None
      case Some(d) => Some(Fqdn(d))
  }

  /** A zone name: non-empty text that does not end in a dot, then one dot. */
  predicate ZoneName(zone: string) {
    |zone| >= 2 && IsFqdn(zone) && zone[|zone| - 2] != '.'
  }

  // ---- names ending in a dot have no registrable domain ----

  lemma {:induction false} CutOfRooted(rules: Rules, labels: seq<string>, i: nat)
    requires WellFormed(rules)
    requires i <= |labels| && labels != [] && labels[|labels| - 1] == ""
    ensures Cut(rules, labels, i) == None
    decreases |labels| - i
  {
    if i < |labels| {
      var suffix := labels[i..];
      assert suffix[|suffix| - 1] == "";
      CutOfRooted(rules, labels, i + 1);
    }
  }

  lemma {:induction false} SplitOfRooted(s: string)
    requires IsFqdn(s)
    ensures Split(s)[|Split(s)| - 1] == ""
  {
    JoinSplit(s);
    JoinEndsInDot(Split(s));
  }

  lemma RootedHasNoDomain(rules: Rules, name: string)
    requires WellFormed(rules) && IsFqdn(name)
    ensures Domain(rules, name) == None
  {
    var n := ToLower(name);
    assert IsFqdn(n);
    SplitOfRooted(n);
    CutOfRooted(rules, Split(n), 0);
  }

  /** Neither the empty name nor one that starts with a dot has a registrable domain. */
  lemma UnlabelledHasNoDomain(rules: Rules, name: string)
    requires name == "" || name[0] == '.'
    ensures Domain(rules, name) == None
  {
  }

  /** A registrable domain is a textual suffix of the lower-cased name. */
  lemma DomainIsSuffix(rules: Rules, name: string)
    ensures Domain(rules, name).Some? ==> HasSuffix(ToLower(name), Domain(rules, name).value)
  {
    var n := ToLower(name);
    if Domain(rules, name).Some? {
      var labels := Split(n);
      var c := Cut(rules, labels, 0).value;
      JoinSplit(n);
      JoinDrop(labels, c);
    }
  }

  lemma {:induction false} CutLeavesLabel(rules: Rules, labels: seq<string>, i: nat)
    requires WellFormed(rules) && i <= |labels| && labels != []
    requires Cut(rules, labels, i).Some?
    ensures Cut(rules, labels, i).value < |labels| - 1
    ensures labels[|labels| - 1] != ""
    decreases |labels| - i
  {
    if i < |labels| {
      var suffix := labels[i..];
      if Applies(rules, labels, i) {
        assert suffix[|suffix| - 1] == labels[|labels| - 1];
      } else {
        CutLeavesLabel(rules, labels, i + 1);
      }
    }
  }

  /** Joined labels with a non-empty last label, closed by the root dot, make a zone name
      with the same labels. */
  lemma ZoneNameOfLabels(labels: seq<string>)
    requires |labels| >= 2 && labels[|labels| - 1] != "" && forall l :: l in labels ==> DotFree(l)
    ensures ZoneName(Fqdn(Join(labels)))
    ensures SplitDomainName(Fqdn(Join(labels))) == labels
  {
    JoinEndsInDot(labels);
    SplitJoin(labels);
    assert |Join(labels)| >= 1;
    ClosedText(Join(labels));
  }

  lemma ClosedText(d: string)
    requires d != "" && !IsFqdn(d)
    ensures ZoneName(Fqdn(d)) && SplitDomainName(Fqdn(d)) == Split(d)
  {
  }

  /** Every zone the operator works with is a zone name, whose labels are the trailing
      labels of the lower-cased owner name from the cut on. */
  lemma ZoneOfShape(rules: Rules, name: string)
    requires WellFormed(rules) && ZoneOf(rules, name).Some?
    ensures ZoneName(ZoneOf(rules, name).value)
    ensures var labels := SplitDomainName(ToLower(name));
      labels != [] && Cut(rules, labels, 0).Some? &&
      SplitDomainName(ZoneOf(rules, name).value) == labels[Cut(rules, labels, 0).value..]
  {
    var labels := Split(ToLower(Join(SplitDomainName(name))));
    LowerSplitDomain(name);
    ZoneByCut(rules, name, labels);
    TailIsZone(rules, labels);
  }

  lemma ZoneByCut(rules: Rules, name: string, labels: seq<string>)
    requires ZoneOf(rules, name).Some? && labels == Split(ToLower(Join(SplitDomainName(name))))
    ensures Cut(rules, labels, 0).Some?
    ensures ZoneOf(rules, name).value == Fqdn(Join(labels[Cut(rules, labels, 0).value..]))
  {
  }

  lemma TailIsZone(rules: Rules, labels: seq<string>)
    requires WellFormed(rules) && labels != [] && Cut(rules, labels, 0).Some? && forall l :: l in labels ==> DotFree(l)
    ensures var tail := labels[Cut(rules, labels, 0).value..];
      ZoneName(Fqdn(Join(tail))) && SplitDomainName(Fqdn(Join(tail))) == tail
  {
    CutLeavesLabel(rules, labels, 0);
    var tail := labels[Cut(rules, labels, 0).value..];
    assert forall l :: l in tail ==> l in labels;
    ZoneNameOfLabels(tail);
  }

  /** Lower-casing commutes with taking labels. */
  lemma LowerSplitDomain(name: string)
    requires |SplitDomainName(name)| >= 1
    ensures SplitDomainName(ToLower(name)) == Split(ToLower(Join(SplitDomainName(name))))
  {
    JoinSplit(TrimSuffix(name, "."));
    var low := ToLower(name);
    assert forall i :: 0 <= i < |name| ==> (LowerChar(name[i]) == '.' <==> name[i] == '.');
    assert low[..] == low;
    if HasSuffix(name, ".") {
      assert name[|name| - 1..] == ".";
      assert name[|name| - 1] == '.';
      assert low[|low| - 1..] == ".";
      assert TrimSuffix(low, ".") == ToLower(TrimSuffix(name, "."));
    }
  }

  // ---- longest match ----

  predicate LabelSuffix(zone: seq<string>, name: seq<string>) {
    |zone| <= |name| && name[|name| - |zone|..] == zone
  }

  /** The first applying suffix decides; without one the last two labels do. */
  lemma {:induction false} FirstRule(rules: Rules, labels: seq<string>, i: nat) returns (f: nat)
    requires i <= |labels|
    ensures i <= f <= |labels| && Cut(rules, labels, i) == Cut(rules, labels, f)
    ensures f < |labels| ==> Applies(rules, labels, f)
    ensures forall h :: i <= h < f ==> !Applies(rules, labels, h)
    decreases |labels| - i
  {
    if i == |labels| || Applies(rules, labels, i) {
      f := i;
    } else {
      f := FirstRule(rules, labels, i + 1);
    }
  }

  /** A suffix of n1 that is also a suffix of the zone of n2 is a suffix of n2. */
  lemma SharedSuffix(n1: seq<string>, n2: seq<string>, c2: nat, len: nat)
    requires c2 <= |n2| && LabelSuffix(n2[c2..], n1) && len <= |n2| - c2
    ensures n1[|n1| - len..] == n2[|n2| - len..]
  {
  }

  /** How many labels the registrable domain has, given the suffix that decides. */
  function DomainLength(rules: Rules, labels: seq<string>, f: nat): nat
    requires f <= |labels|
  {
    if f == |labels| || !Applies(rules, labels, f) then 2
    else match rules[labels[f..]]
      case Normal => |labels| - f + 1
      case Wildcard => |labels| - f + 2
      case Exception => |labels| - f
  }

  lemma CutByLength(rules: Rules, labels: seq<string>) returns (f: nat)
    requires labels != [] && Cut(rules, labels, 0).Some?
    ensures f <= |labels| && |labels| - Cut(rules, labels, 0).value == DomainLength(rules, labels, f)
    ensures f < |labels| ==> Applies(rules, labels, f)
    ensures forall h :: 0 <= h < f ==> !Applies(rules, labels, h)
  {
    f := FirstRule(rules, labels, 0);
  }

  lemma LongestRule(rules: Rules, n1: seq<string>, f1: nat, n2: seq<string>, f2: nat)
    requires WellFormed(rules) && f1 <= |n1| && f2 < |n2|
    requires f1 < |n1| ==> Applies(rules, n1, f1)
    requires forall h :: 0 <= h < f1 ==> !Applies(rules, n1, h)
    requires Applies(rules, n2, f2)
    requires forall h :: 0 <= h < f2 ==> !Applies(rules, n2, h)
    requires DomainLength(rules, n2, f2) <= |n2|
    requires LabelSuffix(n2[|n2| - DomainLength(rules, n2, f2)..], n1)
    ensures DomainLength(rules, n2, f2) <= DomainLength(rules, n1, f1)
  {
    var len, d2 := |n2| - f2, DomainLength(rules, n2, f2);
    SharedSuffix(n1, n2, |n2| - d2, len);
    assert Applies(rules, n1, |n1| - len);
    assert f1 <= |n1| - len;
    if len < d2 {
      // the suffix one label longer is shared too, and carries no rule
      SharedSuffix(n1, n2, |n2| - d2, len + 1);
      assert !Applies(rules, n2, f2 - 1);
    }
  }

  /** Routing agrees with filing: if the registrable domain of n2 is a label suffix of n1, it
      is no longer than the registrable domain of n1 itself, however the zones nest. */
  lemma LongestZone(rules: Rules, n1: seq<string>, n2: seq<string>)
    requires WellFormed(rules) && n1 != [] && n2 != []
    requires Cut(rules, n1, 0).Some? && Cut(rules, n2, 0).Some?
    requires LabelSuffix(n2[Cut(rules, n2, 0).value..], n1)
    ensures |n2| - Cut(rules, n2, 0).value <= |n1| - Cut(rules, n1, 0).value
  {
    CutLeavesLabel(rules, n1, 0);
    var f1 := CutByLength(rules, n1);
    var f2 := CutByLength(rules, n2);
    if f2 < |n2| {
      LongestRule(rules, n1, f1, n2, f2);
    }
  }

  // ---- the rule that prevails ----

  /** The suffix from label f on carries the rule that prevails: no longer suffix has one,
      other than a wildcard rule of as many labels as the name; f is past the end if none has. */
  ghost predicate Prevails(rules: Rules, labels: seq<string>, f: nat) {
    && f <= |labels|
    && (f < |labels| ==> labels[f..] in rules && (rules[labels[f..]] == Wildcard ==> f > 0))
    && (forall h :: 0 < h < f ==> labels[h..] !in rules)
    && (0 < f && labels[0..] in rules ==> rules[labels[0..]] == Wildcard)
  }

  /** How many labels the public suffix has: those of the rule, one more for a wildcard rule,
      one less for an exception, and one if there is no rule. */
  function SuffixLength(rules: Rules, labels: seq<string>, f: nat): nat
    requires f <= |labels|
  {
    if f == |labels| || labels[f..] !in rules then 1
    else match rules[labels[f..]]
      case Normal => |labels| - f
      case Wildcard => |labels| - f + 1
      case Exception => |labels| - f - 1
  }

  lemma CutByRule(rules: Rules, labels: seq<string>, f: nat)
    requires labels != [] && labels[|labels| - 1] != "" && Prevails(rules, labels, f)
    ensures var n := SuffixLength(rules, labels, f);
      Cut(rules, labels, 0) == if |labels| > n then Some(|labels| - n - 1) else None
  {
    var g := FirstRule(rules, labels, 0);
    assert forall h :: 0 <= h < f ==> !Applies(rules, labels, h);
    assert f < |labels| ==> Applies(rules, labels, f);
    assert g == f;
  }

  lemma {:induction false} JoinStart(labels: seq<string>)
    requires labels != [] && labels[0] != ""
    ensures Join(labels) != "" && Join(labels)[0] == labels[0][0]
  {
  }

  lemma ClosedSplits(labels: seq<string>)
    requires |labels| >= 1 && labels[0] != "" && forall l :: l in labels ==> DotFree(l)
    ensures SplitDomainName(Join(labels) + ".") == labels
  {
    SplitJoin(labels);
    JoinStart(labels);
    TrimClosed(Join(labels));
  }

  lemma TrimClosed(name: string)
    requires name != ""
    ensures TrimSuffix(name + ".", ".") == name && name + "." != "." && name + "." != ""
  {
    var closed := name + ".";
    assert closed[|closed| - 1..] == "." && closed[..|closed| - 1] == name && |closed| >= 2;
  }

  lemma DomainByRule(rules: Rules, labels: seq<string>, f: nat)
    requires |labels| >= 2 && labels[0] != "" && labels[|labels| - 1] != "" && Prevails(rules, labels, f)
    requires (forall l :: l in labels ==> DotFree(l)) && ToLower(Join(labels)) == Join(labels)
    ensures var n := SuffixLength(rules, labels, f);
      Domain(rules, Join(labels)) == if |labels| > n then Some(Join(labels[|labels| - n - 1..])) else None
  {
    CutByRule(rules, labels, f);
    SplitJoin(labels);
    JoinStart(labels);
    assert DotFree(labels[0]);
  }

  lemma ZoneFromDomain(rules: Rules, name: string, labels: seq<string>, domain: Option<string>)
    requires SplitDomainName(name) == labels && |labels| >= 2 && Domain(rules, Join(labels)) == domain
    ensures ZoneOf(rules, name) == if domain.None? then None else Some(Fqdn(domain.value))
  {
  }

  lemma ClosedTail(labels: seq<string>, i: nat)
    requires i < |labels| && labels[|labels| - 1] != "" && forall l :: l in labels ==> DotFree(l)
    ensures Fqdn(Join(labels[i..])) == Join(labels[i..]) + "."
  {
    var tail := labels[i..];
    assert forall l :: l in tail ==> l in labels;
    JoinEndsInDot(tail);
  }

  /** The zone of a name is the public suffix of its labels and one label more, closed by a
      dot; a name that is no longer than its public suffix has no zone. */
  lemma ZoneByRule(rules: Rules, labels: seq<string>, f: nat, name: string, n: nat)
    requires |labels| >= 2 && labels[0] != "" && labels[|labels| - 1] != "" && Prevails(rules, labels, f)
    requires (forall l :: l in labels ==> DotFree(l)) && ToLower(Join(labels)) == Join(labels)
    requires name == Join(labels) + "." && n == SuffixLength(rules, labels, f)
    ensures ZoneOf(rules, name) == if |labels| > n then Some(Join(labels[|labels| - n - 1..]) + ".") else None
  {
    ClosedSplits(labels);
    DomainByRule(rules, labels, f);
    ZoneFromDomain(rules, name, labels, Domain(rules, Join(labels)));
    if |labels| > n {
      ClosedTail(labels, |labels| - n - 1);
    }
  }
}
