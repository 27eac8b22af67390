/** Optional values and the string functions of the Go standard library and of
    miekg/dns that the operator relies on, over names without escapes. */
module Text {

  datatype Option<+T> = None | Some(value: T) {
    function GetOr(default: T): T {
      match this
      case Some(v) => v
      case None => default
    }
  }

  predicate HasSuffix(s: string, t: string) {
    |t| <= |s| && s[|s| - |t|..] == t
  }

  function TrimSuffix(s: string, t: string): string {
    if HasSuffix(s, t) then s[..|s| - |t|] else s
  }

  /** The name ends with the root dot. */
  predicate IsFqdn(s: string) {
    |s| > 0 && s[|s| - 1] == '.'
  }

  function Fqdn(s: string): string {
    if IsFqdn(s) then s else s + "."
  }

  function LowerChar(c: char): char {
    if 'A' <= c <= 'Z' then (c as int + 32) as char else c
  }

  function ToLower(s: string): string {
    seq(|s|, i requires 0 <= i < |s| => LowerChar(s[i]))
  }

  lemma ToLowerIdempotent(s: string)
    ensures ToLower(ToLower(s)) == ToLower(s)
  {
  }

  /** Lower-casing changes the letters A to Z and nothing else. */
  lemma LoweredLetters(s: string, i: nat)
    requires i < |s|
    ensures |ToLower(s)| == |s| && !('A' <= ToLower(s)[i] <= 'Z')
    ensures !('A' <= s[i] <= 'Z') ==> ToLower(s)[i] == s[i]
    ensures 'A' <= s[i] <= 'Z' ==> ToLower(s)[i] as int - 'a' as int == s[i] as int - 'A' as int
  {
  }

  /** unicode.IsSpace, which strings.TrimSpace trims by */
  predicate IsSpace(c: char) {
    || '\t' <= c <= '\r' || c == ' ' || c == '\U{85}' || c == '\U{A0}' || c == '\U{1680}'
    || '\U{2000}' <= c <= '\U{200A}' || c == '\U{2028}' || c == '\U{2029}' || c == '\U{202F}'
    || c == '\U{205F}' || c == '\U{3000}'
  }

  /** The code points of White_Space. */
  lemma SpaceCodes(c: char)
    ensures IsSpace(c) <==>
      c as int in {0x9, 0xA, 0xB, 0xC, 0xD, 0x20, 0x85, 0xA0, 0x1680, 0x2000, 0x2001, 0x2002, 0x2003, 0x2004, 0x2005,
                   0x2006, 0x2007, 0x2008, 0x2009, 0x200A, 0x2028, 0x2029, 0x202F, 0x205F, 0x3000}
  {
  }

  predicate IsQuote(c: char) {
    c == '\"'
  }

  function TrimLeft(s: string, p: char -> bool): string {
    if s != "" && p(s[0]) then TrimLeft(s[1..], p) else s
  }

  function TrimRight(s: string, p: char -> bool): string {
    if s != "" && p(s[|s| - 1]) then TrimRight(s[..|s| - 1], p) else s
  }

  lemma {:induction false} TrimLeftShrinks(s: string, p: char -> bool)
    ensures |TrimLeft(s, p)| <= |s|
    ensures TrimLeft(s, p) == s || |TrimLeft(s, p)| < |s|
    ensures TrimLeft(s, p) == s <==> (s == "" || !p(s[0]))
  {
    if s != "" && p(s[0]) {
      TrimLeftShrinks(s[1..], p);
    }
  }

  lemma {:induction false} TrimRightShrinks(s: string, p: char -> bool)
    ensures |TrimRight(s, p)| <= |s|
    ensures TrimRight(s, p) == s || |TrimRight(s, p)| < |s|
    ensures TrimRight(s, p) == s <==> (s == "" || !p(s[|s| - 1]))
  {
    if s != "" && p(s[|s| - 1]) {
      TrimRightShrinks(s[..|s| - 1], p);
    }
  }

  function TrimSpace(s: string): string {
    TrimRight(TrimLeft(s, IsSpace), IsSpace)
  }

  /** Replaces the leftmost non-overlapping occurrences of `cut` by nothing. */
  function RemoveAll(s: string, cut: string): (r: string)
    requires cut != ""
    ensures |r| <= |s|
    decreases |s|
  {
    if |s| < |cut| then s
    else if s[..|cut|] == cut then RemoveAll(s[|cut|..], cut)
    else [s[0]] + RemoveAll(s[1..], cut)
  }

  predicate OccursAt(s: string, t: string, i: int) {
    0 <= i <= |s| - |t| && s[i..i + |t|] == t
  }

  ghost predicate Contains(s: string, t: string) {
    exists i :: OccursAt(s, t, i)
  }

  lemma OccursLater(s: string, t: string, i: int)
    requires s != "" && 0 < |t| <= |s| && s[..|t|] != t
    ensures OccursAt(s, t, i) <==> OccursAt(s[1..], t, i - 1)
  {
  }

  lemma ContainsLater(s: string, t: string)
    requires s != "" && 0 < |t| <= |s| && s[..|t|] != t
    ensures Contains(s, t) <==> Contains(s[1..], t)
  {
    if i :| OccursAt(s, t, i) {
      OccursLater(s, t, i);
    }
    if i :| OccursAt(s[1..], t, i) {
      OccursLater(s, t, i + 1);
    }
  }

  /** Removing a text changes nothing exactly when the text does not occur. */
  lemma {:induction false} RemoveAllFixed(s: string, cut: string)
    requires cut != ""
    ensures RemoveAll(s, cut) == s <==> !Contains(s, cut)
    decreases |s|
  {
    if |s| < |cut| {
    } else if s[..|cut|] == cut {
      assert OccursAt(s, cut, 0);
      assert |RemoveAll(s[|cut|..], cut)| <= |s| - |cut|;
    } else {
      RemoveAllFixed(s[1..], cut);
      ContainsLater(s, cut);
      assert s == [s[0]] + s[1..];
    }
  }

  // ---- labels ----

  predicate DotFree(s: string) {
    '.' !in s
  }

  /** strings.Split(s, ".") */
  function Split(s: string): (r: seq<string>)
    ensures r != []
    ensures forall l :: l in r ==> DotFree(l)
  {
    if s == "" then [""]
    else
      var rest := Split(s[1..]);
      assert DotFree(rest[0]);
      if s[0] == '.' then [""] + rest else [[s[0]] + rest[0]] + rest[1..]
  }

  /** strings.Join(labels, ".") */
  function Join(labels: seq<string>): string {
    if labels == [] then ""
    else if |labels| == 1 then labels[0]
    else labels[0] + "." + Join(labels[1..])
  }

  lemma JoinHead(c: char, labels: seq<string>)
    requires labels != []
    ensures Join([[c] + labels[0]] + labels[1..]) == [c] + Join(labels)
  {
    assert ([[c] + labels[0]] + labels[1..])[1..] == labels[1..];
    if |labels| > 1 {
      assert [c] + labels[0] + "." + Join(labels[1..]) == [c] + (labels[0] + "." + Join(labels[1..]));
    }
  }

  lemma {:induction false} JoinSplit(s: string)
    ensures Join(Split(s)) == s
  {
    if s != "" {
      JoinSplit(s[1..]);
      var rest := Split(s[1..]);
      assert s == [s[0]] + s[1..];
      if s[0] == '.' {
        assert ([""] + rest)[1..] == rest;
      } else {
        JoinHead(s[0], rest);
      }
    }
  }

  lemma {:induction false} SplitDotFree(s: string)
    requires DotFree(s)
    ensures Split(s) == [s]
  {
    if s != "" {
      SplitDotFree(s[1..]);
      assert s == [s[0]] + s[1..];
    }
  }

  lemma {:induction false} SplitLabelThenRest(l: string, rest: string)
    requires DotFree(l)
    ensures Split(l + "." + rest) == [l] + Split(rest)
  {
    var s := l + "." + rest;
    if l == "" {
      assert s[1..] == rest;
    } else {
      assert s[1..] == l[1..] + "." + rest;
      SplitLabelThenRest(l[1..], rest);
      assert l == [l[0]] + l[1..];
    }
  }

  lemma {:induction false} SplitJoin(labels: seq<string>)
    requires labels != [] && forall l :: l in labels ==> DotFree(l)
    ensures Split(Join(labels)) == labels
  {
    if |labels| == 1 {
      SplitDotFree(labels[0]);
    } else {
      SplitJoin(labels[1..]);
      SplitLabelThenRest(labels[0], Join(labels[1..]));
    }
  }

  /** A trailing run of labels is a textual suffix. */
  lemma {:induction false} JoinDrop(labels: seq<string>, c: nat)
    requires c < |labels|
    ensures HasSuffix(Join(labels), Join(labels[c..]))
  {
    if c == 0 {
      assert labels[0..] == labels;
    } else {
      JoinDrop(labels[1..], c - 1);
      assert labels[1..][c - 1..] == labels[c..];
    }
  }

  /** The joined text ends in a dot exactly when the last of several labels is empty. */
  lemma {:induction false} JoinEndsInDot(labels: seq<string>)
    requires labels != [] && forall l :: l in labels ==> DotFree(l)
    ensures IsFqdn(Join(labels)) <==> |labels| >= 2 && labels[|labels| - 1] == ""
  {
    if |labels| == 1 {
      assert DotFree(labels[0]);
    } else {
      JoinEndsInDot(labels[1..]);
      assert labels[1..][|labels| - 2] == labels[|labels| - 1];
      if |labels| == 2 {
        assert Join(labels[1..]) == labels[1];
      } else {
        assert Join(labels[1..]) != "";
      }
    }
  }

  /** dns.SplitDomainName */
  function SplitDomainName(s: string): seq<string> {
    if s == "" || s == "." then [] else Split(TrimSuffix(s, "."))
  }

  // ---- decimal numbers ----

  function Digit(d: nat): char
    requires d < 10
  {
    (d + '0' as int) as char
  }

  /** fmt's %d for a non-negative number */
  function Decimal(n: nat): (r: string)
    ensures r != ""
    ensures forall c :: c in r ==> '0' <= c <= '9'
  {
    if n < 10 then [Digit(n)] else Decimal(n / 10) + [Digit(n % 10)]
  }

  lemma {:induction false} DecimalInjective(m: nat, n: nat)
    requires Decimal(m) == Decimal(n)
    ensures m == n
  {
    var s := Decimal(m);
    assert s[|s| - 1] == Digit(m % 10) == Digit(n % 10);
    if m < 10 || n < 10 {
      assert |s| == 1;
    } else {
      assert s[..|s| - 1] == Decimal(m / 10) == Decimal(n / 10);
      DecimalInjective(m / 10, n / 10);
    }
  }

  /** Text up to the first separator is determined by the whole. */
  lemma {:induction false} CutAtFirst(a: string, x: string, b: string, y: string, sep: char)
    requires sep !in a && sep !in b
    requires a + [sep] + x == b + [sep] + y
    ensures a == b && x == y
  {
    var s := a + [sep] + x;
    assert s[|a|] == sep && s[|b|] == sep;
    assert |a| == |b| by {
      assert forall i :: 0 <= i < |a| ==> s[i] == a[i];
      assert forall i :: 0 <= i < |b| ==> s[i] == b[i];
    }
    assert s[..|a|] == a && s[..|b|] == b;
    assert s[|a| + 1..] == x && s[|b| + 1..] == y;
  }

  /** Text after the last separator is determined by the whole. */
  lemma CutAtLast(a: string, x: string, b: string, y: string, sep: char)
    requires sep !in x && sep !in y
    requires a + [sep] + x == b + [sep] + y
    ensures a == b && x == y
  {
    var s := a + [sep] + x;
    assert s[|a|] == sep && s[|b|] == sep;
    assert |a| == |b| by {
      assert forall i :: |a| < i < |s| ==> s[i] == x[i - |a| - 1];
      assert forall i :: |b| < i < |s| ==> s[i] == y[i - |b| - 1];
    }
    assert s[..|a|] == a && s[..|b|] == b;
    assert s[|a| + 1..] == x && s[|b| + 1..] == y;
  }
}
