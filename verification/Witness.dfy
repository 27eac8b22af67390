/** The situations that the convergence and deletion theorems speak about do occur: concrete
    objects that start at full rank, that flap, and that are being deleted. */
module Witness {
  import opened Text
  import opened Suffixes
  import opened Records
  import opened Normaliser
  import opened Provider
  import opened Controller
  import opened Convergence
  import opened Deletion
  import opened Rewriting

  const NAME := "a.b."

  function Libraries(): Externals {
    Externals(map[], s => None, ip => "", s => None, rr => "rendered")
  }

  function Here(): Setting {
    Setting(Libraries(), "here", remote => true)
  }

  function TxtSpec(text: string): Spec {
    BLANK.(active := Some(true), txt := Some(TXTRecord(NAME, 1, 60, [text])))
  }

  function TxtData(text: string): Data {
    Data(NAME, "TXT", 60 * SECOND, text)
  }

  lemma NameIsItsOwnZone()
    ensures ZoneOf(map[], NAME) == Some(NAME)
  {
    assert NAME[3..] == "." && NAME[..3] == "a.b" == "a" + "." + "b";
    assert TrimSuffix(NAME, ".") == "a.b";
    SplitDotFree("b");
    SplitLabelThenRest("a", "b");
    var labels := ["a", "b"];
    assert SplitDomainName(NAME) == labels;
    assert labels[1..] == ["b"] && labels[0..] == labels;
    assert Join(labels) == "a" + "." + Join(["b"]) == "a.b";
    assert ToLower("a.b") == "a.b";
    assert Cut(map[], labels, 2) == Some(0);
    assert Cut(map[], labels, 1) == Some(0);
    assert Cut(map[], labels, 0) == Some(0);
    assert Domain(map[], "a.b") == Some("a.b");
    assert "a.b" + "." == NAME;
  }

  lemma SpecIsSettled(text: string)
    ensures Defaulted(map[], TxtSpec(text)) == TxtSpec(text)
  {
    assert ToLower(NAME) == NAME;
    EnforceFqdnStable(map[], NAME);
  }

  /** The goal of the object, in its own zone. */
  lemma GoalOfTxt(text: string, o: Record)
    requires o.spec == TxtSpec(text) && (o.status.provider == "" || o.status.provider == "here")
    ensures GoalAt(Here(), o) == Some(Goal(NAME, TxtData(text)))
  {
    NameIsItsOwnZone();
    SpecIsSettled(text);
    assert [text][1..] == [];
    assert Concat([text]) == text + Concat([]) == text;
    assert ToRR(Libraries(), TxtSpec(text)) == Some(TXT(Header(NAME, 1, 60), [text]));
  }

  function Fetching(id: string): Calls {
    Calls(Listed([]), false, Appended(id))
  }

  lemma PlainTextIsStable()
    ensures EchoStable(TxtData("x"), NAME)
  {
    assert RemoveAll("x", GAP) == "x";
    RemoveAllFixed("x", GAP);
    EchoStableExactly(TxtData("x"), NAME);
  }

  function NewObject(): Config {
    Config(Record(false, [], 0, TxtSpec("x"), NO_STATUS), map[])
  }

  /** A new object with plain text is steady, and at rank three. */
  lemma SteadyObjects()
    ensures Steady(Here(), NewObject()) && Rank(Here(), NewObject()) == 3
  {
    GoalOfTxt("x", NewObject().obj);
    PlainTextIsStable();
  }

  function FlappingObject(text: string): Config {
    Config(Record(false, [RECORD_FINALIZER], 0, TxtSpec(text), Status("", None, "here", "i")),
           map["i" := Placed(NAME, TxtData(text))])
  }

  lemma EdgedIsFlapping(text: string)
    requires text != "" && Edge(text[0])
    ensures Flapping(Here(), FlappingObject(text))
  {
    var c := FlappingObject(text);
    GoalOfTxt(text, c.obj);
    assert !PlainText(text);
    SentIsNoMatch(Here(), c);
  }

  /** An object whose text starts with a space or a quote, of any kind that is trimmed, flaps
      once its entry is there. */
  lemma FlappingObjects(c: char)
    requires IsSpace(c) || IsQuote(c)
    ensures Flapping(Here(), FlappingObject([c] + "x"))
  {
    EdgedIsFlapping([c] + "x");
  }

  /** An object being deleted, its entry already gone, under the controller's finalizer. */
  lemma DeletedObjects()
    ensures var c := Config(Record(true, [RECORD_FINALIZER], 0, TxtSpec("x"), NO_STATUS), map[]);
      Cleaned(Here(), c) && Faultless(Here(), c, Fetching("i")) &&
      PassAt(Here(), c, Fetching("i"), 1).obj == None
  {
    var c := Config(Record(true, [RECORD_FINALIZER], 0, TxtSpec("x"), NO_STATUS), map[]);
    GoalOfTxt("x", c.obj);
    DeletionEnds(Here(), c, Fetching("i"), 1);
  }

  function OneLabel(): Spec {
    BLANK.(active := Some(true), txt := Some(TXTRecord("x.", 1, 60, ["t"])))
  }

  lemma OneLabelHasNoZone(rules: Rules)
    ensures ZoneOf(rules, "x.") == None
  {
    assert "x."[1..] == "." && "x."[..1] == "x";
    SplitDotFree("x");
    assert SplitDomainName("x.") == ["x"];
  }

  lemma OneLabelIsSettled(rules: Rules)
    requires WellFormed(rules)
    ensures Defaulted(rules, OneLabel()) == OneLabel()
  {
    assert ToLower("x.") == "x.";
    EnforceFqdnStable(rules, "x.");
  }

  /** A record with a one-label name is admitted, and gets the finalizer; once it is deleted
      it never goes away, for any rules, libraries and provider. */
  lemma StuckObjects(s: Setting, c: Config)
    requires WellFormed(s.ext.rules) && c.obj.spec == OneLabel() && "" !in c.remote
    ensures Errors(s.ext, c.obj.spec) == []
    ensures !c.obj.deleting && c.obj.finalizers == [] ==> Open(s.ext, Snapshot(s.ext, c.obj)) == AddFinalizer
    ensures c.obj.deleting && c.obj.finalizers == [RECORD_FINALIZER] ==>
      FinalizerLast(c.obj.finalizers) && !exists cs :: Ends(s, c, cs)
  {
    OneLabelIsSettled(s.ext.rules);
    OneLabelHasNoZone(s.ext.rules);
    assert GoalAt(s, c.obj).None?;
    if c.obj.deleting && c.obj.finalizers == [RECORD_FINALIZER] {
      ObjectGoes(s, c);
    }
  }
}
