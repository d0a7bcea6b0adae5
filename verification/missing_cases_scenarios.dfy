/**
 The scenarios of MissingCasesInEnumSwitchTest, each stated as a fact about the
 model: which switches are silent and the exact text of the ones that are not.
 */
module MissingCasesScenarios {
  import opened Wrappers
  import opened MissingCasesInEnumSwitch
  import opened SwitchMessage
  import SwitchMessageFacts
  import MissingCasesFacts

  const Three := ["ONE", "TWO", "THREE"]
  const Eight := ["ONE", "TWO", "THREE", "FOUR", "FIVE", "SIX", "SEVEN", "EIGHT"]

  /** `enum Case { ONE, TWO, THREE }` with all three cases and no default: silent. */
  lemma Exhaustive()
    ensures Check(Switch(Enum(Three), [Case("ONE"), Case("TWO"), Case("THREE")])) == None
  {
    var s := Switch(Enum(Three), [Case("ONE"), Case("TWO"), Case("THREE")]);
    assert Covers(s.labels, "ONE") && Covers(s.labels, "TWO") && Covers(s.labels, "THREE");
    MissingCasesFacts.ExhaustiveIsSilent(s);
  }

  /** Cases ONE and TWO plus a default: silent although THREE is uncovered. */
  lemma NonExhaustiveWithDefault()
    ensures Check(Switch(Enum(Three), [Case("ONE"), Case("TWO"), Default])) == None
  {
    assert HasDefault([Case("ONE"), Case("TWO"), Default]);
  }

  /** Cases ONE and TWO leave THREE alone missing. */
  lemma OnlyThreeMissing()
    ensures MissingCases(Three, [Case("ONE"), Case("TWO")]) == ["THREE"]
  {
    var labels := [Case("ONE"), Case("TWO")];
    assert Three[1..][1..][1..] == [];
    assert Covers(labels, "ONE") && Covers(labels, "TWO");
    assert !Covers(labels, "THREE") by {
      assert "THREE" != "ONE" && "THREE" != "TWO";
    }
  }

  /** Cases ONE and TWO, no default: one diagnostic naming THREE. */
  lemma NonExhaustive()
    ensures Diagnostics(Switch(Enum(Three), [Case("ONE"), Case("TWO")]))
         == ["Non-exhaustive switch, expected cases for: " + "THREE"]
  {
    var s := Switch(Enum(Three), [Case("ONE"), Case("TWO")]);
    assert !HasDefault(s.labels);
    OnlyThreeMissing();
    SwitchMessageFacts.SingleMissing(["THREE"]);
  }

  /** Only ONE covered: the other seven constants are missing, in declaration order. */
  lemma ManyCasesMissing()
    ensures MissingCases(Eight, [Case("ONE")]) == Eight[1..]
  {
    var labels := [Case("ONE")];
    var missing := Eight[1..];
    assert Eight == ["ONE"] + missing;
    assert Covers(labels, "ONE");
    assert MissingCases(["ONE"], labels) == [];
    assert forall c :: c in missing ==> !Covers(labels, c);
    MissingCasesFacts.NothingCoveredKeepsAll(missing, labels);
    MissingCasesFacts.MissingCasesAppend(["ONE"], missing, labels);
  }

  /** The message for the seven constants TWO .. EIGHT. */
  lemma ManyCasesMessage()
    ensures Message(Eight[1..])
         == "Non-exhaustive switch, expected cases for: "
            + "TWO, THREE, FOUR, and 4 others."
            + " Did you mean to include a 'default' case?"
  {
    var missing := Eight[1..];
    assert missing[0] == "TWO" && missing[1] == "THREE" && missing[2] == "FOUR" && |missing| == 7;
    SwitchMessageFacts.TruncatedShape(missing);
    ManyCasesListText();
  }

  /** Solver aid: the literal text between the prefix and the hint, in its own small context. */
  lemma ManyCasesListText()
    ensures "TWO" + ", " + "THREE" + ", " + "FOUR" + Counted(4) == "TWO, THREE, FOUR, and 4 others."
  {
    assert Counted(4) == ", and 4 others." by {
      assert Text.NatToString(4) == "4";
    }
    assert "TWO" + ", " + "THREE" + ", " + "FOUR" == "TWO, THREE, FOUR";
  }

  /**
   Eight constants and only ONE covered: one diagnostic, listing the missing
   constants in declaration order, the first three named and the other four counted.
   */
  lemma NonExhaustiveManyCases()
    ensures Diagnostics(Switch(Enum(Eight), [Case("ONE")]))
         == ["Non-exhaustive switch, expected cases for: "
             + "TWO, THREE, FOUR, and 4 others."
             + " Did you mean to include a 'default' case?"]
  {
    var s := Switch(Enum(Eight), [Case("ONE")]);
    assert !HasDefault(s.labels);
    ManyCasesMissing();
    assert Check(s) == Some(Message(Eight[1..]));
    ManyCasesMessage();
  }

  /** A switch over an `int` with cases 1 and 2 and no default: silent. */
  lemma NonExhaustiveNonEnum()
    ensures Check(Switch(NonEnum, [Case("1"), Case("2")])) == None
  {
  }
}
