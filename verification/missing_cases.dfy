/**
 The enum-switch exhaustiveness check (MissingCasesInEnumSwitch). A switch is
 silent when it has a `default` label or when its discriminant is not an enum;
 otherwise it reports, in one diagnostic, the enum constants no `case` covers,
 listed in the enum's declaration order.
 */
module MissingCasesInEnumSwitch {
  import opened Wrappers
  import opened SwitchMessage

  /** The switched-on expression's type: an enum with its constants in declaration order, or anything else. */
  datatype Discriminant = Enum(constants: seq<string>) | NonEnum

  datatype Label = Case(name: string) | Default

  datatype Switch = Switch(discriminant: Discriminant, labels: seq<Label>)

  predicate HasDefault(labels: seq<Label>)
  {
    Default in labels
  }

  /** True iff some `case` label names the constant `c`. */
  predicate Covers(labels: seq<Label>, c: string)
  {
    Case(c) in labels
  }

  /** `a` is obtained from `b` by deleting elements: it keeps `b`'s order. */
  predicate IsSubsequence(a: seq<string>, b: seq<string>)
    decreases |b|
  {
    |a| == 0
    || (|b| > 0
        && ((a[0] == b[0] && IsSubsequence(a[1..], b[1..])) || IsSubsequence(a, b[1..])))
  }

  /**
   The constants no `case` label covers, in declaration order: exactly the
   uncovered constants, as a subsequence of the declaration.
   */
  function MissingCases(constants: seq<string>, labels: seq<Label>): (r: seq<string>)
    ensures forall c :: c in r <==> c in constants && !Covers(labels, c)
    ensures IsSubsequence(r, constants)
    decreases |constants|
  {
    if |constants| == 0 then []
    else
      var rest := MissingCases(constants[1..], labels);
      if Covers(labels, constants[0]) then rest
      else [constants[0]] + rest
  }

  /**
   The diagnostic message for a switch, or None when the check is silent: it fires
   exactly when there is no default, the discriminant is an enum, and some constant
   is uncovered, and its text then starts with the fixed prefix.
   */
  function Check(s: Switch): (r: Option<string>)
    ensures r.Some? <==>
      && !HasDefault(s.labels)
      && s.discriminant.Enum?
      && exists c :: c in s.discriminant.constants && !Covers(s.labels, c)
    ensures r.Some? ==> Text.StartsWith(r.value, Prefix)
  {
    if HasDefault(s.labels) then None
    else
      match s.discriminant
      case NonEnum => None
      case Enum(constants) =>
        var missing := MissingCases(constants, s.labels);
        if |missing| == 0 then
          assert forall c :: c in constants ==> c in missing || Covers(s.labels, c);
          None
        else
          assert missing[0] in missing;
          Some(Message(missing))
  }

  /** The messages one switch produces: at most one, whatever the number of missing constants. */
  function Diagnostics(s: Switch): (r: seq<string>)
    ensures |r| <= 1
    ensures |r| == 1 <==> Check(s).Some?
  {
    match Check(s)
    case None => []
    case Some(m) => [m]
  }
}

module MissingCasesFacts {
  import opened Wrappers
  import opened MissingCasesInEnumSwitch
  import opened SwitchMessage
  import SwitchMessageFacts

  /**
   When the constants before position i are all covered and the one at i is not,
   that constant heads the missing list.
   */
  lemma {:induction false} FirstUncoveredHeadsMissing(constants: seq<string>, labels: seq<Label>, i: nat)
    requires i < |constants| && !Covers(labels, constants[i])
    requires forall j :: 0 <= j < i ==> Covers(labels, constants[j])
    ensures |MissingCases(constants, labels)| > 0
    ensures MissingCases(constants, labels)[0] == constants[i]
    decreases i
  {
    if i > 0 {
      assert Covers(labels, constants[0]);
      FirstUncoveredHeadsMissing(constants[1..], labels, i - 1);
    }
  }

  /**
   The first uncovered constant in declaration order is named right after the
   prefix, whatever the number of missing constants.
   */
  lemma FirstUncoveredNamedFirst(s: Switch, i: nat)
    requires s.discriminant.Enum? && !HasDefault(s.labels)
    requires i < |s.discriminant.constants| && !Covers(s.labels, s.discriminant.constants[i])
    requires forall j :: 0 <= j < i ==> Covers(s.labels, s.discriminant.constants[j])
    ensures Check(s).Some?
    ensures Text.StartsWith(Check(s).value, Prefix + s.discriminant.constants[i])
  {
    var m := MissingCases(s.discriminant.constants, s.labels);
    FirstUncoveredHeadsMissing(s.discriminant.constants, s.labels, i);
    assert Check(s) == Some(Message(m));
    SwitchMessageFacts.MessageNamesFirst(m);
  }

  /** A switch missing exactly one constant is reported with the prefix and that name. */
  lemma CheckTextSingle(s: Switch, c: string)
    requires !HasDefault(s.labels) && s.discriminant.Enum?
    requires MissingCases(s.discriminant.constants, s.labels) == [c]
    ensures Check(s) == Some(Prefix + c)
  {
    SwitchMessageFacts.SingleMissing([c]);
  }

  /**
   A switch missing more than three constants is reported with the first three
   names in declaration order, the count of the rest and the default hint.
   */
  lemma CheckTextTruncated(s: Switch, m: seq<string>)
    requires !HasDefault(s.labels) && s.discriminant.Enum?
    requires m == MissingCases(s.discriminant.constants, s.labels) && |m| > MaxShown
    ensures Check(s) == Some(Prefix + (m[0] + ", " + m[1] + ", " + m[2] + Counted(|m| - 3)) + DefaultHint)
  {
    SwitchMessageFacts.TruncatedShape(m);
  }

  /**
   The missing list of a declaration split in two is the missing list of the first
   part followed by that of the second: the filter works constant by constant, in order.
   */
  lemma {:induction false} MissingCasesAppend(a: seq<string>, b: seq<string>, labels: seq<Label>)
    ensures MissingCases(a + b, labels) == MissingCases(a, labels) + MissingCases(b, labels)
    decreases |a|
  {
    if |a| == 0 {
      assert a + b == b;
    } else {
      assert (a + b)[1..] == a[1..] + b;
      MissingCasesAppend(a[1..], b, labels);
    }
  }

  /** When no label covers any constant, every constant is missing, in declaration order. */
  lemma {:induction false} NothingCoveredKeepsAll(constants: seq<string>, labels: seq<Label>)
    requires forall c :: c in constants ==> !Covers(labels, c)
    ensures MissingCases(constants, labels) == constants
    decreases |constants|
  {
    if |constants| > 0 {
      NothingCoveredKeepsAll(constants[1..], labels);
    }
  }

  /**
   The order (and repetition) of the `case` labels does not matter: two label lists
   that cover the same constants leave the same constants missing, in the same order.
   */
  lemma {:induction false} LabelOrderIrrelevant(constants: seq<string>, l1: seq<Label>, l2: seq<Label>)
    requires forall c :: Covers(l1, c) <==> Covers(l2, c)
    ensures MissingCases(constants, l1) == MissingCases(constants, l2)
    decreases |constants|
  {
    if |constants| > 0 {
      LabelOrderIrrelevant(constants[1..], l1, l2);
    }
  }

  /** A switch over an enum whose every constant has a `case` is silent. */
  lemma ExhaustiveIsSilent(s: Switch)
    requires s.discriminant.Enum?
    requires forall c :: c in s.discriminant.constants ==> Covers(s.labels, c)
    ensures Check(s) == None
  {
  }

  /** A switch with a `default` label is silent, whatever its cases cover. */
  lemma DefaultIsSilent(s: Switch)
    requires HasDefault(s.labels)
    ensures Check(s) == None
  {
  }

  /** A switch over a non-enum discriminant is silent, whatever its labels. */
  lemma NonEnumIsSilent(s: Switch)
    requires s.discriminant == NonEnum
    ensures Check(s) == None
  {
  }

  /**
   Several missing constants still give one diagnostic for the whole switch, not
   one per missing constant.
   */
  lemma OneDiagnosticPerSwitch(s: Switch)
    requires !HasDefault(s.labels) && s.discriminant.Enum?
    requires |MissingCases(s.discriminant.constants, s.labels)| >= 2
    ensures |Diagnostics(s)| == 1 < |MissingCases(s.discriminant.constants, s.labels)|
  {
    var missing := MissingCases(s.discriminant.constants, s.labels);
    assert missing[0] in missing;
  }
}
