# Error Prone: enum-switch exhaustiveness and @CheckReturnValue

A Dafny model of two checkers of the Error Prone static-analysis engine.

- **MissingCasesInEnumSwitch** decides whether a `switch` over an enum leaves constants
  uncovered. A switch with a `default` label is silent. So is a switch whose discriminant
  is not an enum. Otherwise the constants no `case` covers are collected in declaration
  order. If there are any, one diagnostic is reported for the whole switch. Its text is
  `Non-exhaustive switch, expected cases for: ` followed by the list. After three names
  the list is cut off with `, and K others.` and the hint
  ` Did you mean to include a 'default' case?`.
- **CheckReturnValue** reports a method invocation whose result is discarded when
  `@CheckReturnValue` is on the called method, on its enclosing class or on its enclosing
  package. Its descriptor fixes the severity at ERROR.

Files:

- `wrappers.dfy`: `Option`.
- `text.dfy`: joining, prefix/suffix tests, decimal rendering of a count and its inverse.
- `bug_pattern.dfy`: severity, the behavioural part of a descriptor, diagnostics.
- `switch_message.dfy`: truncating the missing list and rendering the message.
- `missing_cases.dfy`: the switch model, `MissingCases`, `Check` and their properties.
- `missing_cases_scenarios.dfy`: the five test scenarios as lemmas.
- `check_return_value.dfy`: the scope-widening matcher and the full checker.

## Model

| member | source | states |
|---|---|---|
| MissingCasesInEnumSwitch.MissingCases | core/src/test/java/com/google/errorprone/bugpatterns/MissingCasesInEnumSwitchTest.java:97-116 | the result holds exactly the constants no `case` covers, and it is a subsequence of the declaration, so declaration order is kept |
| MissingCasesInEnumSwitch.Check | core/src/test/java/com/google/errorprone/bugpatterns/MissingCasesInEnumSwitchTest.java:36-134 | a message is produced iff there is no `default`, the discriminant is an enum and some constant is uncovered; the message starts with the fixed prefix |
| MissingCasesFacts.FirstUncoveredHeadsMissing | core/src/test/java/com/google/errorprone/bugpatterns/MissingCasesInEnumSwitchTest.java:102-106 | when every constant before position i is covered and the one at i is not, that constant heads the missing list |
| MissingCasesFacts.FirstUncoveredNamedFirst | core/src/test/java/com/google/errorprone/bugpatterns/MissingCasesInEnumSwitchTest.java:84-106 | for any number of missing constants, the check reports and the first uncovered constant in declaration order is named right after the prefix |
| MissingCasesFacts.CheckTextSingle | core/src/test/java/com/google/errorprone/bugpatterns/MissingCasesInEnumSwitchTest.java:77-95 | a switch missing exactly one constant is reported with the prefix followed by that name |
| MissingCasesFacts.CheckTextTruncated | core/src/test/java/com/google/errorprone/bugpatterns/MissingCasesInEnumSwitchTest.java:97-116 | a switch missing more than three constants is reported with the first three missing names joined by ", ", then ", and K others." with K = missing - 3, then the default hint |
| MissingCasesInEnumSwitch.Diagnostics | core/src/test/java/com/google/errorprone/bugpatterns/MissingCasesInEnumSwitchTest.java:84-85 | a switch yields at most one diagnostic, and exactly one when the check fires |
| MissingCasesFacts.MissingCasesAppend | core/src/test/java/com/google/errorprone/bugpatterns/MissingCasesInEnumSwitchTest.java:102-106 | the missing list of a concatenated declaration is the concatenation of the missing lists: a constant-by-constant filter in order |
| MissingCasesFacts.NothingCoveredKeepsAll | core/src/test/java/com/google/errorprone/bugpatterns/MissingCasesInEnumSwitchTest.java:102-106 | when no label covers any constant, the missing list is the whole declaration, unchanged in order |
| MissingCasesFacts.LabelOrderIrrelevant | core/src/test/java/com/google/errorprone/bugpatterns/MissingCasesInEnumSwitchTest.java:97-116 | label lists covering the same constants give the same missing list: the order of the `case` labels never affects the result |
| MissingCasesFacts.ExhaustiveIsSilent | core/src/test/java/com/google/errorprone/bugpatterns/MissingCasesInEnumSwitchTest.java:36-54 | an enum switch covering every constant, without `default`, gets no diagnostic |
| MissingCasesFacts.DefaultIsSilent | core/src/test/java/com/google/errorprone/bugpatterns/MissingCasesInEnumSwitchTest.java:56-75 | a switch with `default` gets no diagnostic, whatever is uncovered |
| MissingCasesFacts.NonEnumIsSilent | core/src/test/java/com/google/errorprone/bugpatterns/MissingCasesInEnumSwitchTest.java:118-134 | a switch over a non-enum discriminant gets no diagnostic |
| MissingCasesFacts.OneDiagnosticPerSwitch | core/src/test/java/com/google/errorprone/bugpatterns/MissingCasesInEnumSwitchTest.java:97-116 | two or more missing constants still give exactly one diagnostic |
| SwitchMessage.Truncate | core/src/test/java/com/google/errorprone/bugpatterns/MissingCasesInEnumSwitchTest.java:104-106 | at most three names are shown; they are the head of the missing list; shown plus counted equals the number missing; counting happens iff more than three are missing |
| SwitchMessage.Message | core/src/test/java/com/google/errorprone/bugpatterns/MissingCasesInEnumSwitchTest.java:84-106 | the text starts with the prefix; with more than three missing it ends with the default hint, otherwise with the last missing name |
| SwitchMessage.Counted | core/src/test/java/com/google/errorprone/bugpatterns/MissingCasesInEnumSwitchTest.java:105 | the count text starts with ", and " and ends with " others.", and the digits between them read back as the number of unnamed constants |
| SwitchMessageFacts.MessageNamesFirst | core/src/test/java/com/google/errorprone/bugpatterns/MissingCasesInEnumSwitchTest.java:84-106 | the message starts with the prefix followed by the first missing constant, whether or not the list is truncated |
| SwitchMessageFacts.SingleMissing | core/src/test/java/com/google/errorprone/bugpatterns/MissingCasesInEnumSwitchTest.java:84 | one missing constant gives the prefix followed by that name |
| SwitchMessageFacts.TruncatedShape | core/src/test/java/com/google/errorprone/bugpatterns/MissingCasesInEnumSwitchTest.java:104-106 | more than three missing: the first three names joined by ", ", then ", and K others." with K = missing - 3, then the hint |
| Text.NatToString | core/src/test/java/com/google/errorprone/bugpatterns/MissingCasesInEnumSwitchTest.java:105 | the count renders as a non-empty string of digits without a leading zero |
| Text.ParseNatToString | core/src/test/java/com/google/errorprone/bugpatterns/MissingCasesInEnumSwitchTest.java:105 | parsing the rendered count gives back the number |
| MissingCasesScenarios.Exhaustive | core/src/test/java/com/google/errorprone/bugpatterns/MissingCasesInEnumSwitchTest.java:36-54 | ONE, TWO, THREE all covered: no diagnostic |
| MissingCasesScenarios.NonExhaustiveWithDefault | core/src/test/java/com/google/errorprone/bugpatterns/MissingCasesInEnumSwitchTest.java:56-75 | ONE and TWO plus `default`: no diagnostic |
| MissingCasesScenarios.NonExhaustive | core/src/test/java/com/google/errorprone/bugpatterns/MissingCasesInEnumSwitchTest.java:77-95 | ONE and TWO only: exactly one diagnostic, `Non-exhaustive switch, expected cases for: THREE` |
| MissingCasesScenarios.NonExhaustiveManyCases | core/src/test/java/com/google/errorprone/bugpatterns/MissingCasesInEnumSwitchTest.java:97-116 | eight constants with ONE covered: exactly one diagnostic, naming TWO, THREE, FOUR and counting 4 others, then the hint |
| MissingCasesScenarios.NonExhaustiveNonEnum | core/src/test/java/com/google/errorprone/bugpatterns/MissingCasesInEnumSwitchTest.java:118-134 | an `int` switch with partial cases: no diagnostic |
| CheckReturnValue.Matches | core/src/main/java/com/google/errorprone/bugpatterns/CheckReturnValue.java:49-54 | the disjunction of the method, enclosing-class and enclosing-package membership tests holds exactly when some level carries `@CheckReturnValue`; the visitor state is not read |
| CheckReturnValue.FirstAnnotated | core/src/main/java/com/google/errorprone/bugpatterns/CheckReturnValue.java:51-53 | the innermost-first search returns the first scope carrying the annotation, with none before it, or None iff no scope carries it |
| CheckReturnValue.MatchMethodInvocation | core/src/main/java/com/google/errorprone/bugpatterns/CheckReturnValue.java:43-64 | a diagnostic iff the result is discarded and some level carries `@CheckReturnValue`; every diagnostic has ERROR severity and the checker's name |
| CheckReturnValueFacts.MatchesWhenAnnotatedAt | core/src/main/java/com/google/errorprone/bugpatterns/CheckReturnValue.java:51-53 | the annotation on the method alone, on the class alone or on the package alone makes the matcher true |
| CheckReturnValueFacts.NoMatchIffUnannotated | core/src/main/java/com/google/errorprone/bugpatterns/CheckReturnValue.java:51-53 | the matcher is false exactly when none of the three levels carries the annotation |
| CheckReturnValueFacts.MatchesIffFoundInChain | core/src/main/java/com/google/errorprone/bugpatterns/CheckReturnValue.java:51-53 | the three-way disjunction agrees with the short-circuit search of method, class, package |
| CheckReturnValueFacts.MatchesMonotonic | core/src/main/java/com/google/errorprone/bugpatterns/CheckReturnValue.java:51-53 | adding annotations at any level never turns a match into a non-match |
| CheckReturnValueFacts.AnnotateKeepsMatch | core/src/main/java/com/google/errorprone/bugpatterns/CheckReturnValue.java:51-53 | annotating one level keeps a match, and annotating it with `@CheckReturnValue` always yields a match |
| CheckReturnValueFacts.MatchesDependsOnlyOnAnnotations | core/src/main/java/com/google/errorprone/bugpatterns/CheckReturnValue.java:49-54 | invocations with the same three annotation sets match alike under any visitor states |
| CheckReturnValueFacts.PackageOnlyScenario | core/src/main/java/com/google/errorprone/bugpatterns/CheckReturnValue.java:43-64 | a method annotated only at package level is reported once with ERROR when its value is dropped, and not at all when it is used |

## Left out

- The MissingCasesInEnumSwitch implementation class and the test harness that runs its tests are not part of this model. The checker's behaviour is taken from the tests. The order of the decisions (`default` first, then the enum test) is an assumption, since no test has both a `default` and a non-enum discriminant. The tests check only that the reported text contains the expected text (`Diagnostic contains:` on lines 84 and 104). The eight-constant test has seven missing constants. It shows that seven missing give three names and a count. Several behaviours of the model are assumptions that no test fixes:
  - truncation already applies from four missing constants on (`SwitchMessage.Truncate`, `SwitchMessageFacts.TruncatedShape`);
  - with three or fewer names no hint follows;
  - the one-missing message ends right after the name (`SwitchMessageFacts.SingleMissing`, `MissingCasesFacts.CheckTextSingle`, `MissingCasesScenarios.NonExhaustive`), where line 84 only requires it to contain that text.
- Expected message text is taken from two tests. In the one-missing test it is the marker on line 84. In the eight-constant test the marker on line 104 is followed by a comment on lines 105-106, and the switch comes only after that comment. The model reads those lines as that test's expected message. `MissingCasesScenarios.NonExhaustiveManyCases` proves that this exact text is produced, as the only diagnostic for the switch.
- The model renders two missing constants as `A and B` and three as `A, B, and C`. No test fixes these two forms. For them the only properties claimed are these: the text starts with the prefix followed by the first name (`SwitchMessageFacts.MessageNamesFirst`), and it ends with the last name (`SwitchMessage.Message`).
- SwitchMessage.Message: for three or fewer missing constants it states only that the text ends with the last name, not that the hint is absent. An enum constant's name could in principle end with the hint's last characters.
- The severity of the enum-switch checker is not in the modelled files, so `Check` returns only the message text.
- The result-usage analysis of the generic return-value-ignored checker is not modelled. It is the parameter `isDiscarded` of `MatchMethodInvocation`.
- Symbol resolution (`getSymbol`, `enclosingClass`, `enclosingPackage`) is not modelled. The three symbols are plain fields of `MethodSymbol`. A method symbol always has both enclosing scopes, so there is no missing-symbol path.
- The `VisitorState` is a placeholder value. The matcher never reads it.
- Descriptor metadata other than name and severity is left out: alternate names, summary, explanation, category, maturity. It has no behaviour. A CheckReturnValue diagnostic carries `None` as its message, standing for the descriptor's default text.
- The tree scanner, the checker registry, diagnostic positions and ordering, fault isolation and the build pass/fail rule are left out. They are not implemented in the modelled files.
