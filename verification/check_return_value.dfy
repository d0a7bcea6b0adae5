/**
 The CheckReturnValue checker: an invocation is reported when its result is
 discarded and the called method, its enclosing class or its enclosing package
 carries the `@CheckReturnValue` annotation. The reporting severity is ERROR.
 */
module CheckReturnValue {
  import opened Wrappers
  import opened BugPattern

  const CheckReturnValueAnnotation := "javax.annotation.CheckReturnValue"

  /** The descriptor's behavioural part: the checker's name and its ERROR severity. */
  const Descriptor := BugPattern.Descriptor("CheckReturnValue", Error)

  /** A resolved declaration and the annotation types it carries. */
  datatype Symbol = Symbol(name: string, annotations: set<string>)

  /** The symbol of a called method, with its enclosing class and enclosing package. */
  datatype MethodSymbol = MethodSymbol(symbol: Symbol, enclosingClass: Symbol, enclosingPackage: Symbol)

  /** A method invocation node, reduced to the symbol it resolves to. */
  datatype MethodInvocation = MethodInvocation(callee: MethodSymbol)

  /** The analysis context a matcher receives; this checker never reads it. */
  datatype VisitorState = VisitorState(compilationUnit: string, path: seq<string>)

  /** The three scopes the annotation is looked up in, innermost first. */
  datatype Level = OnMethod | OnClass | OnPackage

  predicate HasAnnotation(sym: Symbol, annotation: string)
  {
    annotation in sym.annotations
  }

  function SymbolAt(m: MethodSymbol, level: Level): Symbol
  {
    match level
    case OnMethod => m.symbol
    case OnClass => m.enclosingClass
    case OnPackage => m.enclosingPackage
  }

  /**
   The matcher: the annotation on the method, on its class, or on its package;
   it holds exactly when some level carries it, and the state is not read.
   */
  function Matches(tree: MethodInvocation, state: VisitorState): (r: bool)
    ensures r <==> exists level :: HasAnnotation(SymbolAt(tree.callee, level), CheckReturnValueAnnotation)
  {
    var m := tree.callee;
    assert SymbolAt(m, OnMethod) == m.symbol && SymbolAt(m, OnClass) == m.enclosingClass
        && SymbolAt(m, OnPackage) == m.enclosingPackage;
    HasAnnotation(m.symbol, CheckReturnValueAnnotation)
    || HasAnnotation(m.enclosingClass, CheckReturnValueAnnotation)
    || HasAnnotation(m.enclosingPackage, CheckReturnValueAnnotation)
  }

  /** The enclosing-scope chain of a method symbol, innermost first. */
  function ScopeChain(m: MethodSymbol): (chain: seq<Symbol>)
    ensures |chain| == 3
    ensures chain[0] == SymbolAt(m, OnMethod) && chain[1] == SymbolAt(m, OnClass)
    ensures chain[2] == SymbolAt(m, OnPackage)
  {
    [m.symbol, m.enclosingClass, m.enclosingPackage]
  }

  /**
   Searches a scope chain innermost first and stops at the first scope carrying
   the annotation: the index found carries it and no scope before it does; None
   means no scope in the chain carries it.
   */
  function FirstAnnotated(chain: seq<Symbol>, annotation: string): (r: Option<nat>)
    ensures r.Some? ==> r.value < |chain| && HasAnnotation(chain[r.value], annotation)
    ensures r.Some? ==> forall i :: 0 <= i < r.value ==> !HasAnnotation(chain[i], annotation)
    ensures r.None? <==> forall i :: 0 <= i < |chain| ==> !HasAnnotation(chain[i], annotation)
    decreases |chain|
  {
    if |chain| == 0 then None
    else if HasAnnotation(chain[0], annotation) then Some(0)
    else
      match FirstAnnotated(chain[1..], annotation)
      case None =>
        assert forall i :: 1 <= i < |chain| ==> chain[i] == chain[1..][i - 1];
        None
      case Some(k) =>
        assert forall i :: 1 <= i < k + 1 ==> chain[i] == chain[1..][i - 1];
        Some(k + 1)
  }

  /**
   The specialised matcher combined with the result-usage analysis: a diagnostic,
   carrying the descriptor's name and severity, exactly when the matcher holds and
   the invocation's result is discarded. `isDiscarded` stands for the analysis the
   generic return-value-ignored checker supplies.
   */
  function MatchMethodInvocation(
    tree: MethodInvocation, state: VisitorState, isDiscarded: MethodInvocation -> bool
  ): (r: Option<Diagnostic>)
    ensures r.Some? <==>
      && isDiscarded(tree)
      && exists level :: HasAnnotation(SymbolAt(tree.callee, level), CheckReturnValueAnnotation)
    ensures r.Some? ==> r.value.severity == Error && r.value.checker == "CheckReturnValue"
  {
    if Matches(tree, state) && isDiscarded(tree) then
      assert HasAnnotation(SymbolAt(tree.callee, OnMethod), CheckReturnValueAnnotation)
          || HasAnnotation(SymbolAt(tree.callee, OnClass), CheckReturnValueAnnotation)
          || HasAnnotation(SymbolAt(tree.callee, OnPackage), CheckReturnValueAnnotation);
      Some(Report(Descriptor, None))
    else None
  }

  /** Adds an annotation to the symbol at one level, leaving the other two unchanged. */
  function Annotate(m: MethodSymbol, level: Level, annotation: string): (r: MethodSymbol)
    ensures HasAnnotation(SymbolAt(r, level), annotation)
    ensures forall l :: SymbolAt(r, l).annotations >= SymbolAt(m, l).annotations
    ensures forall l :: l != level ==> SymbolAt(r, l) == SymbolAt(m, l)
  {
    match level
    case OnMethod =>
      m.(symbol := m.symbol.(annotations := m.symbol.annotations + {annotation}))
    case OnClass =>
      m.(enclosingClass := m.enclosingClass.(annotations := m.enclosingClass.annotations + {annotation}))
    case OnPackage =>
      m.(enclosingPackage := m.enclosingPackage.(annotations := m.enclosingPackage.annotations + {annotation}))
  }
}

module CheckReturnValueFacts {
  import opened Wrappers
  import opened BugPattern
  import opened CheckReturnValue

  /** The annotation at any one of the three levels is enough for the matcher. */
  lemma MatchesWhenAnnotatedAt(tree: MethodInvocation, state: VisitorState, level: Level)
    requires HasAnnotation(SymbolAt(tree.callee, level), CheckReturnValueAnnotation)
    ensures Matches(tree, state)
  {
  }

  /** The matcher fails exactly when none of method, class and package carries the annotation. */
  lemma NoMatchIffUnannotated(tree: MethodInvocation, state: VisitorState)
    ensures !Matches(tree, state)
        <==> forall level :: !HasAnnotation(SymbolAt(tree.callee, level), CheckReturnValueAnnotation)
  {
    if !Matches(tree, state) {
      forall level ensures !HasAnnotation(SymbolAt(tree.callee, level), CheckReturnValueAnnotation) {
        match level
        case OnMethod =>
        case OnClass =>
        case OnPackage =>
      }
    } else {
      var m := tree.callee;
      if HasAnnotation(m.symbol, CheckReturnValueAnnotation) {
        assert SymbolAt(m, OnMethod) == m.symbol;
      } else if HasAnnotation(m.enclosingClass, CheckReturnValueAnnotation) {
        assert SymbolAt(m, OnClass) == m.enclosingClass;
      } else {
        assert SymbolAt(m, OnPackage) == m.enclosingPackage;
      }
    }
  }

  /**
   The matcher's disjunction agrees with a short-circuiting search of the scope
   chain, method first, then class, then package.
   */
  lemma MatchesIffFoundInChain(tree: MethodInvocation, state: VisitorState)
    ensures Matches(tree, state) <==> FirstAnnotated(ScopeChain(tree.callee), CheckReturnValueAnnotation).Some?
  {
    var chain := ScopeChain(tree.callee);
    if Matches(tree, state) {
      var m := tree.callee;
      if HasAnnotation(m.symbol, CheckReturnValueAnnotation) {
        assert HasAnnotation(chain[0], CheckReturnValueAnnotation);
      } else if HasAnnotation(m.enclosingClass, CheckReturnValueAnnotation) {
        assert HasAnnotation(chain[1], CheckReturnValueAnnotation);
      } else {
        assert HasAnnotation(chain[2], CheckReturnValueAnnotation);
      }
    } else {
      assert forall i :: 0 <= i < |chain| ==> !HasAnnotation(chain[i], CheckReturnValueAnnotation);
    }
  }

  /** Every annotation set of `m1` is contained in the corresponding set of `m2`. */
  predicate AnnotatedAtMost(m1: MethodSymbol, m2: MethodSymbol)
  {
    forall level :: SymbolAt(m1, level).annotations <= SymbolAt(m2, level).annotations
  }

  /** Adding annotations at any levels never turns a match into a non-match. */
  lemma MatchesMonotonic(t1: MethodInvocation, t2: MethodInvocation, state: VisitorState)
    requires AnnotatedAtMost(t1.callee, t2.callee)
    requires Matches(t1, state)
    ensures Matches(t2, state)
  {
    var m1, m2 := t1.callee, t2.callee;
    assert SymbolAt(m1, OnMethod).annotations <= SymbolAt(m2, OnMethod).annotations;
    assert SymbolAt(m1, OnClass).annotations <= SymbolAt(m2, OnClass).annotations;
    assert SymbolAt(m1, OnPackage).annotations <= SymbolAt(m2, OnPackage).annotations;
  }

  /**
   Annotating one level keeps a match a match, and annotating it with
   `@CheckReturnValue` makes the invocation match whatever it was before.
   */
  lemma AnnotateKeepsMatch(tree: MethodInvocation, state: VisitorState, level: Level, annotation: string)
    ensures Matches(tree, state) ==> Matches(MethodInvocation(Annotate(tree.callee, level, annotation)), state)
    ensures annotation == CheckReturnValueAnnotation
        ==> Matches(MethodInvocation(Annotate(tree.callee, level, annotation)), state)
  {
    var t2 := MethodInvocation(Annotate(tree.callee, level, annotation));
    if Matches(tree, state) {
      MatchesMonotonic(tree, t2, state);
    }
    if annotation == CheckReturnValueAnnotation {
      MatchesWhenAnnotatedAt(t2, state, level);
    }
  }

  /**
   The matcher reads nothing but the three annotation sets: symbol names and the
   visitor state do not affect it.
   */
  lemma MatchesDependsOnlyOnAnnotations(
    t1: MethodInvocation, s1: VisitorState, t2: MethodInvocation, s2: VisitorState)
    requires forall level :: SymbolAt(t1.callee, level).annotations == SymbolAt(t2.callee, level).annotations
    ensures Matches(t1, s1) == Matches(t2, s2)
  {
    assert SymbolAt(t1.callee, OnMethod).annotations == SymbolAt(t2.callee, OnMethod).annotations;
    assert SymbolAt(t1.callee, OnClass).annotations == SymbolAt(t2.callee, OnClass).annotations;
    assert SymbolAt(t1.callee, OnPackage).annotations == SymbolAt(t2.callee, OnPackage).annotations;
  }

  /**
   A method annotated only at package level: called as a statement whose value
   is dropped it is reported once, with ERROR severity; with its value used it is
   not reported.
   */
  lemma PackageOnlyScenario(state: VisitorState)
    ensures
      var m := MethodSymbol(Symbol("foo", {}), Symbol("Lib", {}),
                            Symbol("lib", {CheckReturnValueAnnotation}));
      var tree := MethodInvocation(m);
      && MatchMethodInvocation(tree, state, t => true) == Some(Diagnostic("CheckReturnValue", Error, None))
      && MatchMethodInvocation(tree, state, t => false) == None
  {
  }
}
