/** Counting argument: the declared totals leave no room for a testcase anywhere else in the tree. */
module JUnitCounting {
  import opened Basics
  import opened JUnitEvidence

  /** The element reached by following child positions from `e`. */
  function NodeAt(e: Element, path: seq<nat>): Option<Element> {
    if path == [] then Some(e)
    else if path[0] < |e.children| then NodeAt(e.children[path[0]], path[1..])
    else None
  }

  predicate NamedAt(e: Element, path: seq<nat>, n: Name) {
    var x := NodeAt(e, path);
    x.Some? && x.value.name == n
  }

  ghost predicate NoneBelow(e: Element) {
    forall path: seq<nat> :: path != [] ==> !NamedAt(e, path, TestCase)
  }

  // ------------------------------------------------------------------ document order and paths

  lemma {:induction false} IterHasPath(e: Element, x: Element) returns (path: seq<nat>)
    requires x in Iter(e)
    ensures NodeAt(e, path) == Some(x)
    decreases e, |e.children| + 1
  {
    if x == e {
      path := [];
    } else {
      path := IterFirstHasPath(e, |e.children|, x);
    }
  }

  lemma {:induction false} IterFirstHasPath(e: Element, n: nat, x: Element) returns (path: seq<nat>)
    requires n <= |e.children| && x in IterFirst(e, n)
    ensures NodeAt(e, path) == Some(x)
    decreases e, n
  {
    if x in IterFirst(e, n - 1) {
      path := IterFirstHasPath(e, n - 1, x);
    } else {
      var rest := IterHasPath(e.children[n - 1], x);
      path := [n - 1] + rest;
      assert path[1..] == rest;
    }
  }

  lemma {:induction false} IterFirstChild(e: Element, n: nat, i: nat, x: Element)
    requires i < n <= |e.children| && x in Iter(e.children[i])
    ensures x in IterFirst(e, n)
  {
    if i < n - 1 {
      IterFirstChild(e, n - 1, i, x);
    }
  }

  lemma {:induction false} PathIsInIter(e: Element, path: seq<nat>)
    requires NodeAt(e, path).Some?
    ensures NodeAt(e, path).value in Iter(e)
    decreases |path|
  {
    if path != [] {
      PathIsInIter(e.children[path[0]], path[1..]);
      IterFirstChild(e, |e.children|, path[0], NodeAt(e, path).value);
    }
  }

  // ------------------------------------------------------------------ how many testcases

  function Cases(e: Element): nat
    decreases e, |e.children| + 1
  {
    (if e.name == TestCase then 1 else 0) + CasesFirst(e, |e.children|)
  }

  function CasesFirst(e: Element, n: nat): nat
    requires n <= |e.children|
    decreases e, n
  {
    if n == 0 then 0 else CasesFirst(e, n - 1) + Cases(e.children[n - 1])
  }

  lemma {:induction false} SeqAssociates(a: seq<Element>, b: seq<Element>, c: seq<Element>)
    ensures a + (b + c) == a + b + c
  {
  }

  lemma {:induction false} NamedAppend(a: seq<Element>, b: seq<Element>, n: Name)
    ensures Named(a + b, n) == Named(a, n) + Named(b, n)
  {
    if a == [] {
      assert a + b == b;
    } else {
      NamedAppend(a[1..], b, n);
      assert (a + b)[1..] == a[1..] + b && (a + b)[0] == a[0];
      var head := if a[0].name == n then [a[0]] else [];
      SeqAssociates(head, Named(a[1..], n), Named(b, n));
    }
  }

  lemma {:induction false} NamedMember(es: seq<Element>, n: Name, x: Element)
    ensures x in Named(es, n) <==> x in es && x.name == n
  {
    if es != [] {
      NamedMember(es[1..], n, x);
    }
  }

  lemma {:induction false} IterCounts(e: Element)
    ensures |Named(Iter(e), TestCase)| == Cases(e)
    decreases e, |e.children| + 1
  {
    IterFirstCounts(e, |e.children|);
    NamedAppend([e], IterFirst(e, |e.children|), TestCase);
    assert [e][1..] == [];
  }

  lemma {:induction false} IterFirstCounts(e: Element, n: nat)
    requires n <= |e.children|
    ensures |Named(IterFirst(e, n), TestCase)| == CasesFirst(e, n)
    decreases e, n
  {
    if n > 0 {
      IterFirstCounts(e, n - 1);
      IterCounts(e.children[n - 1]);
      NamedAppend(IterFirst(e, n - 1), Iter(e.children[n - 1]), TestCase);
    }
  }

  lemma {:induction false} NoCaseInFirst(e: Element, n: nat)
    requires n <= |e.children|
    ensures CasesFirst(e, n) == 0 <==> forall i :: 0 <= i < n ==> Cases(e.children[i]) == 0
  {
    if n > 0 {
      NoCaseInFirst(e, n - 1);
    }
  }

  lemma {:induction false} StepInto(e: Element, i: nat, rest: seq<nat>)
    requires i < |e.children|
    ensures NodeAt(e, [i] + rest) == NodeAt(e.children[i], rest)
  {
    assert ([i] + rest)[1..] == rest;
  }

  lemma {:induction false} NoneBelowChild(e: Element, i: nat)
    requires NoneBelow(e) && i < |e.children|
    ensures e.children[i].name != TestCase && NoneBelow(e.children[i])
  {
    var child := e.children[i];
    forall rest: seq<nat>
      ensures !NamedAt(child, rest, TestCase)
    {
      StepInto(e, i, rest);
      assert !NamedAt(e, [i] + rest, TestCase);
    }
    assert !NamedAt(child, [], TestCase);
  }

  lemma {:induction false} ChildHasNone(e: Element, path: seq<nat>)
    requires path != []
    requires path[0] < |e.children| ==> e.children[path[0]].name != TestCase && NoneBelow(e.children[path[0]])
    ensures !NamedAt(e, path, TestCase)
  {
    if path[0] < |e.children| {
      if path[1..] == [] {
        assert NodeAt(e.children[path[0]], path[1..]) == Some(e.children[path[0]]);
      } else {
        assert !NamedAt(e.children[path[0]], path[1..], TestCase);
      }
    }
  }

  /** Looking below a parent is looking at each child and below it. */
  lemma {:induction false} NoneBelowChildren(e: Element)
    ensures NoneBelow(e) <==>
            forall i :: 0 <= i < |e.children| ==> e.children[i].name != TestCase && NoneBelow(e.children[i])
  {
    if NoneBelow(e) {
      forall i: nat | i < |e.children|
        ensures e.children[i].name != TestCase && NoneBelow(e.children[i])
      {
        NoneBelowChild(e, i);
      }
    }
    if forall i :: 0 <= i < |e.children| ==> e.children[i].name != TestCase && NoneBelow(e.children[i]) {
      forall path: seq<nat> | path != []
        ensures !NamedAt(e, path, TestCase)
      {
        ChildHasNone(e, path);
      }
    }
  }

  lemma {:induction false} NoneBelowExactlyWhen(e: Element)
    ensures NoneBelow(e) <==> CasesFirst(e, |e.children|) == 0
    decreases e
  {
    hide NoneBelow;
    NoneBelowChildren(e);
    NoCaseInFirst(e, |e.children|);
    forall i | 0 <= i < |e.children|
      ensures Cases(e.children[i]) == 0 <==> e.children[i].name != TestCase && NoneBelow(e.children[i])
    {
      NoneBelowExactlyWhen(e.children[i]);
    }
  }

  /** A parent holds at least its direct testcases, and exactly those when none is nested deeper. */
  lemma {:induction false} DirectIsALowerBound(e: Element, n: nat)
    requires n <= |e.children|
    ensures CasesFirst(e, n) >= |Named(e.children[..n], TestCase)|
    ensures CasesFirst(e, n) == |Named(e.children[..n], TestCase)| <==> forall i :: 0 <= i < n ==> NoneBelow(e.children[i])
  {
    if n > 0 {
      DirectIsALowerBound(e, n - 1);
      var child := e.children[n - 1];
      assert e.children[..n] == e.children[..n - 1] + [child];
      NamedAppend(e.children[..n - 1], [child], TestCase);
      assert [child][1..] == [];
      NoneBelowExactlyWhen(child);
    }
  }

  ghost predicate Tight(suite: Element) {
    forall i :: 0 <= i < |suite.children| ==> NoneBelow(suite.children[i])
  }

  lemma {:induction false} SuiteCases(suite: Element)
    requires suite.name == TestSuite
    ensures Cases(suite) >= |Direct(suite)|
    ensures Cases(suite) == |Direct(suite)| <==> Tight(suite)
  {
    DirectIsALowerBound(suite, |suite.children|);
    assert suite.children[..|suite.children|] == suite.children;
  }

  // ------------------------------------------------------------------ the whole document

  /** Under `<testsuites>` every testcase must sit in a suite, and directly. */
  ghost predicate Placed(child: Element) {
    if child.name == TestSuite then Tight(child) else child.name != TestCase && NoneBelow(child)
  }

  predicate Declared(s: Element, n: CountName) {
    Attr(s, n) == Number(|Direct(s)|)
  }

  lemma {:induction false} NamedStep(es: seq<Element>, n: nat, k: Name)
    requires 0 < n <= |es|
    ensures Named(es[..n], k) == if es[n - 1].name == k then Named(es[..n - 1], k) + [es[n - 1]] else Named(es[..n - 1], k)
  {
    assert es[..n] == es[..n - 1] + [es[n - 1]];
    NamedAppend(es[..n - 1], [es[n - 1]], k);
    assert [es[n - 1]][1..] == [];
  }

  lemma {:induction false} TotalStep(suites: seq<Element>, s: Element, c: CountName)
    requires Declared(s, c)
    ensures Total(suites + [s], c) == Total(suites, c) + |Direct(s)|
  {
    assert (suites + [s])[..|suites|] == suites;
  }

  /** One more child. */
  lemma {:induction false} PlacedCases(child: Element)
    ensures child.name == TestSuite ==> Cases(child) >= |Direct(child)| && (Cases(child) == |Direct(child)| <==> Placed(child))
    ensures child.name != TestSuite ==> (Cases(child) == 0 <==> Placed(child))
  {
    hide Cases, Tight, NoneBelow, Direct;
    if child.name == TestSuite { SuiteCases(child); } else { ChildCases(child); }
  }

  ghost predicate FirstPlaced(root: Element, n: nat)
    requires n <= |root.children|
  {
    forall i :: 0 <= i < n ==> Placed(root.children[i])
  }

  lemma {:induction false} FirstPlacedStep(root: Element, n: nat)
    requires 0 < n <= |root.children|
    ensures FirstPlaced(root, n) <==> FirstPlaced(root, n - 1) && Placed(root.children[n - 1])
  {
    hide Placed;
  }

  lemma {:induction false} SuitesAreALowerBound(root: Element, n: nat, c: CountName)
    requires n <= |root.children|
    requires forall s :: s in Named(root.children[..n], TestSuite) ==> Declared(s, c)
    ensures CasesFirst(root, n) >= Total(Named(root.children[..n], TestSuite), c)
    ensures CasesFirst(root, n) == Total(Named(root.children[..n], TestSuite), c) <==>
            FirstPlaced(root, n)
  {
    hide Cases, Placed, Direct, Declared;
    if n > 0 {
      hide Named, Total, FirstPlaced;
      var child := root.children[n - 1];
      NamedStep(root.children, n, TestSuite);
      FirstPlacedStep(root, n);
      SuitesAreALowerBound(root, n - 1, c);
      PlacedCases(child);
      if child.name == TestSuite {
        assert child in Named(root.children[..n], TestSuite);
        TotalStep(Named(root.children[..n - 1], TestSuite), child, c);
      }
    }
  }

  lemma {:induction false} ChildCases(child: Element)
    ensures Cases(child) == 0 <==> child.name != TestCase && NoneBelow(child)
  {
    NoneBelowExactlyWhen(child);
  }

  /** Where a testcase may stand: as a direct child of a result suite. */
  predicate InResultSuite(root: Element, path: seq<nat>) {
    if root.name == TestSuite then |path| == 1
    else |path| == 2 && NamedAt(root, path[..1], TestSuite)
  }

  /** Every testcase of the tree stands directly in a result suite. */
  ghost predicate AllPlaced(root: Element) {
    forall path: seq<nat> :: NamedAt(root, path, TestCase) ==> InResultSuite(root, path)
  }

  lemma {:induction false} TightPaths(suite: Element)
    requires suite.name == TestSuite
    ensures Tight(suite) <==> forall path: seq<nat> :: NamedAt(suite, path, TestCase) ==> |path| == 1
  {
    if Tight(suite) {
      forall path: seq<nat> | NamedAt(suite, path, TestCase)
        ensures |path| == 1
      {
        if |path| > 1 {
          assert NamedAt(suite.children[path[0]], path[1..], TestCase);
          assert false;
        }
      }
    }
    if forall path: seq<nat> :: NamedAt(suite, path, TestCase) ==> |path| == 1 {
      forall i, path: seq<nat> | 0 <= i < |suite.children| && path != []
        ensures !NamedAt(suite.children[i], path, TestCase)
      {
        StepInto(suite, i, path);
        assert |[i] + path| > 1 && !NamedAt(suite, [i] + path, TestCase);
      }
    }
  }

  lemma {:induction false} PlacedPaths(root: Element)
    requires root.name == TestSuites
    ensures (forall i :: 0 <= i < |root.children| ==> Placed(root.children[i])) <==> AllPlaced(root)
  {
    hide Tight;
    if forall i :: 0 <= i < |root.children| ==> Placed(root.children[i]) {
      forall path: seq<nat> | NamedAt(root, path, TestCase)
        ensures InResultSuite(root, path)
      {
        assert path != [];
        var child := root.children[path[0]];
        assert NamedAt(child, path[1..], TestCase) && Placed(child);
        if child.name == TestSuite {
          TightPaths(child);
          StepInto(root, path[0], []);
          assert path[..1] == [path[0]] + [];
        } else {
          assert false;
        }
      }
    }
    if AllPlaced(root) {
      forall i | 0 <= i < |root.children|
        ensures Placed(root.children[i])
      {
        AllPlacedChild(root, i);
      }
    }
  }

  lemma {:induction false} AllPlacedChild(root: Element, i: nat)
    requires root.name == TestSuites && AllPlaced(root) && i < |root.children|
    ensures Placed(root.children[i])
  {
    hide Tight;
    var child := root.children[i];
    forall path: seq<nat> | NamedAt(child, path, TestCase)
      ensures |path| == 1 && child.name == TestSuite
    {
      StepInto(root, i, path);
      assert NamedAt(root, [i] + path, TestCase);
      assert InResultSuite(root, [i] + path);
      StepInto(root, i, []);
      assert ([i] + path)[..1] == [i] + [];
    }
    if child.name == TestSuite {
      TightPaths(child);
    } else {
      assert !NamedAt(child, [], TestCase);
    }
  }

  /** The testcases of the tree number at least the direct ones of its result suites, and exactly
      that many when every testcase stands directly in a result suite. */
  lemma {:induction false} CountsLeaveNoRoom(root: Element)
    requires root.name in {TestSuite, TestSuites}
    requires forall s :: s in ResultSuites(root) ==> Declared(s, Tests)
    ensures |Named(Iter(root), TestCase)| >= Total(ResultSuites(root), Tests)
    ensures |Named(Iter(root), TestCase)| == Total(ResultSuites(root), Tests) <==> AllPlaced(root)
  {
    hide Tight, NoneBelow, Iter, Cases, Direct;
    IterCounts(root);
    if root.name == TestSuite {
      assert root in ResultSuites(root) && Declared(root, Tests);
      assert [root][..0] == [];
      assert Total([root], Tests) == ValueOf(Attr(root, Tests));
      SuiteCases(root);
      TightPaths(root);
    } else {
      assert root.children[..|root.children|] == root.children;
      SuitesAreALowerBound(root, |root.children|, Tests);
      PlacedPaths(root);
      RootCases(root);
    }
  }

  lemma {:induction false} RootCases(root: Element)
    requires root.name != TestCase
    ensures Cases(root) == CasesFirst(root, |root.children|)
  {
  }

  // ------------------------------------------------------------------ what `all_skipped` certifies

  predicate DeclaresSkips(s: Element) {
    && s.tests == s.skips == Number(|Direct(s)|)
    && s.failures == s.errors == Number(0)
  }

  /** Every testcase, wherever in the tree, is a direct child of a result suite with exactly one
      untyped `collection skipped` result; nothing failed; the suites declare just that. */
  ghost predicate SkippedDocument(root: Element) {
    && ResultSuites(root) != []
    && (forall s :: s in ResultSuites(root) ==> DeclaresSkips(s))
    && AllPlaced(root)
    && (forall path: seq<nat> :: NamedAt(root, path, TestCase) ==> CollectionSkip(NodeAt(root, path).value))
    && (forall path: seq<nat> :: !NamedAt(root, path, Failure) && !NamedAt(root, path, Error))
  }

  lemma {:induction false} DeclaredTotals(suites: seq<Element>)
    requires forall s :: s in suites ==> DeclaresSkips(s)
    ensures Total(suites, Skips) == Total(suites, Tests)
    ensures Total(suites, Failures) == Total(suites, Errors) == 0
  {
    if suites != [] {
      var last := suites[|suites| - 1];
      assert last in suites && DeclaresSkips(last);
      DeclaredTotals(suites[..|suites| - 1]);
    }
  }

  lemma {:induction false} DeclaredReadings(root: Element)
    requires Readings(root) && ResultSuites(root) != [] && forall s :: s in ResultSuites(root) ==> DeclaresSkips(s)
    ensures var total := Total(ResultSuites(root), Tests);
            && Reading(root, Tests) == Reading(root, Skips) == Some(total)
            && Reading(root, Failures) == Reading(root, Errors) == Some(0)
  {
    hide Direct;
    DeclaredTotals(ResultSuites(root));
    assert forall n :: Aggregates(root, Suites(root), n);
    if root.name == TestSuite {
      assert root in ResultSuites(root) && DeclaresSkips(root) && [root][..0] == [];
    } else {
      assert Suites(root) == ResultSuites(root);
      assert Aggregates(root, Suites(root), Tests) && Aggregates(root, Suites(root), Skips);
      assert Aggregates(root, Suites(root), Failures) && Aggregates(root, Suites(root), Errors);
      forall n: CountName
        ensures Complete(Suites(root), n)
      {
        forall s | s in Suites(root)
          ensures !Attr(s, n).Absent?
        {
          assert DeclaresSkips(s);
        }
      }
    }
  }

  lemma {:induction false} CaseHome(root: Element, path: seq<nat>) returns (s: Element)
    requires root.name in {TestSuite, TestSuites}
    requires NamedAt(root, path, TestCase) && InResultSuite(root, path)
    ensures s in ResultSuites(root) && NodeAt(root, path).value in Direct(s)
  {
    if root.name == TestSuite {
      s := root;
      assert NodeAt(root.children[path[0]], path[1..]) == Some(root.children[path[0]]);
      NamedMember(root.children, TestCase, root.children[path[0]]);
    } else {
      assert NodeAt(root, path[..1]).Some? && path[..1] == [path[0]] + [];
      s := root.children[path[0]];
      StepInto(root, path[0], []);
      NamedMember(root.children, TestSuite, s);
      assert NodeAt(s, path[1..]).Some? && path[1..] == [path[1]] + [];
      StepInto(s, path[1], []);
      assert NodeAt(s, path[1..]) == Some(s.children[path[1]]);
      NamedMember(s.children, TestCase, s.children[path[1]]);
    }
  }

  lemma {:induction false} DirectHasPath(root: Element, s: Element, t: Element) returns (path: seq<nat>)
    requires root.name in {TestSuite, TestSuites} && s in ResultSuites(root) && t in Direct(s)
    ensures NamedAt(root, path, TestCase) && NodeAt(root, path) == Some(t)
  {
    NamedMember(s.children, TestCase, t);
    var j :| 0 <= j < |s.children| && s.children[j] == t;
    StepInto(s, j, []);
    path := [j] + [];
    if root.name == TestSuites {
      NamedMember(root.children, TestSuite, s);
      var i :| 0 <= i < |root.children| && root.children[i] == s;
      StepInto(root, i, path);
      path := [i] + path;
    }
  }

  lemma {:induction false} ResultMember(es: seq<Element>, x: Element)
    requires x in OnlyResults(es)
    ensures x in es
  {
    if x in OnlyResults(es[1..]) {
      ResultMember(es[1..], x);
    }
  }

  lemma {:induction false} CollectionSkipHasSkip(t: Element)
    requires CollectionSkip(t)
    ensures HasSkip(t)
  {
    ResultMember(t.children, ResultsOf(t)[0]);
  }

  lemma {:induction false} FailuresByPath(root: Element)
    ensures NoFailure(root) <==> forall path: seq<nat> :: !NamedAt(root, path, Failure) && !NamedAt(root, path, Error)
  {
    forall path: seq<nat>
      ensures NoFailure(root) ==> !NamedAt(root, path, Failure) && !NamedAt(root, path, Error)
    {
      if NodeAt(root, path).Some? { PathIsInIter(root, path); }
    }
    forall e | e in Iter(root) && (e.name == Failure || e.name == Error)
      ensures exists path: seq<nat> :: NamedAt(root, path, Failure) || NamedAt(root, path, Error)
    {
      var path := IterHasPath(root, e);
      assert NamedAt(root, path, Failure) || NamedAt(root, path, Error);
    }
  }

  lemma {:induction false} SkippedIsReconciled(root: Element)
    requires root.name in {TestSuite, TestSuites} && SkippedDocument(root)
    ensures forall s :: s in ResultSuites(root) ==> Reconciles(s)
    ensures forall t :: t in Named(Iter(root), TestCase) ==> HasSkip(t)
  {
    hide ResultSuites, Direct, AllPlaced, Iter;
    forall s | s in ResultSuites(root)
      ensures Reconciles(s)
    {
      assert DeclaresSkips(s);
      forall t | t in Direct(s)
        ensures CollectionSkip(t)
      {
        var path := DirectHasPath(root, s, t);
      }
    }
    forall t | t in Named(Iter(root), TestCase)
      ensures HasSkip(t)
    {
      NamedMember(Iter(root), TestCase, t);
      var path := IterHasPath(root, t);
      assert NamedAt(root, path, TestCase);
      CollectionSkipHasSkip(t);
    }
  }

  lemma {:induction false} ReconciledIsSkipped(root: Element)
    requires root.name in {TestSuite, TestSuites} && AllPlaced(root)
    requires forall s :: s in ResultSuites(root) ==> Reconciles(s)
    ensures forall path: seq<nat> :: NamedAt(root, path, TestCase) ==> CollectionSkip(NodeAt(root, path).value)
  {
    hide ResultSuites, Direct;
    forall path: seq<nat> | NamedAt(root, path, TestCase)
      ensures CollectionSkip(NodeAt(root, path).value)
    {
      assert InResultSuite(root, path);
      var s := CaseHome(root, path);
      assert Reconciles(s);
    }
  }

  /** For any document that yields evidence, `all_skipped` holds exactly of the skipped documents. */
  lemma {:induction false} AllSkippedExactlyWhen(root: Element)
    requires Evident(root)
    ensures AllSkipped(EvidenceOf(root)) <==> SkippedDocument(root)
  {
    hide Readings, AllPlaced, ResultSuites, Direct, Iter, Reading, Plausible, NoFailure;
    EvidentRoot(root);
    FailuresByPath(root);
    if AllSkipped(EvidenceOf(root)) || SkippedDocument(root) {
      forall s | s in ResultSuites(root)
        ensures DeclaresSkips(s) && Declared(s, Tests)
      {
        if AllSkipped(EvidenceOf(root)) { assert Reconciles(s); }
        assert DeclaresSkips(s);
      }
      DeclaredReadings(root);
      CountsLeaveNoRoom(root);
      if AllSkipped(EvidenceOf(root)) {
        ReconciledIsSkipped(root);
      } else {
        SkippedIsReconciled(root);
      }
    }
  }

  lemma {:induction false} EvidentRoot(root: Element)
    requires Evident(root)
    ensures root.name in {TestSuite, TestSuites} && Reading(root, Tests).value > 0
  {
  }

  /** The flags of the evidence, over every element of the document. */
  lemma {:induction false} EvidenceFlags(root: Element)
    requires Evident(root)
    ensures EvidenceOf(root).allTestcasesSkipped <==>
              && (exists e :: e in Iter(root) && e.name == TestCase)
              && forall e :: e in Iter(root) && e.name == TestCase ==> exists c :: c in e.children && c.name == Skipped
    ensures EvidenceOf(root).containsFailureOrError <==> exists e :: e in Iter(root) && (e.name == Failure || e.name == Error)
  {
    hide Iter, Evident, Reading, Reconciles, ResultSuites;
    var cases := Named(Iter(root), TestCase);
    forall e ensures e in cases <==> e in Iter(root) && e.name == TestCase { NamedMember(Iter(root), TestCase, e); }
    if cases != [] { assert cases[0] in cases; }
    if EvidenceOf(root).allTestcasesSkipped {
      forall e | e in Iter(root) && e.name == TestCase
        ensures exists c :: c in e.children && c.name == Skipped
      {
        assert e in cases && HasSkip(e);
      }
    }
  }
}
