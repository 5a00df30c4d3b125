/** JUnit evidence for one pytest process: count attributes, results and the `all_skipped` verdict. */
module JUnitEvidence {
  import opened Basics

  datatype Name = TestSuites | TestSuite | TestCase | Skipped | Failure | Error | OtherName

  /** A count attribute as read: absent, not an integer, or an integer. */
  datatype CountAttr = Absent | Malformed | Number(value: int)

  datatype CountName = Tests | Skips | Failures | Errors

  /** An XML element with its local name; only the attributes the evidence reads are kept. */
  datatype Element = Element(name: Name, tests: CountAttr, skips: CountAttr, failures: CountAttr, errors: CountAttr,
                             message: Option<string>, typed: bool, children: seq<Element>)

  function Attr(e: Element, n: CountName): CountAttr {
    match n case Tests => e.tests case Skips => e.skips case Failures => e.failures case Errors => e.errors
  }

  datatype EvidenceError =
    | MissingFile | UnexpectedRoot | MissingCount(n: CountName) | NotAnInteger(n: CountName) | NegativeCount(n: CountName)
    | AggregateMismatch(n: CountName) | ZeroTests | OutcomeExceedsTests | OutcomesExceedTests

  datatype Evidence = Evidence(tests: nat, skipped: Option<nat>, failures: Option<nat>, errors: Option<nat>,
                               testcaseCount: nat, allTestcasesSkipped: bool, containsFailureOrError: bool,
                               suiteResultsReconciled: bool)

  predicate AllSkipped(v: Evidence) {
    && v.testcaseCount == v.tests && v.testcaseCount > 0
    && v.allTestcasesSkipped && !v.containsFailureOrError && v.suiteResultsReconciled
    && v.skipped == Some(v.tests) && v.failures == Some(0) && v.errors == Some(0)
  }

  // ------------------------------------------------------------------ trees

  /** Document order, the element itself first. */
  function Iter(e: Element): seq<Element>
    decreases e, |e.children| + 1
  {
    [e] + IterFirst(e, |e.children|)
  }

  function IterFirst(e: Element, n: nat): seq<Element>
    requires n <= |e.children|
    decreases e, n
  {
    if n == 0 then [] else IterFirst(e, n - 1) + Iter(e.children[n - 1])
  }

  function Named(es: seq<Element>, n: Name): seq<Element> {
    if es == [] then [] else (if es[0].name == n then [es[0]] else []) + Named(es[1..], n)
  }

  function ResultsOf(testcase: Element): seq<Element> {
    OnlyResults(testcase.children)
  }

  predicate IsResult(e: Element) { e.name in {Skipped, Failure, Error} }

  function OnlyResults(es: seq<Element>): seq<Element> {
    if es == [] then [] else (if IsResult(es[0]) then [es[0]] else []) + OnlyResults(es[1..])
  }

  /** Exactly one result, an untyped `collection skipped`. */
  predicate CollectionSkip(testcase: Element) {
    var rs := ResultsOf(testcase);
    |rs| == 1 && rs[0].name == Skipped && rs[0].message == Some("collection skipped") && !rs[0].typed
  }

  function ResultSuites(root: Element): seq<Element> {
    if root.name == TestSuite then [root] else Named(root.children, TestSuite)
  }

  function Suites(root: Element): seq<Element> {
    if root.name == TestSuite then [] else Named(root.children, TestSuite)
  }

  // ------------------------------------------------------------------ counts

  function ParseCount(a: CountAttr, n: CountName): (r: Result<nat, EvidenceError>)
    ensures r.Ok? ==> a == Number(r.value)
  {
    match a
    case Absent => Err(MissingCount(n))
    case Malformed => Err(NotAnInteger(n))
    case Number(value) => if value < 0 then Err(NegativeCount(n)) else Ok(value)
  }

  predicate Readable(a: CountAttr) {
    a.Absent? || (a.Number? && a.value >= 0)
  }

  function ValueOf(a: CountAttr): nat {
    if a.Number? && a.value >= 0 then a.value else 0
  }

  function Total(suites: seq<Element>, n: CountName): nat {
    if suites == [] then 0 else Total(suites[..|suites| - 1], n) + ValueOf(Attr(suites[|suites| - 1], n))
  }

  predicate Complete(suites: seq<Element>, n: CountName) {
    suites != [] && forall s :: s in suites ==> !Attr(s, n).Absent?
  }

  predicate Aggregates(root: Element, suites: seq<Element>, n: CountName) {
    && Readable(Attr(root, n))
    && (forall s :: s in suites ==> Readable(Attr(s, n)))
    && (!Attr(root, n).Absent? && Complete(suites, n) ==> Attr(root, n).value == Total(suites, n))
  }

  function Aggregate(root: Element, suites: seq<Element>, n: CountName): Option<nat>
    requires Aggregates(root, suites, n)
  {
    if !Attr(root, n).Absent? then Some(Attr(root, n).value)
    else if Complete(suites, n) then Some(Total(suites, n)) else None
  }

  method AggregateCount(root: Element, suites: seq<Element>, n: CountName, required: bool)
    returns (r: Result<Option<nat>, EvidenceError>)
    ensures r.Ok? <==> Aggregates(root, suites, n) && (required ==> Aggregate(root, suites, n).Some?)
    ensures r.Ok? ==> r.value == Aggregate(root, suites, n)
  {
    var rootCount: Option<nat> := None;
    if !Attr(root, n).Absent? {
      var parsed := ParseCount(Attr(root, n), n);
      if parsed.Err? { return Err(parsed.error); }
      rootCount := Some(parsed.value);
    }
    var suitesTotal: nat := 0;
    var suitesComplete := suites != [];
    for k := 0 to |suites|
      invariant suitesComplete <==> suites != [] && forall i :: 0 <= i < k ==> !Attr(suites[i], n).Absent?
      invariant forall i :: 0 <= i < k ==> Readable(Attr(suites[i], n))
      invariant suitesTotal == Total(suites[..k], n)
    {
      assert suites[..k + 1][..k] == suites[..k];
      var value := Attr(suites[k], n);
      if value.Absent? {
        suitesComplete := false;
      } else {
        var parsed := ParseCount(value, n);
        if parsed.Err? {
          assert suites[k] in suites && !Readable(Attr(suites[k], n));
          return Err(parsed.error);
        }
        suitesTotal := suitesTotal + parsed.value;
      }
    }
    assert suites[..|suites|] == suites;
    assert suitesComplete <==> Complete(suites, n);
    if rootCount.Some? && suitesComplete && rootCount.value != suitesTotal { return Err(AggregateMismatch(n)); }
    var count: Option<nat> := if rootCount.Some? then rootCount else if suitesComplete then Some(suitesTotal) else None;
    if required && count.None? { return Err(MissingCount(n)); }
    return Ok(count);
  }

  // ------------------------------------------------------------------ one suite

  function Direct(suite: Element): seq<Element> {
    Named(suite.children, TestCase)
  }

  /** The suite declares all four counts, and they say what its direct testcases show. */
  predicate Reconciles(suite: Element) {
    && suite.tests == suite.skips == Number(|Direct(suite)|)
    && suite.failures == suite.errors == Number(0)
    && forall t :: t in Direct(suite) ==> CollectionSkip(t)
  }

  function CountNamed(es: seq<Element>, n: Name): nat {
    if es == [] then 0 else CountNamed(es[..|es| - 1], n) + if es[|es| - 1].name == n then 1 else 0
  }

  lemma {:induction false} CountOfOne(rs: seq<Element>)
    requires |rs| == 1 && rs[0].name == Skipped
    ensures CountNamed(rs, Skipped) == 1 && CountNamed(rs, Failure) == CountNamed(rs, Error) == 0
  {
    assert rs[..0] == [];
  }

  datatype Counts = Counts(tests: nat, skips: nat, failures: nat, errors: nat)

  /** The counts are looked at in this order, and the first absent one ends the search. */
  const COUNT_NAMES := [Tests, Skips, Failures, Errors]

  predicate IsCount(a: CountAttr) { a.Number? && a.value >= 0 }

  /** Some attribute is present but no count, and none before it is absent. */
  predicate Raises(suite: Element) {
    exists k :: (0 <= k < |COUNT_NAMES| && !Readable(Attr(suite, COUNT_NAMES[k]))
                 && forall i :: 0 <= i < k ==> IsCount(Attr(suite, COUNT_NAMES[i])))
  }

  lemma {:induction false} FirstAttribute(suite: Element, k: nat)
    requires k < |COUNT_NAMES| && !IsCount(Attr(suite, COUNT_NAMES[k]))
    requires forall i :: 0 <= i < k ==> IsCount(Attr(suite, COUNT_NAMES[i]))
    ensures Raises(suite) <==> !Attr(suite, COUNT_NAMES[k]).Absent?
  {
    forall j | 0 <= j < |COUNT_NAMES| && j != k
      ensures IsCount(Attr(suite, COUNT_NAMES[j])) || !(forall i :: 0 <= i < j ==> IsCount(Attr(suite, COUNT_NAMES[i])))
    {
    }
  }

  /** The four declared counts of a suite, or nothing when one is absent. */
  method RequiredCounts(suite: Element) returns (r: Result<Option<Counts>, EvidenceError>)
    ensures r.Err? <==> Raises(suite)
    ensures r.Ok? && r.value.Some? ==>
      var c := r.value.value;
      && suite.tests == Number(c.tests) && suite.skips == Number(c.skips)
      && suite.failures == Number(c.failures) && suite.errors == Number(c.errors)
    ensures r == Ok(None) ==> exists n :: Attr(suite, n).Absent?
  {
    var required: seq<nat> := [];
    var names := COUNT_NAMES;
    for k := 0 to 4
      invariant |required| == k && forall i :: 0 <= i < k ==> Attr(suite, names[i]) == Number(required[i])
    {
      if Attr(suite, names[k]).Absent? {
        FirstAttribute(suite, k);
        return Ok(None);
      }
      var parsed := ParseCount(Attr(suite, names[k]), names[k]);
      if parsed.Err? {
        FirstAttribute(suite, k);
        return Err(parsed.error);
      }
      required := required + [parsed.value];
    }
    assert forall i :: 0 <= i < 4 ==> IsCount(Attr(suite, names[i]));
    assert Attr(suite, names[0]) == suite.tests && Attr(suite, names[1]) == suite.skips;
    assert Attr(suite, names[2]) == suite.failures && Attr(suite, names[3]) == suite.errors;
    return Ok(Some(Counts(required[0], required[1], required[2], required[3])));
  }

  method SuiteResultsReconcile(suite: Element) returns (r: Result<bool, EvidenceError>)
    ensures r.Err? <==> Raises(suite)
    ensures r.Ok? ==> r.value == Reconciles(suite)
  {
    hide ResultsOf, Direct, CountNamed, Raises;
    var counts := RequiredCounts(suite);
    if counts.Err? { return Err(counts.error); }
    if counts.value.None? { return Ok(false); }
    var required := counts.value.value;
    var testcases := Direct(suite);
    var skippedResults, failureResults, errorResults := 0, 0, 0;
    for k := 0 to |testcases|
      invariant skippedResults == k && failureResults == errorResults == 0
      invariant forall i :: 0 <= i < k ==> CollectionSkip(testcases[i])
    {
      var results := ResultsOf(testcases[k]);
      if |results| != 1 || results[0].name != Skipped || results[0].message != Some("collection skipped") || results[0].typed {
        assert testcases[k] in testcases && !CollectionSkip(testcases[k]);
        return Ok(false);
      }
      CountOfOne(results);
      skippedResults := skippedResults + CountNamed(results, Skipped);
      failureResults := failureResults + CountNamed(results, Failure);
      errorResults := errorResults + CountNamed(results, Error);
    }
    return Ok(|testcases| == required.tests
              && skippedResults == required.skips == required.tests
              && failureResults == required.failures == 0
              && errorResults == required.errors == 0);
  }

  // ------------------------------------------------------------------ the document

  predicate HasSkip(testcase: Element) {
    exists c :: c in testcase.children && c.name == Skipped
  }

  predicate Readings(root: Element) {
    && root.name in {TestSuite, TestSuites}
    && forall n :: Aggregates(root, Suites(root), n)
  }

  function Reading(root: Element, n: CountName): Option<nat>
    requires Readings(root)
  {
    Aggregate(root, Suites(root), n)
  }

  function Sum3(a: Option<nat>, b: Option<nat>, c: Option<nat>): Option<nat> {
    if a.Some? && b.Some? && c.Some? then Some(a.value + b.value + c.value) else None
  }

  predicate Plausible(tests: nat, a: Option<nat>, b: Option<nat>, c: Option<nat>) {
    && tests > 0
    && (a.Some? ==> a.value <= tests) && (b.Some? ==> b.value <= tests) && (c.Some? ==> c.value <= tests)
    && (Sum3(a, b, c).Some? ==> Sum3(a, b, c).value <= tests)
  }

  /** A document that yields evidence at all. */
  predicate Evident(root: Element) {
    && Readings(root)
    && Reading(root, Tests).Some?
    && Plausible(Reading(root, Tests).value, Reading(root, Skips), Reading(root, Failures), Reading(root, Errors))
  }

  predicate NoFailure(root: Element) {
    forall e :: e in Iter(root) ==> e.name != Failure && e.name != Error
  }

  ghost function EvidenceOf(root: Element): Evidence
    requires Evident(root)
  {
    var cases := Named(Iter(root), TestCase);
    Evidence(Reading(root, Tests).value, Reading(root, Skips), Reading(root, Failures), Reading(root, Errors), |cases|,
             cases != [] && forall t :: t in cases ==> HasSkip(t), !NoFailure(root),
             ResultSuites(root) != [] && forall s :: s in ResultSuites(root) ==> Reconciles(s))
  }

  /** No suite raises once the aggregates were read. */
  lemma {:induction false} SuitesReadable(root: Element, s: Element)
    requires Readings(root) && s in ResultSuites(root)
    ensures !Raises(s)
  {
    assert Aggregates(root, Suites(root), Tests) && Aggregates(root, Suites(root), Skips);
    assert Aggregates(root, Suites(root), Failures) && Aggregates(root, Suites(root), Errors);
    assert Readable(Attr(s, Tests)) && Readable(Attr(s, Skips)) && Readable(Attr(s, Failures)) && Readable(Attr(s, Errors));
  }

  datatype Aggregated = Aggregated(tests: nat, skipped: Option<nat>, failures: Option<nat>, errors: Option<nat>)

  method AggregateCounts(root: Element) returns (r: Result<Aggregated, EvidenceError>)
    requires root.name in {TestSuite, TestSuites}
    ensures r.Ok? <==> Evident(root)
    ensures r.Ok? ==>
      r.value == Aggregated(Reading(root, Tests).value, Reading(root, Skips), Reading(root, Failures), Reading(root, Errors))
  {
    hide Aggregates, Aggregate, Suites;
    var suites := Suites(root);
    var tests := AggregateCount(root, suites, Tests, true);
    if tests.Err? { return Err(tests.error); }
    if tests.value.value == 0 { return Err(ZeroTests); }
    var skipped := AggregateCount(root, suites, Skips, false);
    if skipped.Err? { return Err(skipped.error); }
    var failures := AggregateCount(root, suites, Failures, false);
    if failures.Err? { return Err(failures.error); }
    var errors := AggregateCount(root, suites, Errors, false);
    if errors.Err? { return Err(errors.error); }
    forall n
      ensures Aggregates(root, suites, n)
    {
      match n case Tests => case Skips => case Failures => case Errors =>
    }
    var n := tests.value.value;
    if (skipped.value.Some? && skipped.value.value > n) || (failures.value.Some? && failures.value.value > n)
       || (errors.value.Some? && errors.value.value > n) {
      return Err(OutcomeExceedsTests);
    }
    var sum := Sum3(skipped.value, failures.value, errors.value);
    if sum.Some? && sum.value > n { return Err(OutcomesExceedTests); }
    return Ok(Aggregated(n, skipped.value, failures.value, errors.value));
  }

  /** Once the aggregates were read, no suite's counts can fail to parse. */
  method SuitesReconcile(root: Element) returns (reconciled: bool)
    requires Readings(root)
    ensures reconciled <==> ResultSuites(root) != [] && forall s :: s in ResultSuites(root) ==> Reconciles(s)
  {
    hide Readings, ResultSuites, Reconciles;
    var resultSuites := ResultSuites(root);
    reconciled := resultSuites != [];
    for k := 0 to |resultSuites|
      invariant reconciled <==> resultSuites != [] && forall i :: 0 <= i < k ==> Reconciles(resultSuites[i])
    {
      SuitesReadable(root, resultSuites[k]);
      if reconciled {
        var suite := SuiteResultsReconcile(resultSuites[k]);
        reconciled := suite.value;
      }
    }
  }

  method ReadEvidence(document: Option<Element>) returns (r: Result<Evidence, EvidenceError>)
    ensures r.Ok? <==> document.Some? && Evident(document.value)
    ensures r.Ok? ==> r.value == EvidenceOf(document.value)
  {
    hide Iter, Named, Readings, ResultSuites, Reconciles, Plausible;
    if document.None? { return Err(MissingFile); }
    var root := document.value;
    if root.name !in {TestSuite, TestSuites} {
      NotEvident(root);
      return Err(UnexpectedRoot);
    }
    var counts := AggregateCounts(root);
    if counts.Err? { return Err(counts.error); }
    var c := counts.value;
    var testcases := Named(Iter(root), TestCase);
    var allSkipped := testcases != [] && forall t :: t in testcases ==> HasSkip(t);
    var failing := !NoFailure(root);
    var reconciled := SuitesReconcile(root);
    return Ok(Evidence(c.tests, c.skipped, c.failures, c.errors, |testcases|, allSkipped, failing, reconciled));
  }

  lemma {:induction false} NotEvident(root: Element)
    requires root.name !in {TestSuite, TestSuites}
    ensures !Evident(root)
  {
  }
}
