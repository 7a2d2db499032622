/** The offline consistency check of the location data
    (`scripts/verify_locations.ts`): canonical set versus alias targets,
    canonical set versus proximity nodes, the database-term mapping and a
    few postal-code lookups, summed into one issue count. */
module LocationCheck {
  import opened Locations
  import opened Proximity

  /** One postal-code lookup and the canonical names it must return. */
  datatype PostalTest = PostalTest(code: string, expected: seq<string>)

  const PostalTests := [
    PostalTest("1201", ["P\U{E2}quis", "Grottes", "Saint-Gervais"]),
    PostalTest("1227", ["Carouge", "Acacias"]),
    PostalTest("1212", ["Lancy"])]

  /** What the script reports: the issue count, the canonical names missing
      from the graph, the graph nodes that are not canonical (warnings only),
      the postal codes whose lookup missed something, and whether the
      process exits with failure. */
  datatype Report = Report(
    issueCount: nat,
    missingNodes: set<string>,
    extraNodes: set<string>,
    failedPostalCodes: seq<string>,
    exitFailure: bool)

  /** A postal test fails iff some expected name is absent from the lookup. */
  predicate PostalTestFails(t: PostalTest, found: seq<string>) {
    exists e :: e in t.expected && e !in found
  }

  /** `main`. `dbTermsErrors` is the result of `validateDbTermsConsistency`
      and `findCanonical` the postal lookup; neither is defined in the
      repository class, so both are inputs here. */
  method VerifyLocations(repo: LocationRepository, graph: ProximityGraph, dbTermsErrors: seq<string>,
                         findCanonical: string -> seq<string>)
    returns (report: Report)
    requires Valid(repo)
    ensures forall loc :: loc in report.missingNodes <==> IsCanonical(repo.data, loc) && !HasNode(graph, loc)
    ensures report.extraNodes == GetAllNodes(graph) - GetCanonicalLocations(repo)
    ensures forall k :: 0 <= k < |PostalTests| ==>
              (PostalTests[k].code in report.failedPostalCodes
               <==> PostalTestFails(PostalTests[k], findCanonical(PostalTests[k].code)))
    ensures forall i, j :: 0 <= i < j < |report.failedPostalCodes| ==> report.failedPostalCodes[i] != report.failedPostalCodes[j]
    ensures forall c :: c in report.failedPostalCodes ==> exists k :: 0 <= k < |PostalTests| && PostalTests[k].code == c
    ensures report.issueCount
            == |InvalidPositions(GetMappingTargets(repo.data), repo.canonicalLocations)|
               + |report.missingNodes| + |dbTermsErrors| + |report.failedPostalCodes|
    ensures report.exitFailure <==> report.issueCount != 0
  {
    var issueCount: nat := 0;

    // 1. alias targets against the canonical set
    var internalErrors := ValidateInternalConsistency(repo);
    issueCount := issueCount + |internalErrors|;

    // 2. every canonical name must be a graph node; extra nodes only warn
    var canonical := GetCanonicalLocations(repo);
    var missing := MissingNodes(canonical, graph);
    issueCount := issueCount + |missing|;
    var extra := set node | node in GetAllNodes(graph) && node !in canonical;

    // 3. database term mapping
    issueCount := issueCount + |dbTermsErrors|;

    // 4. postal code resolution
    var failed := FailedPostalTests(findCanonical);
    issueCount := issueCount + |failed|;

    report := Report(issueCount, missing, extra, failed, issueCount != 0);
  }

  /** The canonical names that are not nodes of the proximity graph,
      visited one at a time. */
  method MissingNodes(canonical: set<string>, graph: ProximityGraph) returns (missing: set<string>)
    ensures forall loc :: loc in missing <==> loc in canonical && !HasNode(graph, loc)
  {
    var remaining := canonical;
    missing := {};
    while remaining != {}
      invariant remaining <= canonical
      invariant forall loc :: loc in missing <==> loc in canonical - remaining && !HasNode(graph, loc)
      decreases |remaining|
    {
      var loc :| loc in remaining;
      if !HasNode(graph, loc) {
        missing := missing + {loc};
      }
      remaining := remaining - {loc};
    }
  }

  /** The postal tests, in order; the code of each failing test once, and
      nothing else. */
  method FailedPostalTests(findCanonical: string -> seq<string>) returns (failed: seq<string>)
    ensures forall k :: 0 <= k < |PostalTests| ==>
              (PostalTests[k].code in failed <==> PostalTestFails(PostalTests[k], findCanonical(PostalTests[k].code)))
    ensures forall i, j :: 0 <= i < j < |failed| ==> failed[i] != failed[j]
    ensures forall c :: c in failed ==> exists k :: 0 <= k < |PostalTests| && PostalTests[k].code == c
  {
    PostalCodesDistinct();
    failed := [];
    var k := 0;
    while k < |PostalTests|
      invariant 0 <= k <= |PostalTests|
      invariant forall i :: 0 <= i < |PostalTests| ==>
                  (PostalTests[i].code in failed <==> i < k && PostalTestFails(PostalTests[i], findCanonical(PostalTests[i].code)))
      invariant forall i, j :: 0 <= i < j < |failed| ==> failed[i] != failed[j]
      invariant forall c :: c in failed ==> exists i :: 0 <= i < k && PostalTests[i].code == c
    {
      var test := PostalTests[k];
      var found := findCanonical(test.code);
      var missingExpected := MissingFrom(test.expected, found);
      assert |missingExpected| > 0 <==> PostalTestFails(test, found) by {
        if PostalTestFails(test, found) {
          var e :| e in test.expected && e !in found;
          assert e in missingExpected;
        }
        if |missingExpected| > 0 {
          assert missingExpected[0] in missingExpected;
        }
      }
      if |missingExpected| > 0 {
        failed := failed + [test.code];
      }
      k := k + 1;
    }
  }

  lemma PostalCodesDistinct()
    ensures forall i, j :: 0 <= i < j < |PostalTests| ==> PostalTests[i].code != PostalTests[j].code
  {
  }

  /** The expected names, in order, that the lookup did not return. */
  function MissingFrom(expected: seq<string>, found: seq<string>): (r: seq<string>)
    ensures forall e :: e in r <==> e in expected && e !in found
  {
    if |expected| == 0 then []
    else (if expected[0] !in found then [expected[0]] else []) + MissingFrom(expected[1..], found)
  }
}
