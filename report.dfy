/** The report model of one feature file: its identity and the scenarios
    recorded for it, in the order they were added. */
module Report {

  /** A scenario of the report, reduced to its identity and whether it passed. */
  datatype Scenario = Scenario(scenarioId: string, passed: bool)

  /** `allMatch(Scenario::passed)` over a list. */
  function AllPassed(s: seq<Scenario>): bool {
    if s == [] then true else s[0].passed && AllPassed(s[1..])
  }

  lemma {:induction false} AllPassedMeansEvery(s: seq<Scenario>)
    ensures AllPassed(s) <==> forall i :: 0 <= i < |s| ==> s[i].passed
  {
    if s != [] {
      AllPassedMeansEvery(s[1..]);
      assert forall i :: 1 <= i < |s| ==> s[i] == s[1..][i - 1];
    }
  }

  /** Appending a scenario: the list still passes exactly when it passed before
      and the new scenario passed. */
  lemma AllPassedAppend(s: seq<Scenario>, x: Scenario)
    ensures AllPassed(s + [x]) == (AllPassed(s) && x.passed)
  {
    AllPassedMeansEvery(s);
    AllPassedMeansEvery(s + [x]);
    assert forall i :: 0 <= i < |s| ==> (s + [x])[i] == s[i];
    assert (s + [x])[|s|] == x;
  }

  /** Once a failing scenario is in the list, no appended scenarios make it pass. */
  lemma FailureSticks(s: seq<Scenario>, more: seq<Scenario>)
    requires !AllPassed(s)
    ensures !AllPassed(s + more)
  {
    AllPassedMeansEvery(s);
    AllPassedMeansEvery(s + more);
    var i :| 0 <= i < |s| && !s[i].passed;
    assert (s + more)[i] == s[i];
  }

  class Feature {
    var featureId: string
    var name: string
    var uri: string
    var scenarios: seq<Scenario>

    /** A new feature holds the given identity and no scenarios. */
    constructor (featureId: string, name: string, uri: string)
      ensures this.featureId == featureId && this.name == name && this.uri == uri
      ensures scenarios == []
    {
      this.featureId := featureId;
      this.name := name;
      this.uri := uri;
      scenarios := [];
    }

    method GetFeatureId() returns (r: string)
      ensures r == featureId
    {
      r := featureId;
    }

    method GetName() returns (r: string)
      ensures r == name
    {
      r := name;
    }

    method GetUri() returns (r: string)
      ensures r == uri
    {
      r := uri;
    }

    method GetScenarios() returns (r: seq<Scenario>)
      ensures r == scenarios
    {
      r := scenarios;
    }

    /** `addScenario` appends at the end; the identity fields stay as they were. */
    method AddScenario(scenario: Scenario)
      modifies this
      ensures scenarios == old(scenarios) + [scenario]
      ensures featureId == old(featureId) && name == old(name) && uri == old(uri)
      ensures Passed() == (old(Passed()) && scenario.passed)
    {
      AllPassedAppend(scenarios, scenario);
      scenarios := scenarios + [scenario];
    }

    /** `passed()`: every scenario passed; in particular an empty feature passes. */
    function Passed(): (r: bool)
      reads this
      ensures r <==> forall i :: 0 <= i < |scenarios| ==> scenarios[i].passed
    {
      AllPassedMeansEvery(scenarios);
      AllPassed(scenarios)
    }
  }
}
