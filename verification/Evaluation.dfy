/**
 * What one evaluation scenario reports: the validity rules between hooks,
 * judges and the runner, and the verdict on a single scenario (eval/eval.go,
 * eval/runner.go:285-370). What hooks and judges answer, and when a context
 * ends, are parameters.
 */
module Evaluation {
  import opened Basics

  /** The closed judge vocabulary, and any other text a judge may answer. */
  datatype Label = Entailed | Contradicted | NotAddressed | Indeterminate | Unknown(text: string)

  datatype Check = Check(name: string, passed: bool, diagnostic: string)

  datatype Claim = Claim(id: string, text: string)

  datatype Artifact = Artifact(name: string, uri: string)

  datatype Result = Result(checks: seq<Check>, claims: seq<Claim>, output: string, artifacts: seq<Artifact>)

  datatype Judgment = Judgment(claimId: string, verdict: Label, rationale: string)

  datatype ScenarioReport = ScenarioReport(
    id: string, result: Option<Result>, judgments: seq<Judgment>, failed: bool, passed: bool)

  // ---------------------------------------------------------------------
  // Validity rules
  // ---------------------------------------------------------------------

  predicate ValidClaims(claims: seq<Claim>) {
    && (forall i :: 0 <= i < |claims| ==> claims[i].id != "" && claims[i].text != "")
    && (forall i, j :: 0 <= i < j < |claims| ==> claims[i].id != claims[j].id)
  }

  /** Judgment `j` is the only one about this claim. */
  predicate OnlyJudgment(judgments: seq<Judgment>, j: nat, id: string) {
    && j < |judgments| && judgments[j].claimId == id
    && forall k :: 0 <= k < |judgments| && k != j ==> judgments[k].claimId != id
  }

  ghost predicate JudgedOnce(judgments: seq<Judgment>, id: string) {
    exists j: nat :: OnlyJudgment(judgments, j, id)
  }

  /** Every claim has exactly one judgment, and every judgment is about a claim. */
  ghost predicate OneToOne(claims: seq<Claim>, judgments: seq<Judgment>) {
    && (forall i :: 0 <= i < |claims| ==> JudgedOnce(judgments, claims[i].id))
    && (forall j :: 0 <= j < |judgments| ==> judgments[j].claimId in Ids(claims))
  }

  predicate WellFormed(j: Judgment) {
    !j.verdict.Unknown? && j.rationale != ""
  }

  predicate AllWellFormed(judgments: seq<Judgment>) {
    forall j :: 0 <= j < |judgments| ==> WellFormed(judgments[j])
  }

  function Ids(claims: seq<Claim>): set<string> {
    set i | 0 <= i < |claims| :: claims[i].id
  }

  function Judged(judgments: seq<Judgment>): set<string> {
    set j | 0 <= j < |judgments| :: judgments[j].claimId
  }

  lemma {:induction false} DistinctClaimsCount(claims: seq<Claim>)
    requires forall i, j :: 0 <= i < j < |claims| ==> claims[i].id != claims[j].id
    ensures |Ids(claims)| == |claims|
  {
    if claims != [] {
      var init, last := claims[..|claims| - 1], claims[|claims| - 1];
      DistinctClaimsCount(init);
      assert Ids(claims) == Ids(init) + {last.id};
    }
  }

  lemma {:induction false} DistinctJudgmentsCount(judgments: seq<Judgment>)
    requires forall i, j :: 0 <= i < j < |judgments| ==> judgments[i].claimId != judgments[j].claimId
    ensures |Judged(judgments)| == |judgments|
  {
    if judgments != [] {
      var init, last := judgments[..|judgments| - 1], judgments[|judgments| - 1];
      DistinctJudgmentsCount(init);
      assert Judged(judgments) == Judged(init) + {last.claimId};
    }
  }

  lemma SubsetOfSameSize<T>(a: set<T>, b: set<T>)
    requires a <= b && |a| == |b|
    ensures a == b
  {
    assert b == a + (b - a);
  }

  /** Pigeonhole: as many distinct judgments as claims, all about claims, leave no claim out. */
  lemma CountingMatches(claims: seq<Claim>, judgments: seq<Judgment>)
    requires ValidClaims(claims) && |judgments| == |claims|
    requires forall i, j :: 0 <= i < j < |judgments| ==> judgments[i].claimId != judgments[j].claimId
    requires forall j :: 0 <= j < |judgments| ==> judgments[j].claimId in Ids(claims)
    ensures OneToOne(claims, judgments)
  {
    DistinctClaimsCount(claims);
    DistinctJudgmentsCount(judgments);
    SubsetOfSameSize(Judged(judgments), Ids(claims));
    forall i | 0 <= i < |claims| ensures JudgedOnce(judgments, claims[i].id) {
      assert claims[i].id in Judged(judgments);
      var j: nat :| j < |judgments| && judgments[j].claimId == claims[i].id;
      assert OnlyJudgment(judgments, j, claims[i].id);
    }
  }

  /** Conversely a one-to-one answer passes every test the validator makes. */
  lemma MatchingCounts(claims: seq<Claim>, judgments: seq<Judgment>)
    requires ValidClaims(claims) && OneToOne(claims, judgments)
    ensures |judgments| == |claims|
    ensures forall i, j :: 0 <= i < j < |judgments| ==> judgments[i].claimId != judgments[j].claimId
    ensures forall j :: 0 <= j < |judgments| ==> judgments[j].claimId in Ids(claims)
  {
    forall a, b | 0 <= a < b < |judgments| ensures judgments[a].claimId != judgments[b].claimId {
      assert judgments[a].claimId in Ids(claims);
      var i :| 0 <= i < |claims| && claims[i].id == judgments[a].claimId;
      var j: nat :| OnlyJudgment(judgments, j, claims[i].id);
    }
    DistinctClaimsCount(claims);
    DistinctJudgmentsCount(judgments);
    forall id | id in Ids(claims) ensures id in Judged(judgments) {
      var i :| 0 <= i < |claims| && claims[i].id == id;
      var j: nat :| OnlyJudgment(judgments, j, claims[i].id);
    }
    assert Ids(claims) == Judged(judgments);
  }

  /** Fills the set of claim IDs, refusing a claim without ID or text and a repeated ID. */
  method CollectClaims(claims: seq<Claim>) returns (ok: bool, wanted: set<string>)
    ensures ok <==> ValidClaims(claims)
    ensures ok ==> wanted == Ids(claims) && |wanted| == |claims|
  {
    ok, wanted := true, {};
    for i := 0 to |claims|
      invariant ok && ValidClaims(claims[..i]) && wanted == Ids(claims[..i])
    {
      assert claims[..i + 1] == claims[..i] + [claims[i]];
      assert ValidClaims(claims) ==> forall k :: 0 <= k < i ==> claims[k].id != claims[i].id;
      if claims[i].id == "" || claims[i].text == "" || claims[i].id in wanted {
        ok := false;
        return;
      }
      wanted := wanted + {claims[i].id};
    }
    assert claims[..|claims|] == claims;
    DistinctClaimsCount(claims);
  }

  /** The judge's answer is accepted exactly when it is one well-formed judgment per claim. */
  method ValidateJudgments(claims: seq<Claim>, judgments: seq<Judgment>) returns (ok: bool)
    ensures ok <==> ValidClaims(claims) && OneToOne(claims, judgments) && AllWellFormed(judgments)
  {
    var wanted;
    ok, wanted := CollectClaims(claims);
    if !ok {
      return;
    }
    if OneToOne(claims, judgments) {
      MatchingCounts(claims, judgments);
    }
    if |judgments| != |wanted| {
      ok := false;
      return;
    }
    var seen: set<string> := {};
    for j := 0 to |judgments|
      invariant seen == Judged(judgments[..j])
      invariant forall k :: 0 <= k < j ==> judgments[k].claimId in wanted && WellFormed(judgments[k])
      invariant forall a, b :: 0 <= a < b < j ==> judgments[a].claimId != judgments[b].claimId
    {
      assert judgments[..j + 1] == judgments[..j] + [judgments[j]];
      if judgments[j].claimId in seen {
        assert exists k :: 0 <= k < j && judgments[k].claimId == judgments[j].claimId;
      }
      if judgments[j].claimId !in wanted || judgments[j].claimId in seen || !WellFormed(judgments[j]) {
        ok := false;
        return;
      }
      seen := seen + {judgments[j].claimId};
    }
    CountingMatches(claims, judgments);
  }

  predicate ValidChecks(checks: seq<Check>) {
    && (forall i :: 0 <= i < |checks| ==>
          checks[i].name != "" && (checks[i].passed <==> checks[i].diagnostic == ""))
    && (forall i, j :: 0 <= i < j < |checks| ==> checks[i].name != checks[j].name)
  }

  predicate ValidArtifacts(artifacts: seq<Artifact>) {
    && (forall i :: 0 <= i < |artifacts| ==> artifacts[i].name != "" && artifacts[i].uri != "")
    && (forall i, j :: 0 <= i < j < |artifacts| ==> artifacts[i].name != artifacts[j].name)
  }

  predicate ValidResult(r: Result) {
    (r.checks != [] || r.claims != []) && ValidChecks(r.checks) && ValidClaims(r.claims) && ValidArtifacts(r.artifacts)
  }

  method ValidateChecks(checks: seq<Check>) returns (ok: bool)
    ensures ok <==> ValidChecks(checks)
  {
    var names: set<string> := {};
    for i := 0 to |checks|
      invariant ValidChecks(checks[..i]) && names == set k | 0 <= k < i :: checks[k].name
    {
      assert checks[..i + 1] == checks[..i] + [checks[i]];
      if checks[i].name == "" || checks[i].name in names {
        return false;
      }
      names := names + {checks[i].name};
      if checks[i].passed && checks[i].diagnostic != "" {
        return false;
      }
      if !checks[i].passed && checks[i].diagnostic == "" {
        return false;
      }
    }
    assert checks[..|checks|] == checks;
    ok := true;
  }

  method ValidateArtifacts(artifacts: seq<Artifact>) returns (ok: bool)
    ensures ok <==> ValidArtifacts(artifacts)
  {
    var names: set<string> := {};
    for i := 0 to |artifacts|
      invariant ValidArtifacts(artifacts[..i]) && names == set k | 0 <= k < i :: artifacts[k].name
    {
      assert artifacts[..i + 1] == artifacts[..i] + [artifacts[i]];
      if artifacts[i].name == "" || artifacts[i].uri == "" || artifacts[i].name in names {
        return false;
      }
      names := names + {artifacts[i].name};
    }
    assert artifacts[..|artifacts|] == artifacts;
    ok := true;
  }

  method ValidateResult(r: Result) returns (ok: bool)
    ensures ok <==> ValidResult(r)
  {
    if r.checks == [] && r.claims == [] {
      return false;
    }
    ok := ValidateChecks(r.checks);
    if !ok {
      return;
    }
    var ids;
    ok, ids := CollectClaims(r.claims);
    if !ok {
      return;
    }
    ok := ValidateArtifacts(r.artifacts);
  }

  // ---------------------------------------------------------------------
  // One scenario
  // ---------------------------------------------------------------------

  /** What the world answers while one scenario runs; None is an error. */
  datatype Trial = Trial(
    canceled: bool,
    hook: Option<Result>,
    expired: bool,
    judge: bool,
    answer: Option<seq<Judgment>>,
    expiredJudging: bool)

  /** The runner's own judgments: one per claim, in claim order, none of them addressed. */
  predicate OwnLabels(claims: seq<Claim>, judgments: seq<Judgment>) {
    && |judgments| == |claims|
    && forall k :: 0 <= k < |claims| ==>
         judgments[k].claimId == claims[k].id && judgments[k].verdict == NotAddressed && judgments[k].rationale != ""
  }

  /** The judge answered in time, with one well-formed judgment per claim. */
  ghost predicate AnsweredValidly(claims: seq<Claim>, t: Trial) {
    && t.answer.Some? && !t.expiredJudging
    && OneToOne(claims, t.answer.value) && AllWellFormed(t.answer.value)
  }

  /** The judgments of a result: its own labels without output, otherwise the judge's valid answer. */
  method JudgeClaims(r: Result, t: Trial) returns (judgments: Option<seq<Judgment>>)
    requires ValidClaims(r.claims)
    ensures r.output == "" ==> judgments.Some? && OwnLabels(r.claims, judgments.value)
    ensures r.output != "" ==> judgments == if AnsweredValidly(r.claims, t) then t.answer else None
    ensures judgments.Some? ==> OneToOne(r.claims, judgments.value) && AllWellFormed(judgments.value)
  {
    if r.output == "" {
      var own: seq<Judgment> := [];
      for i := 0 to |r.claims|
        invariant |own| == i
        invariant forall k :: 0 <= k < i ==>
          own[k].claimId == r.claims[k].id && own[k].verdict == NotAddressed && own[k].rationale != ""
      {
        own := own + [Judgment(r.claims[i].id, NotAddressed, "the scenario produced no output to judge")];
      }
      assert forall k :: 0 <= k < |own| ==> own[k].claimId in Ids(r.claims);
      CountingMatches(r.claims, own);
      return Some(own);
    }
    if t.answer.None? || t.expiredJudging {
      return None;
    }
    var ok := ValidateJudgments(r.claims, t.answer.value);
    judgments := if ok then t.answer else None;
  }

  predicate AllEntailed(judgments: seq<Judgment>) {
    forall j :: 0 <= j < |judgments| ==> judgments[j].verdict == Entailed
  }

  predicate ChecksPass(checks: seq<Check>) {
    forall i :: 0 <= i < |checks| ==> checks[i].passed
  }

  /** The hook ran and answered in time with a valid result. */
  predicate Ran(t: Trial) {
    !t.canceled && t.hook.Some? && !t.expired && ValidResult(t.hook.value)
  }

  /** What a pass means: every check passed and every claim has one judgment, entailed. */
  ghost predicate Evidence(r: ScenarioReport) {
    && r.result.Some? && ValidResult(r.result.value) && !r.failed
    && ChecksPass(r.result.value.checks)
    && OneToOne(r.result.value.claims, r.judgments) && AllEntailed(r.judgments)
    && (r.result.value.claims != [] ==> r.result.value.output != "")
  }

  /** The claims of this trial are judged one to one and all entailed. */
  ghost predicate ClaimsHold(t: Trial)
    requires t.hook.Some?
  {
    t.hook.value.claims == [] ||
    (t.judge && t.hook.value.output != "" && AnsweredValidly(t.hook.value.claims, t) && AllEntailed(t.answer.value))
  }

  /** The trial's claims, if any, were judged. */
  ghost predicate ClaimsJudged(t: Trial)
    requires t.hook.Some?
  {
    t.hook.value.claims == [] || (t.judge && (t.hook.value.output == "" || AnsweredValidly(t.hook.value.claims, t)))
  }

  /** The judgments reported for a trial whose claims were judged. */
  ghost predicate ReportsJudgments(t: Trial, judgments: seq<Judgment>)
    requires t.hook.Some?
  {
    if t.hook.value.claims == [] then judgments == []
    else if t.hook.value.output == "" then OwnLabels(t.hook.value.claims, judgments)
    else t.answer == Some(judgments)
  }

  /**
   * What a scenario's report says of its trial. It passed exactly if all its
   * checks and claims hold. Execution failed exactly if the hook did not run or
   * its claims were not judged. Passed or not, the result is the hook's and the
   * judgments are the ones its claims got.
   */
  ghost predicate ReportOf(id: string, t: Trial, report: ScenarioReport) {
    && report.id == id
    && (report.passed <==> Ran(t) && ChecksPass(t.hook.value.checks) && ClaimsHold(t))
    && (report.failed <==> !Ran(t) || !ClaimsJudged(t))
    && report.result == (if Ran(t) then t.hook else None)
    && if Ran(t) && ClaimsJudged(t) then ReportsJudgments(t, report.judgments) else report.judgments == []
  }

  /** A passed scenario carries its evidence. */
  lemma PassedHasEvidence(id: string, t: Trial, report: ScenarioReport)
    requires ReportOf(id, t, report) && report.passed
    ensures Evidence(report)
  {
    if t.hook.value.claims == [] {
      assert OneToOne([], report.judgments);
    }
  }

  /** A scenario's report is determined by its trial, up to the wording of the runner's own judgments. */
  method RunScenario(id: string, t: Trial) returns (report: ScenarioReport)
    ensures ReportOf(id, t, report)
  {
    report := ScenarioReport(id, None, [], true, false);
    if t.canceled || t.hook.None? || t.expired {
      return;
    }
    var result := t.hook.value;
    var valid := ValidateResult(result);
    if !valid {
      return;
    }
    report := report.(result := Some(result));
    var passed := true;
    for i := 0 to |result.checks|
      invariant passed <==> ChecksPass(result.checks[..i])
    {
      assert result.checks[..i + 1] == result.checks[..i] + [result.checks[i]];
      passed := passed && result.checks[i].passed;
    }
    assert result.checks[..|result.checks|] == result.checks;
    if |result.claims| > 0 {
      if !t.judge {
        return;
      }
      var judged := JudgeClaims(result, t);
      if judged.None? {
        return;
      }
      var judgments := judged.value;
      report := report.(judgments := judgments);
      MatchingCounts(result.claims, judgments);
      ghost var checked := passed;
      for j := 0 to |judgments|
        invariant passed <==> checked && AllEntailed(judgments[..j])
      {
        assert judgments[..j + 1] == judgments[..j] + [judgments[j]];
        passed := passed && judgments[j].verdict == Entailed;
      }
      assert judgments[..|judgments|] == judgments;
      assert result.output == "" ==> judgments[0].verdict == NotAddressed;
    }
    report := report.(failed := false, passed := passed);
  }
}
