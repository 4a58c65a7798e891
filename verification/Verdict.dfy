/** The forge's own reading of an audit report, and the recovery of a verdict
    that was stored before its check reached a reader. A submission carries
    evidence, never a conclusion. */
module Verdict {
  import opened Prelude
  import opened JsonValue

  const HOST_MINIMUM_SCORE: nat := 85
  const SCORED := "scored"
  const NO_BASE_DIFF := "no-base-diff"
  const TOOL_FAILED := "tool-failed"
  const PROVENANCE := "jeryu_audit_provenance"

  /** What the forge asks its store to record. */
  datatype Request = Request(
    branch: string, commit: string, score: Option<nat>, hardFindings: Option<nat>,
    decision: string, caps: seq<string>, report: Option<Json>, toolExit: Option<int>)

  /** A stored row. */
  datatype Score = Score(
    id: nat, owner: string, repo: string, branch: string, commit: string, score: Option<nat>,
    hardFindings: nat, decision: string, caps: seq<string>, report: Option<Json>, createdAt: int)

  datatype Parsed = Parsed(score: nat, hardFindings: nat, minimum: nat, caps: seq<string>)

  /** The report written when the head changes nothing against its base. */
  predicate IsNoChanges(report: Json) {
    && AsStr(Get(report, "result")) == Some("no-changes")
    && AsU64(Get(report, "score")) == Some(100)
    && AsU64(Get(report, "changed_count")) == Some(0)
    && AsU64(Get(report, "caps_applied")) == Some(0)
    && AsU64(Get(report, "hard_findings")) == Some(0)
    && Get(report, "decision").None?
    && Get(report, "host_error").None?
  }

  function DecisionField(report: Json, key: string): Option<Json> {
    var decision := Get(report, "decision");
    if decision.None? then None else Get(decision.value, key)
  }

  predicate IsVerdictless(report: Option<Json>, exit: int) {
    && exit == 0
    && report.Some? && report.value.Obj?
    && Get(report.value, "host_error").None?
    && Get(report.value, "score").None?
    && DecisionField(report.value, "minimum_score").None?
    && DecisionField(report.value, "hard_findings").None?
  }

  function Parse(report: Option<Json>, exit: int): Option<Parsed> {
    if report.None? || exit != 0 then None
    else if IsNoChanges(report.value) then Some(Parsed(100, 0, 0, []))
    else
      var score := AsU32(Get(report.value, "score"));
      var hard := AsU32(DecisionField(report.value, "hard_findings"));
      var minimum := AsU32(DecisionField(report.value, "minimum_score"));
      var caps := AsStrings(Get(report.value, "caps_applied"));
      if score.None? || hard.None? || minimum.None? || caps.None? then None
      else if score.value > 100 || minimum.value > 100 then None
      else Some(Parsed(score.value, hard.value, minimum.value, caps.value))
  }

  /** The row a report earns and whether it passes. */
  function Judge(branch: string, commit: string, report: Option<Json>, exit: int): (Request, bool) {
    var parsed := Parse(report, exit);
    if parsed.Some? then
      var p := parsed.value;
      (Request(branch, commit, Some(p.score), Some(p.hardFindings), SCORED, p.caps, report, None),
       p.score >= Max(p.minimum, HOST_MINIMUM_SCORE) && p.hardFindings == 0 && p.caps == [])
    else
      (Request(branch, commit, None, None,
               if IsVerdictless(report, exit) then NO_BASE_DIFF else TOOL_FAILED, [], report, Some(exit)),
       false)
  }

  /** The floor a report asks for, as the published check names it. */
  function Floor(report: Option<Json>): nat {
    var asked := if report.Some? then AsU32(DecisionField(report.value, "minimum_score")) else None;
    Max(if asked.Some? then asked.value else 0, HOST_MINIMUM_SCORE)
  }

  /** What a green proof has to stand on. */
  predicate Passing(row: Score) {
    && row.decision == SCORED
    && row.score.Some? && row.score.value >= Floor(row.report)
    && row.hardFindings == 0
    && row.caps == []
  }

  function Recorded(request: Request, id: nat, owner: string, repo: string, now: int): Score {
    Score(id, owner, repo, request.branch, request.commit, request.score,
          if request.hardFindings.Some? then request.hardFindings.value else 0,
          request.decision, request.caps, request.report, now)
  }

  /** The pass flag of a judged report is exactly the passing of its stored row. */
  lemma JudgedRowPasses(branch: string, commit: string, report: Option<Json>, exit: int,
                        id: nat, owner: string, repo: string, now: int)
    ensures
      var (request, pass) := Judge(branch, commit, report, exit);
      pass <==> Passing(Recorded(request, id, owner, repo, now))
  {
    if report.Some? && exit == 0 && IsNoChanges(report.value) {
      assert DecisionField(report.value, "minimum_score").None?;
    }
  }

  // ---- Provenance ----

  predicate IsHexDigit(c: char) {
    '0' <= c <= '9' || 'a' <= c <= 'f' || 'A' <= c <= 'F'
  }

  predicate IsObjectId(s: string) {
    |s| == 40 && forall i :: 0 <= i < |s| ==> IsHexDigit(s[i])
  }

  predicate IsWhitespace(c: char) {
    || '\t' <= c <= '\r' || c == ' ' || c == '\U{85}' || c == '\U{A0}' || c == '\U{1680}'
    || '\U{2000}' <= c <= '\U{200A}' || c == '\U{2028}' || c == '\U{2029}' || c == '\U{202F}'
    || c == '\U{205F}' || c == '\U{3000}'
  }

  predicate IsBlank(s: string) {
    forall i :: 0 <= i < |s| ==> IsWhitespace(s[i])
  }

  /** Which reported `(version, sha256)` is the governed auditor. */
  type Governed = (string, string) -> bool

  datatype Provenance = Provenance(
    runner: string, base: string, mode: string, version: string, sha256: string, receipt: Option<string>)
  {
    predicate Acceptable(governed: Governed) {
      !IsBlank(runner) && IsObjectId(base) && (mode == "diff" || mode == "full") && governed(version, sha256)
    }

    function Encode(): Json {
      Obj([Member("runner_id", Str(runner)), Member("base_sha", Str(base)), Member("audit_mode", Str(mode)),
           Member("jankurai_version", Str(version)), Member("jankurai_sha256", Str(sha256)),
           Member("jankurai_receipt_sha256", if receipt.Some? then Str(receipt.value) else Null)])
    }
  }

  /** What the ingest does to a report before it is judged. */
  function Stamped(report: Option<Json>, p: Provenance): Option<Json> {
    if report.Some? && report.value.Obj?
    then Some(Obj(Insert(report.value.members, PROVENANCE, p.Encode())))
    else report
  }

  function ProvenanceField(report: Option<Json>, key: string): Option<string> {
    if report.None? then None
    else
      var p := Get(report.value, PROVENANCE);
      if p.None? then None else AsStr(Get(p.value, key))
  }

  function AuditedBase(row: Score): Option<string> {
    ProvenanceField(row.report, "base_sha")
  }

  predicate HasAcceptableProvenance(report: Option<Json>, governed: Governed) {
    var runner := ProvenanceField(report, "runner_id");
    var base := ProvenanceField(report, "base_sha");
    var mode := ProvenanceField(report, "audit_mode");
    var version := ProvenanceField(report, "jankurai_version");
    var sha256 := ProvenanceField(report, "jankurai_sha256");
    && runner.Some? && base.Some? && mode.Some? && version.Some? && sha256.Some?
    && Provenance(runner.value, base.value, mode.value, version.value, sha256.value, None).Acceptable(governed)
  }

  /** The verdict a stored row may still publish, recomputed from its report. */
  function StoredProof(row: Score, governed: Governed): Option<(Request, bool)> {
    if row.decision != SCORED || row.report.None? || !HasAcceptableProvenance(row.report, governed) then None
    else
      var (request, pass) := Judge(row.branch, row.commit, row.report, 0);
      if request.decision != SCORED || request.score != row.score
         || request.hardFindings != Some(row.hardFindings) || request.caps != row.caps
      then None
      else
        Some((Request(row.branch, row.commit, row.score, Some(row.hardFindings), row.decision,
                      row.caps, row.report, None), pass))
  }

  /** Recovery neither invents a pass nor overturns one. */
  lemma RecoveryAgreesWithRow(row: Score, governed: Governed)
    requires StoredProof(row, governed).Some?
    ensures StoredProof(row, governed).value.1 <==> Passing(row)
  {
    var (request, _) := Judge(row.branch, row.commit, row.report, 0);
    JudgedRowPasses(row.branch, row.commit, row.report, 0, row.id, row.owner, row.repo, row.createdAt);
    assert Recorded(request, row.id, row.owner, row.repo, row.createdAt) == row.(report := request.report);
  }

  lemma StampReads(report: Json, p: Provenance)
    requires report.Obj?
    ensures
      var stamped := Stamped(Some(report), p);
      && ProvenanceField(stamped, "runner_id") == Some(p.runner)
      && ProvenanceField(stamped, "base_sha") == Some(p.base)
      && ProvenanceField(stamped, "audit_mode") == Some(p.mode)
      && ProvenanceField(stamped, "jankurai_version") == Some(p.version)
      && ProvenanceField(stamped, "jankurai_sha256") == Some(p.sha256)
  {
    LookupInserted(report.members, PROVENANCE, p.Encode(), PROVENANCE);
    var ms := p.Encode().members;
    assert ms[1..][0] == ms[1] && ms[1..][1..][0] == ms[2];
    assert ms[1..][1..][1..][0] == ms[3] && ms[1..][1..][1..][1..][0] == ms[4];
    LookupAt(ms, 0);
    LookupAt(ms, 1);
    LookupAt(ms, 2);
    LookupAt(ms, 3);
    LookupAt(ms, 4);
  }

  lemma {:induction false} LookupAt(ms: seq<Member>, i: nat)
    requires i < |ms| && forall j :: 0 <= j < i ==> ms[j].key != ms[i].key
    ensures Lookup(ms, ms[i].key) == Some(ms[i].value)
  {
    if i > 0 {
      LookupAt(ms[1..], i - 1);
    }
  }

  /** Round trip: whatever verdict the ingest records for an accepted report,
      the stored row gives back, with the base it was audited against. */
  lemma RecordedVerdictRecovers(branch: string, commit: string, report: Option<Json>, p: Provenance, exit: int,
                                id: nat, owner: string, repo: string, now: int, governed: Governed)
    requires p.Acceptable(governed)
    ensures
      var (request, pass) := Judge(branch, commit, Stamped(report, p), exit);
      var row := Recorded(request, id, owner, repo, now);
      var back := StoredProof(row, governed);
      && (back.Some? <==> request.decision == SCORED)
      && (back.Some? ==> back.value == (request, pass) && AuditedBase(row) == Some(p.base))
  {
    var stamped := Stamped(report, p);
    var (request, pass) := Judge(branch, commit, stamped, exit);
    if request.decision == SCORED {
      ScoredIsObject(stamped, exit);
      StampReads(report.value, p);
    }
  }

  lemma ScoredIsObject(report: Option<Json>, exit: int)
    requires Parse(report, exit).Some?
    ensures report.value.Obj? && exit == 0
  {
  }
}
