/** Where a green proof comes from: in every run, each stamped row was earned by
    one accepted report of the very audit its ticket asked for. */
module ProofOrigins {
  import opened Prelude
  import opened JsonValue
  import opened Verdict
  import opened ReportFields
  import opened ProofProtocol
  import opened ProofSafety
  import opened PushDecisions
  import Q = AuditQueue

  // ---- One report ----

  predicate HexOf(s: string, n: nat) {
    |s| == n && forall i :: 0 <= i < n ==> IsHex(s[i])
  }

  /** The submission is the audit the ticket asks for. */
  predicate Answers(s: Submission, t: Q.Ticket, owner: string, repo: string, governed: Governed) {
    && Vouched(s.provenance, governed) && HexOf(s.commit, 40)
    && (s.provenance.receipt.Some? ==> HexOf(s.provenance.receipt.value, 64))
    && t.owner == owner && t.repo == repo && t.head == s.commit && t.branch == s.branch
    && t.base == s.provenance.base && (t.mode == Q.FullAudit ==> s.provenance.mode == "full")
  }

  lemma AuthorizedExactly(site: Site, s: Submission, t: Q.Ticket, owner: string, repo: string)
    ensures Authorized(site, s, t, owner, repo) <==> Answers(s, t, owner, repo, site.governed)
  {
    AcceptableExactly(s.provenance, site.governed);
    forall c: char ensures IsHexDigit(c) <==> IsHex(c) {
      HexExactly(c);
    }
  }

  /** The submitted report alone is reason to pass. */
  ghost predicate Passed(s: Submission) {
    s.exit == 0 && s.report.Some? && Clears(s.report.value)
  }

  /** The row keeps the report as submitted, under the stamp of the submission. */
  ghost predicate KeepsSubmission(row: Score, s: Submission) {
    && (s.report.None? ==> row.report.None?)
    && (s.report.Some? && !s.report.value.Obj? ==> row.report == s.report)
    && (s.report.Some? && s.report.value.Obj? ==>
          && row.report.Some? && StampedBy(row.report.value, s.provenance)
          && forall key, v :: key != "jeryu_audit_provenance" ==>
               (Holds(row.report.value, key, v) <==> Holds(s.report.value, key, v)))
  }

  lemma KeepsStamped(row: Score, s: Submission)
    requires row.report == Stamped(s.report, s.provenance)
    ensures KeepsSubmission(row, s)
  {
    if s.report.Some? && s.report.value.Obj? {
      StampDecidesNothing(s.report.value, s.provenance);
      forall key, v | key != "jeryu_audit_provenance"
        ensures Holds(row.report.value, key, v) <==> Holds(s.report.value, key, v)
      {
        StampKeepsField(s.report.value, s.provenance, key, v);
      }
    }
  }

  lemma StampedClears(s: Submission)
    ensures
      var stamped := Stamped(s.report, s.provenance);
      (stamped.Some? && Clears(stamped.value)) <==> (s.report.Some? && Clears(s.report.value))
  {
    if s.report.Some? && s.report.value.Obj? {
      StampDecidesNothing(s.report.value, s.provenance);
    }
  }

  /** The row of one report. */
  ghost predicate RowOf(row: Score, s: Submission, t: Q.Ticket, id: nat, now: int) {
    && row.id == id && row.createdAt == now && row.owner == t.owner && row.repo == t.repo
    && row.branch == t.branch && row.commit == t.head && KeepsSubmission(row, s)
  }

  /** The completed proof of one report, worded by the row it is stored as. */
  ghost predicate ProofOf(site: Site, p: Proof, s: Submission, t: Q.Ticket, row: Score, request: Request) {
    && About(p, t.owner, t.repo, t.head) && p.status == Completed
    && p.conclusion == Some(if Passed(s) then Success else Failure)
    && p.url == site.link(t.owner, t.repo, t.head) && p.output == Some(site.wording(request, Passed(s)))
    && request.branch == row.branch && request.commit == row.commit && request.score == row.score
    && request.decision == row.decision && request.caps == row.caps && request.report == row.report
    && row.hardFindings == (if request.hardFindings.Some? then request.hardFindings.value else 0)
  }

  /** Main result: a report that answers an open ticket takes it, stores its row,
      and completes the proof, green exactly when what was submitted clears the
      head; any other changes nothing. */
  lemma ReportEffect(site: Site, f: Forge, owner: string, repo: string, s: Submission, t: Q.Ticket, writes: Writes,
                     now: int) returns (row: Score, p: Proof, request: Request)
    ensures RowOf(row, s, t, writes.id, now) || !Answers(s, t, owner, repo, site.governed)
    ensures ProofOf(site, p, s, t, row, request) || !Answers(s, t, owner, repo, site.governed)
    ensures
      var f' := Report(site, f, owner, repo, s, t, writes, now);
      if t in f.tickets && Answers(s, t, owner, repo, site.governed) then
        && f'.tickets == Q.Taken(f.tickets, Q.HeadKey(owner, repo, s.commit)).0
        && f'.scores == (if writes.recordWorks then Store(f.scores, row, writes.overwrites) else f.scores)
        && f'.proofs == if writes.recordWorks && writes.postWorks && !(writes.checksReadable && Current(f, p))
                        then f.proofs + [p] else f.proofs
      else f' == f
  {
    AuthorizedExactly(site, s, t, owner, repo);
    var stamped := Stamped(s.report, s.provenance);
    var (judged, pass) := Judge(t.branch, t.head, stamped, s.exit);
    request := judged;
    JudgedByItsFields(t.branch, t.head, stamped, s.exit);
    StampedClears(s);
    row := Recorded(request, writes.id, owner, repo, now);
    p := VerdictProof(site, request, pass, owner, repo);
    KeepsStamped(row, s);
    CurrentExactly(f, p);
  }

  // ---- Every run ----

  /** Step `i` of the run is the report that earned the row. */
  ghost predicate EarnedAt(site: Site, steps: seq<Step>, i: nat, row: Score) {
    && i < |steps| && steps[i].Submit?
    && var Submit(owner, repo, s, t, writes, now) := steps[i];
       && t in After(site, steps[..i]).tickets && Answers(s, t, owner, repo, site.governed)
       && RowOf(row, s, t, writes.id, now)
  }

  lemma {:induction false} RestoreWritesNoScore(site: Site, f: Forge, pulls: seq<Pull>, now: int)
    ensures RestorePending(site, f, pulls, now).0.scores == f.scores
  {
    if pulls != [] {
      RestoreWritesNoScore(site, f, pulls[..|pulls| - 1], now);
      var before, pull := RestorePending(site, f, pulls[..|pulls| - 1], now).0, pulls[|pulls| - 1];
      if Awaits(before, pull) {
        var _ := RestoringNeverCompletes(site, before, pull.owner, pull.repo, pull.branch, pull.head, pull.env,
                                         pull.output, now);
      }
    }
  }

  /** A row that is new after a step is a backfill, which carries no stamp, or the step's report. */
  lemma NewRow(site: Site, f: Forge, step: Step, row: Score, base: string)
    requires row in Next(site, f, step).scores && row !in f.scores && Against(row, base)
    ensures step.Submit? && step.ticket in f.tickets
    ensures Answers(step.submission, step.ticket, step.owner, step.repo, site.governed)
    ensures RowOf(row, step.submission, step.ticket, step.writes.id, step.now)
  {
    match step
    case Push(owner, repo, update, env, output, now) =>
      var _ := QueueingNeverDecides(site, f, owner, repo, update, env, output, now);
    case Restore(pulls, now) => RestoreWritesNoScore(site, f, pulls, now);
    case Submit(owner, repo, s, t, writes, now) =>
      var stored, _, _ := ReportEffect(site, f, owner, repo, s, t, writes, now);
    case Backfill(owner, repo, request, writes, now) => BackfillIsUnstamped(site, f, step, row, base);
    case _ =>
  }

  lemma BackfillIsUnstamped(site: Site, f: Forge, step: Step, row: Score, base: string)
    requires step.Backfill? && row in Next(site, f, step).scores && row !in f.scores
    ensures !Against(row, base)
  {
    if Against(row, base) {
      BaseExactly(row, base);
    }
  }

  /** Main result: in every run, whatever the store does, each row that carries a
      stamped base was earned by a report of an open ticket for that head, branch
      and base, by the governed auditor, and keeps what that report said. */
  lemma {:induction false} EveryStampedRowWasEarned(site: Site, steps: seq<Step>, row: Score, base: string)
    returns (i: nat)
    requires row in After(site, steps).scores && Against(row, base)
    ensures EarnedAt(site, steps, i, row) && steps[i].ticket.base == base
  {
    var n := |steps| - 1;
    var before := After(site, steps[..n]);
    if row in before.scores {
      i := EveryStampedRowWasEarned(site, steps[..n], row, base);
      assert steps[..n][..i] == steps[..i];
    } else {
      i := n;
      NewRow(site, before, steps[n], row, base);
      StampedBase(row, steps[n].submission, base);
    }
  }

  lemma StampedBase(row: Score, s: Submission, base: string)
    requires KeepsSubmission(row, s) && Against(row, base)
    ensures s.report.Some? && s.report.value.Obj? ==> s.provenance.base == base
  {
    if s.report.Some? && s.report.value.Obj? {
      StampExactly(row.report.value, s.provenance);
      BaseExactly(row, base);
    }
  }
}
