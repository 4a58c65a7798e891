/** Runs that go wrong: two that end with a green head no stored row supports, by
    a report and by a backfill, and one that leaves a reported head pending for good. */
module StrandingRun {
  import opened Prelude
  import opened JsonValue
  import opened Verdict
  import opened ProofProtocol
  import opened ProofSafety
  import Q = AuditQueue

  const OWNER := "alice"
  const REPO := "jeryu"
  const QUEUE_REF := "refs/queue/main/7"

  /** A score of 98 against a floor of 85, with nothing held against it. */
  const PASSING_REPORT := [
    Member("score", Num(Int(98))),
    Member("caps_applied", Arr([])),
    Member("decision", Obj([Member("hard_findings", Num(Int(0))), Member("minimum_score", Num(Int(85)))]))]

  /** Every read succeeds, but the check service drops what the push posts. */
  function EnvFor(base: string): Env {
    Env(None, On, true, Some(base), {}, true, true, true, true, false)
  }

  function UpdateTo(head: string): RefUpdate {
    RefUpdate(QUEUE_REF, ZERO_OID, head)
  }

  function PushFor(head: string, base: string): Step {
    Push(OWNER, REPO, UpdateTo(head), EnvFor(base), ("", ""), 0)
  }

  function TicketFor(head: string, base: string): Q.Ticket {
    Q.Ticket(OWNER, REPO, QUEUE_REF, head, base, Q.DiffAudit, 0, None, None)
  }

  lemma QueueRefReads(head: string, base: string)
    ensures QueueBase(QUEUE_REF) == Some("main")
    ensures Wanted(OWNER, REPO, UpdateTo(head), EnvFor(base), 0) == Some(TicketFor(head, base))
  {
    var name := QUEUE_REF[|Q.QUEUE_PREFIX|..];
    assert name == "main/7";
    assert name[..|name| - 1] == "main/";
    assert LastSlash(name) == Some(4);
    assert name[5..] == "7" && name[..4] == "main";
    assert Decimal("7"[..0]) == Some(0);
    assert Decimal("7") == Some(7);
  }

  lemma {:induction false} NothingTrusted(rows: seq<Score>)
    ensures Trusted(rows, {}) == []
  {
    if rows != [] {
      NothingTrusted(rows[1..]);
    }
  }

  lemma EmptyQueueTakes(ticket: Q.Ticket, now: int)
    ensures Q.Enqueued([], ticket, now) == ([ticket], Q.Queued)
  {
    assert Q.Expire([], now) == [];
    assert Q.Kept([], ticket) == [];
    assert [] + [ticket] == [ticket];
  }

  /** A push while no score of the head has a receipt queues a ticket and posts nothing. */
  lemma PushQueues(site: Site, f: Forge, head: string, base: string)
    requires f.tickets == [] && head != ZERO_OID
    ensures Next(site, f, PushFor(head, base)) == f.(tickets := [TicketFor(head, base)])
  {
    QueueRefReads(head, base);
    var update, ticket := UpdateTo(head), TicketFor(head, base);
    NothingTrusted(ScoresOf(f.scores, OWNER, REPO, head));
    assert Evidence(f, OWNER, REPO, update, EnvFor(base)) == [];
    EmptyQueueTakes(ticket, 0);
    UncoveredAsks(site, f, true, ticket, Published(f, OWNER, REPO, update, EnvFor(base)), 0);
    AskedHead(site, f, OWNER, REPO, update, EnvFor(base), ("", ""), 0, ticket);
  }

  lemma PassingReportPasses(branch: string, commit: string, p: Provenance)
    ensures Judge(branch, commit, Stamped(Some(Obj(PASSING_REPORT)), p), 0).1
  {
    var ms := PASSING_REPORT;
    LookupInserted(ms, PROVENANCE, p.Encode(), "result");
    LookupInserted(ms, PROVENANCE, p.Encode(), "score");
    LookupInserted(ms, PROVENANCE, p.Encode(), "caps_applied");
    LookupInserted(ms, PROVENANCE, p.Encode(), "decision");
    LookupAt(ms, 0);
    LookupAt(ms, 1);
    LookupAt(ms, 2);
    var decision := ms[2].value.members;
    LookupAt(decision, 0);
    LookupAt(decision, 1);
    var report := Stamped(Some(Obj(ms)), p).value;
    assert Get(report, "decision") == Some(Obj(decision));
    assert !IsNoChanges(report);
    assert |AsStrings(Some(Arr([]))).value| == 0;
    assert AsStrings(Get(report, "caps_applied")) == Some([]);
    assert Parse(Some(report), 0) == Some(Parsed(98, 0, 85, []));
  }

  /** A passing report on the only ticket of an empty forge leaves one green
      proof, rows of its own branch, and no ticket. */
  lemma FirstReport(site: Site, t: Q.Ticket, s: Submission, writes: Writes)
    requires Authorized(site, s, t, t.owner, t.repo) && writes.recordWorks && writes.postWorks
    requires Judge(t.branch, t.head, Stamped(s.report, s.provenance), s.exit).1
    ensures
      var f := Report(site, Forge([], [], [t]), t.owner, t.repo, s, t, writes, 0);
      && f.tickets == [] && GreenNow(f, t.owner, t.repo, t.head)
      && forall r :: r in f.scores ==> r.branch == t.branch
  {
    var start := Forge([], [], [t]);
    ReportMoves(site, start, t.owner, t.repo, s, t, writes, 0);
    assert Q.IndexOf([t], t.Key()) == Some(0);
    assert Q.Without([t], 0) == [];
  }

  /** A failing report on the only ticket, unseen and overwriting, strands the head. */
  lemma SecondReport(site: Site, f: Forge, t: Q.Ticket, s: Submission, writes: Writes)
    requires f.tickets == [t] && GreenNow(f, t.owner, t.repo, t.head)
    requires forall r :: r in f.scores ==> r.branch == t.branch
    requires Authorized(site, s, t, t.owner, t.repo) && s.report.None?
    requires writes.recordWorks && writes.overwrites && !writes.postWorks
    ensures !NewestGreenBacked(site, Report(site, f, t.owner, t.repo, s, t, writes, 0))
  {
    assert !Judge(t.branch, t.head, Stamped(s.report, s.provenance), s.exit).1;
    StrandedHead(site, f, t.owner, t.repo, s, t, writes, 0);
  }

  function SubmissionFor(head: string, p: Provenance, report: Option<Json>): Submission {
    Submission(QUEUE_REF, head, p, report, 0)
  }

  /** The first push and its report leave a green head. */
  lemma GreenAfterPush(site: Site, head: string, wide: Provenance, pass: Submission, w: Writes) returns (f: Forge)
    requires IsObjectId(head) && Submittable(site, wide)
    requires pass == SubmissionFor(head, wide, Some(Obj(PASSING_REPORT))) && w.recordWorks && w.postWorks
    ensures
      var t := TicketFor(head, wide.base);
      && f == Report(site, Forge([], [], [t]), OWNER, REPO, pass, t, w, 0)
      && f.tickets == [] && GreenNow(f, OWNER, REPO, head) && forall r :: r in f.scores ==> r.branch == QUEUE_REF
  {
    var t := TicketFor(head, wide.base);
    PassingReportPasses(QUEUE_REF, head, wide);
    FirstReport(site, t, pass, w);
    f := Report(site, Forge([], [], [t]), OWNER, REPO, pass, t, w, 0);
  }

  /** A passing report whose check goes out, and a failing one whose check is lost. */
  function PassStep(head: string, p: Provenance): Step {
    Submit(OWNER, REPO, SubmissionFor(head, p, Some(Obj(PASSING_REPORT))), TicketFor(head, p.base),
           Writes(1, true, true, true, true), 0)
  }

  function FailStep(head: string, p: Provenance): Step {
    Submit(OWNER, REPO, SubmissionFor(head, p, None), TicketFor(head, p.base), Writes(2, true, true, true, false), 0)
  }

  /** Push and passing report leave the head green, on rows of its own branch. */
  lemma GreenHalf(site: Site, head: string, wide: Provenance) returns (f1: Forge, f2: Forge)
    requires IsObjectId(head) && head != ZERO_OID && Submittable(site, wide)
    ensures Next(site, Forge([], [], []), PushFor(head, wide.base)) == f1 && Next(site, f1, PassStep(head, wide)) == f2
    ensures f2.tickets == [] && GreenNow(f2, OWNER, REPO, head) && forall r :: r in f2.scores ==> r.branch == QUEUE_REF
  {
    var t, w := TicketFor(head, wide.base), Writes(1, true, true, true, true);
    var pass := SubmissionFor(head, wide, Some(Obj(PASSING_REPORT)));
    f1 := Forge([], [], [t]);
    PushQueues(site, Forge([], [], []), head, wide.base);
    SubmitStep(site, f1, pass, t, w);
    f2 := GreenAfterPush(site, head, wide, pass, w);
  }

  /** Main result: with an overwriting store and a check service that drops the
      failing check, a run ends green and unsupported. `wide` and `narrow` are the
      runner's provenance for the two bases of the head. */
  lemma AGreenHeadCanBeStranded(site: Site, head: string, wide: Provenance, narrow: Provenance)
    returns (steps: seq<Step>)
    requires IsObjectId(head) && head != ZERO_OID
    requires Submittable(site, wide) && Submittable(site, narrow)
    ensures !NewestGreenBacked(site, After(site, steps))
  {
    var f1, f2 := GreenHalf(site, head, wide);
    var f3, f4 := StrandedHalf(site, f2, head, narrow);
    steps := [PushFor(head, wide.base), PassStep(head, wide), PushFor(head, narrow.base), FailStep(head, narrow)];
    Unrolled(site, steps, f1, f2, f3, f4);
  }

  lemma StrandedHalf(site: Site, f2: Forge, head: string, narrow: Provenance) returns (f3: Forge, f4: Forge)
    requires f2.tickets == [] && GreenNow(f2, OWNER, REPO, head) && forall r :: r in f2.scores ==> r.branch == QUEUE_REF
    requires IsObjectId(head) && head != ZERO_OID && Submittable(site, narrow)
    ensures Next(site, f2, PushFor(head, narrow.base)) == f3 && Next(site, f3, FailStep(head, narrow)) == f4
    ensures !NewestGreenBacked(site, f4)
  {
    var fail, w := SubmissionFor(head, narrow, None), Writes(2, true, true, true, false);
    f3, f4 := StrandedAfterPush(site, f2, head, narrow, fail, w);
    SubmitStep(site, f3, fail, TicketFor(head, narrow.base), w);
  }

  lemma SubmitStep(site: Site, f: Forge, s: Submission, t: Q.Ticket, w: Writes)
    ensures Next(site, f, Submit(OWNER, REPO, s, t, w, 0)) == Report(site, f, OWNER, REPO, s, t, w, 0)
  {
  }

  /** The second push and its report strand the green head. */
  lemma StrandedAfterPush(site: Site, f2: Forge, head: string, narrow: Provenance, fail: Submission, w: Writes)
    returns (f3: Forge, f4: Forge)
    requires f2.tickets == [] && GreenNow(f2, OWNER, REPO, head) && forall r :: r in f2.scores ==> r.branch == QUEUE_REF
    requires IsObjectId(head) && head != ZERO_OID && Submittable(site, narrow)
    requires fail == SubmissionFor(head, narrow, None) && w.recordWorks && w.overwrites && !w.postWorks
    ensures f3 == Next(site, f2, PushFor(head, narrow.base))
    ensures f4 == Report(site, f3, OWNER, REPO, fail, TicketFor(head, narrow.base), w, 0)
    ensures !NewestGreenBacked(site, f4)
  {
    var t := TicketFor(head, narrow.base);
    PushQueues(site, f2, head, narrow.base);
    f3 := f2.(tickets := [t]);
    SecondReport(site, f3, t, fail, w);
    f4 := Report(site, f3, OWNER, REPO, fail, t, w, 0);
  }

  lemma Unrolled(site: Site, steps: seq<Step>, f1: Forge, f2: Forge, f3: Forge, f4: Forge)
    requires |steps| == 4
    requires Next(site, Forge([], [], []), steps[0]) == f1 && Next(site, f1, steps[1]) == f2
    requires Next(site, f2, steps[2]) == f3 && Next(site, f3, steps[3]) == f4
    ensures After(site, steps) == f4
  {
    assert steps[..3][..2] == steps[..2] && steps[..2][..1] == steps[..1] && steps[..1][..0] == [];
    assert After(site, steps[..1]) == f1;
    assert After(site, steps[..2]) == f2;
    assert After(site, steps[..3]) == f3;
  }

  // ---- A backfill in place of the only support ----

  /** A row an administrator sends in for the head, with no report. */
  function BareRow(head: string): Request {
    Request(QUEUE_REF, head, Some(98), Some(0), SCORED, [], None, None)
  }

  /** Main result: with an overwriting store, one backfill of a green head's own
      branch and commit ends a run green and unsupported. */
  lemma ABackfillCanStrand(site: Site, head: string, wide: Provenance) returns (steps: seq<Step>)
    requires IsObjectId(head) && head != ZERO_OID && Submittable(site, wide)
    ensures !NewestGreenBacked(site, After(site, steps))
  {
    var w := Writes(2, true, true, true, false);
    var f1, f2 := GreenHalf(site, head, wide);
    BackfilledHead(site, f2, OWNER, REPO, BareRow(head), w, 0);
    steps := [PushFor(head, wide.base), PassStep(head, wide), Backfill(OWNER, REPO, BareRow(head), w, 0)];
    ThreeSteps(site, steps, f1, f2);
  }

  lemma ThreeSteps(site: Site, steps: seq<Step>, f1: Forge, f2: Forge)
    requires |steps| == 3
    requires Next(site, Forge([], [], []), steps[0]) == f1 && Next(site, f1, steps[1]) == f2
    ensures After(site, steps) == Next(site, f2, steps[2])
  {
    assert steps[..2][..1] == steps[..1] && steps[..1][..0] == [];
    assert After(site, steps[..1]) == f1;
    assert After(site, steps[..2]) == f2;
  }

  // ---- A check lost after its report ----

  const TOPIC := "topic"

  /** Everything works for the push of a pull request's branch. */
  function OpenPull(base: string): Env {
    Env(Some("main"), On, true, Some(base), {}, true, true, true, true, true)
  }

  function TopicTicket(head: string, base: string): Q.Ticket {
    Q.Ticket(OWNER, REPO, TOPIC, head, base, Q.DiffAudit, 0, None, None)
  }

  function TopicPush(head: string, base: string): Step {
    Push(OWNER, REPO, RefUpdate(HEADS_PREFIX + TOPIC, ZERO_OID, head), OpenPull(base), ("", ""), 0)
  }

  lemma TopicIsAudited(head: string, base: string)
    ensures Wanted(OWNER, REPO, RefUpdate(HEADS_PREFIX + TOPIC, ZERO_OID, head), OpenPull(base), 0) ==
      Some(TopicTicket(head, base))
  {
    BranchIsNoQueueRef(TOPIC);
    assert (HEADS_PREFIX + TOPIC)[|HEADS_PREFIX|..] == TOPIC;
    assert TOPIC[0] == 't' && TOPIC[1] == 'o' && |TOPIC| == 5;
  }

  /** The push of an open pull request leaves its proof pending and one ticket. */
  lemma TopicQueues(site: Site, head: string, base: string)
    requires head != ZERO_OID
    ensures Next(site, Forge([], [], []), TopicPush(head, base)) ==
      Forge([], [Pending(site, OWNER, REPO, head, ("", ""))], [TopicTicket(head, base)])
  {
    var update, ticket := RefUpdate(HEADS_PREFIX + TOPIC, ZERO_OID, head), TopicTicket(head, base);
    var empty := Forge([], [], []);
    TopicIsAudited(head, base);
    BranchIsNoQueueRef(TOPIC);
    assert Evidence(empty, OWNER, REPO, update, OpenPull(base)) == [];
    EmptyQueueTakes(ticket, 0);
    UncoveredAsks(site, empty, false, ticket, true, 0);
  }

  /** Main result: a run of a push, a report whose check is lost, a restart and a
      restore ends with the pull request's head still pending and without a ticket. */
  lemma ALostCheckStaysPending(site: Site, head: string, p: Provenance, report: Option<Json>) returns (steps: seq<Step>)
    requires IsObjectId(head) && head != ZERO_OID && Submittable(site, p)
    ensures
      var f := After(site, steps);
      ProofPending(f, OWNER, REPO, head) && f.tickets == []
  {
    var t, s := TopicTicket(head, p.base), Submission(TOPIC, head, p, report, 0);
    var writes, pull := Writes(1, true, false, true, false),
        Pull(OWNER, REPO, TOPIC, head, true, OpenPull(p.base), ("", ""));
    steps := [TopicPush(head, p.base), Submit(OWNER, REPO, s, t, writes, 0), Restart, Restore([pull], 0)];
    var f1 := Forge([], [Pending(site, OWNER, REPO, head, ("", ""))], [t]);
    TopicQueues(site, head, p.base);
    SubmitStep(site, f1, s, t, writes);
    var f2 := LostAfterPush(site, f1, s, t, writes, pull);
    Unrolled(site, steps, f1, f2, f2, f2);
  }

  lemma LostAfterPush(site: Site, f: Forge, s: Submission, t: Q.Ticket, writes: Writes, pull: Pull) returns (f': Forge)
    requires f.tickets == [t] && Authorized(site, s, t, OWNER, REPO) && ProofPending(f, OWNER, REPO, t.head)
    requires writes.recordWorks && !writes.postWorks && pull.owner == OWNER && pull.repo == REPO
        && pull.head == t.head && pull.env.scoresReadable
    ensures f' == Report(site, f, OWNER, REPO, s, t, writes, 0)
    ensures f'.tickets == [] && ProofPending(f', OWNER, REPO, t.head)
    ensures Next(site, f', Restart) == f' && Next(site, f', Restore([pull], 0)) == f'
  {
    f' := Report(site, f, OWNER, REPO, s, t, writes, 0);
    LostCheckStaysPending(site, f, OWNER, REPO, s, t, writes, 0, pull.branch, pull.env, pull.output, 0);
    assert Q.IndexOf([t], t.Key()) == Some(0);
    assert Q.Without([t], 0) == [];
    LonePull(site, f', pull);
  }

  lemma LonePull(site: Site, f: Forge, pull: Pull)
    requires RestoreHead(site, f, pull.owner, pull.repo, pull.branch, pull.head, pull.env, pull.output, 0) == (f, false)
    ensures RestorePending(site, f, [pull], 0) == (f, 0)
  {
    PassNext(f, [], pull, OnePull(site, 0));
    assert [] + [pull] == [pull];
  }
}
