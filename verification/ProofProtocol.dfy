/** The life of `jankurai/proof`: a push asks for an audit, a runner's report is
    judged and recorded, and a verdict whose check was lost is published again.

    A step of the forge is one push, claim, report, backfill, restart or restore.
    Reads the forge makes elsewhere (git, pull requests, branch protection) and
    the failures it tolerates come in as arguments of the step. */
module ProofProtocol {
  import opened Prelude
  import opened Verdict
  import Lex
  import JsonValue
  import Q = AuditQueue

  const ZERO_OID := "0000000000000000000000000000000000000000"
  const NO_COMMIT_BASE := "4b825dc642cb6eb9a060e54bf8d69288fbee4904"

  datatype Status = InProgress | Completed
  datatype Conclusion = Success | Failure

  /** One `jankurai/proof` check run; later runs are more recent. */
  datatype Proof = Proof(
    owner: string, repo: string, head: string, status: Status, conclusion: Option<Conclusion>,
    url: Option<string>, output: Option<(string, string)>)

  /** What a site fixes: the governed auditor, how a verdict is worded, where it links. */
  datatype Site = Site(
    governed: Governed,
    wording: (Request, bool) -> (string, string),
    link: (string, string, string) -> Option<string>)

  datatype Forge = Forge(scores: seq<Score>, proofs: seq<Proof>, tickets: seq<Q.Ticket>)

  // ---- Reading and posting proofs ----

  predicate About(p: Proof, owner: string, repo: string, head: string) {
    p.owner == owner && p.repo == repo && p.head == head
  }

  function Newest(proofs: seq<Proof>, owner: string, repo: string, head: string): (p: Option<Proof>)
    ensures p.Some? ==> p.value in proofs && About(p.value, owner, repo, head)
  {
    if proofs == [] then None
    else if About(proofs[|proofs| - 1], owner, repo, head) then Some(proofs[|proofs| - 1])
    else Newest(proofs[..|proofs| - 1], owner, repo, head)
  }

  function VerdictProof(site: Site, row: Request, pass: bool, owner: string, repo: string): Proof {
    Proof(owner, repo, row.commit, Completed, Some(if pass then Success else Failure),
          site.link(owner, repo, row.commit), Some(site.wording(row, pass)))
  }

  /** The newest proof is seen to say exactly this already. */
  predicate AlreadyPosted(f: Forge, p: Proof, readable: bool) {
    readable && Newest(f.proofs, p.owner, p.repo, p.head) == Some(p)
  }

  /** `create_check_run`, which may fail and is then let go. */
  function Post(f: Forge, p: Proof, works: bool): Forge {
    if works then f.(proofs := f.proofs + [p]) else f
  }

  // ---- Recovering a stored verdict ----

  function ScoresOf(rows: seq<Score>, owner: string, repo: string, head: string): (r: seq<Score>)
    ensures forall s :: s in r <==> s in rows && s.owner == owner && s.repo == repo && s.commit == head
  {
    if rows == [] then []
    else if rows[0].owner == owner && rows[0].repo == repo && rows[0].commit == head
    then [rows[0]] + ScoresOf(rows[1..], owner, repo, head)
    else ScoresOf(rows[1..], owner, repo, head)
  }

  /** Rows whose id has a receipt in the queue's own metadata. */
  function Trusted(rows: seq<Score>, receipts: set<nat>): (r: seq<Score>)
    ensures forall s :: s in r <==> s in rows && s.id in receipts
  {
    if rows == [] then []
    else if rows[0].id in receipts then [rows[0]] + Trusted(rows[1..], receipts)
    else Trusted(rows[1..], receipts)
  }

  predicate Recoverable(site: Site, row: Score, base: string) {
    AuditedBase(row) == Some(base) && StoredProof(row, site.governed).Some?
  }

  function Passes(site: Site, row: Score): bool
    requires StoredProof(row, site.governed).Some?
  {
    StoredProof(row, site.governed).value.1
  }

  /** Newer first; at one instant a failing verdict wins, then branch and id decide. */
  predicate Before(site: Site, a: Score, b: Score)
    requires StoredProof(a, site.governed).Some? && StoredProof(b, site.governed).Some?
  {
    if a.createdAt != b.createdAt then a.createdAt < b.createdAt
    else if Passes(site, a) != Passes(site, b) then Passes(site, a)
    else if a.branch != b.branch then Lex.Less(a.branch, b.branch)
    else a.id < b.id
  }

  function ForRecovery(site: Site, rows: seq<Score>, base: string): (best: Option<Score>)
    ensures best.Some? ==> best.value in rows && Recoverable(site, best.value, base)
    ensures best.None? ==> forall s :: s in rows ==> !Recoverable(site, s, base)
  {
    if rows == [] then None
    else
      var row := rows[|rows| - 1];
      var best := ForRecovery(site, rows[..|rows| - 1], base);
      if !Recoverable(site, row, base) then best
      else if best.Some? && Before(site, row, best.value) then best
      else Some(row)
  }

  predicate DistinctIds(rows: seq<Score>) {
    forall i, j :: 0 <= i < j < |rows| ==> rows[i].id != rows[j].id
  }

  lemma BeforeIsTotal(site: Site, a: Score, b: Score)
    requires StoredProof(a, site.governed).Some? && StoredProof(b, site.governed).Some?
    requires a.id != b.id
    ensures Before(site, a, b) <==> !Before(site, b, a)
  {
    Lex.Total(a.branch, b.branch);
    if Lex.Less(a.branch, b.branch) {
      Lex.Asymmetric(a.branch, b.branch);
    }
    if Lex.Less(b.branch, a.branch) {
      Lex.Asymmetric(b.branch, a.branch);
    }
  }

  lemma BeforeIsTransitive(site: Site, a: Score, b: Score, c: Score)
    requires StoredProof(a, site.governed).Some? && StoredProof(b, site.governed).Some?
    requires StoredProof(c, site.governed).Some?
    requires Before(site, a, b) && Before(site, b, c)
    ensures Before(site, a, c)
  {
    if Lex.Less(a.branch, b.branch) && Lex.Less(b.branch, c.branch) {
      Lex.Transitive(a.branch, b.branch, c.branch);
      Lex.Asymmetric(a.branch, c.branch);
    }
  }

  /** The row picked comes after every other one it could have been. */
  lemma {:induction false} PicksTheLast(site: Site, rows: seq<Score>, base: string, other: Score)
    requires DistinctIds(rows) && other in rows && Recoverable(site, other, base)
    ensures
      var best := ForRecovery(site, rows, base);
      best.Some? && (best.value == other || Before(site, other, best.value))
  {
    var row, init := rows[|rows| - 1], rows[..|rows| - 1];
    if other in init {
      PicksTheLast(site, init, base, other);
      var best := ForRecovery(site, init, base).value;
      if Recoverable(site, row, base) && !Before(site, row, best) {
        BeforeIsTotal(site, row, best);
        if best != other {
          BeforeIsTransitive(site, other, best, row);
        }
      }
    } else {
      var best := ForRecovery(site, init, base);
      if best.Some? {
        BeforeIsTotal(site, row, best.value);
      }
    }
  }

  /** Which stored verdict is recovered does not depend on the order the store
      lists its rows in. */
  lemma RecoveryIgnoresListOrder(site: Site, a: seq<Score>, b: seq<Score>, base: string)
    requires DistinctIds(a) && DistinctIds(b) && (forall s :: s in a <==> s in b)
    ensures ForRecovery(site, a, base) == ForRecovery(site, b, base)
  {
    var x, y := ForRecovery(site, a, base), ForRecovery(site, b, base);
    if x.Some? && y.Some? && x != y {
      PicksTheLast(site, a, base, y.value);
      PicksTheLast(site, b, base, x.value);
      SameIdSameRow(a, x.value, y.value);
      BeforeIsTotal(site, x.value, y.value);
    }
  }

  lemma SameIdSameRow(rows: seq<Score>, a: Score, b: Score)
    requires DistinctIds(rows) && a in rows && b in rows && a != b
    ensures a.id != b.id
  {
  }

  /** The row is the audit this ticket asks for. */
  predicate Settles(t: Q.Ticket, owner: string, repo: string, row: Score) {
    && t.owner == owner && t.repo == repo && t.head == row.commit
    && t.branch == row.branch && AuditedBase(row) == Some(t.base)
  }

  /** Drop the open ticket a recovered verdict settles, if it is the same audit. */
  function Retire(f: Forge, owner: string, repo: string, row: Score): Forge {
    if exists i :: 0 <= i < |f.tickets| && Settles(f.tickets[i], owner, repo, row)
    then f.(tickets := Q.Taken(f.tickets, Q.HeadKey(owner, repo, row.commit)).0)
    else f
  }

  function Republish(site: Site, f: Forge, owner: string, repo: string, row: Score, readable: bool, works: bool)
    : Forge
  {
    var stored := StoredProof(row, site.governed);
    if stored.None? then f
    else
      var p := VerdictProof(site, stored.value.0, stored.value.1, owner, repo);
      if AlreadyPosted(f, p, readable) then Retire(f, owner, repo, row)
      else if works then Retire(Post(f, p, true), owner, repo, row)
      else f
  }

  // ---- A push ----

  datatype RefUpdate = RefUpdate(refName: string, oldOid: string, newOid: string)

  datatype Preference = On | Off | Unreadable

  /** What the planner reads outside the stores, and which calls fail; `rereadable`
      is whether the checks can be read once more before a verdict is republished. */
  datatype Env = Env(
    openPullBase: Option<string>, preference: Preference, proofRequired: bool, mergeBase: Option<string>,
    receipts: set<nat>, scoresReadable: bool, checksReadable: bool, queueAvailable: bool, rereadable: bool,
    postWorks: bool)

  datatype PushAudit =
    | Skipped
    | AlreadyCovered
    | ProofUnpublished(row: Score)
    | Unqueued
    | Queued(ticket: Q.Ticket)

  predicate StartsWith(s: string, prefix: string) {
    prefix <= s
  }

  function LastSlash(s: string): (at: Option<nat>)
    ensures at.Some? ==> at.value < |s| && s[at.value] == '/'
  {
    if s == [] then None
    else if s[|s| - 1] == '/' then Some(|s| - 1)
    else LastSlash(s[..|s| - 1])
  }

  function Decimal(s: string): Option<nat> {
    if s == [] then Some(0)
    else
      var init, c := Decimal(s[..|s| - 1]), s[|s| - 1];
      if init.Some? && '0' <= c <= '9' then Some(init.value * 10 + (c - '0') as int) else None
  }

  /** `str::parse::<u64>().is_ok()`. */
  predicate ParsesAsU64(s: string) {
    var digits := if s != [] && s[0] == '+' then s[1..] else s;
    var n := Decimal(digits);
    digits != [] && n.Some? && n.value < 0x1_0000_0000_0000_0000
  }

  /** The base branch named by a `refs/queue/<base>/<number>` ref. */
  function QueueBase(refName: string): Option<string> {
    if !StartsWith(refName, Q.QUEUE_PREFIX) then None
    else
      var name := refName[|Q.QUEUE_PREFIX|..];
      var at := LastSlash(name);
      if at.None? || !ParsesAsU64(name[at.value + 1..]) then None else Some(name[..at.value])
  }

  const HEADS_PREFIX := "refs/heads/"

  predicate UnauditedBranch(branch: string) {
    || branch in ["import", "preserve", "archive", "archives"]
    || StartsWith(branch, "import/") || StartsWith(branch, "preserve/") || StartsWith(branch, "archive/")
    || StartsWith(branch, "archives/") || StartsWith(branch, "bot/") || StartsWith(branch, "auto/")
  }

  predicate SkippedBranch(branch: string, openPull: bool) {
    UnauditedBranch(branch) || (branch != "main" && !openPull)
  }

  /** The ticket a pushed head asks for, or nothing when its class is not audited. */
  function Wanted(owner: string, repo: string, update: RefUpdate, env: Env, now: int): Option<Q.Ticket> {
    var queue := QueueBase(update.refName);
    if queue.None? && !StartsWith(update.refName, HEADS_PREFIX) then None
    else
      var branch := if queue.Some? then update.refName else update.refName[|HEADS_PREFIX|..];
      if queue.None? && SkippedBranch(branch, env.openPullBase.Some?) then None
      else if env.preference.Off? && !env.proofRequired then None
      else
        var base :=
          if queue.None? && branch == "main"
          then (if update.oldOid != ZERO_OID then Some(update.oldOid) else None)
          else env.mergeBase;
        Some(Q.Ticket(owner, repo, branch, update.newOid,
                      if base.Some? then base.value else NO_COMMIT_BASE,
                      if base.Some? then Q.DiffAudit else Q.FullAudit, now, None, None))
  }

  /** Scores that count for this push: all of the head's, or the receipted ones of a queue ref. */
  function Evidence(f: Forge, owner: string, repo: string, update: RefUpdate, env: Env): seq<Score> {
    var all := if env.scoresReadable then ScoresOf(f.scores, owner, repo, update.newOid) else [];
    if QueueBase(update.refName).Some? then Trusted(all, env.receipts) else all
  }

  predicate Published(f: Forge, owner: string, repo: string, update: RefUpdate, env: Env) {
    QueueBase(update.refName).None?
    || (env.checksReadable
        && var newest := Newest(f.proofs, owner, repo, update.newOid);
           newest.Some? && newest.value.status.Completed?)
  }

  /** Put the ticket on the queue and say what came of it. */
  function Ask(f: Forge, ticket: Q.Ticket, now: int): (Forge, PushAudit) {
    var (tickets, outcome) := Q.Enqueued(f.tickets, ticket, now);
    (f.(tickets := tickets),
     match outcome
     case AlreadyQueued => AlreadyCovered
     case Full => Unqueued
     case _ => PushAudit.Queued(ticket))
  }

  /** The plan once the ticket, the scores that count and the state of the proof are known. */
  function Decide(site: Site, f: Forge, queueRef: bool, ticket: Q.Ticket, rows: seq<Score>, published: bool,
                  queueAvailable: bool, now: int): (Forge, PushAudit)
  {
    var covered := exists s :: s in rows && (!queueRef || AuditedBase(s) == Some(ticket.base));
    var best := ForRecovery(site, rows, ticket.base);
    if covered && published then
      (if queueRef && best.Some? then Retire(f, ticket.owner, ticket.repo, best.value) else f, AlreadyCovered)
    else if !published && best.Some? then (f, ProofUnpublished(best.value))
    else if !queueAvailable then (f, Unqueued)
    else Ask(f, ticket, now)
  }

  function Plan(site: Site, f: Forge, owner: string, repo: string, update: RefUpdate, env: Env, now: int)
    : (Forge, PushAudit)
  {
    var wanted := Wanted(owner, repo, update, env, now);
    if wanted.None? then (f, Skipped)
    else
      Decide(site, f, QueueBase(update.refName).Some?, wanted.value, Evidence(f, owner, repo, update, env),
             Published(f, owner, repo, update, env), env.queueAvailable, now)
  }

  function Pending(site: Site, owner: string, repo: string, head: string, output: (string, string)): Proof {
    Proof(owner, repo, head, InProgress, None, site.link(owner, repo, head), Some(output))
  }

  /** `queue_head_audit`; `output` is the wording of the pending check. */
  function QueueHead(site: Site, f: Forge, owner: string, repo: string, update: RefUpdate, env: Env,
                     output: (string, string), now: int): (Forge, bool)
  {
    if update.newOid == ZERO_OID then (f, false)
    else
      var (f', audit) := Plan(site, f, owner, repo, update, env, now);
      match audit
      case Skipped => (f', false)
      case AlreadyCovered => (f', false)
      case ProofUnpublished(row) => (Republish(site, f', owner, repo, row, env.rereadable, env.postWorks), false)
      case Unqueued => (Post(f', Pending(site, owner, repo, update.newOid, output), env.postWorks), false)
      case Queued(_) => (Post(f', Pending(site, owner, repo, update.newOid, output), env.postWorks), true)
  }

  // ---- A report ----

  datatype Submission = Submission(
    branch: string, commit: string, provenance: Provenance, report: Option<JsonValue.Json>, exit: int)

  /** No receipt, or a SHA-256 in hexadecimal digits. */
  predicate ReceiptFits(receipt: Option<string>) {
    receipt.Some? ==> |receipt.value| == 64 && forall i :: 0 <= i < 64 ==> IsHexDigit(receipt.value[i])
  }

  predicate Submittable(site: Site, p: Provenance) {
    p.Acceptable(site.governed) && ReceiptFits(p.receipt)
  }

  /** A submission may consume this ticket: same head, branch and base, an audit
      at least as wide, acceptable provenance and a well-formed receipt. */
  predicate Authorized(site: Site, s: Submission, t: Q.Ticket, owner: string, repo: string) {
    && Submittable(site, s.provenance) && IsObjectId(s.commit)
    && t.owner == owner && t.repo == repo && t.head == s.commit
    && t.branch == s.branch && t.base == s.provenance.base
    && (t.mode.FullAudit? ==> s.provenance.mode == "full")
  }

  /** How the store takes a row: beside the earlier ones of its branch and
      commit, or in their place. */
  function Store(rows: seq<Score>, row: Score, overwrites: bool): (r: seq<Score>)
    ensures row in r
    ensures forall s :: s in r && s != row ==> s in rows
    ensures !overwrites ==> forall s :: s in rows ==> s in r
    ensures forall s :: s in rows && !SameSlot(s, row) ==> s in r
    ensures overwrites ==> forall s :: s in r && SameSlot(s, row) ==> s == row
  {
    (if overwrites then OtherSlots(rows, row) else rows) + [row]
  }

  predicate SameSlot(a: Score, b: Score) {
    a.owner == b.owner && a.repo == b.repo && a.branch == b.branch && a.commit == b.commit
  }

  function OtherSlots(rows: seq<Score>, row: Score): (r: seq<Score>)
    ensures forall s :: s in r <==> s in rows && !SameSlot(s, row)
  {
    if rows == [] then []
    else if SameSlot(rows[0], row) then OtherSlots(rows[1..], row)
    else [rows[0]] + OtherSlots(rows[1..], row)
  }

  /** What the store and the check service do with one report. */
  datatype Writes = Writes(id: nat, recordWorks: bool, overwrites: bool, checksReadable: bool, postWorks: bool)

  /** Judge, record, then complete the proof; the ticket is already taken. */
  function Record(site: Site, f: Forge, owner: string, repo: string, branch: string, head: string,
                  report: Option<JsonValue.Json>, exit: int, writes: Writes, now: int): Forge
  {
    var (request, pass) := Judge(branch, head, report, exit);
    if !writes.recordWorks then f
    else
      var row := Recorded(request, writes.id, owner, repo, now);
      var f' := f.(scores := Store(f.scores, row, writes.overwrites));
      var p := VerdictProof(site, request, pass, owner, repo);
      if AlreadyPosted(f', p, writes.checksReadable) then f' else Post(f', p, writes.postWorks)
  }

  /** The ingest: the exact ticket must still be open, and is consumed whatever follows. */
  function Report(site: Site, f: Forge, owner: string, repo: string, s: Submission, t: Q.Ticket,
                  writes: Writes, now: int): Forge
  {
    if t !in f.tickets || !Authorized(site, s, t, owner, repo) then f
    else
      var taken := f.(tickets := Q.Taken(f.tickets, t.Key()).0);
      Record(site, taken, owner, repo, t.branch, t.head, Stamped(s.report, s.provenance), s.exit, writes, now)
  }

  // ---- Restore ----

  /** A pull request of any repository, as the pass over all of them meets it. */
  datatype Pull = Pull(
    owner: string, repo: string, branch: string, head: string, open: bool, env: Env, output: (string, string))

  /** `restore_head_audit` replays the push of an unchanged head. */
  function RestoreHead(site: Site, f: Forge, owner: string, repo: string, branch: string, head: string,
                       env: Env, output: (string, string), now: int): (Forge, bool)
  {
    if !IsObjectId(head) then (f, false)
    else QueueHead(site, f, owner, repo, RefUpdate(HEADS_PREFIX + branch, ZERO_OID, head), env, output, now)
  }

  predicate ProofPending(f: Forge, owner: string, repo: string, head: string) {
    var newest := Newest(f.proofs, owner, repo, head);
    newest.Some? && newest.value.status.InProgress?
  }

  /** The pull request is open, and its head's proof is seen to be pending. */
  predicate Awaits(f: Forge, pull: Pull) {
    pull.open && pull.env.checksReadable && ProofPending(f, pull.owner, pull.repo, pull.head)
  }

  /** One pull request of the pass. */
  function RestorePull(site: Site, f: Forge, pull: Pull, now: int): (Forge, bool) {
    if !Awaits(f, pull) then (f, false)
    else RestoreHead(site, f, pull.owner, pull.repo, pull.branch, pull.head, pull.env, pull.output, now)
  }

  /** A pass over pull requests, one after another, counting what it is told to. */
  function Pass(f: Forge, pulls: seq<Pull>, one: (Forge, Pull) -> (Forge, bool)): (Forge, nat) {
    if pulls == [] then (f, 0)
    else
      var (before, n) := Pass(f, pulls[..|pulls| - 1], one);
      var (after, counts) := one(before, pulls[|pulls| - 1]);
      (after, if counts then n + 1 else n)
  }

  lemma PassNext(f: Forge, pulls: seq<Pull>, pull: Pull, one: (Forge, Pull) -> (Forge, bool))
    ensures
      var (before, n) := Pass(f, pulls, one);
      var (after, counts) := one(before, pull);
      Pass(f, pulls + [pull], one) == (after, if counts then n + 1 else n)
  {
    assert (pulls + [pull])[..|pulls|] == pulls;
  }

  function OnePull(site: Site, now: int): (Forge, Pull) -> (Forge, bool) {
    (f, pull) => RestorePull(site, f, pull, now)
  }

  /** `restore_pending_audits`, and how many tickets it recorded. */
  function RestorePending(site: Site, f: Forge, pulls: seq<Pull>, now: int): (Forge, nat) {
    Pass(f, pulls, OnePull(site, now))
  }

  // ---- Steps and runs ----

  datatype Step =
    | Push(owner: string, repo: string, update: RefUpdate, env: Env, output: (string, string), now: int)
    | Claim(runner: string, max: nat, now: int)
    | Submit(owner: string, repo: string, submission: Submission, ticket: Q.Ticket, writes: Writes, now: int)
    | Backfill(owner: string, repo: string, request: Request, writes: Writes, now: int)
    | Restart
    | Restore(pulls: seq<Pull>, now: int)

  function Next(site: Site, f: Forge, step: Step): Forge {
    match step
    case Push(owner, repo, update, env, output, now) => QueueHead(site, f, owner, repo, update, env, output, now).0
    case Claim(runner, max, now) => f.(tickets := Q.Claimed(f.tickets, runner, max, now).0)
    case Submit(owner, repo, s, t, writes, now) => Report(site, f, owner, repo, s, t, writes, now)
    case Backfill(owner, repo, request, writes, now) =>
      // Only the runner ingest may stamp provenance.
      if !writes.recordWorks
         || (request.report.Some? && JsonValue.Get(request.report.value, PROVENANCE).Some?) then f
      else f.(scores := Store(f.scores, Recorded(request, writes.id, owner, repo, now), writes.overwrites))
    case Restart => f.(tickets := [])
    case Restore(pulls, now) => RestorePending(site, f, pulls, now).0
  }

  function After(site: Site, steps: seq<Step>): Forge {
    if steps == [] then Forge([], [], [])
    else Next(site, After(site, steps[..|steps| - 1]), steps[|steps| - 1])
  }
}
