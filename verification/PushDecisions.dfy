/** What a push does about its head, by the rows the store holds: which stored
    verdict is recovered, and when the head is queued, published again or left
    alone. */
module PushDecisions {
  import opened Prelude
  import opened Verdict
  import opened ReportFields
  import opened ProofProtocol
  import opened ProofSafety
  import CanonicalJson
  import JsonValue
  import Lex
  import Q = AuditQueue

  /** A stored verdict that was audited against this base and can be published. */
  ghost predicate Usable(site: Site, row: Score, base: string) {
    && row.decision == "scored" && row.report.Some? && Governing(row.report.value, site.governed)
    && KeepsItsReport(row, row.report.value) && Against(row, base)
  }

  /** The stamp in the row's report names this base. */
  ghost predicate Against(row: Score, base: string) {
    row.report.Some? && exists stamp ::
      JsonValue.Holds(row.report.value, "jeryu_audit_provenance", stamp)
      && JsonValue.Holds(stamp, "base_sha", JsonValue.Str(base))
  }

  lemma UsableExactly(site: Site, row: Score, base: string)
    ensures Usable(site, row, base) <==> Recoverable(site, row, base)
    ensures Usable(site, row, base) ==> (Passes(site, row) <==> Clears(row.report.value))
    ensures Against(row, base) <==> AuditedBase(row) == Some(base)
  {
    BaseExactly(row, base);
    RecoversExactlyWhen(row, site.governed);
  }

  /** `best` is newer than `other`; or as new, and fails where `other` does; then
      by branch and by id. */
  ghost predicate AtLeastAsNew(best: Score, other: Score)
    requires best.report.Some? && other.report.Some?
  {
    var fails, otherFails := !Clears(best.report.value), !Clears(other.report.value);
    && best.createdAt >= other.createdAt
    && (best.createdAt == other.createdAt && otherFails ==> fails)
    && (best.createdAt == other.createdAt && otherFails == fails ==> !Lex.Below(best.branch, other.branch))
    && (best.createdAt == other.createdAt && otherFails == fails && best.branch == other.branch ==>
          best.id >= other.id)
  }

  /** Main result: of the stored verdicts of a base, the newest is recovered, and
      at one instant a failing one before a passing one. */
  lemma RecoversTheNewest(site: Site, rows: seq<Score>, base: string)
    requires DistinctIds(rows)
    ensures
      var best := ForRecovery(site, rows, base);
      && (best.Some? <==> exists row :: row in rows && Usable(site, row, base))
      && (best.Some? ==> best.value in rows && Usable(site, best.value, base))
      && (best.Some? ==> forall other :: other in rows && Usable(site, other, base) ==>
            AtLeastAsNew(best.value, other))
  {
    var best := ForRecovery(site, rows, base);
    forall row | row in rows ensures Usable(site, row, base) <==> Recoverable(site, row, base) {
      UsableExactly(site, row, base);
    }
    if best.Some? {
      forall other | other in rows && Usable(site, other, base) ensures AtLeastAsNew(best.value, other) {
        NoneIsNewer(site, rows, base, other);
      }
    }
  }

  lemma NoneIsNewer(site: Site, rows: seq<Score>, base: string, other: Score)
    requires DistinctIds(rows) && other in rows && Usable(site, other, base)
    ensures
      var best := ForRecovery(site, rows, base);
      best.Some? && best.value.report.Some? && AtLeastAsNew(best.value, other)
  {
    UsableExactly(site, other, base);
    PicksTheLast(site, rows, base, other);
    var best := ForRecovery(site, rows, base).value;
    UsableExactly(site, best, base);
    Lex.LessIsBelow(best.branch, other.branch);
    if best == other && Lex.Less(best.branch, other.branch) {
      Lex.Asymmetric(best.branch, other.branch);
    } else if Lex.Less(other.branch, best.branch) {
      Lex.Asymmetric(other.branch, best.branch);
    }
  }

  // ---- Which head asks for what ----

  predicate AllDigits(s: string) {
    forall i :: 0 <= i < |s| ==> '0' <= s[i] <= '9'
  }

  lemma {:induction false} DecimalExactly(s: string)
    ensures Decimal(s) == if AllDigits(s) then Some(CanonicalJson.ReadDigits(s)) else None
  {
    if s != [] {
      DecimalExactly(s[..|s| - 1]);
      assert s == s[..|s| - 1] + [s[|s| - 1]];
    }
  }

  /** Digits, behind at most one plus sign, of a number of 64 bits. */
  ghost predicate IsU64(s: string) {
    exists digits :: (s == digits || s == "+" + digits) && digits != [] && AllDigits(digits)
      && CanonicalJson.ReadDigits(digits) <= 0xffff_ffff_ffff_ffff
  }

  lemma U64Exactly(s: string)
    ensures ParsesAsU64(s) <==> IsU64(s)
  {
    var digits := if s != [] && s[0] == '+' then s[1..] else s;
    DecimalExactly(digits);
    assert s == digits || s == "+" + digits;
    if d :| (s == d || s == "+" + d) && d != [] && AllDigits(d) {
      assert d == digits;
    }
  }

  /** A queue ref of this base branch. */
  ghost predicate IsQueueRef(refName: string, base: string) {
    exists number :: refName == "refs/queue/" + base + "/" + number && IsU64(number)
  }

  lemma NoSlash(s: string)
    requires IsU64(s)
    ensures '/' !in s
  {
  }

  lemma {:induction false} LastSlashExactly(s: string, rest: string)
    requires '/' !in rest
    ensures LastSlash(s + "/" + rest) == Some(|s|)
  {
    var all := s + "/" + rest;
    if rest == [] {
      assert all[|all| - 1] == '/';
    } else {
      var init := rest[..|rest| - 1];
      assert all[..|all| - 1] == s + "/" + init;
      assert all[|all| - 1] == rest[|rest| - 1];
      LastSlashExactly(s, init);
    }
  }

  /** The base that a name behind the prefix stands for. */
  lemma NameReads(base: string, number: string)
    requires IsU64(number)
    ensures
      var name := base + "/" + number;
      LastSlash(name) == Some(|base|) && name[|base| + 1..] == number && name[..|base|] == base && ParsesAsU64(number)
  {
    NoSlash(number);
    LastSlashExactly(base, number);
    U64Exactly(number);
  }

  lemma BehindPrefix(base: string, number: string, refName: string)
    requires refName == "refs/queue/" + base + "/" + number
    ensures Q.QUEUE_PREFIX <= refName && refName[|Q.QUEUE_PREFIX|..] == base + "/" + number
  {
    assert refName[|Q.QUEUE_PREFIX|..] == base + "/" + number;
  }

  lemma QueueRefReads(base: string, number: string, refName: string)
    requires IsU64(number) && refName == "refs/queue/" + base + "/" + number
    ensures QueueBase(refName) == Some(base)
  {
    BehindPrefix(base, number, refName);
    NameReads(base, number);
  }

  lemma SplitAt(s: string, at: nat)
    requires at < |s| && s[at] == '/'
    ensures s == s[..at] + "/" + s[at + 1..]
  {
  }

  lemma JoinPrefix(refName: string, name: string, base: string, number: string)
    requires Q.QUEUE_PREFIX <= refName && name == refName[|Q.QUEUE_PREFIX|..] && name == base + "/" + number
    ensures refName == "refs/queue/" + base + "/" + number
  {
    assert refName == Q.QUEUE_PREFIX + name;
  }

  lemma ReadsAsQueueRef(refName: string)
    requires QueueBase(refName).Some?
    ensures IsQueueRef(refName, QueueBase(refName).value)
  {
    var name := refName[|Q.QUEUE_PREFIX|..];
    var at := LastSlash(name).value;
    var base, number := name[..at], name[at + 1..];
    SplitAt(name, at);
    U64Exactly(number);
    JoinPrefix(refName, name, base, number);
  }

  lemma QueueBaseExactly(refName: string, base: string)
    ensures QueueBase(refName) == Some(base) <==> IsQueueRef(refName, base)
  {
    if number :| refName == "refs/queue/" + base + "/" + number && IsU64(number) {
      QueueRefReads(base, number, refName);
    }
    if QueueBase(refName) == Some(base) {
      ReadsAsQueueRef(refName);
    }
  }

  /** The branch is this name, or below it. */
  predicate IsOrUnder(branch: string, name: string) {
    branch == name || name + "/" <= branch
  }

  /** Nobody audits this branch. */
  predicate Unaudited(branch: string, openPull: bool) {
    || (exists name :: name in ["import", "preserve", "archive", "archives"] && IsOrUnder(branch, name))
    || "bot/" <= branch || "auto/" <= branch
    || !(branch == "main" || openPull)
  }

  lemma SkippedExactly(branch: string, openPull: bool)
    ensures SkippedBranch(branch, openPull) <==> Unaudited(branch, openPull)
  {
    var names := ["import", "preserve", "archive", "archives"];
    assert names[0] in names && names[1] in names && names[2] in names && names[3] in names;
    assert "import" + "/" == "import/" && "preserve" + "/" == "preserve/";
    assert "archive" + "/" == "archive/" && "archives" + "/" == "archives/";
  }

  /** The repository has turned the audit off, and nothing requires it. */
  predicate Declined(env: Env) {
    env.preference == Off && !env.proofRequired
  }

  /** The ticket for a head against `base`, or against nothing. */
  predicate AsksFor(t: Q.Ticket, owner: string, repo: string, branch: string, head: string, base: Option<string>,
                    now: int)
  {
    && t.owner == owner && t.repo == repo && t.branch == branch && t.head == head && t.enqueuedAt == now
    && t.claimedBy.None? && t.claimedAt.None?
    && (if base.Some? then t.base == base.value && t.mode == Q.DiffAudit
        else t.base == "4b825dc642cb6eb9a060e54bf8d69288fbee4904" && t.mode == Q.FullAudit)
  }

  lemma QueueRefWants(owner: string, repo: string, update: RefUpdate, env: Env, now: int, base: string)
    requires IsQueueRef(update.refName, base)
    ensures
      var wanted := Wanted(owner, repo, update, env, now);
      if Declined(env) then wanted.None?
      else wanted.Some? && AsksFor(wanted.value, owner, repo, update.refName, update.newOid, env.mergeBase, now)
  {
    QueueBaseExactly(update.refName, base);
  }

  /** Main result: which ticket a pushed branch asks for. `main` is audited against
      what it was before, every other branch against its merge base. */
  lemma BranchWants(owner: string, repo: string, update: RefUpdate, env: Env, now: int, branch: string)
    requires update.refName == "refs/heads/" + branch
    ensures
      var wanted := Wanted(owner, repo, update, env, now);
      if Unaudited(branch, env.openPullBase.Some?) || Declined(env) then wanted.None?
      else
        var base := if branch != "main" then env.mergeBase
                    else if update.oldOid == "0000000000000000000000000000000000000000" then None
                    else Some(update.oldOid);
        wanted.Some? && AsksFor(wanted.value, owner, repo, branch, update.newOid, base, now)
  {
    BranchIsNoQueueRef(branch);
    SkippedExactly(branch, env.openPullBase.Some?);
    assert update.refName[|HEADS_PREFIX|..] == branch;
  }

  lemma OtherRefsWantNothing(owner: string, repo: string, update: RefUpdate, env: Env, now: int)
    requires !("refs/heads/" <= update.refName) && forall base :: !IsQueueRef(update.refName, base)
    ensures Wanted(owner, repo, update, env, now).None?
  {
    if QueueBase(update.refName).Some? {
      QueueBaseExactly(update.refName, QueueBase(update.refName).value);
    }
  }

  // ---- What is done about it ----

  /** The push sees this row of its head; a queue ref only with a receipt. */
  predicate Sees(f: Forge, owner: string, repo: string, update: RefUpdate, env: Env, queueRef: bool, row: Score) {
    && env.scoresReadable && row in f.scores
    && row.owner == owner && row.repo == repo && row.commit == update.newOid
    && (queueRef ==> row.id in env.receipts)
  }

  lemma EvidenceExactly(f: Forge, owner: string, repo: string, update: RefUpdate, env: Env)
    ensures forall row :: row in Evidence(f, owner, repo, update, env) <==>
                          Sees(f, owner, repo, update, env, QueueBase(update.refName).Some?, row)
  {
  }

  /** The proof at `i` is the last one posted for the head. */
  predicate LastAt(proofs: seq<Proof>, owner: string, repo: string, head: string, i: nat) {
    && i < |proofs| && About(proofs[i], owner, repo, head)
    && forall j :: i < j < |proofs| ==> !About(proofs[j], owner, repo, head)
  }

  lemma {:induction false} NewestExactly(proofs: seq<Proof>, owner: string, repo: string, head: string)
    ensures
      var newest := Newest(proofs, owner, repo, head);
      && (newest.None? ==> forall i :: 0 <= i < |proofs| ==> !About(proofs[i], owner, repo, head))
      && (newest.Some? ==> exists i: nat :: LastAt(proofs, owner, repo, head, i) && proofs[i] == newest.value)
  {
    if proofs != [] {
      var n := |proofs| - 1;
      if About(proofs[n], owner, repo, head) {
        assert LastAt(proofs, owner, repo, head, n);
      } else {
        NewestExactly(proofs[..n], owner, repo, head);
        if i: nat :| LastAt(proofs[..n], owner, repo, head, i) && proofs[i] == Newest(proofs, owner, repo, head).value {
          assert LastAt(proofs, owner, repo, head, i);
        }
      }
    }
  }

  /** The head's proof is seen to be complete. */
  ghost predicate SeenComplete(f: Forge, owner: string, repo: string, update: RefUpdate, env: Env) {
    && env.checksReadable
    && exists i: nat :: LastAt(f.proofs, owner, repo, update.newOid, i) && f.proofs[i].status == Completed
  }

  lemma PublishedExactly(f: Forge, owner: string, repo: string, update: RefUpdate, env: Env)
    requires QueueBase(update.refName).Some?
    ensures Published(f, owner, repo, update, env) <==> SeenComplete(f, owner, repo, update, env)
  {
    NewestExactly(f.proofs, owner, repo, update.newOid);
    var newest := Newest(f.proofs, owner, repo, update.newOid);
    if i: nat :| LastAt(f.proofs, owner, repo, update.newOid, i) && newest.Some? {
      var k: nat :| LastAt(f.proofs, owner, repo, update.newOid, k) && f.proofs[k] == newest.value;
      assert i == k;
    }
  }

  lemma {:induction false} FilteredIds(rows: seq<Score>, owner: string, repo: string, head: string)
    requires DistinctIds(rows)
    ensures DistinctIds(ScoresOf(rows, owner, repo, head))
  {
    if rows != [] {
      FilteredIds(rows[1..], owner, repo, head);
      var rest := ScoresOf(rows[1..], owner, repo, head);
      forall i | 0 <= i < |rest| ensures rest[i].id != rows[0].id {
        assert rest[i] in rows[1..];
      }
    }
  }

  lemma {:induction false} TrustedIds(rows: seq<Score>, receipts: set<nat>)
    requires DistinctIds(rows)
    ensures DistinctIds(Trusted(rows, receipts))
  {
    if rows != [] {
      TrustedIds(rows[1..], receipts);
      var rest := Trusted(rows[1..], receipts);
      forall i | 0 <= i < |rest| ensures rest[i].id != rows[0].id {
        assert rest[i] in rows[1..];
      }
    }
  }

  lemma EvidenceIds(f: Forge, owner: string, repo: string, update: RefUpdate, env: Env)
    requires DistinctIds(f.scores)
    ensures DistinctIds(Evidence(f, owner, repo, update, env))
  {
    FilteredIds(f.scores, owner, repo, update.newOid);
    if env.scoresReadable && QueueBase(update.refName).Some? {
      TrustedIds(ScoresOf(f.scores, owner, repo, update.newOid), env.receipts);
    }
  }

  /** The ticket goes to the queue, when that can be reached. */
  predicate Asked(f: Forge, f': Forge, audit: PushAudit, t: Q.Ticket, env: Env, now: int) {
    (f', audit) == if env.queueAvailable then Ask(f, t, now) else (f, Unqueued)
  }

  /** One of the rows is of this base. */
  ghost predicate SomeAgainst(rows: seq<Score>, base: string) {
    exists row :: row in rows && Against(row, base)
  }

  /** `best` is one of the usable rows of this base, and none of them is newer. */
  ghost predicate NewestUsable(site: Site, rows: seq<Score>, base: string, best: Score) {
    && best in rows && Usable(site, best, base)
    && forall other :: other in rows && Usable(site, other, base) ==> AtLeastAsNew(best, other)
  }

  ghost predicate SomeUsable(site: Site, rows: seq<Score>, base: string) {
    exists row :: row in rows && Usable(site, row, base)
  }

  lemma CoveredExactly(rows: seq<Score>, base: string)
    ensures (exists s :: s in rows && AuditedBase(s) == Some(base)) <==> SomeAgainst(rows, base)
  {
    forall row ensures Against(row, base) <==> AuditedBase(row) == Some(base) {
      BaseExactly(row, base);
    }
  }

  /** The head is left alone, but for a ticket of the newest usable row's audit. */
  ghost predicate LeftAlone(site: Site, f: Forge, f': Forge, t: Q.Ticket, rows: seq<Score>, audit: PushAudit) {
    && audit == AlreadyCovered && f'.scores == f.scores && f'.proofs == f.proofs
    && (!SomeUsable(site, rows, t.base) ==> f' == f)
    && (SomeUsable(site, rows, t.base) ==>
          exists best :: NewestUsable(site, rows, t.base, best) && f' == Retire(f, t.owner, t.repo, best))
  }

  lemma DecidesCovered(site: Site, f: Forge, t: Q.Ticket, rows: seq<Score>, available: bool, now: int)
    requires DistinctIds(rows) && SomeAgainst(rows, t.base)
    ensures
      var (f', audit) := Decide(site, f, true, t, rows, true, available, now);
      LeftAlone(site, f, f', t, rows, audit)
  {
    CoveredExactly(rows, t.base);
    RecoversTheNewest(site, rows, t.base);
  }

  lemma DecidesUnpublished(site: Site, f: Forge, t: Q.Ticket, rows: seq<Score>, available: bool, now: int)
    requires ForRecovery(site, rows, t.base).Some?
    ensures Decide(site, f, true, t, rows, false, available, now) ==
            (f, ProofUnpublished(ForRecovery(site, rows, t.base).value))
  {
  }

  lemma DecidesToAsk(site: Site, f: Forge, t: Q.Ticket, rows: seq<Score>, complete: bool, available: bool, now: int)
    requires if complete then !SomeAgainst(rows, t.base) else ForRecovery(site, rows, t.base).None?
    ensures Decide(site, f, true, t, rows, complete, available, now) ==
            if available then Ask(f, t, now) else (f, Unqueued)
  {
    CoveredExactly(rows, t.base);
  }

  lemma DecidesExactly(site: Site, f: Forge, t: Q.Ticket, rows: seq<Score>, complete: bool, env: Env, now: int)
    requires DistinctIds(rows)
    ensures
      var (f', audit) := Decide(site, f, true, t, rows, complete, env.queueAvailable, now);
      if complete && SomeAgainst(rows, t.base)
      then LeftAlone(site, f, f', t, rows, audit)
      else if !complete && SomeUsable(site, rows, t.base)
      then f' == f && audit.ProofUnpublished? && NewestUsable(site, rows, t.base, audit.row)
      else Asked(f, f', audit, t, env, now)
  {
    RecoversTheNewest(site, rows, t.base);
    if complete && SomeAgainst(rows, t.base) {
      DecidesCovered(site, f, t, rows, env.queueAvailable, now);
    } else if !complete && SomeUsable(site, rows, t.base) {
      DecidesUnpublished(site, f, t, rows, env.queueAvailable, now);
    } else {
      DecidesToAsk(site, f, t, rows, complete, env.queueAvailable, now);
    }
  }

  /** Main result: what a push of a queue ref does, by the rows of the base it is
      now audited against. A complete proof and such a row leave the head alone; an
      incomplete one is published again from the newest usable row of that base;
      everything else asks for an audit. */
  lemma QueuePushDecides(site: Site, f: Forge, owner: string, repo: string, update: RefUpdate, env: Env, now: int,
                         t: Q.Ticket, rows: seq<Score>)
    requires DistinctIds(f.scores) && QueueBase(update.refName).Some?
    requires Wanted(owner, repo, update, env, now) == Some(t)
    requires forall row :: row in rows <==> Sees(f, owner, repo, update, env, true, row)
    ensures
      var (f', audit) := Plan(site, f, owner, repo, update, env, now);
      var complete := SeenComplete(f, owner, repo, update, env);
      if complete && SomeAgainst(rows, t.base)
      then LeftAlone(site, f, f', t, rows, audit)
      else if !complete && SomeUsable(site, rows, t.base)
      then f' == f && audit.ProofUnpublished? && NewestUsable(site, rows, t.base, audit.row)
      else Asked(f, f', audit, t, env, now)
  {
    var seen := Evidence(f, owner, repo, update, env);
    EvidenceExactly(f, owner, repo, update, env);
    EvidenceIds(f, owner, repo, update, env);
    PublishedExactly(f, owner, repo, update, env);
    DecidesExactly(site, f, t, seen, SeenComplete(f, owner, repo, update, env), env, now);
    SameRows(site, seen, rows, t.base);
  }

  lemma SameRows(site: Site, a: seq<Score>, b: seq<Score>, base: string)
    requires forall row :: row in a <==> row in b
    ensures SomeAgainst(a, base) <==> SomeAgainst(b, base)
    ensures SomeUsable(site, a, base) <==> SomeUsable(site, b, base)
    ensures forall best :: NewestUsable(site, a, base, best) <==> NewestUsable(site, b, base, best)
  {
  }

  /** Main result: a pushed branch is left alone if any row of its head is seen,
      whatever its proof, and asks for an audit otherwise. */
  lemma BranchPushDecides(site: Site, f: Forge, owner: string, repo: string, update: RefUpdate, env: Env, now: int,
                          t: Q.Ticket)
    requires QueueBase(update.refName).None? && Wanted(owner, repo, update, env, now) == Some(t)
    ensures
      var (f', audit) := Plan(site, f, owner, repo, update, env, now);
      if exists row :: Sees(f, owner, repo, update, env, false, row) then f' == f && audit == AlreadyCovered
      else Asked(f, f', audit, t, env, now)
  {
    EvidenceExactly(f, owner, repo, update, env);
    var rows := Evidence(f, owner, repo, update, env);
    assert rows != [] ==> rows[0] in rows;
  }

  // ---- What is posted ----

  /** The completed proof of a stored verdict: green exactly when its report clears the head. */
  ghost predicate Publishes(site: Site, p: Proof, row: Score, owner: string, repo: string) {
    && About(p, owner, repo, row.commit) && p.status == Completed && row.report.Some?
    && p.conclusion == Some(if Clears(row.report.value) then Success else Failure)
    && p.url == site.link(owner, repo, row.commit)
    && p.output == Some(site.wording(
         Request(row.branch, row.commit, row.score, Some(row.hardFindings), "scored", row.caps, row.report, None),
         Clears(row.report.value)))
  }

  /** The last proof posted for its head is `p`. */
  ghost predicate Current(f: Forge, p: Proof) {
    exists i: nat :: LastAt(f.proofs, p.owner, p.repo, p.head, i) && f.proofs[i] == p
  }

  lemma CurrentExactly(f: Forge, p: Proof)
    ensures Newest(f.proofs, p.owner, p.repo, p.head) == Some(p) <==> Current(f, p)
  {
    NewestExactly(f.proofs, p.owner, p.repo, p.head);
    var newest := Newest(f.proofs, p.owner, p.repo, p.head);
    if i: nat :| LastAt(f.proofs, p.owner, p.repo, p.head, i) && f.proofs[i] == p {
      assert newest.Some?;
      var k: nat :| LastAt(f.proofs, p.owner, p.repo, p.head, k) && f.proofs[k] == newest.value;
      assert i == k;
    }
  }

  lemma RepublishPosts(site: Site, f: Forge, owner: string, repo: string, row: Score, base: string, readable: bool,
                       works: bool) returns (p: Proof)
    requires Usable(site, row, base)
    ensures Publishes(site, p, row, owner, repo)
    ensures
      var f' := Republish(site, f, owner, repo, row, readable, works);
      && f'.scores == f.scores
      && f'.proofs == (if works && !(readable && Current(f, p)) then f.proofs + [p] else f.proofs)
      && f'.tickets == if works || (readable && Current(f, p)) then Retire(f, owner, repo, row).tickets else f.tickets
  {
    RecoversExactlyWhen(row, site.governed);
    var stored := StoredProof(row, site.governed).value;
    p := VerdictProof(site, stored.0, stored.1, owner, repo);
    CurrentExactly(f, p);
  }

  lemma RepublishedHead(site: Site, f: Forge, owner: string, repo: string, update: RefUpdate, env: Env,
                        output: (string, string), now: int, row: Score)
    requires update.newOid != ZERO_OID
    requires Plan(site, f, owner, repo, update, env, now) == (f, ProofUnpublished(row))
    ensures QueueHead(site, f, owner, repo, update, env, output, now) ==
            (Republish(site, f, owner, repo, row, env.rereadable, env.postWorks), false)
  {
  }

  /** The verdict a push of a queue ref finds to publish. */
  lemma FindsTheNewest(site: Site, f: Forge, owner: string, repo: string, update: RefUpdate, env: Env, now: int,
                       t: Q.Ticket, rows: seq<Score>) returns (best: Score)
    requires DistinctIds(f.scores) && QueueBase(update.refName).Some?
    requires Wanted(owner, repo, update, env, now) == Some(t)
    requires forall row :: row in rows <==> Sees(f, owner, repo, update, env, true, row)
    requires !SeenComplete(f, owner, repo, update, env) && SomeUsable(site, rows, t.base)
    ensures NewestUsable(site, rows, t.base, best)
    ensures Plan(site, f, owner, repo, update, env, now) == (f, ProofUnpublished(best))
  {
    QueuePushDecides(site, f, owner, repo, update, env, now, t, rows);
    best := Plan(site, f, owner, repo, update, env, now).1.row;
  }

  /** Main result: while the proof of a queue ref's head is not seen complete, a
      push publishes the newest usable verdict of the ticket's base, green or red,
      unless it already stands or the post fails, and queues nothing. */
  lemma PublishesTheNewest(site: Site, f: Forge, owner: string, repo: string, update: RefUpdate, env: Env,
                           output: (string, string), now: int, t: Q.Ticket, rows: seq<Score>)
    returns (best: Score, p: Proof)
    requires DistinctIds(f.scores) && QueueBase(update.refName).Some? && update.newOid != ZERO_OID
    requires Wanted(owner, repo, update, env, now) == Some(t)
    requires forall row :: row in rows <==> Sees(f, owner, repo, update, env, true, row)
    requires !SeenComplete(f, owner, repo, update, env) && SomeUsable(site, rows, t.base)
    ensures NewestUsable(site, rows, t.base, best) && Publishes(site, p, best, owner, repo)
    ensures
      var (f', queued) := QueueHead(site, f, owner, repo, update, env, output, now);
      && !queued && f'.scores == f.scores
      && f'.proofs == (if env.postWorks && !(env.rereadable && Current(f, p)) then f.proofs + [p] else f.proofs)
      && f'.tickets == if env.postWorks || (env.rereadable && Current(f, p))
                       then Retire(f, owner, repo, best).tickets else f.tickets
  {
    best := FindsTheNewest(site, f, owner, repo, update, env, now, t, rows);
    RepublishedHead(site, f, owner, repo, update, env, output, now, best);
    p := RepublishPosts(site, f, owner, repo, best, t.base, env.rereadable, env.postWorks);
  }

  /** The push adds a green proof. */
  predicate AddsGreen(f: Forge, f': Forge) {
    exists p :: p in f'.proofs && p !in f.proofs && Green(p)
  }

  lemma GreenIsNewer(site: Site, f: Forge, f': Forge, best: Score, p: Proof, failed: Score, owner: string, repo: string)
    requires best.report.Some? && failed.report.Some? && AtLeastAsNew(best, failed) && !Clears(failed.report.value)
    requires Publishes(site, p, best, owner, repo) && AddsGreen(f, f')
    requires f'.proofs == f.proofs || f'.proofs == f.proofs + [p]
    ensures Clears(best.report.value) && best.createdAt > failed.createdAt
  {
  }

  lemma CompleteStays(site: Site, f: Forge, owner: string, repo: string, update: RefUpdate, env: Env,
                      output: (string, string), now: int, t: Q.Ticket, rows: seq<Score>)
    requires DistinctIds(f.scores) && QueueBase(update.refName).Some?
    requires Wanted(owner, repo, update, env, now) == Some(t)
    requires forall row :: row in rows <==> Sees(f, owner, repo, update, env, true, row)
    requires SeenComplete(f, owner, repo, update, env)
    ensures !AddsGreen(f, QueueHead(site, f, owner, repo, update, env, output, now).0)
  {
    QueuePushDecides(site, f, owner, repo, update, env, now, t, rows);
    PlanDecidesNothing(site, f, owner, repo, update, env, now);
  }

  /** Main result: a failing verdict of the ticket's base is never overridden by
      one that passed no later: a green proof a push adds comes from a newer row. */
  lemma NewerFailureStands(site: Site, f: Forge, owner: string, repo: string, update: RefUpdate, env: Env,
                           output: (string, string), now: int, t: Q.Ticket, failed: Score)
    requires DistinctIds(f.scores) && QueueBase(update.refName).Some?
    requires Wanted(owner, repo, update, env, now) == Some(t)
    requires Sees(f, owner, repo, update, env, true, failed) && Usable(site, failed, t.base)
    requires !Clears(failed.report.value)
    requires AddsGreen(f, QueueHead(site, f, owner, repo, update, env, output, now).0)
    ensures exists row :: row in f.scores && row.commit == update.newOid && Usable(site, row, t.base)
                          && Clears(row.report.value) && row.createdAt > failed.createdAt
  {
    var f' := QueueHead(site, f, owner, repo, update, env, output, now).0;
    var rows := Evidence(f, owner, repo, update, env);
    EvidenceExactly(f, owner, repo, update, env);
    if SeenComplete(f, owner, repo, update, env) {
      CompleteStays(site, f, owner, repo, update, env, output, now, t, rows);
    } else {
      assert failed in rows;
      var best, p := PublishesTheNewest(site, f, owner, repo, update, env, output, now, t, rows);
      GreenIsNewer(site, f, f', best, p, failed, owner, repo);
    }
  }

  /** The check of a head that waits for its audit. */
  predicate Waiting(site: Site, p: Proof, owner: string, repo: string, head: string, output: (string, string)) {
    && p.url == site.link(owner, repo, head)
    && About(p, owner, repo, head) && p.status == InProgress && p.conclusion.None? && p.output == Some(output)
  }

  /** Main result: a head that is asked for gets a pending check, whether or not
      the queue took it, and the answer says if it did. */
  lemma AskedHeadWaits(site: Site, f: Forge, owner: string, repo: string, update: RefUpdate, env: Env,
                       output: (string, string), now: int, planned: Forge, audit: PushAudit) returns (p: Proof)
    requires update.newOid != ZERO_OID && Plan(site, f, owner, repo, update, env, now) == (planned, audit)
    ensures Waiting(site, p, owner, repo, update.newOid, output)
    ensures
      var (f', queued) := QueueHead(site, f, owner, repo, update, env, output, now);
      && (queued <==> audit.Queued?)
      && (audit.Skipped? || audit.AlreadyCovered? ==> f' == planned)
      && (audit.Queued? || audit.Unqueued? ==>
            f' == planned.(proofs := if env.postWorks then planned.proofs + [p] else planned.proofs))
  {
    p := Pending(site, owner, repo, update.newOid, output);
  }

  /** Main result: the ticket of a recovered verdict's head goes exactly when it
      asks for that very audit. */
  lemma RetiresExactlyWhen(f: Forge, owner: string, repo: string, row: Score, t: Q.Ticket)
    requires Q.Good(f.tickets)
    ensures
      var f' := Retire(f, owner, repo, row);
      && f'.scores == f.scores && f'.proofs == f.proofs
      && (t in f'.tickets <==>
            t in f.tickets && !(t.Key() == Q.HeadKey(owner, repo, row.commit) && t.branch == row.branch
                                && Against(row, t.base)))
  {
    BaseExactly(row, t.base);
    if i :| 0 <= i < |f.tickets| && Settles(f.tickets[i], owner, repo, row) {
      TakenExactly(f.tickets, i, t);
    }
  }

  lemma TakenExactly(ts: seq<Q.Ticket>, i: nat, t: Q.Ticket)
    requires Q.Good(ts) && i < |ts|
    ensures t in Q.Taken(ts, ts[i].Key()).0 <==> t in ts && t.Key() != ts[i].Key()
  {
    var at := Q.IndexOf(ts, ts[i].Key()).value;
    assert at == i;
    if k :| 0 <= k < |ts| && ts[k] == t && k != i {
      assert Q.Without(ts, i)[if k < i then k else k - 1] == t;
    }
    forall k | 0 <= k < |ts| - 1 ensures Q.Without(ts, i)[k] == ts[if k < i then k else k + 1] {
    }
  }
}
