/** The push bridge as the forge runs it: two stores and one queue, changed in
    place. Each operation does to them exactly what the protocol says. */
module Bridge {
  import opened Prelude
  import opened Verdict
  import opened ProofProtocol
  import JsonValue
  import Q = AuditQueue

  /** The pull requests of all repositories that can be listed, in order. */
  function Listed(repositories: seq<Option<seq<Pull>>>): seq<Pull> {
    if repositories == [] then []
    else
      var last := repositories[|repositories| - 1];
      Listed(repositories[..|repositories| - 1]) + if last.Some? then last.value else []
  }

  lemma ListedNext(repositories: seq<Option<seq<Pull>>>, i: nat)
    requires i < |repositories|
    ensures Listed(repositories[..i + 1]) ==
            if repositories[i].Some? then Listed(repositories[..i]) + repositories[i].value
                else Listed(repositories[..i])
  {
    assert repositories[..i + 1][..i] == repositories[..i];
    assert Listed(repositories[..i]) + [] == Listed(repositories[..i]);
  }

  /** The pass over `pulls` takes `start` to `f` and counts `n`. */
  ghost predicate Passed(start: Forge, pulls: seq<Pull>, one: (Forge, Pull) -> (Forge, bool), f: Forge, n: nat) {
    Pass(start, pulls, one) == (f, n)
  }

  lemma PassedNext(start: Forge, pulls: seq<Pull>, one: (Forge, Pull) -> (Forge, bool), f: Forge, n: nat, pull: Pull,
                   f': Forge, counts: bool)
    requires Passed(start, pulls, one, f, n) && one(f, pull) == (f', counts)
    ensures Passed(start, pulls + [pull], one, f', if counts then n + 1 else n)
  {
    PassNext(start, pulls, pull, one);
  }

  class PushBridge {
    const site: Site
    const queue: Q.Queue
    var scores: seq<Score>
    var proofs: seq<Proof>

    constructor (site: Site)
      ensures this.site == site && fresh(queue)
      ensures View() == Forge([], [], [])
    {
      this.site := site;
      queue := new Q.Queue();
      scores, proofs := [], [];
    }

    ghost function View(): Forge
      reads this, queue
    {
      Forge(scores, proofs, queue.tickets)
    }

    method CreateCheckRun(p: Proof, works: bool)
      modifies this
      ensures View() == Post(old(View()), p, works)
    {
      if works {
        proofs := proofs + [p];
      }
    }

    method RetireRecoveredTicket(owner: string, repo: string, row: Score)
      modifies this, queue
      ensures View() == Retire(old(View()), owner, repo, row)
    {
      var i := 0;
      while i < |queue.tickets|
        invariant 0 <= i <= |queue.tickets| && View() == old(View())
        invariant forall j :: 0 <= j < i ==> !Settles(queue.tickets[j], owner, repo, row)
      {
        if Settles(queue.tickets[i], owner, repo, row) {
          var _ := queue.Take(Q.HeadKey(owner, repo, row.commit));
          return;
        }
        i := i + 1;
      }
    }

    /** `proof_already_posted`: checks that cannot be read count as not posted. */
    method ProofAlreadyPosted(p: Proof, readable: bool) returns (posted: bool)
      ensures posted <==> AlreadyPosted(View(), p, readable)
    {
      if !readable {
        return false;
      }
      var newest := Newest(proofs, p.owner, p.repo, p.head);
      posted := newest == Some(p);
    }

    method RepublishRecordedProof(owner: string, repo: string, row: Score, readable: bool, works: bool)
      modifies this, queue
      ensures View() == Republish(site, old(View()), owner, repo, row, readable, works)
    {
      var stored := StoredProof(row, site.governed);
      if stored.None? {
        return;
      }
      var p := VerdictProof(site, stored.value.0, stored.value.1, owner, repo);
      var posted := ProofAlreadyPosted(p, readable);
      if posted {
        RetireRecoveredTicket(owner, repo, row);
        return;
      }
      CreateCheckRun(p, works);
      if works {
        RetireRecoveredTicket(owner, repo, row);
      }
    }

    method PlanPushAudit(owner: string, repo: string, update: RefUpdate, env: Env, now: int) returns (audit: PushAudit)
      modifies this, queue
      ensures (View(), audit) == Plan(site, old(View()), owner, repo, update, env, now)
    {
      var wanted := Wanted(owner, repo, update, env, now);
      if wanted.None? {
        return Skipped;
      }
      var queueRef := QueueBase(update.refName).Some?;
      var all := if env.scoresReadable then ScoresOf(scores, owner, repo, update.newOid) else [];
      var rows := if queueRef then Trusted(all, env.receipts) else all;
      var newest := Newest(proofs, owner, repo, update.newOid);
      var published := !queueRef || (env.checksReadable && newest.Some? && newest.value.status.Completed?);
      audit := DecidePush(queueRef, wanted.value, rows, published, env.queueAvailable, now);
    }

    method DecidePush(queueRef: bool, ticket: Q.Ticket, rows: seq<Score>, published: bool, available: bool, now: int)
      returns (audit: PushAudit)
      modifies this, queue
      ensures (View(), audit) == Decide(site, old(View()), queueRef, ticket, rows, published, available, now)
    {
      var covered := exists s :: s in rows && (!queueRef || AuditedBase(s) == Some(ticket.base));
      var best := ForRecovery(site, rows, ticket.base);
      if covered && published {
        if queueRef && best.Some? {
          RetireRecoveredTicket(ticket.owner, ticket.repo, best.value);
        }
        return AlreadyCovered;
      }
      if !published && best.Some? {
        return ProofUnpublished(best.value);
      }
      if !available {
        return Unqueued;
      }
      var outcome := queue.Enqueue(ticket, now);
      match outcome
      case AlreadyQueued => return AlreadyCovered;
      case Full => return Unqueued;
      case Queued => return PushAudit.Queued(ticket);
      case Superseded(_) => return PushAudit.Queued(ticket);
    }

    method QueueHeadAudit(owner: string, repo: string, update: RefUpdate, env: Env, output: (string, string), now: int)
      returns (queued: bool)
      modifies this, queue
      ensures (View(), queued) == QueueHead(site, old(View()), owner, repo, update, env, output, now)
    {
      if update.newOid == ZERO_OID {
        return false;
      }
      var audit := PlanPushAudit(owner, repo, update, env, now);
      match audit
      case Skipped => return false;
      case AlreadyCovered => return false;
      case ProofUnpublished(row) =>
        RepublishRecordedProof(owner, repo, row, env.rereadable, env.postWorks);
        return false;
      case Unqueued =>
        CreateCheckRun(Pending(site, owner, repo, update.newOid, output), env.postWorks);
        return false;
      case Queued(_) =>
        CreateCheckRun(Pending(site, owner, repo, update.newOid, output), env.postWorks);
        return true;
    }

    method RestoreHeadAudit(owner: string, repo: string, branch: string, head: string, env: Env,
                            output: (string, string), now: int) returns (queued: bool)
      modifies this, queue
      ensures (View(), queued) == RestoreHead(site, old(View()), owner, repo, branch, head, env, output, now)
    {
      if !IsObjectId(head) {
        return false;
      }
      queued := QueueHeadAudit(owner, repo, RefUpdate(HEADS_PREFIX + branch, ZERO_OID, head), env, output, now);
    }

    /** The pass over every repository; one whose pull requests cannot be listed is
        skipped. */
    method RestorePendingAudits(repositories: seq<Option<seq<Pull>>>, now: int) returns (restored: nat)
      modifies this, queue
      ensures Passed(old(View()), Listed(repositories), OnePull(site, now), View(), restored)
    {
      restored := 0;
      ghost var start := View();
      for i := 0 to |repositories|
        invariant Passed(start, Listed(repositories[..i]), OnePull(site, now), View(), restored)
      {
        ListedNext(repositories, i);
        if repositories[i].Some? {
          restored := RestoreRepository(repositories[i].value, now, restored, start, Listed(repositories[..i]));
        }
      }
      assert repositories[..|repositories|] == repositories;
    }

    method RestoreRepository(pulls: seq<Pull>, now: int, counted: nat, ghost start: Forge, ghost before: seq<Pull>)
      returns (restored: nat)
      requires Passed(start, before, OnePull(site, now), View(), counted)
      modifies this, queue
      ensures Passed(start, before + pulls, OnePull(site, now), View(), restored)
    {
      restored := counted;
      assert before + pulls[..0] == before;
      for j := 0 to |pulls|
        invariant Passed(start, before + pulls[..j], OnePull(site, now), View(), restored)
      {
        restored := RestoreNext(pulls[j], now, restored, start, before + pulls[..j]);
        assert before + pulls[..j] + [pulls[j]] == before + pulls[..j + 1];
      }
      assert pulls[..|pulls|] == pulls;
    }

    method RestoreNext(pull: Pull, now: int, counted: nat, ghost start: Forge, ghost before: seq<Pull>)
      returns (restored: nat)
      requires Passed(start, before, OnePull(site, now), View(), counted)
      modifies this, queue
      ensures Passed(start, before + [pull], OnePull(site, now), View(), restored)
    {
      ghost var f := View();
      var queued := RestoreOne(pull, now);
      PassedNext(start, before, OnePull(site, now), f, counted, pull, View(), queued);
      restored := if queued then counted + 1 else counted;
    }

    method RestoreOne(pull: Pull, now: int) returns (queued: bool)
      modifies this, queue
      ensures (View(), queued) == OnePull(site, now)(old(View()), pull)
    {
      if !pull.open || !pull.env.checksReadable {
        return false;
      }
      var newest := Newest(proofs, pull.owner, pull.repo, pull.head);
      if newest.None? || newest.value.status.Completed? {
        return false;
      }
      queued := RestoreHeadAudit(pull.owner, pull.repo, pull.branch, pull.head, pull.env, pull.output, now);
    }

    method RecordAuditedHead(owner: string, repo: string, branch: string, head: string, report: Option<JsonValue.Json>,
                             exit: int, writes: Writes, now: int)
      modifies this
      ensures View() == Record(site, old(View()), owner, repo, branch, head, report, exit, writes, now)
    {
      var (request, pass) := Judge(branch, head, report, exit);
      if !writes.recordWorks {
        return;
      }
      scores := Store(scores, Recorded(request, writes.id, owner, repo, now), writes.overwrites);
      var p := VerdictProof(site, request, pass, owner, repo);
      var posted := ProofAlreadyPosted(p, writes.checksReadable);
      if !posted {
        CreateCheckRun(p, writes.postWorks);
      }
    }

    /** The runner ingest: recheck the authorized ticket, consume it, stamp and record. */
    method Ingest(owner: string, repo: string, s: Submission, t: Q.Ticket, writes: Writes, now: int)
      returns (accepted: bool)
      modifies this, queue
      ensures View() == Report(site, old(View()), owner, repo, s, t, writes, now)
      ensures accepted <==> t in old(queue.tickets) && Authorized(site, s, t, owner, repo)
    {
      accepted := t in queue.tickets && Authorized(site, s, t, owner, repo);
      if accepted {
        var _ := queue.Take(t.Key());
        RecordAuditedHead(owner, repo, t.branch, t.head, Stamped(s.report, s.provenance), s.exit, writes, now);
      }
    }
  }
}
