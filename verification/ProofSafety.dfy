/** What a green `jankurai/proof` stands on, in every run of the forge. */
module ProofSafety {
  import opened Prelude
  import opened Verdict
  import opened ReportFields
  import opened ProofProtocol
  import JsonValue
  import Q = AuditQueue

  predicate Green(p: Proof) {
    p.status.Completed? && p.conclusion == Some(Success)
  }

  /** The row's own report is stamped by a governed audit and clears the head. */
  ghost predicate Stands(row: Score, governed: Governed) {
    row.report.Some? && Governing(row.report.value, governed) && Clears(row.report.value)
  }

  /** A stored row passes on its own report, and would publish the same verdict again. */
  ghost predicate Supports(site: Site, row: Score, owner: string, repo: string, head: string) {
    && row.owner == owner && row.repo == repo && row.commit == head
    && Passing(row) && Stands(row, site.governed)
    && StoredProof(row, site.governed).Some? && Passes(site, row)
  }

  ghost predicate Backed(site: Site, f: Forge, owner: string, repo: string, head: string) {
    exists s :: s in f.scores && Supports(site, s, owner, repo, head)
  }

  // ---- Queueing and restoring ----

  /** `p` is the verdict a stored row recomputes to, worded and linked as its own report would be. */
  predicate Recovered(site: Site, f: Forge, p: Proof) {
    exists row :: row in f.scores && row.owner == p.owner && row.repo == p.repo
      && StoredProof(row, site.governed).Some?
      && p == VerdictProof(site, StoredProof(row, site.governed).value.0, Passes(site, row), p.owner, p.repo)
  }

  /** `f'` keeps the scores and the proofs of `f`, and adds at most the proof `p`. */
  predicate AddsAtMost(f: Forge, f': Forge, p: Proof) {
    f'.scores == f.scores && (f'.proofs == f.proofs || f'.proofs == f.proofs + [p])
  }

  lemma DecideWritesNothing(site: Site, f: Forge, queueRef: bool, ticket: Q.Ticket, rows: seq<Score>, published: bool,
                            available: bool, now: int)
    ensures
      var (f', audit) := Decide(site, f, queueRef, ticket, rows, published, available, now);
      && f'.scores == f.scores && f'.proofs == f.proofs
      && (audit.ProofUnpublished? ==>
            !published && audit.row in rows && StoredProof(audit.row, site.governed).Some?)
  {
  }

  lemma UncoveredAsks(site: Site, f: Forge, queueRef: bool, ticket: Q.Ticket, published: bool, now: int)
    ensures Decide(site, f, queueRef, ticket, [], published, true, now) == Ask(f, ticket, now)
  {
  }

  /** What planning hands back keeps both stores; an unpublished verdict is a
      stored row of this head, and only a queue ref has one. */
  lemma PlanDecidesNothing(site: Site, f: Forge, owner: string, repo: string, update: RefUpdate, env: Env, now: int)
    ensures
      var (f', audit) := Plan(site, f, owner, repo, update, env, now);
      && f'.scores == f.scores && f'.proofs == f.proofs
      && (audit.ProofUnpublished? ==>
            && QueueBase(update.refName).Some?
            && audit.row in f.scores && audit.row.owner == owner && audit.row.repo == repo
            && audit.row.commit == update.newOid
            && StoredProof(audit.row, site.governed).Some?)
  {
    var wanted := Wanted(owner, repo, update, env, now);
    if wanted.Some? {
      var rows := Evidence(f, owner, repo, update, env);
      var published := Published(f, owner, repo, update, env);
      DecideWritesNothing(site, f, QueueBase(update.refName).Some?, wanted.value, rows, published, env.queueAvailable,
                          now);
      forall row | row in rows
        ensures row in f.scores && row.owner == owner && row.repo == repo && row.commit == update.newOid
      {
        assert row in ScoresOf(f.scores, owner, repo, update.newOid);
      }
    }
  }

  /** Main result: queueing an audit writes no score and completes no proof,
      except by publishing a stored verdict of a queue ref again. */
  lemma QueueingNeverDecides(site: Site, f: Forge, owner: string, repo: string, update: RefUpdate, env: Env,
                             output: (string, string), now: int) returns (p: Proof)
    ensures AddsAtMost(f, QueueHead(site, f, owner, repo, update, env, output, now).0, p)
    ensures About(p, owner, repo, update.newOid)
    ensures p.status.InProgress? || (QueueBase(update.refName).Some? && Recovered(site, f, p))
  {
    p := Pending(site, owner, repo, update.newOid, output);
    PlanDecidesNothing(site, f, owner, repo, update, env, now);
    var (f', audit) := Plan(site, f, owner, repo, update, env, now);
    if update.newOid != ZERO_OID && audit.ProofUnpublished? {
      p := VerdictProof(site, StoredProof(audit.row, site.governed).value.0, Passes(site, audit.row), owner, repo);
      RepublishAdds(site, f', owner, repo, audit.row, env.rereadable, env.postWorks);
    }
  }

  lemma RepublishAdds(site: Site, f: Forge, owner: string, repo: string, row: Score, readable: bool, works: bool)
    requires StoredProof(row, site.governed).Some?
    ensures AddsAtMost(f, Republish(site, f, owner, repo, row, readable, works),
      VerdictProof(site, StoredProof(row, site.governed).value.0, Passes(site, row), owner, repo))
  {
  }

  /** A restored head never has its proof completed: its ref is a branch, and a
      branch head that is covered is left alone. */
  lemma RestoringNeverCompletes(site: Site, f: Forge, owner: string, repo: string, branch: string, head: string,
                                env: Env, output: (string, string), now: int)
    returns (p: Proof)
    ensures AddsAtMost(f, RestoreHead(site, f, owner, repo, branch, head, env, output, now).0, p)
    ensures p.status.InProgress? && About(p, owner, repo, head)
  {
    p := Pending(site, owner, repo, head, output);
    var update := RefUpdate(HEADS_PREFIX + branch, ZERO_OID, head);
    BranchIsNoQueueRef(branch);
    if IsObjectId(head) {
      p := QueueingNeverDecides(site, f, owner, repo, update, env, output, now);
    }
  }

  lemma BranchIsNoQueueRef(branch: string)
    ensures QueueBase(HEADS_PREFIX + branch).None?
  {
    assert (HEADS_PREFIX + branch)[5] == 'h' && Q.QUEUE_PREFIX[5] == 'q';
  }

  // ---- Every run, with a store that keeps its rows ----

  ghost predicate AllGreenBacked(site: Site, f: Forge) {
    forall p :: p in f.proofs && Green(p) ==> Backed(site, f, p.owner, p.repo, p.head)
  }

  predicate KeepsRows(step: Step) {
    step.Submit? || step.Backfill? ==> !step.writes.overwrites
  }

  lemma RecoveredIsBacked(site: Site, f: Forge, p: Proof)
    requires Recovered(site, f, p) && Green(p)
    ensures Backed(site, f, p.owner, p.repo, p.head)
  {
    var row :| row in f.scores && row.owner == p.owner && row.repo == p.repo
      && StoredProof(row, site.governed).Some?
      && p == VerdictProof(site, StoredProof(row, site.governed).value.0, Passes(site, row), p.owner, p.repo);
    RecoveryAgreesWithRow(row, site.governed);
    RecoversExactlyWhen(row, site.governed);
    assert Supports(site, row, p.owner, p.repo, p.head);
  }

  /** The row a passing report leaves behind supports the proof it completes. */
  lemma ReportSupports(site: Site, owner: string, repo: string, s: Submission, t: Q.Ticket, id: nat, now: int)
    requires Authorized(site, s, t, owner, repo)
    ensures
      var (request, pass) := Judge(t.branch, t.head, Stamped(s.report, s.provenance), s.exit);
      pass <==> Supports(site, Recorded(request, id, owner, repo, now), owner, repo, t.head)
  {
    var stamped := Stamped(s.report, s.provenance);
    JudgedRowPasses(t.branch, t.head, stamped, s.exit, id, owner, repo, now);
    RecordedVerdictRecovers(t.branch, t.head, s.report, s.provenance, s.exit, id, owner, repo, now, site.governed);
    RecoversExactlyWhen(Recorded(Judge(t.branch, t.head, stamped, s.exit).0, id, owner, repo, now), site.governed);
  }

  lemma QueueKeeps(site: Site, f: Forge, owner: string, repo: string, update: RefUpdate, env: Env,
                   output: (string, string), now: int)
    requires AllGreenBacked(site, f)
    ensures AllGreenBacked(site, QueueHead(site, f, owner, repo, update, env, output, now).0)
  {
    var p := QueueingNeverDecides(site, f, owner, repo, update, env, output, now);
    AddingKeeps(site, f, QueueHead(site, f, owner, repo, update, env, output, now).0, p);
  }

  lemma AddingKeeps(site: Site, f: Forge, f': Forge, added: Proof)
    requires AllGreenBacked(site, f) && AddsAtMost(f, f', added)
    requires added.status.InProgress? || Recovered(site, f, added)
    ensures AllGreenBacked(site, f')
  {
    forall p | p in f'.proofs && Green(p) ensures Backed(site, f', p.owner, p.repo, p.head) {
      if p !in f.proofs {
        RecoveredIsBacked(site, f, p);
      }
      var s :| s in f.scores && Supports(site, s, p.owner, p.repo, p.head);
      assert s in f'.scores;
    }
  }

  lemma {:induction false} RestoreKeeps(site: Site, f: Forge, pulls: seq<Pull>, now: int)
    requires AllGreenBacked(site, f)
    ensures AllGreenBacked(site, RestorePending(site, f, pulls, now).0)
  {
    if pulls != [] {
      RestoreKeeps(site, f, pulls[..|pulls| - 1], now);
      var before, pull := RestorePending(site, f, pulls[..|pulls| - 1], now).0, pulls[|pulls| - 1];
      if Awaits(before, pull) {
        var p := RestoringNeverCompletes(site, before, pull.owner, pull.repo, pull.branch, pull.head, pull.env,
                                         pull.output, now);
        AddingKeeps(site, before, RestorePull(site, before, pull, now).0, p);
      }
    }
  }

  lemma StoreKeeps(site: Site, f: Forge, f': Forge, row: Score)
    requires AllGreenBacked(site, f)
    requires f'.scores == Store(f.scores, row, false)
    requires forall p :: p in f'.proofs && Green(p) ==>
      p in f.proofs || Supports(site, row, p.owner, p.repo, p.head)
    ensures AllGreenBacked(site, f')
  {
    forall p | p in f'.proofs && Green(p) ensures Backed(site, f', p.owner, p.repo, p.head) {
      if p in f.proofs {
        assert Backed(site, f, p.owner, p.repo, p.head);
        var s :| s in f.scores && Supports(site, s, p.owner, p.repo, p.head);
        assert s in f'.scores;
      } else {
        assert row in f'.scores;
      }
    }
  }

  lemma StepKeeps(site: Site, f: Forge, step: Step)
    requires AllGreenBacked(site, f) && KeepsRows(step)
    ensures AllGreenBacked(site, Next(site, f, step))
  {
    var f' := Next(site, f, step);
    match step
    case Push(owner, repo, update, env, output, now) =>
      QueueKeeps(site, f, owner, repo, update, env, output, now);
    case Claim(_, _, _) => SameStores(site, f, f');
    case Restart => SameStores(site, f, f');
    case Restore(pulls, now) => RestoreKeeps(site, f, pulls, now);
    case Backfill(owner, repo, request, writes, now) =>
      if f' != f {
        StoreKeeps(site, f, f', Recorded(request, writes.id, owner, repo, now));
      }
    case Submit(owner, repo, s, t, writes, now) =>
      if t in f.tickets && Authorized(site, s, t, owner, repo) {
        if writes.recordWorks {
          var (request, pass) := Judge(t.branch, t.head, Stamped(s.report, s.provenance), s.exit);
          ReportSupports(site, owner, repo, s, t, writes.id, now);
          StoreKeeps(site, f, f', Recorded(request, writes.id, owner, repo, now));
        } else {
          SameStores(site, f, f');
        }
      }
  }

  lemma SameStores(site: Site, f: Forge, f': Forge)
    requires AllGreenBacked(site, f) && f'.scores == f.scores && f'.proofs == f.proofs
    ensures AllGreenBacked(site, f')
  {
    forall p | p in f'.proofs && Green(p) ensures Backed(site, f', p.owner, p.repo, p.head) {
      assert Backed(site, f, p.owner, p.repo, p.head);
    }
  }

  /** Main result: over every run whose store keeps earlier rows, every green
      proof ever posted is backed by a stored row that scores at least its floor,
      with no hard finding and no cap, and that would recover as a pass. */
  lemma {:induction false} EveryGreenProofIsBacked(site: Site, steps: seq<Step>)
    requires forall i :: 0 <= i < |steps| ==> KeepsRows(steps[i])
    ensures AllGreenBacked(site, After(site, steps))
  {
    if steps != [] {
      EveryGreenProofIsBacked(site, steps[..|steps| - 1]);
      StepKeeps(site, After(site, steps[..|steps| - 1]), steps[|steps| - 1]);
    }
  }

  // ---- A store that overwrites the row of the same branch and commit ----

  predicate GreenNow(f: Forge, owner: string, repo: string, head: string) {
    var newest := Newest(f.proofs, owner, repo, head);
    newest.Some? && Green(newest.value)
  }

  ghost predicate NewestGreenBacked(site: Site, f: Forge) {
    forall owner, repo, head :: GreenNow(f, owner, repo, head) ==> Backed(site, f, owner, repo, head)
  }

  /** The one way a report can leave a green head without support: its row took
      the place of the only support, its verdict fails, and the failing check did
      not go out. */
  ghost predicate Strands(site: Site, f: Forge, owner: string, repo: string, s: Submission, t: Q.Ticket,
                          writes: Writes)
  {
    && t in f.tickets && Authorized(site, s, t, owner, repo)
    && writes.recordWorks && writes.overwrites && !writes.postWorks
    && !Judge(t.branch, t.head, Stamped(s.report, s.provenance), s.exit).1
    && GreenNow(f, owner, repo, t.head)
    && forall r :: r in f.scores && Supports(site, r, owner, repo, t.head) ==> r.branch == t.branch
  }

  lemma NewestPosted(proofs: seq<Proof>, p: Proof, owner: string, repo: string, head: string)
    ensures Newest(proofs + [p], owner, repo, head) ==
      if About(p, owner, repo, head) then Some(p) else Newest(proofs, owner, repo, head)
  {
    assert (proofs + [p])[..|proofs|] == proofs;
  }

  /** Main result: with an overwriting store, a report keeps every green head
      supported exactly when it is not the stranding kind. */
  lemma ReportStrandsExactlyWhen(site: Site, f: Forge, owner: string, repo: string, s: Submission, t: Q.Ticket,
                                 writes: Writes, now: int)
    requires NewestGreenBacked(site, f)
    ensures NewestGreenBacked(site, Report(site, f, owner, repo, s, t, writes, now))
      <==> !Strands(site, f, owner, repo, s, t, writes)
  {
    var f' := Report(site, f, owner, repo, s, t, writes, now);
    if t in f.tickets && Authorized(site, s, t, owner, repo) && writes.recordWorks {
      ReportMoves(site, f, owner, repo, s, t, writes, now);
      if Strands(site, f, owner, repo, s, t, writes) {
        StrandedHead(site, f, owner, repo, s, t, writes, now);
      } else {
        forall o, r, h | GreenNow(f', o, r, h) ensures Backed(site, f', o, r, h) {
          if (o, r, h) == (owner, repo, t.head) {
            ReportedHeadBacked(site, f, owner, repo, s, t, writes, now);
          } else {
            assert Backed(site, f, o, r, h);
            var row :| row in f.scores && Supports(site, row, o, r, h);
            assert row in f'.scores;
          }
        }
      }
    } else {
      assert f'.scores == f.scores && f'.proofs == f.proofs;
      forall o, r, h | GreenNow(f', o, r, h) ensures Backed(site, f', o, r, h) {
        assert GreenNow(f, o, r, h) && Backed(site, f, o, r, h);
      }
    }
  }

  /** What a recorded report does to the stores. */
  lemma ReportMoves(site: Site, f: Forge, owner: string, repo: string, s: Submission, t: Q.Ticket,
                    writes: Writes, now: int)
    requires t in f.tickets && Authorized(site, s, t, owner, repo) && writes.recordWorks
    ensures
      var f' := Report(site, f, owner, repo, s, t, writes, now);
      var (request, pass) := Judge(t.branch, t.head, Stamped(s.report, s.provenance), s.exit);
      var row := Recorded(request, writes.id, owner, repo, now);
      && f'.scores == Store(f.scores, row, writes.overwrites)
      && (pass <==> Supports(site, row, owner, repo, t.head))
      && (forall o, r, h :: (o, r, h) != (owner, repo, t.head) ==>
            (GreenNow(f', o, r, h) <==> GreenNow(f, o, r, h)))
      && (writes.postWorks ==> (GreenNow(f', owner, repo, t.head) <==> pass))
      && (!writes.postWorks ==> f'.proofs == f.proofs)
  {
    var f' := Report(site, f, owner, repo, s, t, writes, now);
    var (request, pass) := Judge(t.branch, t.head, Stamped(s.report, s.provenance), s.exit);
    ReportSupports(site, owner, repo, s, t, writes.id, now);
    var p := VerdictProof(site, request, pass, owner, repo);
    if f'.proofs != f.proofs {
      forall o, r, h
        ensures Newest(f'.proofs, o, r, h) == if About(p, o, r, h) then Some(p) else Newest(f.proofs, o, r, h)
      {
        NewestPosted(f.proofs, p, o, r, h);
      }
    }
  }

  lemma StrandedHead(site: Site, f: Forge, owner: string, repo: string, s: Submission, t: Q.Ticket,
                     writes: Writes, now: int)
    requires Strands(site, f, owner, repo, s, t, writes)
    ensures
      var f' := Report(site, f, owner, repo, s, t, writes, now);
      GreenNow(f', owner, repo, t.head) && !Backed(site, f', owner, repo, t.head)
  {
    ReportMoves(site, f, owner, repo, s, t, writes, now);
    var f' := Report(site, f, owner, repo, s, t, writes, now);
    var (request, _) := Judge(t.branch, t.head, Stamped(s.report, s.provenance), s.exit);
    var row := Recorded(request, writes.id, owner, repo, now);
    forall r | r in f'.scores ensures !Supports(site, r, owner, repo, t.head) {
      if r != row && Supports(site, r, owner, repo, t.head) {
        assert r in f.scores && SameSlot(r, row);
      }
    }
  }

  lemma ReportedHeadBacked(site: Site, f: Forge, owner: string, repo: string, s: Submission, t: Q.Ticket,
                           writes: Writes, now: int)
    requires NewestGreenBacked(site, f) && !Strands(site, f, owner, repo, s, t, writes)
    requires t in f.tickets && Authorized(site, s, t, owner, repo) && writes.recordWorks
    requires GreenNow(Report(site, f, owner, repo, s, t, writes, now), owner, repo, t.head)
    ensures Backed(site, Report(site, f, owner, repo, s, t, writes, now), owner, repo, t.head)
  {
    ReportMoves(site, f, owner, repo, s, t, writes, now);
    var f' := Report(site, f, owner, repo, s, t, writes, now);
    var (request, pass) := Judge(t.branch, t.head, Stamped(s.report, s.provenance), s.exit);
    var row := Recorded(request, writes.id, owner, repo, now);
    if pass {
      assert row in f'.scores;
    } else {
      assert Backed(site, f, owner, repo, t.head);
      var r :| r in f.scores && Supports(site, r, owner, repo, t.head)
        && (writes.overwrites ==> r.branch != t.branch);
      assert r in f'.scores;
    }
  }

  lemma AddingKeepsNewest(site: Site, f: Forge, f': Forge, added: Proof)
    requires NewestGreenBacked(site, f) && AddsAtMost(f, f', added)
    requires added.status.InProgress? || Recovered(site, f, added)
    ensures NewestGreenBacked(site, f')
  {
    forall o, r, h | GreenNow(f', o, r, h) ensures Backed(site, f', o, r, h) {
      NewestPosted(f.proofs, added, o, r, h);
      if Newest(f'.proofs, o, r, h) == Some(added) && Green(added) {
        RecoveredIsBacked(site, f, added);
      } else {
        assert GreenNow(f, o, r, h);
      }
      var s :| s in f.scores && Supports(site, s, o, r, h);
      assert s in f'.scores;
    }
  }

  lemma {:induction false} RestoreKeepsNewest(site: Site, f: Forge, pulls: seq<Pull>, now: int)
    requires NewestGreenBacked(site, f)
    ensures NewestGreenBacked(site, RestorePending(site, f, pulls, now).0)
  {
    if pulls != [] {
      RestoreKeepsNewest(site, f, pulls[..|pulls| - 1], now);
      var before, pull := RestorePending(site, f, pulls[..|pulls| - 1], now).0, pulls[|pulls| - 1];
      if Awaits(before, pull) {
        var p := RestoringNeverCompletes(site, before, pull.owner, pull.repo, pull.branch, pull.head, pull.env,
                                         pull.output, now);
        AddingKeepsNewest(site, before, RestorePull(site, before, pull, now).0, p);
      }
    }
  }

  /** The one way a backfill can: it posts no check, and its row, which never
      carries provenance, took the place of the only support. */
  ghost predicate BackfillStrands(site: Site, f: Forge, owner: string, repo: string, request: Request, writes: Writes) {
    && writes.recordWorks && writes.overwrites && !CarriesProvenance(request)
    && GreenNow(f, owner, repo, request.commit)
    && forall r :: r in f.scores && Supports(site, r, owner, repo, request.commit) ==> r.branch == request.branch
  }

  predicate CarriesProvenance(request: Request) {
    request.report.Some? && JsonValue.Get(request.report.value, PROVENANCE).Some?
  }

  lemma BackfillSupportsNothing(site: Site, request: Request, id: nat, owner: string, repo: string, now: int,
                                head: string)
    requires !CarriesProvenance(request)
    ensures !Supports(site, Recorded(request, id, owner, repo, now), owner, repo, head)
  {
  }

  /** Main result: with an overwriting store, a backfill keeps every green head
      supported exactly when it is not the stranding kind. */
  lemma BackfillStrandsExactlyWhen(site: Site, f: Forge, owner: string, repo: string, request: Request,
                                   writes: Writes, now: int)
    requires NewestGreenBacked(site, f)
    ensures NewestGreenBacked(site, Next(site, f, Backfill(owner, repo, request, writes, now)))
      <==> !BackfillStrands(site, f, owner, repo, request, writes)
  {
    var f' := Next(site, f, Backfill(owner, repo, request, writes, now));
    var row := Recorded(request, writes.id, owner, repo, now);
    if BackfillStrands(site, f, owner, repo, request, writes) {
      BackfilledHead(site, f, owner, repo, request, writes, now);
    } else {
      forall o, r, h | GreenNow(f', o, r, h) ensures Backed(site, f', o, r, h) {
        assert GreenNow(f, o, r, h);
        var s :| s in f.scores && Supports(site, s, o, r, h)
          && ((o, r, h) == (owner, repo, request.commit) && f' != f && writes.overwrites ==>
              s.branch != request.branch);
        assert s in f'.scores;
      }
    }
  }

  lemma BackfilledHead(site: Site, f: Forge, owner: string, repo: string, request: Request, writes: Writes, now: int)
    requires BackfillStrands(site, f, owner, repo, request, writes)
    ensures
      var f' := Next(site, f, Backfill(owner, repo, request, writes, now));
      GreenNow(f', owner, repo, request.commit) && !Backed(site, f', owner, repo, request.commit)
  {
    var f' := Next(site, f, Backfill(owner, repo, request, writes, now));
    var row := Recorded(request, writes.id, owner, repo, now);
    BackfillSupportsNothing(site, request, writes.id, owner, repo, now, request.commit);
    assert forall r :: r in f'.scores && r != row ==> r in f.scores && !SameSlot(r, row);
  }

  /** The step takes the last support of a green head away. */
  ghost predicate StepStrands(site: Site, f: Forge, step: Step) {
    match step
    case Submit(owner, repo, s, t, writes, now) => Strands(site, f, owner, repo, s, t, writes)
    case Backfill(owner, repo, request, writes, now) => BackfillStrands(site, f, owner, repo, request, writes)
    case _ => false
  }

  lemma StepKeepsNewest(site: Site, f: Forge, step: Step)
    requires NewestGreenBacked(site, f)
    ensures NewestGreenBacked(site, Next(site, f, step)) <==> !StepStrands(site, f, step)
  {
    var f' := Next(site, f, step);
    match step
    case Push(owner, repo, update, env, output, now) =>
      var p := QueueingNeverDecides(site, f, owner, repo, update, env, output, now);
      AddingKeepsNewest(site, f, f', p);
    case Restore(pulls, now) => RestoreKeepsNewest(site, f, pulls, now);
    case Submit(owner, repo, s, t, writes, now) =>
      ReportStrandsExactlyWhen(site, f, owner, repo, s, t, writes, now);
    case Backfill(owner, repo, request, writes, now) =>
      BackfillStrandsExactlyWhen(site, f, owner, repo, request, writes, now);
    case Claim(_, _, _) => SameStoresNewest(site, f, f');
    case Restart => SameStoresNewest(site, f, f');
  }

  lemma SameStoresNewest(site: Site, f: Forge, f': Forge)
    requires NewestGreenBacked(site, f) && f'.scores == f.scores && f'.proofs == f.proofs
    ensures NewestGreenBacked(site, f')
  {
    forall o, r, h | GreenNow(f', o, r, h) ensures Backed(site, f', o, r, h) {
      assert GreenNow(f, o, r, h) && Backed(site, f, o, r, h);
    }
  }

  /** Every head green after the first `k` steps is supported then. */
  ghost predicate SoundAt(site: Site, steps: seq<Step>, k: nat)
    requires k <= |steps|
  {
    NewestGreenBacked(site, After(site, steps[..k]))
  }

  /** Step `k` of the run takes the last support of a green head away. */
  ghost predicate StrandsAt(site: Site, steps: seq<Step>, k: nat)
    requires k < |steps|
  {
    StepStrands(site, After(site, steps[..k]), steps[k])
  }

  lemma SoundStep(site: Site, steps: seq<Step>, k: nat)
    requires k < |steps| && SoundAt(site, steps, k)
    ensures SoundAt(site, steps, k + 1) <==> !StrandsAt(site, steps, k)
  {
    assert steps[..k + 1][..k] == steps[..k];
    StepKeepsNewest(site, After(site, steps[..k]), steps[k]);
  }

  lemma {:induction false} SoundUntil(site: Site, steps: seq<Step>, k: nat)
    requires k <= |steps| && forall j: nat :: j < k ==> !StrandsAt(site, steps, j)
    ensures SoundAt(site, steps, k)
  {
    if k > 0 {
      SoundUntil(site, steps, k - 1);
      SoundStep(site, steps, k - 1);
    }
  }

  /** Main result: whatever the store does with earlier rows, every head whose
      newest proof is green is supported all along a run if and only if no step
      of it is a report or a backfill of the stranding kind. */
  lemma EveryGreenHeadIsBacked(site: Site, steps: seq<Step>)
    ensures (forall k: nat :: k <= |steps| ==> SoundAt(site, steps, k))
      <==> (forall k: nat :: k < |steps| ==> !StrandsAt(site, steps, k))
  {
    if forall k: nat :: k <= |steps| ==> SoundAt(site, steps, k) {
      forall k: nat | k < |steps| ensures !StrandsAt(site, steps, k) {
        assert SoundAt(site, steps, k) && SoundAt(site, steps, k + 1);
        SoundStep(site, steps, k);
      }
    }
    if forall k: nat :: k < |steps| ==> !StrandsAt(site, steps, k) {
      forall k: nat | k <= |steps| ensures SoundAt(site, steps, k) {
        SoundUntil(site, steps, k);
      }
    }
  }

  // ---- Restored tickets ----

  predicate HasTicket(f: Forge, owner: string, repo: string, head: string) {
    exists t :: t in f.tickets && t.Key() == Q.HeadKey(owner, repo, head)
  }

  /** The head has a ticket, or every place in the queue holds a live claim. */
  predicate Served(f: Forge, owner: string, repo: string, head: string) {
    HasTicket(f, owner, repo, head) || (|f.tickets| >= Q.CAPACITY && forall t :: t in f.tickets ==> t.claimedBy.Some?)
  }

  /** The head's class is audited, and the queue can be reached. */
  predicate Auditable(branch: string, head: string, env: Env) {
    && IsObjectId(head) && head != ZERO_OID && env.queueAvailable
    && !SkippedBranch(branch, env.openPullBase.Some?) && (env.preference.Off? ==> env.proofRequired)
  }

  /** No stored score of the head can be read. */
  predicate NoScoreSeen(f: Forge, owner: string, repo: string, head: string, env: Env) {
    !env.scoresReadable || ScoresOf(f.scores, owner, repo, head) == []
  }

  /** Main result: after a restore the head has a ticket, or the queue is full of
      live claims, if and only if that was so before or the head is auditable and
      no stored score of it is seen. */
  lemma RestoringGivesATicket(site: Site, f: Forge, owner: string, repo: string, branch: string, head: string,
                              env: Env, output: (string, string), now: int)
    ensures Served(RestoreHead(site, f, owner, repo, branch, head, env, output, now).0, owner, repo, head)
      <==> Served(f, owner, repo, head) || (Auditable(branch, head, env) && NoScoreSeen(f, owner, repo, head, env))
  {
    BranchIsNoQueueRef(branch);
    if !NoScoreSeen(f, owner, repo, head, env) {
      ScoredHeadIsLeftAlone(site, f, owner, repo, branch, head, env, output, now);
    } else if Auditable(branch, head, env) {
      UnscoredHeadIsAskedFor(site, f, owner, repo, branch, head, env, output, now);
    } else {
      UnauditableKeepsQueue(site, f, owner, repo, branch, head, env, output, now);
    }
  }

  /** A branch head with a stored score gets neither a ticket nor a proof. */
  lemma ScoredHeadIsLeftAlone(site: Site, f: Forge, owner: string, repo: string, branch: string, head: string,
                              env: Env, output: (string, string), now: int)
    requires !NoScoreSeen(f, owner, repo, head, env)
    ensures RestoreHead(site, f, owner, repo, branch, head, env, output, now) == (f, false)
  {
    var update := RefUpdate(HEADS_PREFIX + branch, ZERO_OID, head);
    BranchIsNoQueueRef(branch);
    var rows := Evidence(f, owner, repo, update, env);
    assert rows[0] in rows;
  }

  lemma UnscoredHeadIsAskedFor(site: Site, f: Forge, owner: string, repo: string, branch: string, head: string,
                               env: Env, output: (string, string), now: int)
    requires Auditable(branch, head, env) && NoScoreSeen(f, owner, repo, head, env)
    ensures
      var f' := RestoreHead(site, f, owner, repo, branch, head, env, output, now).0;
      var wanted := Wanted(owner, repo, RefUpdate(HEADS_PREFIX + branch, ZERO_OID, head), env, now);
      && wanted.Some? && f'.tickets == Q.Enqueued(f.tickets, wanted.value, now).0
      && Served(f', owner, repo, head)
  {
    var update := RefUpdate(HEADS_PREFIX + branch, ZERO_OID, head);
    var ticket := BranchTicket(owner, repo, branch, head, env, now);
    BranchIsNoQueueRef(branch);
    assert Evidence(f, owner, repo, update, env) == [];
    UncoveredAsks(site, f, false, ticket, true, now);
    EnqueuedOrFull(f.tickets, ticket, now);
    AskedHead(site, f, owner, repo, update, env, output, now, ticket);
  }

  lemma UnauditableKeepsQueue(site: Site, f: Forge, owner: string, repo: string, branch: string, head: string,
                              env: Env, output: (string, string), now: int)
    requires !Auditable(branch, head, env) && NoScoreSeen(f, owner, repo, head, env)
    ensures RestoreHead(site, f, owner, repo, branch, head, env, output, now).0.tickets == f.tickets
  {
    var update := RefUpdate(HEADS_PREFIX + branch, ZERO_OID, head);
    BranchIsNoQueueRef(branch);
    assert update.refName[|HEADS_PREFIX|..] == branch;
    assert Evidence(f, owner, repo, update, env) == [];
  }

  /** A pending branch head whose report is recorded while its check is lost stays
      pending, and no restore that can read the scores does anything for it. */
  lemma LostCheckStaysPending(site: Site, f: Forge, owner: string, repo: string, s: Submission, t: Q.Ticket,
                              writes: Writes, now: int, branch: string, env: Env, output: (string, string), later: int)
    requires t in f.tickets && Authorized(site, s, t, owner, repo)
    requires ProofPending(f, owner, repo, t.head) && writes.recordWorks && !writes.postWorks && env.scoresReadable
    ensures
      var f' := Report(site, f, owner, repo, s, t, writes, now);
      && ProofPending(f', owner, repo, t.head) && (Q.Good(f.tickets) ==> !HasTicket(f', owner, repo, t.head))
      && RestoreHead(site, f', owner, repo, branch, t.head, env, output, later) == (f', false)
  {
    var f' := Report(site, f, owner, repo, s, t, writes, now);
    var (request, pass) := Judge(t.branch, t.head, Stamped(s.report, s.provenance), s.exit);
    var row := Recorded(request, writes.id, owner, repo, now);
    ReportMoves(site, f, owner, repo, s, t, writes, now);
    assert row in f'.scores && row in ScoresOf(f'.scores, owner, repo, t.head);
    ScoredHeadIsLeftAlone(site, f', owner, repo, branch, t.head, env, output, later);
    if Q.Good(f.tickets) {
      TakenTicketIsGone(f.tickets, t);
    }
    assert f'.tickets == Q.Taken(f.tickets, t.Key()).0;
  }

  lemma TakenTicketIsGone(ts: seq<Q.Ticket>, t: Q.Ticket)
    requires t in ts && Q.Good(ts)
    ensures forall h :: h in Q.Taken(ts, t.Key()).0 ==> h.Key() != t.Key()
  {
    Q.TakeRemoves(ts, Q.DoTake(t.Key(), 0), t.Key());
  }

  /** A head that is asked for leaves the queue the ask left, whatever is posted. */
  lemma AskedHead(site: Site, f: Forge, owner: string, repo: string, update: RefUpdate, env: Env,
                  output: (string, string), now: int, ticket: Q.Ticket)
    requires update.newOid != ZERO_OID && Plan(site, f, owner, repo, update, env, now) == Ask(f, ticket, now)
    ensures
      var (f', queued) := QueueHead(site, f, owner, repo, update, env, output, now);
      f'.tickets == Ask(f, ticket, now).0.tickets
      && (env.postWorks || f' == Ask(f, ticket, now).0)
  {
  }

  lemma BranchTicket(owner: string, repo: string, branch: string, head: string, env: Env, now: int)
    returns (ticket: Q.Ticket)
    requires !SkippedBranch(branch, env.openPullBase.Some?) && (env.preference.Off? ==> env.proofRequired)
    ensures Wanted(owner, repo, RefUpdate(HEADS_PREFIX + branch, ZERO_OID, head), env, now) == Some(ticket)
    ensures ticket.owner == owner && ticket.repo == repo && ticket.branch == branch && ticket.head == head
    ensures ticket.Unclaimed()
  {
    var update := RefUpdate(HEADS_PREFIX + branch, ZERO_OID, head);
    BranchIsNoQueueRef(branch);
    assert update.refName[|HEADS_PREFIX|..] == branch;
    ticket := Wanted(owner, repo, update, env, now).value;
  }

  lemma EnqueuedOrFull(ts: seq<Q.Ticket>, t: Q.Ticket, now: int)
    ensures
      var (r, outcome) := Q.Enqueued(ts, t, now);
      if outcome.Full? then |r| >= Q.CAPACITY && forall h :: h in r ==> h.claimedBy.Some?
      else exists h :: h in r && h.Key() == t.Key()
  {
    var live := Q.Expire(ts, now);
    var (r, outcome) := Q.Enqueued(ts, t, now);
    var at := Q.IndexOf(live, t.Key());
    if at.Some? {
      assert r[at.value] in r && r[at.value].Key() == t.Key();
    } else if !outcome.Full? {
      assert r[|r| - 1] == t;
    }
  }
}
