/** A runner's report taken apart. The ingest consumes the ticket, records the row
    and posts the check without holding a lock, so other operations and other
    reports come in between, and a call may stop for good after any of the three. */
module ReportRaces {
  import opened Prelude
  import opened Verdict
  import P = ProofProtocol
  import opened ProofSafety
  import Q = AuditQueue

  datatype Call =
    | Consumed(owner: string, repo: string, submission: P.Submission, ticket: Q.Ticket)
    | Stored(owner: string, repo: string, request: Request, pass: bool)

  datatype State = State(forge: P.Forge, calls: map<nat, Call>)

  datatype Move =
    | Whole(step: P.Step)
    | Consume(call: nat, owner: string, repo: string, submission: P.Submission, ticket: Q.Ticket)
    | Record(call: nat, writes: P.Writes, now: int)
    | Publish(call: nat, readable: bool, works: bool)
    | Stop(call: nat)

  function Judged(call: Call): (Request, bool)
    requires call.Consumed?
  {
    var s, t := call.submission, call.ticket;
    Judge(t.branch, t.head, Stamped(s.report, s.provenance), s.exit)
  }

  function Row(call: Call, writes: P.Writes, now: int): Score
    requires call.Consumed?
  {
    Recorded(Judged(call).0, writes.id, call.owner, call.repo, now)
  }

  function ToConsume(site: P.Site, s: State, c: nat, call: Call): State
    requires call.Consumed?
  {
    if c in s.calls || call.ticket !in s.forge.tickets
       || !P.Authorized(site, call.submission, call.ticket, call.owner, call.repo) then s
    else State(s.forge.(tickets := Q.Taken(s.forge.tickets, call.ticket.Key()).0), s.calls[c := call])
  }

  function ToRecord(s: State, c: nat, writes: P.Writes, now: int): State
    requires c in s.calls && s.calls[c].Consumed?
  {
    var call := s.calls[c];
    if !writes.recordWorks then s.(calls := s.calls - {c})
    else State(s.forge.(scores := P.Store(s.forge.scores, Row(call, writes, now), writes.overwrites)),
               s.calls[c := Stored(call.owner, call.repo, Judged(call).0, Judged(call).1)])
  }

  function Check(site: P.Site, call: Call): P.Proof
    requires call.Stored?
  {
    P.VerdictProof(site, call.request, call.pass, call.owner, call.repo)
  }

  /** The publish step posts its verdict. */
  predicate Posts(site: P.Site, s: State, c: nat, readable: bool, works: bool)
    requires c in s.calls && s.calls[c].Stored?
  {
    !P.AlreadyPosted(s.forge, Check(site, s.calls[c]), readable) && works
  }

  function ToPublish(site: P.Site, s: State, c: nat, readable: bool, works: bool): State
    requires c in s.calls && s.calls[c].Stored?
  {
    State(P.Post(s.forge, Check(site, s.calls[c]), Posts(site, s, c, readable, works)), s.calls - {c})
  }

  function Next(site: P.Site, s: State, move: Move): State {
    match move
    case Whole(step) => s.(forge := P.Next(site, s.forge, step))
    case Consume(c, owner, repo, submission, ticket) => ToConsume(site, s, c, Consumed(owner, repo, submission, ticket))
    case Record(c, writes, now) => if c in s.calls && s.calls[c].Consumed? then ToRecord(s, c, writes, now) else s
    case Publish(c, readable, works) =>
      if c in s.calls && s.calls[c].Stored? then ToPublish(site, s, c, readable, works) else s
    case Stop(c) => s.(calls := s.calls - {c})
  }

  function After(site: P.Site, moves: seq<Move>): State {
    if moves == [] then State(P.Forge([], [], []), map[])
    else Next(site, After(site, moves[..|moves| - 1]), moves[|moves| - 1])
  }

  /** A report nothing interleaves with is the whole step. */
  lemma ReportIsThreeMoves(site: P.Site, s: State, c: nat, owner: string, repo: string, submission: P.Submission,
                           ticket: Q.Ticket, writes: P.Writes, now: int)
    requires c !in s.calls
    ensures
      var s1 := Next(site, s, Consume(c, owner, repo, submission, ticket));
      var s3 := Next(site, Next(site, s1, Record(c, writes, now)), Publish(c, writes.checksReadable, writes.postWorks));
      s3.forge == P.Report(site, s.forge, owner, repo, submission, ticket, writes, now)
  {
  }

  // ---- A store that keeps its rows ----

  /** Consumed tickets were authorized. */
  ghost predicate CallSound(site: P.Site, f: P.Forge, call: Call) {
    match call
    case Consumed(owner, repo, s, t) => P.Authorized(site, s, t, owner, repo)
    case Stored(owner, repo, request, pass) => pass ==> Backed(site, f, owner, repo, request.commit)
  }

  /** Every green proof, and every passing verdict still to be posted, is backed. */
  ghost predicate Sound(site: P.Site, s: State) {
    AllGreenBacked(site, s.forge) && forall c :: c in s.calls ==> CallSound(site, s.forge, s.calls[c])
  }

  predicate Keeps(move: Move) {
    && (move.Whole? ==> KeepsRows(move.step))
    && (move.Record? ==> !move.writes.overwrites)
  }

  predicate MoreRows(f: P.Forge, f': P.Forge) {
    forall r :: r in f.scores ==> r in f'.scores
  }

  lemma BackedLater(site: P.Site, f: P.Forge, f': P.Forge, call: Call)
    requires MoreRows(f, f') && CallSound(site, f, call)
    ensures CallSound(site, f', call)
  {
    if call.Stored? && call.pass {
      var s :| s in f.scores && Supports(site, s, call.owner, call.repo, call.request.commit);
      assert s in f'.scores;
    }
  }

  lemma WholeKeepsRows(site: P.Site, f: P.Forge, step: P.Step)
    requires KeepsRows(step)
    ensures MoreRows(f, P.Next(site, f, step))
  {
    match step
    case Push(owner, repo, update, env, output, now) =>
      var _ := QueueingNeverDecides(site, f, owner, repo, update, env, output, now);
    case Restore(pulls, now) => RestoreKeepsScores(site, f, pulls, now);
    case Claim(_, _, _) =>
    case Restart =>
    case Backfill(_, _, _, _, _) =>
    case Submit(_, _, _, _, _, _) =>
  }

  lemma {:induction false} RestoreKeepsScores(site: P.Site, f: P.Forge, pulls: seq<P.Pull>, now: int)
    ensures P.RestorePending(site, f, pulls, now).0.scores == f.scores
  {
    if pulls != [] {
      RestoreKeepsScores(site, f, pulls[..|pulls| - 1], now);
      var before, pull := P.RestorePending(site, f, pulls[..|pulls| - 1], now).0, pulls[|pulls| - 1];
      if P.Awaits(before, pull) {
        var _ := RestoringNeverCompletes(site, before, pull.owner, pull.repo, pull.branch, pull.head, pull.env,
                                         pull.output, now);
      }
    }
  }

  /** The row a consumed call records supports its head exactly when it passes. */
  lemma RowSupports(site: P.Site, call: Call, writes: P.Writes, now: int)
    requires call.Consumed? && P.Authorized(site, call.submission, call.ticket, call.owner, call.repo)
    ensures Judged(call).1 <==> Supports(site, Row(call, writes, now), call.owner, call.repo, call.ticket.head)
    ensures Judged(call).0.commit == call.ticket.head && Judged(call).0.branch == call.ticket.branch
  {
    ReportSupports(site, call.owner, call.repo, call.submission, call.ticket, writes.id, now);
  }

  lemma CallsLater(site: P.Site, s: State, s': State)
    requires Sound(site, s) && MoreRows(s.forge, s'.forge) && AllGreenBacked(site, s'.forge)
    requires forall c :: c in s'.calls ==> c in s.calls && s'.calls[c] == s.calls[c]
    ensures Sound(site, s')
  {
    forall c | c in s'.calls ensures CallSound(site, s'.forge, s'.calls[c]) {
      BackedLater(site, s.forge, s'.forge, s.calls[c]);
    }
  }

  lemma RecordKeeps(site: P.Site, s: State, c: nat, writes: P.Writes, now: int)
    requires Sound(site, s) && c in s.calls && s.calls[c].Consumed? && writes.recordWorks && !writes.overwrites
    ensures Sound(site, ToRecord(s, c, writes, now))
  {
    var s', call := ToRecord(s, c, writes, now), s.calls[c];
    assert CallSound(site, s.forge, call);
    RowSupports(site, call, writes, now);
    StoreKeeps(site, s.forge, s'.forge, Row(call, writes, now));
    assert Row(call, writes, now) in s'.forge.scores;
    forall d | d in s'.calls ensures CallSound(site, s'.forge, s'.calls[d]) {
      if d != c {
        BackedLater(site, s.forge, s'.forge, s.calls[d]);
      }
    }
  }

  lemma PublishKeeps(site: P.Site, s: State, c: nat, readable: bool, works: bool)
    requires Sound(site, s) && c in s.calls && s.calls[c].Stored?
    ensures Sound(site, ToPublish(site, s, c, readable, works))
  {
    var s' := ToPublish(site, s, c, readable, works);
    var call, p := s.calls[c], Check(site, s.calls[c]);
    assert CallSound(site, s.forge, call);
    forall q | q in s'.forge.proofs && Green(q) ensures Backed(site, s'.forge, q.owner, q.repo, q.head) {
      if q in s.forge.proofs {
        assert Backed(site, s.forge, q.owner, q.repo, q.head);
      } else {
        assert q == p && call.pass;
      }
    }
    CallsLater(site, s, s');
  }

  lemma ConsumeKeeps(site: P.Site, s: State, c: nat, call: Call)
    requires Sound(site, s) && call.Consumed?
    ensures Sound(site, ToConsume(site, s, c, call))
  {
    var s' := ToConsume(site, s, c, call);
    SameStores(site, s.forge, s'.forge);
    forall d | d in s'.calls ensures CallSound(site, s'.forge, s'.calls[d]) {
      if d in s.calls {
        BackedLater(site, s.forge, s'.forge, s.calls[d]);
      }
    }
  }

  lemma MoveKeeps(site: P.Site, s: State, move: Move)
    requires Sound(site, s) && Keeps(move)
    ensures Sound(site, Next(site, s, move))
  {
    match move
    case Whole(step) =>
      StepKeeps(site, s.forge, step);
      WholeKeepsRows(site, s.forge, step);
      CallsLater(site, s, Next(site, s, move));
    case Consume(c, owner, repo, submission, ticket) =>
      ConsumeKeeps(site, s, c, Consumed(owner, repo, submission, ticket));
    case Record(c, writes, now) =>
      if c in s.calls && s.calls[c].Consumed? {
        if writes.recordWorks {
          RecordKeeps(site, s, c, writes, now);
        } else {
          CallsLater(site, s, s.(calls := s.calls - {c}));
        }
      }
    case Publish(c, readable, works) =>
      if c in s.calls && s.calls[c].Stored? {
        PublishKeeps(site, s, c, readable, works);
      }
    case Stop(c) => CallsLater(site, s, s.(calls := s.calls - {c}));
  }

  /** Main result: in every interleaving of reports with one another and with
      everything else, and with a stop after any move, a store that keeps its rows
      backs every green proof ever posted. */
  lemma {:induction false} EveryGreenProofIsBackedInRaces(site: P.Site, moves: seq<Move>)
    requires forall i :: 0 <= i < |moves| ==> Keeps(moves[i])
    ensures Sound(site, After(site, moves))
  {
    if moves != [] {
      EveryGreenProofIsBackedInRaces(site, moves[..|moves| - 1]);
      MoveKeeps(site, After(site, moves[..|moves| - 1]), moves[|moves| - 1]);
    }
  }

  // ---- A store that overwrites ----

  /** The move leaves a green head without support: a whole step of the stranding
      kind, a failing row in the place of the only support, or a passing check whose
      support is gone. */
  ghost predicate MoveStrands(site: P.Site, s: State, move: Move) {
    match move
    case Whole(step) => StepStrands(site, s.forge, step)
    case Consume(_, _, _, _, _) => false
    case Record(c, writes, now) =>
      && c in s.calls && s.calls[c].Consumed? && RecordStrands(site, s.forge, s.calls[c], writes)
    case Publish(c, readable, works) =>
      && c in s.calls && s.calls[c].Stored? && s.calls[c].pass && Posts(site, s, c, readable, works)
      && !Backed(site, s.forge, s.calls[c].owner, s.calls[c].repo, s.calls[c].request.commit)
    case Stop(_) => false
  }

  ghost predicate RecordStrands(site: P.Site, f: P.Forge, call: Call, writes: P.Writes)
    requires call.Consumed?
  {
    && writes.recordWorks && writes.overwrites && !Judged(call).1
    && GreenNow(f, call.owner, call.repo, call.ticket.head)
    && forall r :: r in f.scores && Supports(site, r, call.owner, call.repo, call.ticket.head) ==>
         r.branch == call.ticket.branch
  }

  /** Consumed tickets were authorized, whatever the store does. */
  predicate Lawful(site: P.Site, s: State) {
    forall c :: c in s.calls && s.calls[c].Consumed? ==>
      P.Authorized(site, s.calls[c].submission, s.calls[c].ticket, s.calls[c].owner, s.calls[c].repo)
  }

  lemma LawfulNext(site: P.Site, s: State, move: Move)
    requires Lawful(site, s)
    ensures Lawful(site, Next(site, s, move))
  {
  }

  lemma RecordStrandsExactlyWhen(site: P.Site, f: P.Forge, f': P.Forge, call: Call, writes: P.Writes, now: int)
    requires call.Consumed? && P.Authorized(site, call.submission, call.ticket, call.owner, call.repo)
    requires NewestGreenBacked(site, f) && writes.recordWorks
    requires f'.proofs == f.proofs && f'.scores == P.Store(f.scores, Row(call, writes, now), writes.overwrites)
    ensures NewestGreenBacked(site, f') <==> !RecordStrands(site, f, call, writes)
  {
    var row, head := Row(call, writes, now), call.ticket.head;
    RowSupports(site, call, writes, now);
    if RecordStrands(site, f, call, writes) {
      assert forall r :: r in f'.scores && r != row ==> r in f.scores && !P.SameSlot(r, row);
      assert GreenNow(f', call.owner, call.repo, head) && !Backed(site, f', call.owner, call.repo, head);
    } else {
      forall o, r, h | GreenNow(f', o, r, h) ensures Backed(site, f', o, r, h) {
        StillBacked(site, f, f', row, o, r, h, writes.overwrites);
      }
    }
  }

  /** A head keeps its support when the new row gives one, or does not take the last. */
  lemma StillBacked(site: P.Site, f: P.Forge, f': P.Forge, row: Score, o: string, r: string, h: string,
                    overwrites: bool)
    requires f'.scores == P.Store(f.scores, row, overwrites) && Backed(site, f, o, r, h)
    requires
      || Supports(site, row, o, r, h) || !overwrites || (o, r, h) != (row.owner, row.repo, row.commit)
      || exists s :: s in f.scores && Supports(site, s, o, r, h) && s.branch != row.branch
    ensures Backed(site, f', o, r, h)
  {
    assert row in f'.scores;
    if !Supports(site, row, o, r, h) {
      var s :| s in f.scores && Supports(site, s, o, r, h)
        && (!overwrites || (o, r, h) != (row.owner, row.repo, row.commit) || s.branch != row.branch);
      assert s in f'.scores;
    }
  }

  lemma PublishStrandsExactlyWhen(site: P.Site, s: State, c: nat, readable: bool, works: bool)
    requires c in s.calls && s.calls[c].Stored? && NewestGreenBacked(site, s.forge)
    ensures NewestGreenBacked(site, ToPublish(site, s, c, readable, works).forge) <==>
            !MoveStrands(site, s, Publish(c, readable, works))
  {
    var f, f' := s.forge, ToPublish(site, s, c, readable, works).forge;
    var call, p := s.calls[c], Check(site, s.calls[c]);
    if Posts(site, s, c, readable, works) {
      forall o, r, h
        ensures P.Newest(f'.proofs, o, r, h) == if P.About(p, o, r, h) then Some(p) else P.Newest(f.proofs, o, r, h)
      {
        NewestPosted(f.proofs, p, o, r, h);
      }
      forall o, r, h ensures Backed(site, f', o, r, h) <==> Backed(site, f, o, r, h) {
      }
      assert call.pass ==> GreenNow(f', call.owner, call.repo, call.request.commit);
    } else {
      SameStoresNewest(site, f, f');
    }
  }

  lemma MoveStrandsExactlyWhen(site: P.Site, s: State, move: Move)
    requires Lawful(site, s) && NewestGreenBacked(site, s.forge)
    ensures NewestGreenBacked(site, Next(site, s, move).forge) <==> !MoveStrands(site, s, move)
  {
    var s' := Next(site, s, move);
    match move
    case Whole(step) => StepKeepsNewest(site, s.forge, step);
    case Consume(_, _, _, _, _) => SameStoresNewest(site, s.forge, s'.forge);
    case Record(c, writes, now) =>
      if c in s.calls && s.calls[c].Consumed? && writes.recordWorks {
        RecordStrandsExactlyWhen(site, s.forge, s'.forge, s.calls[c], writes, now);
      } else {
        SameStoresNewest(site, s.forge, s'.forge);
      }
    case Publish(c, readable, works) =>
      if c in s.calls && s.calls[c].Stored? {
        PublishStrandsExactlyWhen(site, s, c, readable, works);
      }
    case Stop(_) => SameStoresNewest(site, s.forge, s'.forge);
  }

  /** Every head green after the first `k` moves is supported then. */
  ghost predicate SoundAt(site: P.Site, moves: seq<Move>, k: nat)
    requires k <= |moves|
  {
    NewestGreenBacked(site, After(site, moves[..k]).forge)
  }

  ghost predicate StrandsAt(site: P.Site, moves: seq<Move>, k: nat)
    requires k < |moves|
  {
    MoveStrands(site, After(site, moves[..k]), moves[k])
  }

  lemma {:induction false} AlwaysLawful(site: P.Site, moves: seq<Move>)
    ensures Lawful(site, After(site, moves))
  {
    if moves != [] {
      AlwaysLawful(site, moves[..|moves| - 1]);
      LawfulNext(site, After(site, moves[..|moves| - 1]), moves[|moves| - 1]);
    }
  }

  lemma SoundStep(site: P.Site, moves: seq<Move>, k: nat)
    requires k < |moves| && SoundAt(site, moves, k)
    ensures SoundAt(site, moves, k + 1) <==> !StrandsAt(site, moves, k)
  {
    assert moves[..k + 1][..k] == moves[..k];
    AlwaysLawful(site, moves[..k]);
    MoveStrandsExactlyWhen(site, After(site, moves[..k]), moves[k]);
  }

  lemma {:induction false} SoundUntil(site: P.Site, moves: seq<Move>, k: nat)
    requires k <= |moves| && forall j: nat :: j < k ==> !StrandsAt(site, moves, j)
    ensures SoundAt(site, moves, k)
  {
    if k > 0 {
      SoundUntil(site, moves, k - 1);
      SoundStep(site, moves, k - 1);
    }
  }

  /** Main result: in every interleaving, whatever the store does with earlier rows,
      every head whose newest proof is green is supported all along if and only if no
      move strands one. */
  lemma EveryGreenHeadIsBackedInRaces(site: P.Site, moves: seq<Move>)
    ensures (forall k: nat :: k <= |moves| ==> SoundAt(site, moves, k))
      <==> (forall k: nat :: k < |moves| ==> !StrandsAt(site, moves, k))
  {
    if forall k: nat :: k <= |moves| ==> SoundAt(site, moves, k) {
      forall k: nat | k < |moves| ensures !StrandsAt(site, moves, k) {
        assert SoundAt(site, moves, k) && SoundAt(site, moves, k + 1);
        SoundStep(site, moves, k);
      }
    }
    if forall k: nat :: k < |moves| ==> !StrandsAt(site, moves, k) {
      forall k: nat | k <= |moves| ensures SoundAt(site, moves, k) {
        SoundUntil(site, moves, k);
      }
    }
  }
}
