/** A race of two reports of one head: both checks go out, the older one last, and
    the head ends green on a row that is gone. */
module RaceRun {
  import opened Prelude
  import opened Verdict
  import P = ProofProtocol
  import opened ProofSafety
  import opened ReportRaces
  import opened StrandingRun
  import J = JsonValue
  import Q = AuditQueue

  function CallFor(head: string, p: Provenance, report: Option<J.Json>): Call {
    Consumed(OWNER, REPO, SubmissionFor(head, p, report), TicketFor(head, p.base))
  }

  function WritesAs(id: nat): P.Writes {
    P.Writes(id, true, true, true, true)
  }

  /** Every check that is tried goes out. */
  predicate AllPosted(moves: seq<Move>) {
    forall i :: 0 <= i < |moves| && moves[i].Publish? ==> moves[i].works
  }

  lemma AfterSnoc(site: P.Site, moves: seq<Move>, move: Move, s: State)
    requires ReportRaces.After(site, moves) == s
    ensures ReportRaces.After(site, moves + [move]) == ReportRaces.Next(site, s, move)
  {
    assert (moves + [move])[..|moves|] == moves;
  }

  lemma Consumes(site: P.Site, s: State, c: nat, call: Call)
    requires c !in s.calls && call.Consumed? && s.forge.tickets == [call.ticket]
    requires P.Authorized(site, call.submission, call.ticket, call.owner, call.repo)
    ensures ToConsume(site, s, c, call) == State(s.forge.(tickets := []), s.calls[c := call])
  {
    assert Q.IndexOf([call.ticket], call.ticket.Key()) == Some(0);
    assert Q.Without([call.ticket], 0) == [];
  }

  /** A push and the first two moves of its report: the row stands, the check is still to come. */
  lemma Begins(site: P.Site, moves: seq<Move>, s: State, c: nat, head: string, p: Provenance, report: Option<J.Json>)
    returns (moves': seq<Move>, s': State, row: Score)
    requires ReportRaces.After(site, moves) == s && s.forge.tickets == [] && c !in s.calls && AllPosted(moves)
    requires IsObjectId(head) && head != P.ZERO_OID && P.Submittable(site, p)
    ensures ReportRaces.After(site, moves') == s' && AllPosted(moves')
    ensures
      var call := CallFor(head, p, report);
      && row == Row(call, WritesAs(c), 0)
      && s' == State(P.Forge(P.Store(s.forge.scores, row, true), s.forge.proofs, []),
                     s.calls[c := Stored(OWNER, REPO, Judged(call).0, Judged(call).1)])
  {
    var call := CallFor(head, p, report);
    row := Row(call, WritesAs(c), 0);
    var s1, s2 := State(s.forge.(tickets := [call.ticket]), s.calls), State(s.forge, s.calls[c := call]);
    QueuesAndConsumes(site, s, c, head, p, report);
    Records(s, c, call, WritesAs(c));
    s' := ToRecord(s2, c, WritesAs(c), 0);
    moves' := ThreeMoves(site, moves, Whole(PushFor(head, p.base)),
                         Consume(c, OWNER, REPO, call.submission, call.ticket), Record(c, WritesAs(c), 0), s, s1, s2);
  }

  /** The push leaves the ticket, and the first move of the report takes it. */
  lemma QueuesAndConsumes(site: P.Site, s: State, c: nat, head: string, p: Provenance, report: Option<J.Json>)
    requires s.forge.tickets == [] && c !in s.calls
    requires IsObjectId(head) && head != P.ZERO_OID && P.Submittable(site, p)
    ensures
      var call := CallFor(head, p, report);
      var s1 := State(s.forge.(tickets := [call.ticket]), s.calls);
      && ReportRaces.Next(site, s, Whole(PushFor(head, p.base))) == s1
      && ReportRaces.Next(site, s1, Consume(c, OWNER, REPO, call.submission, call.ticket)) ==
         State(s.forge, s.calls[c := call])
  {
    var call := CallFor(head, p, report);
    PushQueues(site, s.forge, head, p.base);
    Consumes(site, State(s.forge.(tickets := [call.ticket]), s.calls), c, call);
  }

  lemma Records(s: State, c: nat, call: Call, writes: P.Writes)
    requires call.Consumed? && writes.recordWorks && c !in s.calls
    ensures ToRecord(State(s.forge, s.calls[c := call]), c, writes, 0) ==
            State(s.forge.(scores := P.Store(s.forge.scores, Row(call, writes, 0), writes.overwrites)),
                  s.calls[c := Stored(call.owner, call.repo, Judged(call).0, Judged(call).1)])
  {
    var stored := Stored(call.owner, call.repo, Judged(call).0, Judged(call).1);
    assert s.calls[c := call][c := stored] == s.calls[c := stored];
  }

  lemma ThreeMoves(site: P.Site, moves: seq<Move>, a: Move, b: Move, c: Move, s: State, s1: State, s2: State)
    returns (moves': seq<Move>)
    requires ReportRaces.After(site, moves) == s && AllPosted(moves)
    requires ReportRaces.Next(site, s, a) == s1 && ReportRaces.Next(site, s1, b) == s2
    requires !a.Publish? && !b.Publish? && !c.Publish?
    ensures ReportRaces.After(site, moves') == ReportRaces.Next(site, s2, c) && AllPosted(moves')
  {
    AfterSnoc(site, moves, a, s);
    AfterSnoc(site, moves + [a], b, s1);
    AfterSnoc(site, moves + [a] + [b], c, s2);
    moves' := moves + [a] + [b] + [c];
  }

  /** Where the race stands before its last move: the failing row took the place of
      the passing one, and the failing check is out. */
  lemma Overtaken(site: P.Site, head: string, wide: Provenance, narrow: Provenance) returns (moves: seq<Move>, s: State)
    requires IsObjectId(head) && head != P.ZERO_OID
    requires P.Submittable(site, wide) && P.Submittable(site, narrow)
    ensures ReportRaces.After(site, moves) == s && AllPosted(moves)
    ensures 1 in s.calls && s.calls[1].Stored? && s.calls[1].pass
    ensures s.calls[1].owner == OWNER && s.calls[1].repo == REPO && s.calls[1].request.commit == head
    ensures !Backed(site, s.forge, OWNER, REPO, head)
    ensures |s.forge.proofs| == 1 && s.forge.proofs[0].conclusion == Some(P.Failure)
  {
    var empty := State(P.Forge([], [], []), map[]);
    var moves1, s1, row1 := Begins(site, [], empty, 1, head, wide, Some(J.Obj(PASSING_REPORT)));
    var moves2, s2, row2 := Begins(site, moves1, s1, 2, head, narrow, None);
    PassingReportPasses(QUEUE_REF, head, wide);
    FailsAlone(site, head, narrow, s2.forge, row2);
    OneRow(row1, row2);
    moves, s := PublishesFailure(site, moves2, s2);
    FailsAlone(site, head, narrow, s.forge, row2);
  }

  lemma PublishesFailure(site: P.Site, moves: seq<Move>, s: State) returns (moves': seq<Move>, s': State)
    requires ReportRaces.After(site, moves) == s && AllPosted(moves) && s.forge.proofs == []
    requires 1 in s.calls && 2 in s.calls && s.calls[2].Stored? && !s.calls[2].pass
    ensures ReportRaces.After(site, moves') == s' && AllPosted(moves')
    ensures s'.forge.scores == s.forge.scores && 1 in s'.calls && s'.calls[1] == s.calls[1]
    ensures |s'.forge.proofs| == 1 && s'.forge.proofs[0].conclusion == Some(P.Failure)
  {
    AfterSnoc(site, moves, Publish(2, true, true), s);
    moves', s' := moves + [Publish(2, true, true)], ToPublish(site, s, 2, true, true);
  }

  /** A head whose one row is that of no report has no support. */
  lemma FailsAlone(site: P.Site, head: string, p: Provenance, f: P.Forge, row: Score)
    requires IsObjectId(head) && P.Submittable(site, p) && row == Row(CallFor(head, p, None), WritesAs(2), 0)
    ensures !Judged(CallFor(head, p, None)).1
    ensures f.scores == [row] ==> !Backed(site, f, OWNER, REPO, head)
  {
    RowSupports(site, CallFor(head, p, None), WritesAs(2), 0);
  }

  lemma OneRow(a: Score, b: Score)
    requires P.SameSlot(a, b)
    ensures P.Store(P.Store([], a, true), b, true) == [b]
  {
    assert P.Store([], a, true) == [a];
    assert P.OtherSlots([a], b) == [] && [] + [b] == [b];
  }

  /** Main result: with an overwriting store, two reports whose checks all go out can
      leave a green head that no stored row supports. */
  lemma AnOldCheckCanComeLast(site: P.Site, head: string, wide: Provenance, narrow: Provenance)
    returns (moves: seq<Move>)
    requires IsObjectId(head) && head != P.ZERO_OID
    requires P.Submittable(site, wide) && P.Submittable(site, narrow)
    ensures !NewestGreenBacked(site, ReportRaces.After(site, moves).forge)
    ensures AllPosted(moves)
  {
    var before, s := Overtaken(site, head, wide, narrow);
    OnlyFailure(site, s.forge);
    LastCheck(site, s);
    AfterSnoc(site, before, Publish(1, true, true), s);
    moves := before + [Publish(1, true, true)];
  }

  lemma OnlyFailure(site: P.Site, f: P.Forge)
    requires |f.proofs| == 1 && f.proofs[0].conclusion == Some(P.Failure)
    ensures NewestGreenBacked(site, f)
  {
  }

  lemma LastCheck(site: P.Site, s: State)
    requires NewestGreenBacked(site, s.forge) && |s.forge.proofs| == 1
        && s.forge.proofs[0].conclusion == Some(P.Failure)
    requires 1 in s.calls && s.calls[1].Stored? && s.calls[1].pass
    requires !Backed(site, s.forge, s.calls[1].owner, s.calls[1].repo, s.calls[1].request.commit)
    ensures !NewestGreenBacked(site, ToPublish(site, s, 1, true, true).forge)
  {
    PublishStrandsExactlyWhen(site, s, 1, true, true);
  }
}
