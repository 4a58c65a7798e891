/** What the pass after a restart promises: every open pull request head whose
    proof is pending gets a ticket. The pass enqueues into a bounded queue that
    holds one ticket per branch, so a ticket it restored may be gone when it ends. */
module RestorePass {
  import opened Prelude
  import opened Verdict
  import opened ProofProtocol
  import opened ProofSafety
  import Q = AuditQueue

  // ---- A queue that starts empty ----

  /** Enqueue the tickets one after another. */
  function EnqueueAll(asks: seq<Q.Ticket>, now: int): seq<Q.Ticket> {
    if asks == [] then []
    else Q.Enqueued(EnqueueAll(asks[..|asks| - 1], now), asks[|asks| - 1], now).0
  }

  predicate AllFree(asks: seq<Q.Ticket>) {
    forall i :: 0 <= i < |asks| ==> asks[i].Unclaimed()
  }

  /** Nothing claimed expires. */
  lemma FreeStays(ts: seq<Q.Ticket>, now: int)
    requires AllFree(ts)
    ensures Q.Expire(ts, now) == ts
  {
  }

  lemma EnqueueAdds(ts: seq<Q.Ticket>, t: Q.Ticket, now: int)
    requires Q.Good(ts) && AllFree(ts) && t.Unclaimed()
    ensures
      var r := Q.Enqueued(ts, t, now).0;
      Q.Good(r) && AllFree(r) && forall h :: h in r ==> h == t || h in ts
  {
    FreeStays(ts, now);
    Q.EnqueueGood(ts, t, now);
    Q.EnqueueAccounts(ts, t, now);
    var r := Q.Enqueued(ts, t, now).0;
    forall i | 0 <= i < |r| ensures r[i].Unclaimed() {
      assert r[i] in r;
    }
  }

  lemma {:induction false} EnqueueAllGood(asks: seq<Q.Ticket>, now: int)
    requires AllFree(asks)
    ensures
      var r := EnqueueAll(asks, now);
      Q.Good(r) && AllFree(r) && forall h :: h in r ==> h in asks
  {
    if asks != [] {
      EnqueueAllGood(asks[..|asks| - 1], now);
      EnqueueAdds(EnqueueAll(asks[..|asks| - 1], now), asks[|asks| - 1], now);
    }
  }

  function Keys(ts: seq<Q.Ticket>): set<Q.HeadKey> {
    set i | 0 <= i < |ts| :: ts[i].Key()
  }

  lemma {:induction false} KeysCount(ts: seq<Q.Ticket>)
    ensures |Keys(ts)| <= |ts| && (Q.Distinct(ts) ==> |Keys(ts)| == |ts|)
  {
    if ts != [] {
      var init, last := ts[..|ts| - 1], ts[|ts| - 1];
      KeysCount(init);
      KeysSnoc(init, last);
      assert init + [last] == ts;
      if Q.Distinct(ts) {
        assert last.Key() !in Keys(init);
      }
    }
  }

  lemma KeysSnoc(ts: seq<Q.Ticket>, t: Q.Ticket)
    ensures Keys(ts + [t]) == Keys(ts) + {t.Key()}
  {
    var all := ts + [t];
    forall k | k in Keys(ts) ensures k in Keys(all) {
      var i :| 0 <= i < |ts| && ts[i].Key() == k;
      assert all[i].Key() == k;
    }
    assert all[|ts|].Key() == t.Key();
  }

  /** Tickets of one branch are for one head. */
  predicate OneHeadPerBranch(ts: seq<Q.Ticket>) {
    forall i, j :: 0 <= i < |ts| && 0 <= j < |ts| && ts[i].SameBranch(ts[j]) ==> ts[i].Key() == ts[j].Key()
  }

  lemma {:induction false} KeptAll(ts: seq<Q.Ticket>, t: Q.Ticket)
    requires forall h :: h in ts ==> !h.SameBranch(t)
    ensures Q.Kept(ts, t) == ts
  {
    if ts != [] {
      KeptAll(ts[1..], t);
    }
  }

  /** While there is room and no branch changes its head, nothing is lost. */
  lemma RoomForOne(ts: seq<Q.Ticket>, t: Q.Ticket, now: int)
    requires Q.Good(ts) && AllFree(ts) && t.Unclaimed()
    requires forall h :: h in ts && h.SameBranch(t) ==> h.Key() == t.Key()
    requires |Keys(ts) + {t.Key()}| <= Q.CAPACITY
    ensures Keys(Q.Enqueued(ts, t, now).0) == Keys(ts) + {t.Key()}
  {
    FreeStays(ts, now);
    var at := Q.IndexOf(ts, t.Key());
    if at.Some? {
      SameKeys(ts, at.value, t);
    } else {
      forall h | h in ts ensures !h.SameBranch(t) {
        var i :| 0 <= i < |ts| && ts[i] == h;
      }
      KeptAll(ts, t);
      KeysCount(ts);
      assert t.Key() !in Keys(ts);
      KeysSnoc(ts, t);
    }
  }

  lemma SameKeys(ts: seq<Q.Ticket>, i: nat, t: Q.Ticket)
    requires i < |ts| && ts[i].Key() == t.Key()
    ensures Keys(ts[i := t]) == Keys(ts) == Keys(ts) + {t.Key()}
  {
    var r := ts[i := t];
    forall k ensures k in Keys(r) <==> k in Keys(ts) {
      if k in Keys(r) {
        var j :| 0 <= j < |r| && r[j].Key() == k;
        assert ts[j].Key() == k;
      }
      if k in Keys(ts) {
        var j :| 0 <= j < |ts| && ts[j].Key() == k;
        assert r[j].Key() == k;
      }
    }
  }

  lemma {:induction false} AllFit(asks: seq<Q.Ticket>, now: int)
    requires AllFree(asks) && OneHeadPerBranch(asks) && |Keys(asks)| <= Q.CAPACITY
    ensures Keys(EnqueueAll(asks, now)) == Keys(asks)
  {
    if asks != [] {
      var init, last := asks[..|asks| - 1], asks[|asks| - 1];
      assert asks == init + [last];
      KeysSnoc(init, last);
      SmallerSet(Keys(init), Keys(asks));
      AllFit(init, now);
      EnqueueAllGood(init, now);
      var ts := EnqueueAll(init, now);
      forall h | h in ts && h.SameBranch(last) ensures h.Key() == last.Key() {
        var i :| 0 <= i < |init| && init[i] == h;
        assert asks[i] == h && asks[|asks| - 1] == last;
      }
      RoomForOne(ts, last, now);
    }
  }

  /** More heads than places: some head is left out. */
  lemma TooMany(asks: seq<Q.Ticket>, now: int)
    requires AllFree(asks) && Keys(asks) <= Keys(EnqueueAll(asks, now))
    ensures |Keys(asks)| <= Q.CAPACITY
  {
    EnqueueAllGood(asks, now);
    KeysCount(EnqueueAll(asks, now));
    SmallerSet(Keys(asks), Keys(EnqueueAll(asks, now)));
  }

  /** The head of a branch that comes again with another head is left out. */
  lemma {:induction false} Displaced(asks: seq<Q.Ticket>, now: int, i: nat, j: nat)
    requires AllFree(asks) && Q.Distinct(asks) && i < j < |asks| && asks[i].SameBranch(asks[j])
    ensures Q.Absent(EnqueueAll(asks, now), asks[i].Key())
    decreases |asks|
  {
    if j < |asks| - 1 {
      Displaced(asks[..|asks| - 1], now, i, j);
      DisplacedStays(asks, now, i);
    } else {
      DisplacedLast(asks, now, i);
    }
  }

  lemma DisplacedStays(asks: seq<Q.Ticket>, now: int, i: nat)
    requires AllFree(asks) && Q.Distinct(asks) && i < |asks| - 1
    requires Q.Absent(EnqueueAll(asks[..|asks| - 1], now), asks[i].Key())
    ensures Q.Absent(EnqueueAll(asks, now), asks[i].Key())
  {
    var n := |asks| - 1;
    EnqueueAllGood(asks[..n], now);
    StaysAbsent(EnqueueAll(asks[..n], now), asks[n], now, asks[i].Key());
  }

  lemma DisplacedLast(asks: seq<Q.Ticket>, now: int, i: nat)
    requires AllFree(asks) && Q.Distinct(asks) && i < |asks| - 1 && asks[i].SameBranch(asks[|asks| - 1])
    ensures Q.Absent(EnqueueAll(asks, now), asks[i].Key())
  {
    var init, last := asks[..|asks| - 1], asks[|asks| - 1];
    EnqueueAllGood(init, now);
    DisplacedNow(init, EnqueueAll(init, now), last, now, i);
  }

  lemma StaysAbsent(ts: seq<Q.Ticket>, t: Q.Ticket, now: int, k: Q.HeadKey)
    requires Q.Good(ts) && Q.Absent(ts, k) && t.Key() != k
    ensures Q.Absent(Q.Enqueued(ts, t, now).0, k)
  {
    Q.AbsentStep(ts, Q.DoEnqueue(t, now), k);
  }

  lemma DisplacedNow(init: seq<Q.Ticket>, ts: seq<Q.Ticket>, last: Q.Ticket, now: int, i: nat)
    requires Q.Good(ts) && AllFree(ts) && (forall h :: h in ts ==> h in init)
    requires i < |init| && init[i].SameBranch(last) && Q.Distinct(init)
    requires forall m :: 0 <= m < |init| ==> init[m].Key() != last.Key()
    ensures Q.Absent(Q.Enqueued(ts, last, now).0, init[i].Key())
  {
    FreeStays(ts, now);
    var kept := Q.Kept(ts, last);
    forall m | 0 <= m < |ts| ensures ts[m].Key() != last.Key() {
      assert ts[m] in init;
    }
    forall m | 0 <= m < |kept| ensures kept[m].Key() != init[i].Key() {
      assert kept[m] in ts && kept[m] in init;
      var x :| 0 <= x < |init| && init[x] == kept[m];
      var y :| 0 <= y < |ts| && ts[y] == kept[m];
    }
    var oldest := Q.FirstUnclaimed(kept);
    assert last.Key() != init[i].Key();
  }

  // ---- The pass over pull requests ----

  function Key(pull: Pull): Q.HeadKey {
    Q.HeadKey(pull.owner, pull.repo, pull.head)
  }

  /** The promise covers the pull request: it is open and its head's proof is pending. */
  predicate Owed(f: Forge, pull: Pull) {
    pull.open && ProofPending(f, pull.owner, pull.repo, pull.head)
  }

  /** The pass asks for a ticket for it: its checks can be read, its head is
      auditable, and no stored score of the head is seen. */
  predicate Due(f: Forge, pull: Pull) {
    && Awaits(f, pull) && Auditable(pull.branch, pull.head, pull.env)
    && NoScoreSeen(f, pull.owner, pull.repo, pull.head, pull.env)
  }

  /** The ticket a due pull request asks for. */
  function Asked(pull: Pull, now: int): Q.Ticket {
    var wanted :=
      Wanted(pull.owner, pull.repo, RefUpdate(HEADS_PREFIX + pull.branch, ZERO_OID, pull.head), pull.env, now);
    if wanted.Some? then wanted.value
    else Q.Ticket(pull.owner, pull.repo, pull.branch, pull.head, NO_COMMIT_BASE, Q.FullAudit, now, None, None)
  }

  lemma AskedFor(pull: Pull, now: int)
    requires Auditable(pull.branch, pull.head, pull.env)
    ensures
      var t := Asked(pull, now);
      && t.Key() == Key(pull) && t.Unclaimed()
      && t.owner == pull.owner && t.repo == pull.repo && t.branch == pull.branch
  {
    var _ := BranchTicket(pull.owner, pull.repo, pull.branch, pull.head, pull.env, now);
  }

  /** What one pull request of the pass does. */
  lemma PullStep(site: Site, f: Forge, pull: Pull, now: int, owner: string, repo: string, head: string)
    ensures
      var f' := RestorePull(site, f, pull, now).0;
      && f'.scores == f.scores
      && f'.tickets == (if Due(f, pull) then Q.Enqueued(f.tickets, Asked(pull, now), now).0 else f.tickets)
      && (ProofPending(f', owner, repo, head) <==> ProofPending(f, owner, repo, head))
  {
    if Awaits(f, pull) {
      var p := RestoringNeverCompletes(site, f, pull.owner, pull.repo, pull.branch, pull.head, pull.env, pull.output,
                                       now);
      NewestPosted(f.proofs, p, owner, repo, head);
      PullTickets(site, f, pull, now);
    }
  }

  lemma PullTickets(site: Site, f: Forge, pull: Pull, now: int)
    requires Awaits(f, pull)
    ensures
      var f' := RestoreHead(site, f, pull.owner, pull.repo, pull.branch, pull.head, pull.env, pull.output, now).0;
      f'.tickets == if Due(f, pull) then Q.Enqueued(f.tickets, Asked(pull, now), now).0 else f.tickets
  {
    if !NoScoreSeen(f, pull.owner, pull.repo, pull.head, pull.env) {
      ScoredHeadIsLeftAlone(site, f, pull.owner, pull.repo, pull.branch, pull.head, pull.env, pull.output, now);
    } else if Auditable(pull.branch, pull.head, pull.env) {
      UnscoredHeadIsAskedFor(site, f, pull.owner, pull.repo, pull.branch, pull.head, pull.env, pull.output, now);
    } else {
      UnauditableKeepsQueue(site, f, pull.owner, pull.repo, pull.branch, pull.head, pull.env, pull.output, now);
    }
  }

  /** What the picked pull requests ask for, in order. */
  function Picked(pulls: seq<Pull>, pick: Pull -> bool, ask: Pull -> Q.Ticket): seq<Q.Ticket> {
    if pulls == [] then []
    else
      var last := pulls[|pulls| - 1];
      Picked(pulls[..|pulls| - 1], pick, ask) + if pick(last) then [ask(last)] else []
  }

  function IsDue(f: Forge): Pull -> bool {
    pull => Due(f, pull)
  }

  function AskedAt(now: int): Pull -> Q.Ticket {
    pull => Asked(pull, now)
  }

  /** The tickets the due pull requests ask for, in order. */
  function Asks(f: Forge, pulls: seq<Pull>, now: int): seq<Q.Ticket> {
    Picked(pulls, IsDue(f), AskedAt(now))
  }

  /** `f'` has the scores of `f` and the same heads pending. */
  ghost predicate SameHeads(f: Forge, f': Forge) {
    && f'.scores == f.scores
    && forall owner, repo, head :: ProofPending(f', owner, repo, head) <==> ProofPending(f, owner, repo, head)
  }

  lemma SameHeadsAreDue(f: Forge, f': Forge, pull: Pull)
    requires SameHeads(f, f')
    ensures Due(f', pull) <==> Due(f, pull)
  {
  }

  lemma PassOne(site: Site, f: Forge, before: Forge, asks: seq<Q.Ticket>, pull: Pull, now: int)
    requires before.tickets == EnqueueAll(asks, now) && SameHeads(f, before)
    ensures
      var after := RestorePull(site, before, pull, now).0;
      SameHeads(f, after)
      && after.tickets == EnqueueAll(asks + if IsDue(f)(pull) then [AskedAt(now)(pull)] else [], now)
  {
    SameHeadsAreDue(f, before, pull);
    forall owner, repo, head
      ensures
        var after := RestorePull(site, before, pull, now).0;
        ProofPending(after, owner, repo, head) <==> ProofPending(before, owner, repo, head)
    {
      PullStep(site, before, pull, now, owner, repo, head);
    }
    PullStep(site, before, pull, now, "", "", "");
    assert (asks + [Asked(pull, now)])[..|asks|] == asks && asks + [] == asks;
  }

  /** The pass enqueues what is due when it starts, and nothing else. */
  lemma {:induction false} PassEnqueues(site: Site, f: Forge, pulls: seq<Pull>, now: int)
    requires f.tickets == []
    ensures
      var f' := RestorePending(site, f, pulls, now).0;
      f'.tickets == EnqueueAll(Asks(f, pulls, now), now) && SameHeads(f, f')
  {
    if pulls != [] {
      var init, pull := pulls[..|pulls| - 1], pulls[|pulls| - 1];
      PassEnqueues(site, f, init, now);
      PassOne(site, f, RestorePending(site, f, init, now).0, Asks(f, init, now), pull, now);
    }
  }

  // ---- From pull requests to tickets and back ----

  lemma {:induction false} PickedAt(pulls: seq<Pull>, pick: Pull -> bool, ask: Pull -> Q.Ticket, i: nat)
    returns (k: nat)
    requires i < |pulls| && pick(pulls[i])
    ensures k == |Picked(pulls[..i], pick, ask)| < |Picked(pulls, pick, ask)|
    ensures Picked(pulls, pick, ask)[k] == ask(pulls[i])
  {
    var n := |pulls| - 1;
    if i == n {
      k := |Picked(pulls[..n], pick, ask)|;
    } else {
      k := PickedAt(pulls[..n], pick, ask, i);
      assert pulls[..n][..i] == pulls[..i];
    }
  }

  lemma {:induction false} PickedOf(pulls: seq<Pull>, pick: Pull -> bool, ask: Pull -> Q.Ticket, k: nat)
    returns (i: nat)
    requires k < |Picked(pulls, pick, ask)|
    ensures i < |pulls| && pick(pulls[i]) && Picked(pulls, pick, ask)[k] == ask(pulls[i])
    ensures k == |Picked(pulls[..i], pick, ask)|
  {
    var n := |pulls| - 1;
    if k < |Picked(pulls[..n], pick, ask)| {
      i := PickedOf(pulls[..n], pick, ask, k);
      assert pulls[..n][..i] == pulls[..i];
    } else {
      i := n;
    }
  }

  /** Positions among the tickets follow those among the pull requests. */
  lemma {:induction false} PickedGrow(pulls: seq<Pull>, pick: Pull -> bool, ask: Pull -> Q.Ticket, i: nat, j: nat)
    requires i <= j <= |pulls|
    ensures |Picked(pulls[..i], pick, ask)| + (if i < j && pick(pulls[i]) then 1 else 0) <= |Picked(pulls[..j], pick,
                                                                                                    ask)|
    decreases j
  {
    if i < j {
      PickedGrow(pulls, pick, ask, i, j - 1);
      assert pulls[..j][..j - 1] == pulls[..j - 1];
    }
  }

  lemma AskAt(f: Forge, pulls: seq<Pull>, now: int, i: nat) returns (k: nat)
    requires i < |pulls| && Due(f, pulls[i])
    ensures k == |Asks(f, pulls[..i], now)| < |Asks(f, pulls, now)| && Asks(f, pulls, now)[k] == Asked(pulls[i], now)
  {
    k := PickedAt(pulls, IsDue(f), AskedAt(now), i);
  }

  lemma AskOf(f: Forge, pulls: seq<Pull>, now: int, k: nat) returns (i: nat)
    requires k < |Asks(f, pulls, now)|
    ensures i < |pulls| && Due(f, pulls[i]) && Asks(f, pulls, now)[k] == Asked(pulls[i], now)
    ensures k == |Asks(f, pulls[..i], now)|
  {
    i := PickedOf(pulls, IsDue(f), AskedAt(now), k);
  }

  lemma AsksGrow(f: Forge, pulls: seq<Pull>, now: int, i: nat, j: nat)
    requires i < j <= |pulls| && Due(f, pulls[i])
    ensures |Asks(f, pulls[..i], now)| < |Asks(f, pulls[..j], now)|
  {
    PickedGrow(pulls, IsDue(f), AskedAt(now), i, j);
  }

  lemma AsksFree(f: Forge, pulls: seq<Pull>, now: int)
    ensures AllFree(Asks(f, pulls, now))
  {
    forall k | 0 <= k < |Asks(f, pulls, now)| ensures Asks(f, pulls, now)[k].Unclaimed() {
      var i := AskOf(f, pulls, now, k);
      AskedFor(pulls[i], now);
    }
  }

  /** The heads that are due. */
  ghost function DueHeads(f: Forge, pulls: seq<Pull>): set<Q.HeadKey> {
    set i | 0 <= i < |pulls| && Due(f, pulls[i]) :: Key(pulls[i])
  }

  lemma AsksKeys(f: Forge, pulls: seq<Pull>, now: int)
    ensures Keys(Asks(f, pulls, now)) == DueHeads(f, pulls)
  {
    var asks := Asks(f, pulls, now);
    forall k | k in DueHeads(f, pulls) ensures k in Keys(asks) {
      var i :| 0 <= i < |pulls| && Due(f, pulls[i]) && Key(pulls[i]) == k;
      var at := AskAt(f, pulls, now, i);
      AskedFor(pulls[i], now);
      assert asks[at].Key() == k;
    }
    forall k | k in Keys(asks) ensures k in DueHeads(f, pulls) {
      var at :| 0 <= at < |asks| && asks[at].Key() == k;
      var i := AskOf(f, pulls, now, at);
      AskedFor(pulls[i], now);
    }
  }

  predicate SameBranch(a: Pull, b: Pull) {
    a.owner == b.owner && a.repo == b.repo && a.branch == b.branch
  }

  lemma AskedPair(f: Forge, pulls: seq<Pull>, now: int, k: nat, l: nat) returns (i: nat, j: nat)
    requires k < l < |Asks(f, pulls, now)|
    ensures i < j < |pulls| && Due(f, pulls[i]) && Due(f, pulls[j])
    ensures Asks(f, pulls, now)[k].Key() == Key(pulls[i]) && Asks(f, pulls, now)[l].Key() == Key(pulls[j])
    ensures Asks(f, pulls, now)[k].SameBranch(Asks(f, pulls, now)[l]) <==> SameBranch(pulls[i], pulls[j])
  {
    i := AskOf(f, pulls, now, k);
    j := AskOf(f, pulls, now, l);
    if j < i {
      AsksGrow(f, pulls, now, j, i);
    }
    AskedFor(pulls[i], now);
    AskedFor(pulls[j], now);
  }

  // ---- When the pass serves what is due ----

  /** Due pull requests of one branch are for one head. */
  predicate OneDueHeadPerBranch(f: Forge, pulls: seq<Pull>) {
    forall i, j :: 0 <= i < j < |pulls| && Due(f, pulls[i]) && Due(f, pulls[j]) && SameBranch(pulls[i], pulls[j])
                   ==> Key(pulls[i]) == Key(pulls[j])
  }

  predicate DueServed(f: Forge, pulls: seq<Pull>, after: Forge) {
    forall i :: 0 <= i < |pulls| && Due(f, pulls[i]) ==> Key(pulls[i]) in Keys(after.tickets)
  }

  /** Main result: after a restart, and when no branch is due with two heads, the
      pass leaves a ticket for every due head if and only if there are at most 512
      of them. */
  lemma DueServedExactlyWhen(site: Site, f: Forge, pulls: seq<Pull>, now: int)
    requires f.tickets == [] && OneDueHeadPerBranch(f, pulls)
    ensures DueServed(f, pulls, RestorePending(site, f, pulls, now).0) <==> |DueHeads(f, pulls)| <= Q.CAPACITY
  {
    var asks := Asks(f, pulls, now);
    PassEnqueues(site, f, pulls, now);
    AsksFree(f, pulls, now);
    AsksKeys(f, pulls, now);
    if |DueHeads(f, pulls)| <= Q.CAPACITY {
      forall k, l | 0 <= k < |asks| && 0 <= l < |asks| && asks[k].SameBranch(asks[l])
        ensures asks[k].Key() == asks[l].Key()
      {
        if k < l {
          var i, j := AskedPair(f, pulls, now, k, l);
        } else if l < k {
          var i, j := AskedPair(f, pulls, now, l, k);
        }
      }
      AllFit(asks, now);
    }
    if DueServed(f, pulls, RestorePending(site, f, pulls, now).0) {
      TooMany(asks, now);
    }
  }

  // ---- When the pass keeps its promise ----

  predicate PromiseKept(f: Forge, pulls: seq<Pull>, after: Forge) {
    forall i :: 0 <= i < |pulls| && Owed(f, pulls[i]) ==> Key(pulls[i]) in Keys(after.tickets)
  }

  predicate AllDue(f: Forge, pulls: seq<Pull>) {
    forall i :: 0 <= i < |pulls| && Owed(f, pulls[i]) ==> Due(f, pulls[i])
  }

  predicate DistinctHeads(f: Forge, pulls: seq<Pull>) {
    forall i, j :: 0 <= i < j < |pulls| && Owed(f, pulls[i]) && Owed(f, pulls[j]) ==> Key(pulls[i]) != Key(pulls[j])
  }

  predicate DistinctBranches(f: Forge, pulls: seq<Pull>) {
    forall i, j :: 0 <= i < j < |pulls| && Owed(f, pulls[i]) && Owed(f, pulls[j]) ==> !SameBranch(pulls[i], pulls[j])
  }

  /** A head the pass serves was due. */
  lemma ServedWasDue(site: Site, f: Forge, pulls: seq<Pull>, now: int, i: nat)
    requires f.tickets == [] && DistinctHeads(f, pulls) && i < |pulls| && Owed(f, pulls[i])
    requires Key(pulls[i]) in Keys(RestorePending(site, f, pulls, now).0.tickets)
    ensures Due(f, pulls[i])
  {
    PassEnqueues(site, f, pulls, now);
    AsksFree(f, pulls, now);
    var asks := Asks(f, pulls, now);
    EnqueueAllGood(asks, now);
    var ts := EnqueueAll(asks, now);
    var at :| 0 <= at < |ts| && ts[at].Key() == Key(pulls[i]);
    assert ts[at] in asks;
    var k :| 0 <= k < |asks| && asks[k] == ts[at];
    var j := AskOf(f, pulls, now, k);
    AskedFor(pulls[j], now);
    assert Owed(f, pulls[j]);
  }

  /** Two due heads of one branch: the first of them is left out. */
  lemma FirstOfTwoIsLost(site: Site, f: Forge, pulls: seq<Pull>, now: int, i: nat, j: nat)
    requires f.tickets == [] && DistinctHeads(f, pulls) && i < j < |pulls|
    requires Due(f, pulls[i]) && Due(f, pulls[j]) && SameBranch(pulls[i], pulls[j])
    ensures Key(pulls[i]) !in Keys(RestorePending(site, f, pulls, now).0.tickets)
  {
    PassEnqueues(site, f, pulls, now);
    AsksFree(f, pulls, now);
    DistinctAsks(f, pulls, now);
    var k := AskAt(f, pulls, now, i);
    var l := AskAt(f, pulls, now, j);
    AsksGrow(f, pulls, now, i, j);
    AskedFor(pulls[i], now);
    AskedFor(pulls[j], now);
    Displaced(Asks(f, pulls, now), now, k, l);
  }

  lemma DistinctAsks(f: Forge, pulls: seq<Pull>, now: int)
    requires DistinctHeads(f, pulls)
    ensures Q.Distinct(Asks(f, pulls, now))
  {
    var asks := Asks(f, pulls, now);
    forall k, l | 0 <= k < l < |asks| ensures asks[k].Key() != asks[l].Key() {
      var i, j := AskedPair(f, pulls, now, k, l);
    }
  }

  /** Main result: for heads that differ, every open pull request whose head's proof
      is pending has a ticket after a restart and the pass if and only if all of them
      are due, no two are of one branch, and they are at most 512. */
  lemma PromiseKeptExactlyWhen(site: Site, f: Forge, pulls: seq<Pull>, now: int)
    requires f.tickets == [] && DistinctHeads(f, pulls)
    ensures PromiseKept(f, pulls, RestorePending(site, f, pulls, now).0) <==>
            AllDue(f, pulls) && DistinctBranches(f, pulls) && |DueHeads(f, pulls)| <= Q.CAPACITY
  {
    var f' := RestorePending(site, f, pulls, now).0;
    if PromiseKept(f, pulls, f') {
      forall i | 0 <= i < |pulls| && Owed(f, pulls[i]) ensures Due(f, pulls[i]) {
        ServedWasDue(site, f, pulls, now, i);
      }
      forall i, j | 0 <= i < j < |pulls| && Owed(f, pulls[i]) && Owed(f, pulls[j])
        ensures !SameBranch(pulls[i], pulls[j])
      {
        if SameBranch(pulls[i], pulls[j]) {
          FirstOfTwoIsLost(site, f, pulls, now, i, j);
        }
      }
      DueServedExactlyWhen(site, f, pulls, now);
    } else if AllDue(f, pulls) && DistinctBranches(f, pulls) {
      DueServedExactlyWhen(site, f, pulls, now);
    }
  }
}
