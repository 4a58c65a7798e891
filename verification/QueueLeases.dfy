/** What an enqueue and a take do to the tickets, place by place, and what a lease
    that has run out is good for in every run of the queue. */
module QueueLeases {
  import opened Prelude
  import opened AuditQueue

  // ---- Enqueue ----

  /** The ticket outlives the arrival of `t`. */
  predicate Outlives(h: Ticket, t: Ticket) {
    h.claimedBy.Some? || h.owner != t.owner || h.repo != t.repo || h.branch != t.branch
  }

  lemma {:induction false} KeptAppend(a: seq<Ticket>, b: seq<Ticket>, t: Ticket)
    ensures Kept(a + b, t) == Kept(a, t) + Kept(b, t)
  {
    if a == [] {
      assert a + b == b;
    } else {
      assert (a + b)[1..] == a[1..] + b;
      KeptAppend(a[1..], b, t);
    }
  }

  lemma KeptOne(h: Ticket, t: Ticket)
    ensures Kept([h], t) == if Outlives(h, t) then [h] else []
  {
    assert [h][1..] == [];
  }

  /** Every ticket is kept in its place or, when it does not outlive `t`, left out,
      whatever stands around it. */
  lemma KeptInPlace(before: seq<Ticket>, h: Ticket, after: seq<Ticket>, t: Ticket)
    ensures Kept(before + [h] + after, t) ==
            Kept(before, t) + (if Outlives(h, t) then [h] else []) + Kept(after, t)
  {
    KeptAppend(before + [h], after, t);
    KeptAppend(before, [h], t);
    KeptOne(h, t);
  }

  /** The ticket at `at` is the head's, and asks for another base or mode of a queue ref. */
  predicate OutOfDate(live: seq<Ticket>, at: nat, t: Ticket)
    requires at < |live|
  {
    && "refs/queue/" <= t.branch && live[at].branch == t.branch
    && (live[at].base != t.base || live[at].mode != t.mode)
  }

  predicate SameHead(h: Ticket, t: Ticket) {
    h.owner == t.owner && h.repo == t.repo && h.head == t.head
  }

  /** Main result: an enqueue of a head that has a ticket replaces it, in its
      place, exactly when it is a queue ref's and asks for another audit. */
  lemma EnqueueHeld(ts: seq<Ticket>, t: Ticket, now: int, at: nat) returns (live: seq<Ticket>)
    requires Distinct(ts) && at < |ts| && SameHead(ts[at], t)
    ensures AllAged(ts, live, now)
    ensures Enqueued(ts, t, now) ==
            if OutOfDate(live, at, t) then (live[at := t], Superseded(1)) else (live, AlreadyQueued)
  {
    live := Expire(ts, now);
    ExpireAges(ts, now);
    assert live[at].Key() == t.Key();
    var found := IndexOf(live, t.Key()).value;
    assert found == at by {
      assert ts[found].Key() == ts[at].Key();
    }
  }

  predicate AllClaimed(ts: seq<Ticket>) {
    forall j :: 0 <= j < |ts| ==> ts[j].claimedBy.Some?
  }

  /** `j` is the first unclaimed one. */
  predicate OldestFree(ts: seq<Ticket>, j: nat) {
    j < |ts| && ts[j].claimedBy.None? && AllClaimed(ts[..j])
  }

  /** What becomes of the survivors and the new ticket: room for 512. */
  ghost predicate Admits(kept: seq<Ticket>, t: Ticket, r: seq<Ticket>, full: bool) {
    if |kept| < 512 then r == kept + [t] && !full
    else if AllClaimed(kept) then r == kept && full
    else !full && exists j: nat :: OldestFree(kept, j) && r == kept[..j] + kept[j + 1..] + [t]
  }

  /** Main result: an enqueue of a new head drops the unclaimed tickets of its
      branch, then, with 512 left, the oldest unclaimed one, and goes last; it is
      refused exactly when all 512 are claimed. */
  lemma EnqueueNew(ts: seq<Ticket>, t: Ticket, now: int) returns (live: seq<Ticket>, kept: seq<Ticket>)
    requires forall i :: 0 <= i < |ts| ==> !SameHead(ts[i], t)
    ensures AllAged(ts, live, now) && kept == Kept(live, t) && |kept| <= |ts|
    ensures
      var (r, outcome) := Enqueued(ts, t, now);
      && Admits(kept, t, r, outcome.Full?)
      && (!outcome.Full? ==>
            outcome == if |kept| == |ts| then Queued else Superseded(|ts| - |kept|))
  {
    live := Expire(ts, now);
    ExpireAges(ts, now);
    assert forall i :: 0 <= i < |live| ==> live[i].Key() == ts[i].Key() != t.Key();
    kept := Kept(live, t);
    var oldest := FirstUnclaimed(kept);
    if oldest.Some? {
      assert OldestFree(kept, oldest.value);
    }
  }

  // ---- Take ----

  /** Main result: a take removes and returns the head's ticket, and nothing else. */
  lemma TakeHeld(ts: seq<Ticket>, at: nat)
    requires Distinct(ts) && at < |ts|
    ensures Taken(ts, HeadKey(ts[at].owner, ts[at].repo, ts[at].head)) ==
            (ts[..at] + ts[at + 1..], Some(ts[at]))
  {
    var found := IndexOf(ts, ts[at].Key()).value;
    assert found == at;
  }

  // ---- A lease that has run out ----

  /** If the head still has a ticket, its claim is no later than `at`. */
  predicate NoLaterThan(ts: seq<Ticket>, k: HeadKey, at: int) {
    forall i :: 0 <= i < |ts| && ts[i].Key() == k && ts[i].claimedAt.Some? ==> ts[i].claimedAt.value <= at
  }

  lemma NoLaterStep(ops: seq<Op>, j: nat, k: HeadKey, at: int)
    requires Legal(ops) && j < |ops| && NoLaterThan(After(ops[..j]), k, at) && !ClaimedBy(ops, j, k)
    ensures NoLaterThan(After(ops[..j + 1]), k, at)
  {
    var ts, op := After(ops[..j]), ops[j];
    assert ops[..j + 1][..j] == ops[..j];
    AlwaysGood(ops[..j]);
    match op
    case DoTake(key, _) => TakeLater(ts, key, k, at);
    case DoClaim(runner, max, now) =>
      var out := Claimed(ts, runner, max, now).1;
      assert forall m :: 0 <= m < |out| ==> out[m] in out;
      ClaimLater(ts, runner, max, now, k, at);
    case DoEnqueue(t, now) => EnqueueLater(ts, t, now, k, at);
  }

  lemma TakeLater(ts: seq<Ticket>, key: HeadKey, k: HeadKey, at: int)
    requires NoLaterThan(ts, k, at)
    ensures NoLaterThan(Taken(ts, key).0, k, at)
  {
    var i := IndexOf(ts, key);
    if i.Some? {
      var r := Without(ts, i.value);
      assert forall j :: 0 <= j < |r| ==> r[j] == ts[if j < i.value then j else j + 1];
    }
  }

  lemma ClaimLater(ts: seq<Ticket>, runner: string, max: nat, now: int, k: HeadKey, at: int)
    requires NoLaterThan(ts, k, at)
    requires Absent(Claimed(ts, runner, max, now).1, k)
    ensures NoLaterThan(Claimed(ts, runner, max, now).0, k, at)
  {
    var (r, out) := Claimed(ts, runner, max, now);
    HandOutHandsOut(ts, runner, Batch(max), now);
    forall i | 0 <= i < |r| && r[i].Key() == k && r[i].claimedAt.Some?
      ensures r[i].claimedAt.value <= at
    {
      assert HandedAt(ts, i, r[i], out, runner, Batch(max), now);
    }
  }

  lemma EnqueueLater(ts: seq<Ticket>, t: Ticket, now: int, k: HeadKey, at: int)
    requires Good(ts) && NoLaterThan(ts, k, at) && t.Unclaimed()
    ensures NoLaterThan(Enqueued(ts, t, now).0, k, at)
  {
    EnqueueAccounts(ts, t, now);
    var live, r := Expire(ts, now), Enqueued(ts, t, now).0;
    forall i | 0 <= i < |r| && r[i].Key() == k && r[i].claimedAt.Some?
      ensures r[i].claimedAt.value <= at
    {
      assert r[i] in r;
      var m :| 0 <= m < |live| && live[m] == r[i];
      assert ts[m].Key() == k && ts[m].claimedAt == live[m].claimedAt;
    }
  }

  /** The same of the queue after `j` operations. */
  predicate NoLaterAt(ops: seq<Op>, j: nat, k: HeadKey, at: int) {
    j <= |ops| && NoLaterThan(After(ops[..j]), k, at)
  }

  /** Nothing between the two hands the head out. */
  predicate Quiet(ops: seq<Op>, i: nat, j: nat, k: HeadKey)
    requires j <= |ops|
  {
    forall m :: i < m < j ==> !ClaimedBy(ops, m, k)
  }

  lemma NoLaterPast(ops: seq<Op>, i: nat, j: nat, k: HeadKey, at: int, n: nat)
    requires Legal(ops) && i < n < j <= |ops| && NoLaterAt(ops, n, k, at) && Quiet(ops, i, j, k)
    ensures NoLaterAt(ops, n + 1, k, at)
  {
    assert !ClaimedBy(ops, n, k);
    NoLaterStep(ops, n, k, at);
  }

  predicate StaysNoLater(before: seq<Ticket>, after: seq<Ticket>, k: HeadKey, at: int) {
    NoLaterThan(before, k, at) ==> NoLaterThan(after, k, at)
  }

  /** Along any list of queues each of which keeps it. */
  lemma NoLaterAlong(queues: seq<seq<Ticket>>, lo: nat, hi: nat, k: HeadKey, at: int)
    requires lo <= hi < |queues| && NoLaterThan(queues[lo], k, at)
    requires forall n: nat :: lo <= n < hi ==> StaysNoLater(queues[n], queues[n + 1], k, at)
    ensures NoLaterThan(queues[hi], k, at)
  {
    var n := lo;
    while n < hi
      invariant lo <= n <= hi && NoLaterThan(queues[n], k, at)
    {
      assert StaysNoLater(queues[n], queues[n + 1], k, at);
      n := n + 1;
    }
  }

  lemma StaysPast(ops: seq<Op>, i: nat, j: nat, k: HeadKey, at: int, n: nat)
    requires Legal(ops) && i < n < j <= |ops| && Quiet(ops, i, j, k)
    ensures StaysNoLater(After(ops[..n]), After(ops[..n + 1]), k, at)
  {
    if NoLaterThan(After(ops[..n]), k, at) {
      NoLaterPast(ops, i, j, k, at, n);
    }
  }

  /** The queues a run goes through. */
  function Queues(ops: seq<Op>, j: nat): (r: seq<seq<Ticket>>)
    requires j <= |ops|
    ensures |r| == j + 1 && forall n: nat :: n <= j ==> r[n] == After(ops[..n])
  {
    seq(j + 1, n requires 0 <= n <= j => After(ops[..n]))
  }

  lemma NoLaterUntil(ops: seq<Op>, i: nat, j: nat, k: HeadKey, at: int)
    requires Legal(ops) && i < j <= |ops| && NoLaterAt(ops, i + 1, k, at) && Quiet(ops, i, j, k)
    ensures NoLaterAt(ops, j, k, at)
  {
    var queues := Queues(ops, j);
    forall n: nat | i + 1 <= n < j ensures StaysNoLater(queues[n], queues[n + 1], k, at) {
      StaysPast(ops, i, j, k, at, n);
    }
    NoLaterAlong(queues, i + 1, j, k, at);
  }

  lemma JustClaimed(ops: seq<Op>, i: nat, k: HeadKey)
    requires Legal(ops) && i < |ops| && ClaimedBy(ops, i, k)
    ensures NoLaterAt(ops, i + 1, k, ops[i].now)
  {
    var ts, op := After(ops[..i]), ops[i];
    assert ops[..i + 1][..i] == ops[..i];
    AlwaysGood(ops[..i + 1]);
    var t :| t in Claimed(ts, op.runner, op.max, op.now).1 && t.Key() == k;
    var at := HandedOutWasFree(Expire(ts, op.now), op.runner, Batch(op.max), op.now, t);
  }

  /** Main result, beside `LeasesKeepApart`: more than 1800 seconds after its last
      claim, a head that still has a ticket is handed out by a claim if and only if
      fewer free tickets stand before it than that claim may hand out. */
  lemma LeaseEndsExactly(ops: seq<Op>, i: nat, j: nat, k: HeadKey, place: nat)
    requires Legal(ops) && i < j < |ops| && ClaimedBy(ops, i, k) && ops[j].DoClaim?
    requires Quiet(ops, i, j, k)
    requires place < |After(ops[..j])| && After(ops[..j])[place].Key() == k
    requires ops[j].now - ops[i].now > 1_800_000_000_000
    ensures ClaimedBy(ops, j, k) <==>
            FreeAmong(After(ops[..j])[..place], ops[j].now) < Smaller(ops[j].max, 8)
  {
    JustClaimed(ops, i, k);
    NoLaterUntil(ops, i, j, k, ops[i].now);
    AlwaysGood(ops[..j]);
    var ts, op := After(ops[..j]), ops[j];
    assert Free(ts[place], op.now);
    HandOutHandsOut(ts, op.runner, Batch(op.max), op.now);
    var (r, out) := Claimed(ts, op.runner, op.max, op.now);
    assert HandedAt(ts, place, r[place], out, op.runner, Batch(op.max), op.now);
    if FreeAmong(ts[..place], op.now) < Batch(op.max) {
      assert r[place] in out && r[place].Key() == k;
    }
    if t :| t in out && t.Key() == k {
      WasHandedOut(ts, r, out, op.runner, Batch(op.max), op.now, t, place);
    }
  }

  lemma WasHandedOut(ts: seq<Ticket>, r: seq<Ticket>, out: seq<Ticket>, runner: string, limit: nat, now: int, t: Ticket,
                     place: nat)
    requires Good(ts) && (r, out) == HandOut(Expire(ts, now), runner, limit, now)
    requires HandsOut(ts, r, out, runner, limit, now)
    requires t in out && place < |ts| && t.Key() == ts[place].Key() && Free(ts[place], now)
    ensures FreeAmong(ts[..place], now) < limit
  {
    var at := HandedOutWasFree(Expire(ts, now), runner, limit, now, t);
    assert ts[at].Key() == ts[place].Key();
    assert at == place;
    assert HandedAt(ts, place, r[place], out, runner, limit, now);
    FreshClaim(ts[place], r[place], runner, now);
  }

  /** A ticket that was free and carries a claim of this instant has not just aged. */
  lemma FreshClaim(t: Ticket, t': Ticket, runner: string, now: int)
    requires Free(t, now) && t' == ClaimOne(t, runner, now) && (t.claimedBy.Some? <==> t.claimedAt.Some?)
    ensures !Aged(t, t', now)
  {
  }

  /** Main result: in every run at most 512 tickets wait. */
  lemma NeverMoreThan512(ops: seq<Op>)
    requires Legal(ops)
    ensures |After(ops)| <= 512
  {
    AlwaysGood(ops);
  }
}
