/** The bounded queue of heads waiting for an audit.

    A push writes a ticket, a gate runner claims it under a lease, and the report
    that comes back takes it. The class is the queue as the forge holds it; each
    method is tied to a function on the ticket list, and the results below are
    about every run of those functions under a clock that never goes back. */
module AuditQueue {
  import opened Prelude

  const CAPACITY := 512
  const MAX_CLAIM_BATCH := 8
  /** Instants are nanoseconds, as `chrono` keeps them. */
  const CLAIM_LEASE := 1_800 * 1_000_000_000
  const QUEUE_PREFIX := "refs/queue/"

  datatype Mode = DiffAudit | FullAudit

  datatype HeadKey = HeadKey(owner: string, repo: string, head: string)

  datatype Ticket = Ticket(
    owner: string, repo: string, branch: string, head: string, base: string, mode: Mode,
    enqueuedAt: int, claimedBy: Option<string>, claimedAt: Option<int>)
  {
    function Key(): HeadKey { HeadKey(owner, repo, head) }

    predicate Unclaimed() { claimedBy.None? && claimedAt.None? }

    predicate SameBranch(other: Ticket) {
      owner == other.owner && repo == other.repo && branch == other.branch
    }
  }

  datatype Outcome = Queued | AlreadyQueued | Superseded(count: nat) | Full

  // ---- What each operation does to the ticket list ----

  function ExpireOne(t: Ticket, now: int): Ticket {
    if t.claimedAt.Some? && now - t.claimedAt.value > CLAIM_LEASE
    then t.(claimedBy := None, claimedAt := None)
    else t
  }

  function Expire(ts: seq<Ticket>, now: int): (r: seq<Ticket>)
    ensures |r| == |ts|
  {
    seq(|ts|, i requires 0 <= i < |ts| => ExpireOne(ts[i], now))
  }

  function IndexOf(ts: seq<Ticket>, k: HeadKey): (at: Option<nat>)
    ensures at.Some? ==> at.value < |ts| && ts[at.value].Key() == k
    ensures at.None? ==> forall i :: 0 <= i < |ts| ==> ts[i].Key() != k
  {
    if ts == [] then None
    else if ts[0].Key() == k then Some(0)
    else
      var at := IndexOf(ts[1..], k);
      if at.None? then None else Some(at.value + 1)
  }

  function FirstUnclaimed(ts: seq<Ticket>): (at: Option<nat>)
    ensures at.Some? ==> at.value < |ts| && ts[at.value].claimedBy.None?
    ensures forall i :: 0 <= i < (if at.Some? then at.value else |ts|) ==> ts[i].claimedBy.Some?
  {
    if ts == [] then None
    else if ts[0].claimedBy.None? then Some(0)
    else
      var at := FirstUnclaimed(ts[1..]);
      if at.None? then None else Some(at.value + 1)
  }

  /** Tickets that outlive the arrival of `t`: the claimed ones, and those of
      other branches. */
  function Kept(ts: seq<Ticket>, t: Ticket): (r: seq<Ticket>)
    ensures |r| <= |ts|
    ensures forall h :: h in r <==> h in ts && (h.claimedBy.Some? || !h.SameBranch(t))
  {
    if ts == [] then []
    else if ts[0].claimedBy.Some? || !ts[0].SameBranch(t) then [ts[0]] + Kept(ts[1..], t)
    else Kept(ts[1..], t)
  }

  function Without(ts: seq<Ticket>, i: nat): seq<Ticket>
    requires i < |ts|
  {
    ts[..i] + ts[i + 1..]
  }

  /** A queue ref kept its head while the base or the mode it is audited with
      changed, so the ticket held for it, claimed or not, is replaced. */
  predicate Replaces(held: Ticket, t: Ticket) {
    && QUEUE_PREFIX <= t.branch
    && held.branch == t.branch
    && (held.base != t.base || held.mode != t.mode)
  }

  function Enqueued(ts: seq<Ticket>, t: Ticket, now: int): (seq<Ticket>, Outcome) {
    var live := Expire(ts, now);
    var at := IndexOf(live, t.Key());
    if at.Some? then
      if Replaces(live[at.value], t) then (live[at.value := t], Superseded(1))
      else (live, AlreadyQueued)
    else
      var kept := Kept(live, t);
      var gone := |live| - |kept|;
      var outcome := if gone > 0 then Superseded(gone) else Queued;
      if |kept| < CAPACITY then (kept + [t], outcome)
      else
        var oldest := FirstUnclaimed(kept);
        if oldest.None? then (kept, Full)
        else (Without(kept, oldest.value) + [t], outcome)
  }

  function ClaimOne(t: Ticket, runner: string, now: int): Ticket {
    t.(claimedBy := Some(runner), claimedAt := Some(now))
  }

  /** Hand out up to `budget` unclaimed tickets, oldest first. */
  function HandOut(ts: seq<Ticket>, runner: string, budget: nat, now: int): (r: (seq<Ticket>, seq<Ticket>))
    ensures |r.0| == |ts| && |r.1| <= budget
  {
    if ts == [] || budget == 0 then (ts, [])
    else if ts[0].claimedBy.Some? then
      var (rest, out) := HandOut(ts[1..], runner, budget, now);
      ([ts[0]] + rest, out)
    else
      var (rest, out) := HandOut(ts[1..], runner, budget - 1, now);
      ([ClaimOne(ts[0], runner, now)] + rest, [ClaimOne(ts[0], runner, now)] + out)
  }

  function Batch(max: nat): nat {
    if max < MAX_CLAIM_BATCH then max else MAX_CLAIM_BATCH
  }

  function Claimed(ts: seq<Ticket>, runner: string, max: nat, now: int): (seq<Ticket>, seq<Ticket>) {
    HandOut(Expire(ts, now), runner, Batch(max), now)
  }

  function Taken(ts: seq<Ticket>, k: HeadKey): (seq<Ticket>, Option<Ticket>) {
    var at := IndexOf(ts, k);
    if at.None? then (ts, None) else (Without(ts, at.value), Some(ts[at.value]))
  }

  /** The claim loop after `i` tickets: what it did so far, completed by what the
      rest of the list still gives. */
  ghost predicate HandingOut(live: seq<Ticket>, tickets: seq<Ticket>, claimed: seq<Ticket>, i: nat,
                             runner: string, limit: nat, now: int)
    requires i <= |tickets| == |live| && |claimed| <= limit
  {
    var (rest, more) := HandOut(live[i..], runner, limit - |claimed|, now);
    HandOut(live, runner, limit, now) == (tickets[..i] + rest, claimed + more)
  }

  lemma HandOutStart(live: seq<Ticket>, runner: string, limit: nat, now: int)
    ensures HandingOut(live, live, [], 0, runner, limit, now)
  {
    assert live[0..] == live;
    var (rest, more) := HandOut(live, runner, limit, now);
    assert live[..0] + rest == rest && [] + more == more;
  }

  lemma HandOutStep(live: seq<Ticket>, tickets: seq<Ticket>, claimed: seq<Ticket>, i: nat,
                    runner: string, limit: nat, now: int)
    requires i < |tickets| == |live| && |claimed| < limit && tickets[i..] == live[i..]
    requires HandingOut(live, tickets, claimed, i, runner, limit, now)
    ensures
      var t := tickets[i];
      if t.claimedBy.None?
      then HandingOut(live, tickets[i := ClaimOne(t, runner, now)], claimed + [ClaimOne(t, runner, now)], i + 1,
                      runner, limit, now)
      else HandingOut(live, tickets, claimed, i + 1, runner, limit, now)
  {
    var t := tickets[i];
    assert live[i..][1..] == live[i + 1..] && live[i..][0] == tickets[i..][0] == t;
    var (rest, more) := HandOut(live[i..], runner, limit - |claimed|, now);
    var t' := if t.claimedBy.None? then ClaimOne(t, runner, now) else t;
    assert tickets[..i] + rest == tickets[i := t'][..i + 1] + rest[1..];
    if t.claimedBy.None? {
      assert claimed + more == (claimed + [t']) + more[1..];
    } else {
      assert tickets[i := t'] == tickets;
    }
  }

  lemma HandOutEnd(live: seq<Ticket>, tickets: seq<Ticket>, claimed: seq<Ticket>, i: nat,
                   runner: string, limit: nat, now: int)
    requires i <= |tickets| == |live| && |claimed| <= limit && tickets[i..] == live[i..]
    requires i == |tickets| || |claimed| == limit
    requires HandingOut(live, tickets, claimed, i, runner, limit, now)
    ensures HandOut(live, runner, limit, now) == (tickets, claimed)
  {
    assert tickets[..i] + live[i..] == tickets && claimed + [] == claimed;
  }

  // ---- The same, ticket by ticket ----

  /** The claim is more than 1800 seconds old. */
  predicate RunOut(t: Ticket, now: int) {
    t.claimedAt.Some? && now - t.claimedAt.value > 1_800_000_000_000
  }

  /** What time does to a ticket: nothing, or it frees it. */
  predicate Aged(t: Ticket, t': Ticket, now: int) {
    && t' == t.(claimedBy := t'.claimedBy, claimedAt := t'.claimedAt)
    && (t'.Unclaimed() <==> t.Unclaimed() || RunOut(t, now))
    && (!RunOut(t, now) ==> t' == t)
  }

  predicate AllAged(ts: seq<Ticket>, ts': seq<Ticket>, now: int) {
    |ts'| == |ts| && forall i :: 0 <= i < |ts| ==> Aged(ts[i], ts'[i], now)
  }

  lemma ExpireAges(ts: seq<Ticket>, now: int)
    ensures AllAged(ts, Expire(ts, now), now)
  {
  }

  /** The ticket can be handed out now. */
  predicate Free(t: Ticket, now: int) {
    t.claimedBy.None? || RunOut(t, now)
  }

  function FreeAmong(ts: seq<Ticket>, now: int): nat {
    if ts == [] then 0 else FreeAmong(ts[..|ts| - 1], now) + if Free(ts[|ts| - 1], now) then 1 else 0
  }

  function Smaller(a: nat, b: nat): nat {
    if a <= b then a else b
  }

  /** The ticket at `i` is handed out when it is free and fewer than `limit` free
      ones stand before it; if not, it has only aged. */
  predicate HandedAt(ts: seq<Ticket>, i: nat, t': Ticket, out: seq<Ticket>, runner: string, limit: nat, now: int)
    requires i < |ts|
  {
    var before := FreeAmong(ts[..i], now);
    if Free(ts[i], now) && before < limit
    then before < |out| && t' == out[before] == ts[i].(claimedBy := Some(runner), claimedAt := Some(now))
    else Aged(ts[i], t', now)
  }

  /** The runner gets the first free tickets, in order, at most `limit` of them;
      these carry its claim now, and the others have only aged. */
  predicate HandsOut(ts: seq<Ticket>, ts': seq<Ticket>, out: seq<Ticket>, runner: string, limit: nat, now: int) {
    && |ts'| == |ts| && |out| == Smaller(limit, FreeAmong(ts, now))
    && forall i :: 0 <= i < |ts| ==> HandedAt(ts, i, ts'[i], out, runner, limit, now)
  }

  lemma {:induction false} FreeGrows(ts: seq<Ticket>, now: int, i: nat)
    requires i <= |ts|
    ensures FreeAmong(ts[..i], now) <= FreeAmong(ts, now)
    ensures i < |ts| && Free(ts[i], now) ==> FreeAmong(ts[..i], now) < FreeAmong(ts, now)
  {
    if i == |ts| {
      assert ts[..i] == ts;
    } else {
      FreeGrows(ts[..|ts| - 1], now, i);
      assert ts[..|ts| - 1][..i] == ts[..i];
    }
  }

  lemma {:induction false} FreeFromFront(ts: seq<Ticket>, now: int)
    requires ts != []
    ensures FreeAmong(ts, now) == FreeAmong(ts[1..], now) + if Free(ts[0], now) then 1 else 0
  {
    var n := |ts| - 1;
    if n == 0 {
      assert ts[..0] == [] && ts[1..] == [];
    } else {
      FreeFromFront(ts[..n], now);
      assert ts[..n][1..] == ts[1..][..n - 1];
    }
  }

  lemma HandedBehind(ts: seq<Ticket>, i: nat, t': Ticket, out: seq<Ticket>, runner: string, limit: nat, now: int)
    requires 0 < i < |ts| && HandedAt(ts[1..], i - 1, t', out, runner, limit, now)
    ensures
      if Free(ts[0], now) then HandedAt(ts, i, t', [ClaimOne(ts[0], runner, now)] + out, runner, limit + 1, now)
      else HandedAt(ts, i, t', out, runner, limit, now)
  {
    FreeFromFront(ts[..i], now);
    assert ts[..i][1..] == ts[1..][..i - 1];
  }

  lemma HandedFirst(ts: seq<Ticket>, out: seq<Ticket>, runner: string, limit: nat, now: int)
    requires ts != []
    ensures
      var first := ClaimOne(ts[0], runner, now);
      if Free(ts[0], now) then HandedAt(ts, 0, first, [first] + out, runner, limit + 1, now)
      else HandedAt(ts, 0, ts[0], out, runner, limit, now)
  {
    assert ts[..0] == [];
  }

  /** Handing out from the second ticket on, seen from the first. */
  lemma HandsOutBehind(ts: seq<Ticket>, ts': seq<Ticket>, out: seq<Ticket>, runner: string, limit: nat, now: int)
    requires ts != [] && HandsOut(ts[1..], ts', out, runner, limit, now)
    ensures
      var first := ClaimOne(ts[0], runner, now);
      if Free(ts[0], now) then HandsOut(ts, [first] + ts', [first] + out, runner, limit + 1, now)
      else HandsOut(ts, [ts[0]] + ts', out, runner, limit, now)
  {
    FreeFromFront(ts, now);
    HandedFirst(ts, out, runner, limit, now);
    forall j | 0 <= j < |ts'|
      ensures
        if Free(ts[0], now)
        then HandedAt(ts, j + 1, ts'[j], [ClaimOne(ts[0], runner, now)] + out, runner, limit + 1, now)
        else HandedAt(ts, j + 1, ts'[j], out, runner, limit, now)
    {
      HandedBehind(ts, j + 1, ts'[j], out, runner, limit, now);
    }
  }

  lemma {:induction false} HandOutHandsOut(ts: seq<Ticket>, runner: string, limit: nat, now: int)
    ensures
      var (ts', out) := HandOut(Expire(ts, now), runner, limit, now);
      HandsOut(ts, ts', out, runner, limit, now)
  {
    var live := Expire(ts, now);
    if ts == [] {
      assert HandOut(live, runner, limit, now) == (live, []);
    } else if limit == 0 {
      assert HandOut(live, runner, limit, now) == (live, []);
    } else {
      assert live[1..] == Expire(ts[1..], now);
      assert live[0].claimedBy.None? <==> Free(ts[0], now);
      HandOutHandsOut(ts[1..], runner, if Free(ts[0], now) then limit - 1 else limit, now);
      var (rest, out) := HandOut(live[1..], runner, if Free(ts[0], now) then limit - 1 else limit, now);
      HandsOutBehind(ts, rest, out, runner, if Free(ts[0], now) then limit - 1 else limit, now);
      assert Free(ts[0], now) ==> ClaimOne(live[0], runner, now) == ClaimOne(ts[0], runner, now);
      assert !Free(ts[0], now) ==> live[0] == ts[0];
    }
  }

  // ---- The queue object ----

  class Queue {
    var tickets: seq<Ticket>

    constructor ()
      ensures tickets == []
    {
      tickets := [];
    }

    method ExpireStaleClaims(now: int)
      modifies this
      ensures tickets == Expire(old(tickets), now) && AllAged(old(tickets), tickets, now)
    {
      ghost var was := tickets;
      var i := 0;
      while i < |tickets|
        invariant 0 <= i <= |tickets| == |was|
        invariant forall j :: 0 <= j < i ==> tickets[j] == ExpireOne(was[j], now)
        invariant forall j :: i <= j < |was| ==> tickets[j] == was[j]
      {
        var t := tickets[i];
        if t.claimedAt.Some? && now - t.claimedAt.value > CLAIM_LEASE {
          tickets := tickets[i := t.(claimedBy := None, claimedAt := None)];
        }
        i := i + 1;
      }
    }

    method Enqueue(ticket: Ticket, now: int) returns (outcome: Outcome)
      modifies this
      ensures (tickets, outcome) == Enqueued(old(tickets), ticket, now)
    {
      ExpireStaleClaims(now);
      var index := IndexOf(tickets, ticket.Key());
      if index.Some? {
        if Replaces(tickets[index.value], ticket) {
          tickets := tickets[index.value := ticket];
          return Superseded(1);
        }
        return AlreadyQueued;
      }
      var before := |tickets|;
      tickets := Kept(tickets, ticket);
      var superseded := before - |tickets|;
      if |tickets| >= CAPACITY {
        var oldest := FirstUnclaimed(tickets);
        if oldest.None? {
          return Full;
        }
        tickets := Without(tickets, oldest.value);
      }
      tickets := tickets + [ticket];
      outcome := if superseded > 0 then Superseded(superseded) else Queued;
    }

    method Claim(runner: string, max: nat, now: int) returns (claimed: seq<Ticket>)
      modifies this
      ensures (tickets, claimed) == Claimed(old(tickets), runner, max, now)
      ensures HandsOut(old(tickets), tickets, claimed, runner, Smaller(max, 8), now)
    {
      ExpireStaleClaims(now);
      claimed := ClaimFree(runner, Batch(max), now);
      HandOutHandsOut(old(tickets), runner, Batch(max), now);
    }

    method ClaimFree(runner: string, limit: nat, now: int) returns (claimed: seq<Ticket>)
      modifies this
      ensures (tickets, claimed) == HandOut(old(tickets), runner, limit, now)
    {
      ghost var live := tickets;
      claimed := [];
      var i := 0;
      HandOutStart(live, runner, limit, now);
      while i < |tickets|
        invariant 0 <= i <= |tickets| == |live| && |claimed| <= limit
        invariant tickets[i..] == live[i..]
        invariant HandingOut(live, tickets, claimed, i, runner, limit, now)
      {
        if |claimed| >= limit {
          break;
        }
        HandOutStep(live, tickets, claimed, i, runner, limit, now);
        var t := tickets[i];
        if t.claimedBy.None? {
          tickets := tickets[i := ClaimOne(t, runner, now)];
          claimed := claimed + [ClaimOne(t, runner, now)];
        }
        i := i + 1;
      }
      HandOutEnd(live, tickets, claimed, i, runner, limit, now);
    }

    method Take(key: HeadKey) returns (taken: Option<Ticket>)
      modifies this
      ensures (tickets, taken) == Taken(old(tickets), key)
    {
      var index := IndexOf(tickets, key);
      if index.None? {
        return None;
      }
      taken := Some(tickets[index.value]);
      tickets := Without(tickets, index.value);
    }
  }

  // ---- What every operation keeps ----

  predicate Distinct(ts: seq<Ticket>) {
    forall i, j :: 0 <= i < j < |ts| ==> ts[i].Key() != ts[j].Key()
  }

  predicate Coherent(ts: seq<Ticket>) {
    forall i :: 0 <= i < |ts| ==> (ts[i].claimedBy.Some? <==> ts[i].claimedAt.Some?)
  }

  predicate Good(ts: seq<Ticket>) {
    |ts| <= CAPACITY && Distinct(ts) && Coherent(ts)
  }

  lemma ExpireGood(ts: seq<Ticket>, now: int)
    requires Good(ts)
    ensures Good(Expire(ts, now))
  {
    var live := Expire(ts, now);
    assert forall i :: 0 <= i < |ts| ==> live[i].Key() == ts[i].Key();
  }

  lemma {:induction false} KeptGood(ts: seq<Ticket>, t: Ticket)
    requires Distinct(ts) && Coherent(ts)
    ensures Distinct(Kept(ts, t)) && Coherent(Kept(ts, t))
  {
    if ts != [] {
      KeptGood(ts[1..], t);
      var rest := Kept(ts[1..], t);
      forall i | 0 <= i < |rest| ensures rest[i].Key() != ts[0].Key() {
        assert rest[i] in ts[1..];
      }
    }
  }

  predicate Absent(ts: seq<Ticket>, k: HeadKey) {
    forall i :: 0 <= i < |ts| ==> ts[i].Key() != k
  }

  lemma WithoutGood(ts: seq<Ticket>, i: nat, k: HeadKey)
    requires i < |ts| && Distinct(ts) && Coherent(ts)
    ensures Distinct(Without(ts, i)) && Coherent(Without(ts, i))
    ensures Absent(ts, k) ==> Absent(Without(ts, i), k)
    ensures Absent(Without(ts, i), ts[i].Key())
  {
    var r := Without(ts, i);
    assert forall j :: 0 <= j < |r| ==> r[j] == if j < i then ts[j] else ts[j + 1];
  }

  lemma KeptAbsent(ts: seq<Ticket>, t: Ticket, k: HeadKey)
    requires Absent(ts, k)
    ensures Absent(Kept(ts, t), k)
  {
    var kept := Kept(ts, t);
    forall i | 0 <= i < |kept| ensures kept[i].Key() != k {
      assert kept[i] in ts;
    }
  }

  lemma EnqueueGood(ts: seq<Ticket>, t: Ticket, now: int)
    requires Good(ts) && t.Unclaimed()
    ensures Good(Enqueued(ts, t, now).0)
  {
    ExpireGood(ts, now);
    var live := Expire(ts, now);
    if IndexOf(live, t.Key()).None? {
      KeptGood(live, t);
      KeptAbsent(live, t, t.Key());
      RoomGood(Kept(live, t), t);
    }
  }

  /** A new ticket behind the kept ones, or in the place of the oldest free one. */
  lemma RoomGood(kept: seq<Ticket>, t: Ticket)
    requires Good(kept) && Absent(kept, t.Key()) && t.Unclaimed()
    ensures |kept| < CAPACITY ==> Good(kept + [t])
    ensures FirstUnclaimed(kept).Some? ==> Good(Without(kept, FirstUnclaimed(kept).value) + [t])
  {
    var oldest := FirstUnclaimed(kept);
    if oldest.Some? {
      WithoutGood(kept, oldest.value, t.Key());
    }
  }

  lemma {:induction false} HandOutGood(ts: seq<Ticket>, runner: string, budget: nat, now: int)
    requires Coherent(ts)
    ensures
      var r := HandOut(ts, runner, budget, now).0;
      && Coherent(r)
      && forall i :: 0 <= i < |ts| ==>
           r[i] == ts[i] || (ts[i].claimedBy.None? && r[i] == ClaimOne(ts[i], runner, now))
  {
    if ts != [] && budget > 0 {
      HandOutGood(ts[1..], runner, if ts[0].claimedBy.None? then budget - 1 else budget, now);
    }
  }

  /** A ticket handed out was free, and the list now carries the claim. */
  lemma {:induction false} HandedOutWasFree(ts: seq<Ticket>, runner: string, budget: nat, now: int, o: Ticket)
    returns (i: nat)
    requires o in HandOut(ts, runner, budget, now).1
    ensures i < |ts| && ts[i].claimedBy.None?
    ensures o == HandOut(ts, runner, budget, now).0[i] == ClaimOne(ts[i], runner, now)
  {
    if ts[0].claimedBy.None? && o == ClaimOne(ts[0], runner, now) {
      i := 0;
    } else {
      i := HandedOutWasFree(ts[1..], runner, if ts[0].claimedBy.None? then budget - 1 else budget, now, o);
      i := i + 1;
    }
  }

  lemma ClaimGood(ts: seq<Ticket>, runner: string, max: nat, now: int)
    requires Good(ts)
    ensures Good(Claimed(ts, runner, max, now).0)
  {
    ExpireGood(ts, now);
    HandOutGood(Expire(ts, now), runner, Batch(max), now);
  }

  // ---- Enqueue accounting ----

  /** Everything an enqueue may do to a good queue. Nothing but the replaced
      queue-ref ticket loses a claim; a full queue refuses only when every ticket
      is claimed; and superseding makes room, so it never evicts as well. */
  lemma EnqueueAccounts(ts: seq<Ticket>, t: Ticket, now: int)
    requires Good(ts)
    ensures
      var live := Expire(ts, now);
      var (r, outcome) := Enqueued(ts, t, now);
      var held := IndexOf(live, t.Key());
      && (outcome.Full? ==> |ts| == CAPACITY && r == live && forall h :: h in live ==> h.claimedBy.Some?)
      && (outcome.AlreadyQueued? ==> held.Some? && r == live)
      && (outcome.Superseded? && held.None? ==>
            r == Kept(live, t) + [t] && outcome.count == |live| - |Kept(live, t)|)
      && (held.Some? && outcome.Superseded? ==> Replaces(live[held.value], t) && r == live[held.value := t])
      && (forall h :: h in live && h.claimedBy.Some? ==>
            h in r || (held.Some? && h == live[held.value] && Replaces(h, t)))
      && (forall h :: h in r ==> h == t || h in live)
      && (outcome.Queued? ==>
            if |ts| < CAPACITY then r == live + [t]
            else FirstUnclaimed(live).Some? && r == Without(live, FirstUnclaimed(live).value) + [t])
  {
    var live := Expire(ts, now);
    var held := IndexOf(live, t.Key());
    if held.Some? {
      forall h | h in live && h != live[held.value]
        ensures h in live[held.value := t]
      {
        var i :| 0 <= i < |live| && live[i] == h;
        assert live[held.value := t][i] == h;
      }
    } else {
      var kept := Kept(live, t);
      if |kept| == |live| {
        NothingGone(live, t);
      }
      if |kept| >= CAPACITY && FirstUnclaimed(kept).Some? {
        EvictionSparesClaims(kept, FirstUnclaimed(kept).value);
      }
    }
  }

  lemma {:induction false} NothingGone(ts: seq<Ticket>, t: Ticket)
    requires |Kept(ts, t)| == |ts|
    ensures Kept(ts, t) == ts
  {
    if ts != [] {
      NothingGone(ts[1..], t);
    }
  }

  lemma EvictionSparesClaims(ts: seq<Ticket>, i: nat)
    requires i < |ts| && ts[i].claimedBy.None?
    ensures forall h :: h in ts && h.claimedBy.Some? ==> h in Without(ts, i)
    ensures forall h :: h in Without(ts, i) ==> h in ts
  {
    forall h | h in ts && h.claimedBy.Some? ensures h in Without(ts, i) {
      var j :| 0 <= j < |ts| && ts[j] == h;
      assert j < i ==> Without(ts, i)[j] == h;
      assert j > i ==> Without(ts, i)[j - 1] == h;
    }
  }

  // ---- Runs ----

  datatype Op =
    | DoEnqueue(ticket: Ticket, now: int)
    | DoClaim(runner: string, max: nat, now: int)
    | DoTake(key: HeadKey, now: int)

  function Apply(ts: seq<Ticket>, op: Op): seq<Ticket> {
    match op
    case DoEnqueue(t, now) => Enqueued(ts, t, now).0
    case DoClaim(runner, max, now) => Claimed(ts, runner, max, now).0
    case DoTake(k, _) => Taken(ts, k).0
  }

  function After(ops: seq<Op>): seq<Ticket> {
    if ops == [] then [] else Apply(After(ops[..|ops| - 1]), ops[|ops| - 1])
  }

  /** A run of the forge: tickets arrive unclaimed and the clock never goes back. */
  predicate Legal(ops: seq<Op>) {
    && (forall i :: 0 <= i < |ops| && ops[i].DoEnqueue? ==> ops[i].ticket.Unclaimed())
    && (forall i, j :: 0 <= i < j < |ops| ==> ops[i].now <= ops[j].now)
  }

  /** Head `k` was handed to a runner by operation `i`. */
  predicate ClaimedBy(ops: seq<Op>, i: nat, k: HeadKey)
    requires i < |ops|
  {
    && ops[i].DoClaim?
    && exists t :: t in Claimed(After(ops[..i]), ops[i].runner, ops[i].max, ops[i].now).1 && t.Key() == k
  }

  /** Operation `i` took `k`, or replaced the queue-ref ticket held for it. */
  predicate Revokes(ops: seq<Op>, i: nat, k: HeadKey)
    requires i < |ops|
  {
    match ops[i]
    case DoTake(key, _) => key == k
    case DoClaim(_, _, _) => false
    case DoEnqueue(t, now) =>
      var live := Expire(After(ops[..i]), now);
      var held := IndexOf(live, k);
      t.Key() == k && held.Some? && Replaces(live[held.value], t)
  }

  lemma {:induction false} AlwaysGood(ops: seq<Op>)
    requires Legal(ops)
    ensures Good(After(ops))
  {
    if ops != [] {
      var before, op := ops[..|ops| - 1], ops[|ops| - 1];
      AlwaysGood(before);
      match op
      case DoEnqueue(t, now) => EnqueueGood(After(before), t, now);
      case DoClaim(runner, max, now) => ClaimGood(After(before), runner, max, now);
      case DoTake(k, _) =>
    }
  }

  /** A claim of `k` at instant `at` is still accounted for: the ticket carries
      it, or the lease has run out by `now`. */
  predicate Accounted(ts: seq<Ticket>, k: HeadKey, at: int, now: int) {
    || now - at > CLAIM_LEASE
    || exists i :: 0 <= i < |ts| && ts[i].Key() == k && ts[i].claimedAt == Some(at)
  }

  lemma AccountedTake(ts: seq<Ticket>, key: HeadKey, i: nat)
    requires i < |ts| && ts[i].Key() != key
    ensures ts[i] in Taken(ts, key).0
  {
    var t := IndexOf(ts, key);
    if t.Some? {
      assert i < t.value ==> Without(ts, t.value)[i] == ts[i];
      assert i > t.value ==> Without(ts, t.value)[i - 1] == ts[i];
    }
  }

  lemma AccountedClaim(ts: seq<Ticket>, runner: string, max: nat, now: int, i: nat)
    requires Good(ts) && i < |ts| && ts[i].claimedAt.Some? && now - ts[i].claimedAt.value <= CLAIM_LEASE
    ensures ts[i] in Claimed(ts, runner, max, now).0
  {
    assert Expire(ts, now)[i] == ts[i];
    ExpireGood(ts, now);
    HandOutGood(Expire(ts, now), runner, Batch(max), now);
    assert Claimed(ts, runner, max, now).0[i] == ts[i];
  }

  lemma AccountedEnqueue(ts: seq<Ticket>, t: Ticket, now: int, i: nat)
    requires Good(ts) && i < |ts| && ts[i].claimedAt.Some? && now - ts[i].claimedAt.value <= CLAIM_LEASE
    requires
      var live := Expire(ts, now);
      var held := IndexOf(live, ts[i].Key());
      !(t.Key() == ts[i].Key() && held.Some? && Replaces(live[held.value], t))
    ensures ts[i] in Enqueued(ts, t, now).0
  {
    var live := Expire(ts, now);
    assert live[i] == ts[i];
    EnqueueAccounts(ts, t, now);
  }

  lemma AccountedStep(ops: seq<Op>, j: nat, k: HeadKey, at: int, now: int)
    requires Legal(ops) && j < |ops| && now <= ops[j].now
    requires Accounted(After(ops[..j]), k, at, now)
    requires !Revokes(ops, j, k)
    ensures Accounted(After(ops[..j + 1]), k, at, ops[j].now)
  {
    var ts, op := After(ops[..j]), ops[j];
    assert ops[..j + 1][..j] == ops[..j];
    AlwaysGood(ops[..j]);
    if op.now - at <= CLAIM_LEASE {
      var i :| 0 <= i < |ts| && ts[i].Key() == k && ts[i].claimedAt == Some(at);
      match op
      case DoTake(key, _) => AccountedTake(ts, key, i);
      case DoClaim(runner, max, now') => AccountedClaim(ts, runner, max, now', i);
      case DoEnqueue(t, now') => AccountedEnqueue(ts, t, now', i);
    }
  }

  lemma {:induction false} AccountedUntil(ops: seq<Op>, i: nat, j: nat, k: HeadKey)
    requires Legal(ops) && i < j <= |ops| && ClaimedBy(ops, i, k)
    requires forall m :: i < m < j ==> !Revokes(ops, m, k)
    ensures Accounted(After(ops[..j]), k, ops[i].now, ops[j - 1].now)
    decreases j
  {
    if j == i + 1 {
      var ts, op := After(ops[..i]), ops[i];
      assert ops[..i + 1][..i] == ops[..i];
      var t :| t in Claimed(ts, op.runner, op.max, op.now).1 && t.Key() == k;
      var _ := HandedOutWasFree(Expire(ts, op.now), op.runner, Batch(op.max), op.now, t);
    } else {
      AccountedUntil(ops, i, j - 1, k);
      AccountedStep(ops, j - 1, k, ops[i].now, ops[j - 2].now);
    }
  }

  /** Main result: no head is handed out twice within a lease, unless its ticket
      was taken or its queue-ref base replaced in between. */
  lemma LeasesKeepApart(ops: seq<Op>, i: nat, j: nat, k: HeadKey)
    requires Legal(ops) && i < j < |ops|
    requires ClaimedBy(ops, i, k) && ClaimedBy(ops, j, k)
    requires forall m :: i < m < j ==> !Revokes(ops, m, k)
    ensures ops[j].now - ops[i].now > CLAIM_LEASE
  {
    AccountedUntil(ops, i, j, k);
    AlwaysGood(ops[..j]);
    var op := ops[j];
    ReclaimNeedsExpiry(After(ops[..j]), op.runner, op.max, op.now, k, ops[i].now, ops[j - 1].now);
  }

  lemma ReclaimNeedsExpiry(ts: seq<Ticket>, runner: string, max: nat, now: int, k: HeadKey, at: int, last: int)
    requires Good(ts) && Accounted(ts, k, at, last) && last <= now
    requires exists t :: t in Claimed(ts, runner, max, now).1 && t.Key() == k
    ensures now - at > CLAIM_LEASE
  {
    ExpireGood(ts, now);
    var live := Expire(ts, now);
    var t :| t in Claimed(ts, runner, max, now).1 && t.Key() == k;
    var free := HandedOutWasFree(live, runner, Batch(max), now, t);
    if held :| 0 <= held < |ts| && ts[held].Key() == k && ts[held].claimedAt == Some(at) {
      assert live[held].Key() == live[free].Key() == k;
      assert held == free;
      assert ts[held].claimedBy.Some?;
    }
  }

  /** Main result: what a report takes, no second report can take, until the
      head is enqueued again. */
  lemma TakenOnce(ops: seq<Op>, i: nat, j: nat, k: HeadKey)
    requires Legal(ops) && i < j <= |ops| && ops[i].DoTake? && ops[i].key == k
    requires forall m :: i < m < j && ops[m].DoEnqueue? ==> ops[m].ticket.Key() != k
    ensures Taken(After(ops[..j]), k).1.None?
  {
    AbsentAfterTake(ops, i, j, k);
  }

  lemma TakeRemoves(ts: seq<Ticket>, op: Op, k: HeadKey)
    requires Good(ts) && op.DoTake? && op.key == k
    ensures Absent(Apply(ts, op), k)
  {
    var at := IndexOf(ts, k);
    if at.Some? {
      WithoutGood(ts, at.value, k);
    }
  }

  lemma GoodUntil(ops: seq<Op>, j: nat)
    requires Legal(ops) && 0 < j <= |ops|
    ensures Good(After(ops[..j - 1]))
    ensures After(ops[..j]) == Apply(After(ops[..j - 1]), ops[j - 1])
  {
    AlwaysGood(ops[..j - 1]);
    assert ops[..j][..j - 1] == ops[..j - 1];
  }

  lemma {:induction false} AbsentAfterTake(ops: seq<Op>, i: nat, j: nat, k: HeadKey)
    requires Legal(ops) && i < j <= |ops| && ops[i].DoTake? && ops[i].key == k
    requires forall m :: i < m < j && ops[m].DoEnqueue? ==> ops[m].ticket.Key() != k
    ensures Absent(After(ops[..j]), k)
    decreases j
  {
    GoodUntil(ops, j);
    if j == i + 1 {
      TakeRemoves(After(ops[..j - 1]), ops[j - 1], k);
    } else {
      AbsentAfterTake(ops, i, j - 1, k);
      AbsentStep(After(ops[..j - 1]), ops[j - 1], k);
    }
  }

  lemma AbsentStep(ts: seq<Ticket>, op: Op, k: HeadKey)
    requires Good(ts) && Absent(ts, k)
    requires op.DoEnqueue? ==> op.ticket.Key() != k
    ensures Absent(Apply(ts, op), k)
  {
    match op
    case DoTake(key, _) =>
      var at := IndexOf(ts, key);
      if at.Some? {
        WithoutGood(ts, at.value, k);
      }
    case DoClaim(runner, max, now) =>
      ExpireGood(ts, now);
      assert Absent(Expire(ts, now), k);
      HandOutGood(Expire(ts, now), runner, Batch(max), now);
    case DoEnqueue(t, now) =>
      ExpireGood(ts, now);
      var live := Expire(ts, now);
      assert Absent(live, k);
      if IndexOf(live, t.Key()).None? {
        KeptGood(live, t);
        var kept := Kept(live, t);
        KeptAbsent(live, t, k);
        var oldest := FirstUnclaimed(kept);
        if oldest.Some? {
          WithoutGood(kept, oldest.value, k);
        }
      }
  }
}
